/**
 The JSON token store: Save filters the map, marshals it and runs the file protocol of JsonSave;
 Load reads the file back. JSON text itself is a parameter: a marshaller and its parser.
 */
module JsonStore {
  import opened Wrappers
  import opened TokenMaps
  import opened FileSystem
  import opened JsonSave

  /** `float64` tells which reals are float64 values: the only expiries the program can hold. */
  datatype Codec = Codec(marshal: TokenMap -> Bytes, unmarshal: Bytes -> Option<TokenMap>, float64: real -> bool)

  predicate Floats(c: Codec, m: TokenMap) {
    forall h | h in m :: c.float64(m[h])
  }

  /** Parsing what was marshalled gives it back, and the JSON text of a map is never empty. */
  ghost predicate Lawful(c: Codec) {
    forall m: TokenMap | Floats(c, m) :: c.unmarshal(c.marshal(m)) == Some(m) && |c.marshal(m)| > 0
  }

  datatype LoadOutcome =
    | Loaded(tokens: TokenMap)
    | ReadFailed
    | Corrupted
    | BackedUpAndFresh
    | BackupFailed

  /** What can go wrong in the system calls of one Save; `written` is how many bytes Write gets out. */
  datatype Faults = Faults(
    mkdirOk: bool, openOk: bool, written: nat, syncOk: bool, renameOk: bool, openDirOk: bool, syncDirOk: bool)
  {
    /** Every call up to the rename works; `size` is how many bytes there are to write. */
    predicate ReachRename(size: nat) {
      mkdirOk && openOk && written >= size && syncOk && renameOk
    }

    predicate None(size: nat) {
      ReachRename(size) && openDirOk && syncDirOk
    }
  }

  /** The state `s` of a Save of `data` begun in `before`, which has renamed and has synced the directory or not. */
  ghost predicate Midway(before: State, s: State, data: Bytes, renamed: bool, done: bool) {
    && Inv(s) && Wanted(s) == data
    && Read(s.disk, TokenFile) == (if renamed then Some(data) else Read(before.disk, TokenFile))
    && s.acked == (if done then |s.contents| - 1 else before.acked)
    && (done ==> s.progress.Idle?)
  }

  lemma MidwayStep(before: State, s: State, e: Event, data: Bytes, renamed: bool, done: bool)
    requires Enabled(s, e) && !e.PowerLoss?
    requires if e.Begin? then Inv(s) && e == Begin(data) && before == s && !renamed && !done
             else Midway(before, s, data, renamed, done)
    ensures Midway(before, Next(s, e), data, renamed || e == RenameOver(true), done || e == SyncDirectory(true))
  {
    InvStep(s, e);
    OnlyRenameChangesTheFile(s, e);
    hide Inv, Read;
  }

  /** `es` are the steps of a Save of `data` from `before` to `s`. */
  ghost predicate Trace(before: State, es: seq<Event>, s: State, data: Bytes) {
    && IsRun(before, es) && s == Run(before, es)
    && |es| > 0 && es[0] == Begin(data) && (forall e | e in es :: !e.PowerLoss?)
  }

  ghost predicate Saving(before: State, es: seq<Event>, s: State, data: Bytes) {
    Trace(before, es, s, data) && Midway(before, s, data, RenameOver(true) in es, SyncDirectory(true) in es)
  }

  lemma TraceStep(before: State, es: seq<Event>, s: State, e: Event, data: Bytes)
    requires Enabled(s, e) && !e.PowerLoss?
    requires if es == [] then e == Begin(data) && before == s else Trace(before, es, s, data)
    ensures Trace(before, es + [e], Next(s, e), data)
  {
    if es == [] {
      assert IsRun(before, []) && Run(before, []) == before;
    }
    OneMore(before, es, e);
  }

  lemma SavingStep(before: State, es: seq<Event>, s: State, e: Event, data: Bytes)
    requires Enabled(s, e) && !e.PowerLoss?
    requires if es == [] then Inv(s) && e == Begin(data) && before == s else !e.Begin? && Saving(before, es, s, data)
    ensures Saving(before, es + [e], Next(s, e), data)
  {
    hide Trace, Midway, Inv, Next, Enabled;
    TraceStep(before, es, s, e, data);
    MidwayStep(before, s, e, data, RenameOver(true) in es, SyncDirectory(true) in es);
    var es' := es + [e];
    assert RenameOver(true) in es' <==> RenameOver(true) in es || e == RenameOver(true);
    assert SyncDirectory(true) in es' <==> SyncDirectory(true) in es || e == SyncDirectory(true);
  }

  /** Which step of Save comes next. */
  function Stage(p: Progress): nat {
    match p
    case Idle => 0
    case Begun => 1
    case Opened(_) => 2
    case Written(_) => 3
    case Synced(_) => 4
    case Renamed => 5
    case DirOpened => 6
  }

  function StageBefore(e: Event): nat {
    match e
    case Begin(_) => 0
    case Open(_) => 1
    case Write(_) => 2
    case Sync(_) => 3
    case RenameOver(_) => 4
    case OpenDir(_) => 5
    case _ => 6
  }

  function StageAfter(e: Event, size: nat): nat {
    match e
    case Begin(_) => 1
    case Open(ok) => if ok then 2 else 0
    case Write(written) => if written >= size then 3 else 0
    case Sync(ok) => if ok then 4 else 0
    case RenameOver(ok) => if ok then 5 else 0
    case OpenDir(ok) => if ok then 6 else 0
    case _ => 0
  }

  lemma StageStep(s: State, e: Event)
    requires |s.contents| > 0 && Stage(s.progress) == StageBefore(e) && !e.PowerLoss?
    ensures Enabled(s, e)
    ensures !e.Begin? ==> Stage(Next(s, e).progress) == StageAfter(e, |Wanted(s)|)
    ensures e.Begin? ==> Stage(Next(s, e).progress) == 1
  {
    hide OpenTmp;
  }

  lemma PerformStep(before: State, es: seq<Event>, s: State, e: Event, data: Bytes)
    requires Stage(s.progress) == StageBefore(e) && !e.PowerLoss?
    requires if es == [] then Inv(s) && e == Begin(data) && before == s else !e.Begin? && Saving(before, es, s, data)
    ensures Enabled(s, e) && Stage(Next(s, e).progress) == StageAfter(e, |data|)
    ensures Saving(before, es + [e], Next(s, e), data)
    ensures e == SyncDirectory(true) ==> OnDisk(Next(s, e), data)
  {
    assert Inv(s) && |s.contents| > 0 && (es == [] || Wanted(s) == data);
    hide Saving, OnDisk, Inv, Next, Enabled, Wanted;
    StageStep(s, e);
    SavingStep(before, es, s, e, data);
    if e == SyncDirectory(true) {
      SyncedIsOnDisk(s);
    }
  }

  class TokenStore {
    const codec: Codec
    const allowRecover: bool
    var fs: State

    ghost predicate Valid()
      reads this
    {
      Inv(fs)
    }

    constructor (codec: Codec, allowRecover: bool, file: Option<Bytes>, stray: Option<Bytes>)
      ensures Valid() && fs == Start(file, stray)
      ensures this.codec == codec && this.allowRecover == allowRecover
    {
      this.codec := codec;
      this.allowRecover := allowRecover;
      fs := Start(file, stray);
      new;
      InvStart(file, stray);
    }

    /** The file as every reader sees it now. */
    function File(): Option<Bytes>
      reads this
    {
      Read(fs.disk, TokenFile)
    }

    /** The loop of Save and of Load that copies the unexpired entries. */
    method Unexpired(tokens: TokenMap, now: int) returns (validTokens: TokenMap)
      ensures validTokens == Live(tokens, now)
    {
      validTokens := map[];
      var rest := tokens.Keys;
      while rest != {}
        invariant rest <= tokens.Keys
        invariant validTokens == map h | h in tokens && h !in rest && tokens[h] > now as real :: tokens[h]
        decreases |rest|
      {
        var k :| k in rest;
        if tokens[k] > now as real {
          validTokens := validTokens[k := tokens[k]];
        }
        rest := rest - {k};
      }
    }

    /** One step of the file protocol, of the Save that has made the steps `es` so far. */
    method Perform(e: Event, ghost before: State, ghost es: seq<Event>,
                   ghost data: Bytes) returns (ghost es': seq<Event>)
      requires Stage(fs.progress) == StageBefore(e) && !e.PowerLoss?
      requires if es == [] then Inv(fs) && e == Begin(data) && before == fs else !e.Begin? && Saving(before, es, fs,
               data)
      modifies this
      ensures Stage(fs.progress) == StageAfter(e, |data|)
      ensures es' == es + [e] && Saving(before, es', fs, data)
      ensures e == SyncDirectory(true) ==> OnDisk(fs, data)
    {
      hide Saving, OnDisk, Next, Enabled;
      PerformStep(before, es, fs, e, data);
      es' := es + [e];
      fs := Next(fs, e);
    }

    /** The part of Save that writes and syncs the temporary file. */
    method WriteTemporary(data: Bytes, faults: Faults) returns (ok: bool, ghost es: seq<Event>)
      requires Valid() && fs.progress.Idle?
      modifies this
      ensures Stage(fs.progress) == (if ok then 4 else 0) && Saving(old(fs), es, fs, data) && es != []
      ensures ok <==> faults.mkdirOk && faults.openOk && faults.written >= |data| && faults.syncOk
      ensures RenameOver(true) !in es && SyncDirectory(true) !in es
    {
      hide Saving, OnDisk;
      ok := false;
      ghost var before := fs;
      es := Perform(Begin(data), before, [], data);
      if !faults.mkdirOk || !faults.openOk {
        es := Perform(Open(false), before, es, data);
        return;
      }
      es := Perform(Open(true), before, es, data);
      es := Perform(Write(faults.written), before, es, data);
      if faults.written < |data| {
        return;
      }
      es := Perform(Sync(faults.syncOk), before, es, data);
      ok := faults.syncOk;
    }

    /** The part of Save from making the directory to syncing it. */
    method Replace(data: Bytes, faults: Faults) returns (ok: bool, ghost es: seq<Event>)
      requires Valid() && fs.progress.Idle?
      modifies this
      ensures fs.progress.Idle? && Saving(old(fs), es, fs, data)
      ensures ok <==> faults.None(|data|)
      ensures RenameOver(true) in es <==> faults.ReachRename(|data|)
      ensures SyncDirectory(true) in es <==> ok
      ensures ok ==> OnDisk(fs, data)
    {
      hide Saving, OnDisk;
      ghost var before := fs;
      ok, es := WriteTemporary(data, faults);
      if !ok {
        return;
      }
      ok := false;
      es := Perform(RenameOver(faults.renameOk), before, es, data);
      if !faults.renameOk {
        return;
      }
      es := Perform(OpenDir(faults.openDirOk), before, es, data);
      if !faults.openDirOk {
        return;
      }
      es := Perform(SyncDirectory(faults.syncDirOk), before, es, data);
      ok := faults.syncDirOk;
    }

    /**
     Save returns nil exactly when no call fails, and then the file holds exactly the unexpired entries
     and every power loss keeps them. The file is replaced exactly when every call up to the rename
     works; a Save that fails before leaves it as it was.
     */
    method Save(tokens: TokenMap, now: int, faults: Faults) returns (ok: bool, ghost es: seq<Event>)
      requires Valid() && fs.progress.Idle?
      modifies this
      ensures Valid() && fs.progress.Idle?
      ensures IsRun(old(fs), es) && fs == Run(old(fs), es)
      ensures |es| > 0 && es[0] == Begin(codec.marshal(Live(tokens, now)))
      ensures forall e | e in es :: !e.PowerLoss?
      ensures ok <==> faults.None(|codec.marshal(Live(tokens, now))|)
      ensures RenameOver(true) in es <==> faults.ReachRename(|codec.marshal(Live(tokens, now))|)
      ensures File() ==
              if faults.ReachRename(|codec.marshal(Live(tokens, now))|) then Some(codec.marshal(Live(tokens, now)))
              else old(File())
      ensures ok ==> OnDisk(fs, codec.marshal(Live(tokens, now)))
      ensures fs.acked == if ok then |fs.contents| - 1 else old(fs.acked)
    {
      var validTokens := Unexpired(tokens, now);
      ok, es := Replace(codec.marshal(validTokens), faults);
    }

    /** Load: an absent or empty file is an empty map; text that does not parse is an error, or moved aside. */
    method Load(now: int, readOk: bool, backupOk: bool) returns (r: LoadOutcome)
      ensures r == LoadOf(codec, File(), now, allowRecover, readOk, backupOk)
      ensures r.Loaded? <==> File() == None || (readOk && (File() == Some([]) || codec.unmarshal(File().value).Some?))
      ensures r.Loaded? && File().Some? && |File().value| > 0 ==>
                var m := codec.unmarshal(File().value).value;
                r.tokens == map h | h in m && m[h] > now as real :: m[h]
      ensures r.Loaded? && (File() == None || File() == Some([])) ==> r.tokens == map[]
      ensures r == ReadFailed <==> File().Some? && !readOk
      ensures !r.Loaded? && r != ReadFailed ==>
                r == if !allowRecover then Corrupted else if backupOk then BackedUpAndFresh else BackupFailed
    {
      var file := File();
      if file.None? {
        return Loaded(map[]);
      }
      if !readOk {
        return ReadFailed;
      }
      if |file.value| == 0 {
        return Loaded(map[]);
      }
      var tokens := codec.unmarshal(file.value);
      if tokens.None? {
        if allowRecover {
          return if backupOk then BackedUpAndFresh else BackupFailed;
        }
        return Corrupted;
      }
      var validTokens := Unexpired(tokens.value, now);
      return Loaded(validTokens);
    }
  }

  /** What Load answers for a file. */
  function LoadOf(c: Codec, file: Option<Bytes>, now: int, allowRecover: bool, readOk: bool,
                  backupOk: bool): LoadOutcome {
    if file.None? then Loaded(map[])
    else if !readOk then ReadFailed
    else if |file.value| == 0 then Loaded(map[])
    else match c.unmarshal(file.value)
      case Some(m) => Loaded(Live(m, now))
      case None => if !allowRecover then Corrupted else if backupOk then BackedUpAndFresh else BackupFailed
  }

  // ----- Load after any history -----

  /** The file holds the map `m`: absent or empty counts as the empty map. */
  predicate Encodes(c: Codec, file: Option<Bytes>, m: TokenMap) {
    if file.None? || |file.value| == 0 then m == map[] else Floats(c, m) && file.value == c.marshal(m)
  }

  ghost predicate Readable(c: Codec, file: Option<Bytes>) {
    exists m :: Encodes(c, file, m)
  }

  /** Every Save in the run writes a marshalled map, as Save does. */
  ghost predicate SavesMaps(c: Codec, es: seq<Event>) {
    forall e | e in es && e.Begin? :: Readable(c, Some(e.data))
  }

  lemma {:induction false} ContentsReadable(c: Codec, s: State, es: seq<Event>)
    requires IsRun(s, es) && SavesMaps(c, es)
    requires forall k | 0 <= k < |s.contents| :: Readable(c, s.contents[k])
    ensures forall k | 0 <= k < |Run(s, es).contents| :: Readable(c, Run(s, es).contents[k])
    decreases |es|
  {
    if |es| > 0 {
      var before := es[..|es| - 1];
      assert es[|es| - 1] in es;
      assert forall e | e in before :: e in es;
      LastStep(s, es);
      ContentsReadable(c, s, before);
    }
  }

  /**
   After any run of Saves, failures and power losses that starts from a readable file, and after one
   more power loss, Load never reports corruption: it gives the unexpired entries of the map of one
   whole Save (or of the initial file) no older than the last Save that returned nil.
   */
  lemma LoadAfterAnyHistory(c: Codec, file: Option<Bytes>, stray: Option<Bytes>, es: seq<Event>,
                            kept: nat -> bool, garbage: nat -> Bytes, now: int, allowRecover: bool, backupOk: bool)
    returns (k: nat, m: TokenMap)
    requires Lawful(c) && Readable(c, file)
    requires IsRun(Start(file, stray), es) && SavesMaps(c, es)
    ensures var s := Run(Start(file, stray), es);
            && s.acked <= k < |s.contents| && Encodes(c, s.contents[k], m)
            && LoadOf(c, Recovered(s, kept, garbage), now, allowRecover, true, backupOk) == Loaded(Live(m, now))
  {
    hide IsRun, Run, Recovered;
    var now', later := NeverTornNeverStale(file, stray, es, kept, garbage);
    ContentsReadable(c, Start(file, stray), es);
    var s := Run(Start(file, stray), es);
    k := later;
    assert Readable(c, s.contents[k]);
    m :| Encodes(c, s.contents[k], m);
    assert Live(map[], now) == map[];
  }

  /** Save then power loss then Load, with nothing in between: exactly the entries still unexpired. */
  lemma SaveSurvivesPowerLoss(c: Codec, s: State, tokens: TokenMap, saved: int, kept: nat -> bool,
                              garbage: nat -> Bytes,
                              now: int, allowRecover: bool, backupOk: bool)
    requires Lawful(c) && Floats(c, tokens) && Inv(s) && OnDisk(s, c.marshal(Live(tokens, saved))) && saved <= now
    ensures LoadOf(c, Recovered(s, kept, garbage), now, allowRecover, true, backupOk) == Loaded(Live(tokens, now))
    ensures Live(tokens, now) == SaveThenLoad(JsonFile, tokens, saved, now)
  {
    OnDiskRecovered(s, c.marshal(Live(tokens, saved)), kept, garbage);
    LiveLater(tokens, saved, now);
  }
}
