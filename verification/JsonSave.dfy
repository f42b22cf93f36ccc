/**
 The JSON store's Save as a protocol of file-system steps that can fail or lose power anywhere: open
 the temporary file, write, sync, rename it over the token file, open the directory, sync it.
 */
module JsonSave {
  import opened Wrappers
  import opened FileSystem

  /** How far the Save in progress has come; `i` is the inode of its temporary file. */
  datatype Progress = Idle | Begun | Opened(i: nat) | Written(i: nat) | Synced(i: nat) | Renamed | DirOpened

  /**
   `contents[0]` is the token file before the first Save (None when absent) and `contents[k]` what
   the k-th Save set out to write. `acked` is the last Save that returned nil. `owner` says which
   Save last opened an inode, and `floor` is the oldest content that can still come back.
   */
  datatype State = State(
    disk: Disk,
    progress: Progress,
    contents: seq<Option<Bytes>>,
    acked: nat,
    owner: map<nat, nat>,
    floor: nat)

  datatype Event =
    | Begin(data: Bytes)
    | Open(ok: bool)
    | Write(written: nat)
    | Sync(ok: bool)
    | RenameOver(ok: bool)
    | OpenDir(ok: bool)
    | SyncDirectory(ok: bool)
    | PowerLoss(kept: nat -> bool, garbage: nat -> Bytes)

  /** Before the first Save: any token file that is safely on the disk, or none; perhaps a stray temporary file. */
  function Start(file: Option<Bytes>, stray: Option<Bytes>): State {
    var tokens := if file.Some? then map[0 := File(file.value, true)] else map[];
    var tmp := if stray.Some? then map[1 := File(stray.value, true)] else map[];
    var names :=
      (if file.Some? then map[TokenFile := 0] else map[]) + (if stray.Some? then map[TmpFile := 1] else map[]);
    State(Disk(tokens + tmp, names, [], 2), Idle, [file], 0, if file.Some? then map[0 := 0] else map[], 0)
  }

  predicate Enabled(s: State, e: Event) {
    && |s.contents| > 0
    && match e
       case Begin(_) => s.progress.Idle?
       case Open(_) => s.progress.Begun?
       case Write(_) => s.progress.Opened?
       case Sync(_) => s.progress.Written?
       case RenameOver(_) => s.progress.Synced?
       case OpenDir(_) => s.progress.Renamed?
       case SyncDirectory(_) => s.progress.DirOpened?
       case PowerLoss(_, _) => true
  }

  /** What the Save in progress writes. */
  function Wanted(s: State): Bytes {
    if |s.contents| > 0 && s.contents[|s.contents| - 1].Some? then s.contents[|s.contents| - 1].value else []
  }

  function AfterOpen(s: State): State
    requires |s.contents| > 0
  {
    var (d, i) := OpenTmp(s.disk);
    s.(disk := d, progress := Opened(i), owner := s.owner[i := |s.contents| - 1])
  }

  function AfterWrite(s: State, i: nat, written: nat): State {
    if written >= |Wanted(s)| then s.(disk := WriteFile(s.disk, i, Wanted(s)), progress := Written(i))
    else s.(disk := WriteFile(s.disk, i, Wanted(s)[..written]), progress := Idle)
  }

  function Next(s: State, e: Event): State
    requires Enabled(s, e)
  {
    match e
    case Begin(data) => s.(contents := s.contents + [Some(data)], progress := Begun)
    case Open(ok) => if ok then AfterOpen(s) else s.(progress := Idle)
    case Write(written) => AfterWrite(s, s.progress.i, written)
    case Sync(ok) =>
      if ok then s.(disk := SyncFile(s.disk, s.progress.i), progress := Synced(s.progress.i)) else s.(progress := Idle)
    case RenameOver(ok) =>
      if ok then s.(disk := RenameTmp(s.disk, s.progress.i), progress := Renamed) else s.(progress := Idle)
    case OpenDir(ok) => s.(progress := if ok then DirOpened else Idle)
    case SyncDirectory(ok) =>
      if ok then
        s.(disk := SyncDir(s.disk), progress := Idle, acked := |s.contents| - 1, floor := |s.contents| - 1)
      else s.(progress := Idle)
    case PowerLoss(kept, garbage) =>
      var d := Crash(s.disk, kept, garbage);
      s.(disk := d, progress := Idle,
         floor := if TokenFile in d.durable
             && d.durable[TokenFile] in s.owner then s.owner[d.durable[TokenFile]] else 0)
  }

  /** The state after `es`, when every event of `es` is enabled in turn. */
  function Exec(s: State, es: seq<Event>): Option<State>
    decreases |es|
  {
    if |es| == 0 then Some(s)
    else
      match Exec(s, es[..|es| - 1])
      case None => None
      case Some(t) => if Enabled(t, es[|es| - 1]) then Some(Next(t, es[|es| - 1])) else None
  }

  predicate IsRun(s: State, es: seq<Event>) {
    Exec(s, es).Some?
  }

  function Run(s: State, es: seq<Event>): State
    requires IsRun(s, es)
  {
    Exec(s, es).value
  }

  lemma LastStep(s: State, es: seq<Event>)
    requires |es| > 0 && IsRun(s, es)
    ensures IsRun(s, es[..|es| - 1]) && Enabled(Run(s, es[..|es| - 1]), es[|es| - 1])
    ensures Run(s, es) == Next(Run(s, es[..|es| - 1]), es[|es| - 1])
  {
  }

  lemma OneMore(s: State, es: seq<Event>, e: Event)
    requires IsRun(s, es) && Enabled(Run(s, es), e)
    ensures IsRun(s, es + [e]) && Run(s, es + [e]) == Next(Run(s, es), e)
  {
    assert (es + [e])[..|es|] == es;
  }

  // ----- The invariant -----

  /** An inode the token file can name after a crash now. */
  predicate Candidate(d: Disk, i: nat) {
    (TokenFile in d.durable && d.durable[TokenFile] == i) || Rename(i) in d.pending
  }

  /** Inode `i` safely holds the complete content of a Save no older than `floor`. */
  predicate Settled(files: map<nat, File>, contents: seq<Option<Bytes>>, owner: map<nat, nat>, floor: nat, i: nat) {
    && i in files && files[i].synced
    && i in owner && floor <= owner[i] < |contents|
    && contents[owner[i]] == Some(files[i].data)
  }

  ghost predicate AllSettled(s: State) {
    forall i: nat | Candidate(s.disk, i) :: Settled(s.disk.files, s.contents, s.owner, s.floor, i)
  }

  predicate Apart(dir: map<Name, nat>) {
    TokenFile in dir && TmpFile in dir ==> dir[TokenFile] != dir[TmpFile]
  }

  /** Whatever part of the pending updates survives, the two names never share an inode. */
  ghost predicate NeverShared(d: Disk) {
    forall kept: nat -> bool :: Apart(Apply(d.durable, d.pending, kept))
  }

  predicate TmpIsNoCandidate(d: Disk) {
    TmpFile in View(d) ==> !Candidate(d, View(d)[TmpFile])
  }

  predicate InodesBelow(d: Disk) {
    && (forall n | n in d.durable :: d.durable[n] < d.next)
    && (forall op | op in d.pending :: op.inode < d.next)
  }

  predicate DiskOk(d: Disk) {
    InodesBelow(d) && TmpIsNoCandidate(d)
  }

  predicate Holds(files: map<nat, File>, i: nat, data: Bytes) {
    i in files && files[i].data == data
  }

  predicate Working(d: Disk, owner: map<nat, nat>, i: nat, latest: nat) {
    TmpFile in View(d) && View(d)[TmpFile] == i && i in owner && owner[i] == latest
  }

  predicate ProgressOk(s: State)
    requires |s.contents| > 0
  {
    var latest := |s.contents| - 1;
    && (s.progress.Idle? || s.contents[latest].Some?)
    && match s.progress
       case Idle => true
       case Begun => true
       case Opened(i) => Working(s.disk, s.owner, i, latest)
       case Written(i) => Working(s.disk, s.owner, i, latest) && Holds(s.disk.files, i, Wanted(s))
       case Synced(i) => Working(s.disk, s.owner, i, latest) && Holds(s.disk.files, i, Wanted(s))
           && s.disk.files[i].synced
       case _ =>
         && TokenFile in View(s.disk) && View(s.disk)[TokenFile] in s.owner
         && s.owner[View(s.disk)[TokenFile]] == latest
  }

  predicate AbsentOk(s: State)
    requires |s.contents| > 0
  {
    TokenFile !in s.disk.durable ==> s.floor == 0 && s.contents[0].None?
  }

  ghost predicate Inv(s: State) {
    && |s.contents| > 0 && s.acked <= s.floor < |s.contents|
    && AllSettled(s) && NeverShared(s.disk) && DiskOk(s.disk) && AbsentOk(s) && ProgressOk(s)
  }

  lemma InvStart(file: Option<Bytes>, stray: Option<Bytes>)
    ensures Inv(Start(file, stray))
  {
    var s := Start(file, stray);
    forall kept: nat -> bool
      ensures Apart(Apply(s.disk.durable, s.disk.pending, kept))
    {
    }
  }

  lemma InvBegin(s: State, data: Bytes)
    requires Inv(s) && s.progress.Idle?
    ensures Inv(Next(s, Begin(data)))
  {
    var t := Next(s, Begin(data));
    assert t.disk == s.disk;
    forall i: nat | Candidate(t.disk, i)
      ensures Settled(t.disk.files, t.contents, t.owner, t.floor, i)
    {
      assert Settled(s.disk.files, s.contents, s.owner, s.floor, i);
    }
  }

  lemma SettledElsewhere(s: State, j: nat, f: File, latest: nat)
    requires AllSettled(s) && !Candidate(s.disk, j)
    ensures forall i: nat | Candidate(s.disk, i) ::
              Settled(s.disk.files[j := f], s.contents, s.owner, s.floor, i) &&
              Settled(s.disk.files[j := f], s.contents, s.owner[j := latest], s.floor, i)
  {
    forall i: nat | Candidate(s.disk, i)
      ensures Settled(s.disk.files[j := f], s.contents, s.owner, s.floor, i)
      ensures Settled(s.disk.files[j := f], s.contents, s.owner[j := latest], s.floor, i)
    {
      assert Settled(s.disk.files, s.contents, s.owner, s.floor, i);
    }
  }

  /** Adding a link to a new inode. */
  lemma LinkKeeps(d: Disk)
    requires NeverShared(d) && DiskOk(d)
    ensures var e := d.(pending := d.pending + [Link(d.next)], next := d.next + 1);
            && NeverShared(e) && DiskOk(e) && !Candidate(d, d.next)
            && (forall i: nat :: Candidate(e, i) <==> Candidate(d, i))
            && TmpFile in View(e) && View(e)[TmpFile] == d.next
  {
    var e := d.(pending := d.pending + [Link(d.next)], next := d.next + 1);
    assert !Candidate(d, d.next);
    forall kept: nat -> bool
      ensures Apart(Apply(e.durable, e.pending, kept))
    {
      ApplySnoc(d.durable, d.pending, Link(d.next), kept);
      ApplyNames(d.durable, d.pending, kept);
      assert Apart(Apply(d.durable, d.pending, kept));
    }
    ApplySnoc(d.durable, d.pending, Link(d.next), Always);
  }

  /** The directory part of the invariant does not look at the files. */
  lemma SameDirectory(d: Disk, e: Disk)
    requires NeverShared(d) && DiskOk(d)
    requires e.durable == d.durable && e.pending == d.pending && e.next == d.next
    ensures NeverShared(e) && DiskOk(e) && View(e) == View(d)
    ensures forall i: nat :: Candidate(e, i) <==> Candidate(d, i)
  {
    forall kept: nat -> bool
      ensures Apart(Apply(e.durable, e.pending, kept))
    {
      assert Apart(Apply(d.durable, d.pending, kept));
    }
  }

  lemma TmpSafe(d: Disk)
    requires DiskOk(d) && TmpFile in View(d)
    ensures !Candidate(d, View(d)[TmpFile])
  {
  }

  lemma InvOpenAgain(s: State)
    requires Inv(s) && s.progress.Begun? && TmpFile in View(s.disk)
    ensures Inv(AfterOpen(s))
  {
    hide NeverShared, DiskOk, View, Candidate;
    var t := AfterOpen(s);
    assert !Candidate(s.disk, View(s.disk)[TmpFile]) by { TmpSafe(s.disk); }
    SameDirectory(s.disk, t.disk);
    SettledElsewhere(s, View(s.disk)[TmpFile], File([], false), |s.contents| - 1);
  }

  lemma InvOpenNew(s: State)
    requires Inv(s) && s.progress.Begun? && TmpFile !in View(s.disk)
    ensures Inv(AfterOpen(s))
  {
    hide NeverShared, DiskOk, View, Candidate;
    var t := AfterOpen(s);
    var e := s.disk.(pending := s.disk.pending + [Link(s.disk.next)], next := s.disk.next + 1);
    LinkKeeps(s.disk);
    SameDirectory(e, t.disk);
    SettledElsewhere(s, s.disk.next, File([], false), |s.contents| - 1);
  }

  /** Changing the data of the temporary file disturbs nothing that a crash can bring back. */
  lemma InvFile(s: State, i: nat, f: File, p: Progress)
    requires Inv(s) && Working(s.disk, s.owner, i, |s.contents| - 1) && s.contents[|s.contents| - 1].Some?
    requires p.Idle? || (p == Written(i) && f.data == Wanted(s)) || (p == Synced(i) && f.data == Wanted(s) && f.synced)
    ensures Inv(s.(disk := s.disk.(files := s.disk.files[i := f]), progress := p))
  {
    var t := s.(disk := s.disk.(files := s.disk.files[i := f]), progress := p);
    SettledElsewhere(s, i, f, |s.contents| - 1);
    SameDirectory(s.disk, t.disk);
  }

  /** A Save that stops, or a directory that gets opened, changes no file. */
  lemma InvProgress(s: State, p: Progress)
    requires Inv(s) && (p.Idle? || (s.progress.Renamed? && p.DirOpened?))
    ensures Inv(s.(progress := p))
  {
  }

  /** Renaming the temporary file over the token file. */
  lemma RenameKeeps(d: Disk, i: nat)
    requires NeverShared(d) && DiskOk(d) && i < d.next
    ensures var e := d.(pending := d.pending + [Rename(i)]);
            && NeverShared(e) && DiskOk(e)
            && (forall j: nat :: Candidate(e, j) <==> Candidate(d, j) || j == i)
            && TokenFile in View(e) && View(e)[TokenFile] == i && TmpFile !in View(e)
  {
    var e := d.(pending := d.pending + [Rename(i)]);
    forall kept: nat -> bool
      ensures Apart(Apply(e.durable, e.pending, kept))
    {
      ApplySnoc(d.durable, d.pending, Rename(i), kept);
      assert Apart(Apply(d.durable, d.pending, kept));
    }
    ApplySnoc(d.durable, d.pending, Rename(i), Always);
  }

  lemma TmpBelow(d: Disk)
    requires DiskOk(d) && TmpFile in View(d)
    ensures View(d)[TmpFile] < d.next
  {
    ApplyNames(d.durable, d.pending, Always);
  }

  lemma InvRename(s: State)
    requires Inv(s) && s.progress.Synced?
    ensures Inv(Next(s, RenameOver(true)))
  {
    hide NeverShared, DiskOk, View, Candidate;
    var i := s.progress.i;
    var t := Next(s, RenameOver(true));
    TmpBelow(s.disk);
    RenameKeeps(s.disk, i);
    forall j: nat | Candidate(t.disk, j)
      ensures Settled(t.disk.files, t.contents, t.owner, t.floor, j)
    {
      if j != i {
        assert Settled(s.disk.files, s.contents, s.owner, s.floor, j);
      }
    }
  }

  /** A directory whose names a crash or a sync has made final. */
  lemma FinalDirectory(d: Disk, kept: nat -> bool, files: map<nat, File>)
    requires NeverShared(d) && DiskOk(d)
    ensures var e := Disk(files, Apply(d.durable, d.pending, kept), [], d.next);
            && NeverShared(e) && DiskOk(e) && (forall i: nat | Candidate(e, i) :: Candidate(d, i))
            && (TokenFile in d.durable ==> TokenFile in e.durable)
            && View(e) == e.durable
  {
    ApplyNames(d.durable, d.pending, kept);
    var e := Disk(files, Apply(d.durable, d.pending, kept), [], d.next);
    assert Apart(e.durable);
    assert InodesBelow(e) by {
      assert TokenFile in e.durable ==> e.durable[TokenFile] < d.next;
      assert TmpFile in e.durable ==> e.durable[TmpFile] < d.next;
      forall n | n in e.durable ensures e.durable[n] < e.next {
        assert n == TokenFile || n == TmpFile;
      }
    }
    forall k: nat -> bool ensures Apart(Apply(e.durable, e.pending, k)) {
    }
  }

  lemma InvSyncDirectory(s: State)
    requires Inv(s) && s.progress.DirOpened?
    ensures Inv(Next(s, SyncDirectory(true)))
  {
    var t := Next(s, SyncDirectory(true));
    FinalDirectory(s.disk, Always, s.disk.files);
    forall i: nat | Candidate(t.disk, i)
      ensures Settled(t.disk.files, t.contents, t.owner, t.floor, i)
    {
      assert Settled(s.disk.files, s.contents, s.owner, s.floor, i);
    }
  }

  lemma InvPowerLoss(s: State, kept: nat -> bool, garbage: nat -> Bytes)
    requires Inv(s)
    ensures Inv(Next(s, PowerLoss(kept, garbage)))
    ensures s.floor <= Next(s, PowerLoss(kept, garbage)).floor
  {
    var t := Next(s, PowerLoss(kept, garbage));
    FinalDirectory(s.disk, kept, t.disk.files);
    forall i: nat | Candidate(t.disk, i)
      ensures Settled(t.disk.files, t.contents, t.owner, t.floor, i) && s.floor <= s.owner[i]
    {
      assert Settled(s.disk.files, s.contents, s.owner, s.floor, i);
    }
    if TokenFile in t.disk.durable {
      assert Candidate(t.disk, t.disk.durable[TokenFile]);
    }
  }

  /** Every step, failed or not, keeps the invariant, and never lowers what is acknowledged or recoverable. */
  lemma InvStep(s: State, e: Event)
    requires Inv(s) && Enabled(s, e)
    ensures Inv(Next(s, e))
    ensures s.acked <= Next(s, e).acked && s.floor <= Next(s, e).floor
    ensures s.contents <= Next(s, e).contents
  {
    hide AllSettled, NeverShared, DiskOk, AbsentOk;
    match e
    case Begin(data) => InvBegin(s, data);
    case Open(ok) =>
      if !ok { InvProgress(s, Idle); }
      else if TmpFile in View(s.disk) { InvOpenAgain(s); }
      else { InvOpenNew(s); }
    case Write(written) =>
      if written >= |Wanted(s)| { InvFile(s, s.progress.i, File(Wanted(s), false), Written(s.progress.i)); }
      else { InvFile(s, s.progress.i, File(Wanted(s)[..written], false), Idle); }
    case Sync(ok) =>
      if ok { InvFile(s, s.progress.i, File(Wanted(s), true), Synced(s.progress.i)); } else { InvProgress(s, Idle); }
    case RenameOver(ok) => if ok { InvRename(s); } else { InvProgress(s, Idle); }
    case OpenDir(ok) => InvProgress(s, if ok then DirOpened else Idle);
    case SyncDirectory(ok) => if ok { InvSyncDirectory(s); } else { InvProgress(s, Idle); }
    case PowerLoss(kept, garbage) => InvPowerLoss(s, kept, garbage);
  }

  lemma {:induction false} InvRun(file: Option<Bytes>, stray: Option<Bytes>, es: seq<Event>)
    requires IsRun(Start(file, stray), es)
    ensures Inv(Run(Start(file, stray), es))
    decreases |es|
  {
    if |es| == 0 {
      InvStart(file, stray);
    } else {
      InvRun(file, stray, es[..|es| - 1]);
      InvStep(Run(Start(file, stray), es[..|es| - 1]), es[|es| - 1]);
    }
  }

  // ----- What is promised -----

  /** What Load finds at the token file's path when the machine comes back. */
  function Recovered(s: State, kept: nat -> bool, garbage: nat -> Bytes): Option<Bytes> {
    Read(Crash(s.disk, kept, garbage), TokenFile)
  }

  predicate IsContent(s: State, k: nat, file: Option<Bytes>) {
    s.acked <= k < |s.contents| && s.contents[k] == file
  }

  lemma ContentOfDirectory(s: State, kept: nat -> bool, files: map<nat, File>) returns (k: nat)
    requires Inv(s)
    requires forall i | i in s.disk.files && s.disk.files[i].synced ::
               i in files && files[i].data == s.disk.files[i].data
    ensures IsContent(s, k, ReadIn(files, Apply(s.disk.durable, s.disk.pending, kept), TokenFile)) && s.floor <= k
    ensures var dir := Apply(s.disk.durable, s.disk.pending, kept);
            TokenFile in dir ==> dir[TokenFile] in s.owner && k == s.owner[dir[TokenFile]]
  {
    var dir := Apply(s.disk.durable, s.disk.pending, kept);
    ApplyNames(s.disk.durable, s.disk.pending, kept);
    if TokenFile in dir {
      assert Candidate(s.disk, dir[TokenFile]);
      assert Settled(s.disk.files, s.contents, s.owner, s.floor, dir[TokenFile]);
      k := s.owner[dir[TokenFile]];
    } else {
      k := 0;
    }
  }

  lemma ContentNow(s: State) returns (k: nat)
    requires Inv(s)
    ensures IsContent(s, k, Read(s.disk, TokenFile)) && s.floor <= k
  {
    k := ContentOfDirectory(s, Always, s.disk.files);
  }

  lemma ContentRecovered(s: State, kept: nat -> bool, garbage: nat -> Bytes) returns (k: nat)
    requires Inv(s)
    ensures IsContent(s, k, Recovered(s, kept, garbage)) && s.floor <= k
  {
    k := ContentOfDirectory(s, kept, Crash(s.disk, kept, garbage).files);
  }

  /**
   Over any sequence of Saves with failures and power losses anywhere, the token file is, both
   before and after a further power loss, the complete content of one Save (or the initial file)
   that is no older than the last Save that returned nil. A half-written file is never found there.
   */
  lemma NeverTornNeverStale(file: Option<Bytes>, stray: Option<Bytes>, es: seq<Event>,
                            kept: nat -> bool, garbage: nat -> Bytes)
    returns (now: nat, later: nat)
    requires IsRun(Start(file, stray), es)
    ensures IsContent(Run(Start(file, stray), es), now, Read(Run(Start(file, stray), es).disk, TokenFile))
    ensures IsContent(Run(Start(file, stray), es), later, Recovered(Run(Start(file, stray), es), kept, garbage))
  {
    hide Inv, Recovered, Read, IsContent;
    InvRun(file, stray, es);
    now := ContentNow(Run(Start(file, stray), es));
    later := ContentRecovered(Run(Start(file, stray), es), kept, garbage);
  }

  /** What the disk makes of unsynced bytes never matters: a leftover temporary file is never read. */
  lemma UnsyncedBytesNeverRead(file: Option<Bytes>, stray: Option<Bytes>, es: seq<Event>,
                               kept: nat -> bool, garbage: nat -> Bytes, garbage': nat -> Bytes)
    requires IsRun(Start(file, stray), es)
    ensures var s := Run(Start(file, stray), es); Recovered(s, kept, garbage) == Recovered(s, kept, garbage')
  {
    InvRun(file, stray, es);
    var s := Run(Start(file, stray), es);
    var k := ContentOfDirectory(s, kept, Crash(s.disk, kept, garbage).files);
    var k' := ContentOfDirectory(s, kept, Crash(s.disk, kept, garbage').files);
    ApplyNames(s.disk.durable, s.disk.pending, kept);
  }

  predicate Moves(e: Event) {
    e == RenameOver(true) || e.PowerLoss?
  }

  lemma ReadKeptByTmpWrite(s: State, i: nat, f: File)
    requires Inv(s) && !Candidate(s.disk, i)
    ensures Read(s.disk.(files := s.disk.files[i := f]), TokenFile) == Read(s.disk, TokenFile)
  {
    ApplyNames(s.disk.durable, s.disk.pending, Always);
    if TokenFile in View(s.disk) {
      assert Candidate(s.disk, View(s.disk)[TokenFile]);
    }
  }

  lemma ReadKeptByOpen(s: State)
    requires Inv(s)
    ensures Read(OpenTmp(s.disk).0, TokenFile) == Read(s.disk, TokenFile)
  {
    if TmpFile in View(s.disk) {
      ReadKeptByTmpWrite(s, View(s.disk)[TmpFile], File([], false));
    } else {
      ApplySnoc(s.disk.durable, s.disk.pending, Link(s.disk.next), Always);
      assert !Candidate(s.disk, s.disk.next);
      ReadKeptByTmpWrite(s, s.disk.next, File([], false));
    }
  }

  /** While the machine stays up, the rename alone changes the token file, and it brings in the whole new content. */
  lemma OnlyRenameChangesTheFile(s: State, e: Event)
    requires Inv(s) && Enabled(s, e) && !e.PowerLoss?
    ensures Read(Next(s, e).disk, TokenFile) ==
            if e == RenameOver(true) then Some(Wanted(s)) else Read(s.disk, TokenFile)
  {
    hide AllSettled, NeverShared, DiskOk, AbsentOk;
    match e
    case Open(ok) => ReadKeptByOpen(s);
    case Write(written) =>
      TmpSafe(s.disk);
      ReadKeptByTmpWrite(s, s.progress.i, Next(s, e).disk.files[s.progress.i]);
    case Sync(ok) =>
      if ok {
        TmpSafe(s.disk);
        ReadKeptByTmpWrite(s, s.progress.i, File(Wanted(s), true));
      }
    case RenameOver(ok) =>
      if ok { ApplySnoc(s.disk.durable, s.disk.pending, Rename(s.progress.i), Always); }
    case _ =>
  }

  /** A Save that stops before its rename, however it stops, leaves the token file as it was. */
  lemma {:induction false} FileKeptWithoutRename(s: State, es: seq<Event>)
    requires Inv(s) && IsRun(s, es) && forall e | e in es :: !Moves(e)
    ensures Inv(Run(s, es)) && Read(Run(s, es).disk, TokenFile) == Read(s.disk, TokenFile)
    decreases |es|
  {
    if |es| > 0 {
      var before := es[..|es| - 1];
      assert es[|es| - 1] in es;
      FileKeptWithoutRename(s, before);
      InvStep(Run(s, before), es[|es| - 1]);
      OnlyRenameChangesTheFile(Run(s, before), es[|es| - 1]);
    }
  }

  /** A Save that fails after its rename has replaced the token file all the same. */
  lemma LateFailureIsVisible(s: State, e: Event)
    requires Inv(s) && Enabled(s, e) && (e == OpenDir(false) || e == SyncDirectory(false))
    ensures Read(Next(s, e).disk, TokenFile) == Some(Wanted(s))
    ensures Next(s, e).acked == s.acked && Next(s, e).progress.Idle?
  {
    var k := ContentOfDirectory(s, Always, s.disk.files);
  }

  /** The token file is on the disk with content `c`, and no rename is waiting. */
  predicate OnDisk(s: State, c: Bytes) {
    && ReadIn(s.disk.files, s.disk.durable, TokenFile) == Some(c)
    && (forall op | op in s.disk.pending :: op.Link?)
  }

  lemma OnDiskRecovered(s: State, c: Bytes, kept: nat -> bool, garbage: nat -> Bytes)
    requires Inv(s) && OnDisk(s, c)
    ensures Recovered(s, kept, garbage) == Some(c)
  {
    LinksKeepToken(s.disk.durable, s.disk.pending, kept);
    assert Candidate(s.disk, s.disk.durable[TokenFile]);
    assert Settled(s.disk.files, s.contents, s.owner, s.floor, s.disk.durable[TokenFile]);
  }

  lemma {:induction false} LinksKeepToken(dir: map<Name, nat>, ops: seq<DirOp>, kept: nat -> bool)
    requires forall op | op in ops :: op.Link?
    requires TokenFile in dir
    ensures TokenFile in Apply(dir, ops, kept) && Apply(dir, ops, kept)[TokenFile] == dir[TokenFile]
    decreases |ops|
  {
    if |ops| > 0 {
      LinksKeepToken(dir, ops[..|ops| - 1], kept);
      assert ops[|ops| - 1] in ops;
    }
  }

  lemma OnDiskStep(s: State, e: Event, c: Bytes)
    requires Inv(s) && OnDisk(s, c) && Enabled(s, e) && e != RenameOver(true)
    ensures OnDisk(Next(s, e), c)
  {
    var t := Next(s, e);
    var i := s.disk.durable[TokenFile];
    assert Candidate(s.disk, i);
    assert Settled(s.disk.files, s.contents, s.owner, s.floor, i);
    match e
    case Open(ok) =>
      assert !Candidate(s.disk, s.disk.next);
    case SyncDirectory(ok) => LinksKeepToken(s.disk.durable, s.disk.pending, Always);
    case PowerLoss(kept, garbage) => LinksKeepToken(s.disk.durable, s.disk.pending, kept);
    case _ =>
  }

  lemma {:induction false} OnDiskRun(s: State, es: seq<Event>, c: Bytes)
    requires Inv(s) && OnDisk(s, c) && IsRun(s, es) && RenameOver(true) !in es
    ensures Inv(Run(s, es)) && OnDisk(Run(s, es), c)
    decreases |es|
  {
    if |es| > 0 {
      var before := es[..|es| - 1];
      assert es[|es| - 1] in es;
      OnDiskRun(s, before, c);
      InvStep(Run(s, before), es[|es| - 1]);
      OnDiskStep(Run(s, before), es[|es| - 1], c);
    }
  }

  lemma SyncedIsOnDisk(s: State)
    requires Inv(s) && Enabled(s, SyncDirectory(true))
    ensures OnDisk(Next(s, SyncDirectory(true)), Wanted(s))
  {
    var k := ContentOfDirectory(s, Always, s.disk.files);
  }

  /**
   Once Save has returned nil its content is what every power loss brings back, through any later
   failures and power losses, until another Save gets as far as its rename.
   */
  lemma AcknowledgedSurvives(s: State, es: seq<Event>, kept: nat -> bool, garbage: nat -> Bytes)
    requires Inv(s) && Enabled(s, SyncDirectory(true))
    requires IsRun(Next(s, SyncDirectory(true)), es) && RenameOver(true) !in es
    ensures Recovered(Run(Next(s, SyncDirectory(true)), es), kept, garbage) == Some(Wanted(s))
  {
    hide Inv, OnDisk, Recovered;
    var t := Next(s, SyncDirectory(true));
    InvStep(s, SyncDirectory(true));
    SyncedIsOnDisk(s);
    OnDiskRun(t, es, Wanted(s));
    OnDiskRecovered(Run(t, es), Wanted(s), kept, garbage);
  }

  /** From the rename to the directory sync both contents can come back: an error after the rename decides nothing. */
  lemma AfterRenameEitherComesBack(s: State, c: Bytes, garbage: nat -> Bytes)
    requires Inv(s) && OnDisk(s, c) && s.progress.Synced?
    ensures var t := Next(Next(s, RenameOver(true)), OpenDir(false));
            && t.progress.Idle?
            && Recovered(t, Always, garbage) == Some(Wanted(s))
            && Recovered(t, k => false, garbage) == Some(c)
  {
    var t := Next(s, RenameOver(true));
    var u := Next(t, OpenDir(false));
    InvRename(s);
    InvProgress(t, Idle);
    var k := ContentOfDirectory(u, Always, Crash(u.disk, Always, garbage).files);
    NothingKept(u.disk.durable, u.disk.pending, k => false);
    var i := s.disk.durable[TokenFile];
    assert Candidate(u.disk, i);
    assert Settled(u.disk.files, u.contents, u.owner, u.floor, i);
  }

  lemma {:induction false} NothingKept(dir: map<Name, nat>, ops: seq<DirOp>, kept: nat -> bool)
    requires forall k: nat :: !kept(k)
    ensures Apply(dir, ops, kept) == dir
    decreases |ops|
  {
    if |ops| > 0 {
      NothingKept(dir, ops[..|ops| - 1], kept);
    }
  }
}
