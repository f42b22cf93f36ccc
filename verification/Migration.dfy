/**
 The one-way migration from the JSON file to SQLite: ordered effects on both stores, with an error
 return after each, and a power loss possible between any two of them.
 */
module Migration {
  import opened Wrappers
  import opened TokenMaps
  import opened SqliteStore
  import FileSystem
  import JsonSave
  import JsonStore

  /** Where the source file is: at its own path, or renamed to the path with `.migrated` appended. */
  datatype Location = AtPath | AtMigrated

  /** The directory entry of the source as programs see it and as it is on the disk. */
  class SourceFile {
    const content: Bytes
    var seen: Location
    var durable: Location

    constructor (content: Bytes)
      ensures this.content == content && seen == AtPath && durable == AtPath
    {
      this.content := content;
      seen, durable := AtPath, AtPath;
    }
  }

  datatype MigrateError =
    | SourceMissing | JsonLoadFailed | OpenFailed | CheckFailed | NotEmpty
    | SaveFailed | CheckpointFailed | CloseFailed | RenameFailed

  /** How each call goes. */
  datatype Faults = Faults(
    readOk: bool, openOk: bool, check: LoadFaults, save: SaveFaults,
    checkpoint: Checkpointing, closeOk: bool, renameOk: bool)

  /** The clock when the migration loads, checks and saves. */
  datatype Times = Times(loaded: int, checked: int, saved: int)
  {
    predicate InOrder() {
      loaded <= checked <= saved
    }
  }

  datatype Moment = Moment(seen: Location, durable: Location, db: Db)

  /** What a power loss at `w` can leave: the entry of the source, and the rows. */
  predicate CanLeave(w: Moment, at: Location, rows: Rows) {
    (at == w.seen || at == w.durable) && MayRecover(w.db, rows)
  }

  /** The rows hold every token of the source that SQLite can hold: expiry and all, cut to whole seconds. */
  predicate Carries(rows: Rows, source: TokenMap, saved: int) {
    Tokens(rows) == Persist(Sqlite, source, saved)
  }

  /** Nothing is lost at `w`, whatever a power loss makes of it. */
  ghost predicate NoLoss(w: Moment, source: TokenMap, saved: int) {
    forall at, rows | CanLeave(w, at, rows) :: at == AtPath || Carries(rows, source, saved)
  }

  /** Tokens that expire between Load and Save are cut by both, so filtering at Load loses nothing. */
  lemma SavedRowsCarry(source: TokenMap, loaded: int, saved: int)
    requires loaded <= saved
    ensures Carries(RowsOf(Live(source, loaded), saved), source, saved)
  {
    forall h | h in source && Trunc(source[h]) > saved
      ensures source[h] > loaded as real
    {
    }
  }

  lemma EmptyLive(now: int)
    ensures Live(map[], now) == map[]
  {
  }

  lemma StartsSafe(w: Moment, source: TokenMap, saved: int)
    requires w.seen == AtPath && w.durable == AtPath
    ensures Safe([w], source, saved)
  {
  }

  lemma FreshlyRead(content: Bytes, stray: Option<Bytes>)
    ensures FileSystem.Read(JsonSave.Start(Some(content), stray).disk, FileSystem.TokenFile) == Some(content)
  {
  }

  ghost predicate Safe(trail: seq<Moment>, source: TokenMap, saved: int) {
    forall w | w in trail :: NoLoss(w, source, saved)
  }

  /** While the source is still at its path in both views, nothing can be lost. */
  lemma NothingMoved(trail: seq<Moment>, w: Moment, source: TokenMap, saved: int)
    requires Safe(trail, source, saved) && w.seen == AtPath && w.durable == AtPath
    ensures Safe(trail + [w], source, saved)
  {
  }

  function Now(source: SourceFile, store: SQLiteStore): Moment
    reads source, store
  {
    Moment(source.seen, source.durable, store.db)
  }

  /** The text of the source is empty or parses. */
  predicate Parses(codec: JsonStore.Codec, content: Bytes) {
    |content| == 0 || codec.unmarshal(content).Some?
  }

  /** The map in the source file; a file that does not parse holds no tokens. */
  function SourceTokens(codec: JsonStore.Codec, content: Bytes): TokenMap {
    if |content| == 0 then map[]
    else match codec.unmarshal(content)
      case Some(m) => m
      case None => map[]
  }

  /** What stops the part of the migration that fills SQLite, if anything does. */
  function FillFailure(rows: Rows, tokens: TokenMap, t: Times, faults: Faults): Option<MigrateError> {
    var existing := Live(Tokens(rows), t.checked);
    if !faults.check.None(existing) then Some(CheckFailed)
    else if existing != map[] then Some(NotEmpty)
    else if !faults.save.None(RowsOf(tokens, t.saved)) then Some(SaveFailed)
    else if faults.checkpoint == Failed then Some(CheckpointFailed)
    else None
  }

  /** The first thing that goes wrong in a migration, if anything does. */
  function Failure(codec: JsonStore.Codec, source: Bytes, seen: Location, rows: Rows, t: Times,
                   faults: Faults): Option<MigrateError> {
    if seen == AtMigrated then Some(SourceMissing)
    else if !faults.readOk || !Parses(codec, source) then Some(JsonLoadFailed)
    else if !faults.openOk then Some(OpenFailed)
    else
      match FillFailure(rows, Live(SourceTokens(codec, source), t.loaded), t, faults)
      case Some(e) => Some(e)
      case None =>
        if !faults.closeOk then Some(CloseFailed) else if !faults.renameOk then Some(RenameFailed) else None
  }

  /**
   The failures spelled out, in the order in which the migration meets them, by the faults, the text of
   the source and the rows: the first condition that holds gives the error.
   */
  lemma FailureSpelledOut(codec: JsonStore.Codec, source: Bytes, seen: Location, rows: Rows, t: Times, faults: Faults)
    ensures Failure(codec, source, seen, rows, t, faults) ==
            if seen != AtPath then Some(SourceMissing)
            else if !faults.readOk || (|source| > 0 && codec.unmarshal(source) == None) then Some(JsonLoadFailed)
            else if !faults.openOk then Some(OpenFailed)
            else if !faults.check.queryOk || !faults.check.rowsOk ||
                    exists h | h in rows && rows[h] > t.checked :: !faults.check.scanOk(h) then
              Some(CheckFailed)
            else if exists h | h in rows :: rows[h] > t.checked then Some(NotEmpty)
            else if !faults.save.beginOk || !faults.save.deleteOk || !faults.save.prepareOk || !faults.save.commitOk ||
                    (|source| > 0 &&
                     var m := codec.unmarshal(source).value;
                     exists h | h in m && m[h] > t.loaded as real && Trunc(m[h]) > t.saved ::
                       !faults.save.insertOk(h)) then
              Some(SaveFailed)
            else if faults.checkpoint == Failed then Some(CheckpointFailed)
            else if !faults.closeOk then Some(CloseFailed)
            else if !faults.renameOk then Some(RenameFailed)
            else None
  {
    var m := SourceTokens(codec, source);
    ExistingSpelledOut(rows, t.checked, faults.check);
    SavedSpelledOut(m, t, faults.save);
    hide LoadFaults.None, SaveFaults.None, Live, Tokens, RowsOf;
  }

  lemma ExistingSpelledOut(rows: Rows, checked: int, faults: LoadFaults)
    ensures Live(Tokens(rows), checked) == map[] <==> forall h | h in rows :: rows[h] <= checked
    ensures faults.None(Live(Tokens(rows), checked)) <==>
              faults.queryOk && faults.rowsOk && forall h | h in rows && rows[h] > checked :: faults.scanOk(h)
  {
    var live := Live(Tokens(rows), checked);
    assert forall h :: h in live <==> h in rows && rows[h] > checked;
    if h :| h in rows && rows[h] > checked {
      assert h in live;
    }
  }

  lemma SavedSpelledOut(m: TokenMap, t: Times, faults: SaveFaults)
    ensures faults.None(RowsOf(Live(m, t.loaded), t.saved)) <==>
              && faults.beginOk && faults.deleteOk && faults.prepareOk && faults.commitOk
              && forall h | h in m && m[h] > t.loaded as real && Trunc(m[h]) > t.saved :: faults.insertOk(h)
  {
    var rows := RowsOf(Live(m, t.loaded), t.saved);
    assert forall h :: h in rows <==> h in m && m[h] > t.loaded as real && Trunc(m[h]) > t.saved;
  }

  /** The rows once the tokens have been committed on top of `before`. */
  function Filled(before: Db, tokens: TokenMap, t: Times, faults: Faults): Db {
    match FillFailure(Visible(before), tokens, t, faults)
    case None =>
      if faults.checkpoint == Done then Db(RowsOf(tokens, t.saved), [])
      else before.(log := before.log + [RowsOf(tokens, t.saved)])
    case Some(CheckpointFailed) => before.(log := before.log + [RowsOf(tokens, t.saved)])
    case Some(_) => before
  }

  lemma FilledSpelledOut(codec: JsonStore.Codec, source: Bytes, before: Db, t: Times, faults: Faults)
    requires t.InOrder()
    ensures
      var tokens := Live(SourceTokens(codec, source), t.loaded);
      |source| > 0 && codec.unmarshal(source).Some? && FillFailure(Visible(before), tokens, t, faults).None? ==>
        var m := codec.unmarshal(source).value;
        Visible(Filled(before, tokens, t, faults)) == map h | h in m && Trunc(m[h]) > t.saved :: Trunc(m[h])
  {
    if |source| > 0 && codec.unmarshal(source).Some? {
      var m := codec.unmarshal(source).value;
      forall h | h in m && Trunc(m[h]) > t.saved
        ensures m[h] > t.loaded as real
      {
      }
      assert RowsOf(Live(m, t.loaded), t.saved) == map h | h in m && Trunc(m[h]) > t.saved :: Trunc(m[h]);
      hide RowsOf, Live, Tokens, LoadFaults.None, SaveFaults.None;
    }
  }

  /** Loads the source; `m` is the map in it. */
  method ReadSource(codec: JsonStore.Codec, content: Bytes, loaded: int, readOk: bool) returns (r: Option<TokenMap>)
    ensures r == if readOk && Parses(codec, content) then Some(Live(SourceTokens(codec, content), loaded)) else None
  {
    var jsonStore := new JsonStore.TokenStore(codec, false, Some(content), None);
    FreshlyRead(content, None);
    EmptyLive(loaded);
    var tokens := jsonStore.Load(loaded, readOk, true);
    return if tokens.Loaded? then Some(tokens.tokens) else None;
  }

  /** Checks that SQLite holds no unexpired token, saves the tokens and checkpoints; `trail` goes on after each step. */
  method Fill(source: SourceFile, store: SQLiteStore, tokens: TokenMap, t: Times, faults: Faults,
              ghost m: TokenMap, ghost before: seq<Moment>)
    returns (failure: Option<MigrateError>, ghost trail: seq<Moment>)
    requires store.tx.None? && source.seen == AtPath && source.durable == AtPath
    requires before == [Now(source, store)] && Safe(before, m, t.saved)
    modifies store
    ensures store.tx.None?
    ensures failure == FillFailure(Visible(old(store.db)), tokens, t, faults)
    ensures store.db == Filled(old(store.db), tokens, t, faults)
    ensures before <= trail && Safe(trail, m, t.saved) && trail[|trail| - 1] == Now(source, store)
  {
    hide Safe, Live, RowsOf, LoadFaults.None, SaveFaults.None, Tokens;
    trail := before;
    var existing := store.Load(t.checked, faults.check);
    if existing.None? {
      return Some(CheckFailed), trail;
    }
    if |existing.value| > 0 {
      assert existing.value != map[];
      return Some(NotEmpty), trail;
    }
    assert existing.value == map[];
    var saveOk := store.Save(tokens, t.saved, faults.save);
    NothingMoved(trail, Now(source, store), m, t.saved);
    trail := trail + [Now(source, store)];
    if !saveOk {
      return Some(SaveFailed), trail;
    }
    var checkpointOk := store.Checkpoint(faults.checkpoint);
    NothingMoved(trail, Now(source, store), m, t.saved);
    trail := trail + [Now(source, store)];
    return if checkpointOk then None else Some(CheckpointFailed), trail;
  }

  /**
   `trail` lists the state after every step. In each of them, after any power loss, the source is
   still at its path or SQLite holds all its tokens, unless the checkpoint was blocked and the rename
   went ahead over rows that lacked some. The first call that fails gives the error, and the
   migration succeeds, moving the source, exactly when none does. It touches the rows only when none
   was unexpired, and replaces them all.
   */
  method MigrateJSONToSQLite(codec: JsonStore.Codec, source: SourceFile, store: SQLiteStore, t: Times, faults: Faults)
    returns (r: Result<(), MigrateError>, ghost trail: seq<Moment>)
    requires store.tx.None? && t.InOrder() && source.seen == source.durable
    modifies source, store
    ensures r == match Failure(codec, source.content, old(source.seen), Visible(old(store.db)), t, faults)
                 case None => Ok(())
                 case Some(e) => Err(e)
    ensures r.Ok? <==>
              && old(source.seen) == AtPath && faults.readOk
              && (|source.content| > 0 ==> codec.unmarshal(source.content).Some?)
              && faults.openOk && faults.check.queryOk && faults.check.rowsOk
              && (forall h | h in Visible(old(store.db)) :: Visible(old(store.db))[h] <= t.checked)
              && faults.save.beginOk && faults.save.deleteOk && faults.save.prepareOk && faults.save.commitOk
              && (|source.content| > 0 ==>
                    var m := codec.unmarshal(source.content).value;
                    forall h | h in m && m[h] > t.loaded as real && Trunc(m[h]) > t.saved :: faults.save.insertOk(h))
              && faults.checkpoint != Failed && faults.closeOk && faults.renameOk
    ensures r.Ok? && |source.content| > 0 ==>
              var m := codec.unmarshal(source.content).value;
              Visible(store.db) == map h | h in m && Trunc(m[h]) > t.saved :: Trunc(m[h])
    ensures |trail| > 0 && trail[0] == old(Now(source, store)) && trail[|trail| - 1] == Now(source, store)
    ensures source.durable == old(source.durable)
    ensures source.seen == if r.Ok? then AtMigrated else old(source.seen)
    ensures old(source.seen) == AtPath ==>
              var m := SourceTokens(codec, source.content);
              && (Safe(trail, m, t.saved) <==> MoveIsSafe(old(store.db), r.Ok?, faults.checkpoint, m, t.saved))
              && (r.Ok? ==> Carries(Visible(store.db), m, t.saved))
              && (store.db == old(store.db) || Carries(Visible(store.db), m, t.saved))
    ensures store.db != old(store.db) ==>
              old(source.seen) == AtPath && Live(Tokens(Visible(old(store.db))), t.checked) == map[]
  {
    hide Safe, Carries, Live, Persist, FillFailure, MoveIsSafe, RowsOf, SourceTokens;
    ghost var m := SourceTokens(codec, source.content);
    trail := [Now(source, store)];
    FailureSpelledOut(codec, source.content, source.seen, Visible(store.db), t, faults);
    FilledSpelledOut(codec, source.content, store.db, t, faults);
    if source.seen == AtMigrated {
      return Err(SourceMissing), trail;
    }
    StartsSafe(trail[0], m, t.saved);
    StayingIsSafe(store.db, faults.checkpoint, m, t.saved);
    var tokens := ReadSource(codec, source.content, t.loaded, faults.readOk);
    if tokens.None? {
      return Err(JsonLoadFailed), trail;
    }
    if !faults.openOk {
      return Err(OpenFailed), trail;
    }
    var failure;
    failure, trail := Fill(source, store, tokens.value, t, faults, m, trail);
    FilledCarries(old(store.db), m, t, faults);
    if failure.Some? {
      return Err(failure.value), trail;
    }
    if !faults.closeOk {
      return Err(CloseFailed), trail;
    }
    if !faults.renameOk {
      return Err(RenameFailed), trail;
    }
    source.seen := AtMigrated;
    MovedIff(trail, old(store.db), m, t, faults);
    trail := trail + [Now(source, store)];
    return Ok(()), trail;
  }

  /** Renaming the source is safe unless the checkpoint was blocked and some recoverable rows lack tokens. */
  ghost predicate MoveIsSafe(before: Db, moved: bool, checkpoint: Checkpointing, source: TokenMap, saved: int) {
    moved && checkpoint == Busy ==> forall rows | MayRecover(before, rows) :: Carries(rows, source, saved)
  }

  lemma StayingIsSafe(before: Db, checkpoint: Checkpointing, source: TokenMap, saved: int)
    ensures MoveIsSafe(before, false, checkpoint, source, saved)
  {
  }

  lemma FilledCarries(before: Db, source: TokenMap, t: Times, faults: Faults)
    requires t.InOrder()
    ensures
      var tokens := Live(source, t.loaded);
      var after := Filled(before, tokens, t, faults);
      && (FillFailure(Visible(before), tokens, t, faults).None? ==> Carries(Visible(after), source, t.saved))
      && (after == before || Carries(Visible(after), source, t.saved))
      && (after != before ==> Live(Tokens(Visible(before)), t.checked) == map[])
  {
    SavedRowsCarry(source, t.loaded, t.saved);
    hide Carries, Live, RowsOf, Tokens;
  }

  /** The rename, after the tokens have been committed and the checkpoint reported no error. */
  lemma MovedIff(trail: seq<Moment>, before: Db, source: TokenMap, t: Times, faults: Faults)
    requires t.InOrder() && Safe(trail, source, t.saved)
    requires FillFailure(Visible(before), Live(source, t.loaded), t, faults).None?
    ensures
      var w := Moment(AtMigrated, AtPath, Filled(before, Live(source, t.loaded), t, faults));
      Safe(trail + [w], source, t.saved) <==> MoveIsSafe(before, true, faults.checkpoint, source, t.saved)
  {
    var rows := RowsOf(Live(source, t.loaded), t.saved);
    var w := Moment(AtMigrated, AtPath, Filled(before, Live(source, t.loaded), t, faults));
    SavedRowsCarry(source, t.loaded, t.saved);
    hide Carries, Live, RowsOf;
    SafeSnoc(trail, w, source, t.saved);
    if faults.checkpoint == Busy {
      BusyMoveIff(before, rows, source, t.saved);
    }
  }

  lemma SafeSnoc(trail: seq<Moment>, w: Moment, source: TokenMap, saved: int)
    requires Safe(trail, source, saved)
    ensures Safe(trail + [w], source, saved) <==> NoLoss(w, source, saved)
  {
    assert w in trail + [w];
  }

  /**
   A blocked checkpoint leaves the commit in the log, where a power loss can undo it. With the source
   renamed all the same, nothing is lost exactly if every state of the database that can come back
   carries the tokens already.
   */
  lemma BusyMoveIff(before: Db, rows: Rows, source: TokenMap, saved: int)
    requires Carries(rows, source, saved)
    ensures NoLoss(Moment(AtMigrated, AtPath, before.(log := before.log + [rows])), source, saved) <==>
            forall old_ | MayRecover(before, old_) :: Carries(old_, source, saved)
  {
    hide Carries;
    var w := Moment(AtMigrated, AtPath, before.(log := before.log + [rows]));
    forall old_ | MayRecover(before, old_)
      ensures CanLeave(w, AtMigrated, old_)
    {
    }
  }

  // ----- What the guarantee means -----

  /**
   At any later clock second `t`, after any power loss that leaves the source moved, SQLite answers
   exactly the source's tokens with floor(v) > t: it misses an unexpired one only in the second floor(v).
   */
  lemma EveryTokenIsFound(w: Moment, source: TokenMap, saved: int, at: Location, rows: Rows, t: int, h: Hash)
    requires NoLoss(w, source, saved) && CanLeave(w, at, rows) && at == AtMigrated && 0 <= saved <= t
    ensures h in Live(Tokens(rows), t) <==> h in source && source[h].Floor > t
    ensures h in Live(source, t) && h !in Live(Tokens(rows), t) <==>
            h in source && source[h].Floor == t && source[h].Floor as real != source[h]
  {
    assert Tokens(rows) == Persist(Sqlite, source, saved);
    SaveThenLoadExact(source, saved, t);
    StoresDifferInOneSecond(source, saved, t, h);
  }

  /** A migration that failed after its Save can be run again exactly when no token it saved is still unexpired. */
  lemma RetryProceedsIff(source: TokenMap, loaded: int, saved: int, retried: int)
    requires loaded <= saved && 0 <= saved <= retried
    ensures Live(Tokens(RowsOf(Live(source, loaded), saved)), retried) == map[] <==>
            forall h | h in source :: source[h].Floor <= retried
  {
    SavedRowsCarry(source, loaded, saved);
    SaveThenLoadExact(source, saved, retried);
    var live := Live(Tokens(RowsOf(Live(source, loaded), saved)), retried);
    if h :| h in source && source[h].Floor > retried {
      assert h in live;
    } else {
      assert live == map[];
    }
  }
}
