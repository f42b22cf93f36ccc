/**
 The two stores provide the store interface that the service is modelled on. What a store holds is
 read as a token map; Save takes it to StoreAfter of ServiceMachine, and Load returns its unexpired
 part. For the JSON store this includes what a power loss can bring back.
 */
module StoreRefinement {
  import opened Wrappers
  import opened TokenMaps
  import opened ServiceMachine
  import FileSystem
  import JsonSave
  import JsonStore
  import SqliteStore

  // ----- The JSON store -----

  /** The map that a token file holds: absent or empty counts as the empty map. */
  function MapIn(c: JsonStore.Codec, file: Option<Bytes>): TokenMap {
    if file.None? || |file.value| == 0 then map[]
    else match c.unmarshal(file.value) case Some(m) => m case None => map[]
  }

  /** How the service sees a JSON Save. */
  function Outcome(ok: bool, renamed: bool): SaveOutcome {
    if ok then Saved else if renamed then WrittenButFailed else NotWritten
  }

  lemma EncodedMap(c: JsonStore.Codec, file: Option<Bytes>, m: TokenMap)
    requires JsonStore.Lawful(c) && JsonStore.Encodes(c, file, m)
    ensures MapIn(c, file) == m
  {
  }

  lemma MarshalledMap(c: JsonStore.Codec, tokens: TokenMap, now: int)
    requires JsonStore.Lawful(c) && JsonStore.Floats(c, tokens)
    ensures JsonStore.Encodes(c, Some(c.marshal(Live(tokens, now))), Live(tokens, now))
    ensures MapIn(c, Some(c.marshal(Live(tokens, now)))) == Live(tokens, now)
  {
    assert JsonStore.Floats(c, Live(tokens, now));
  }

  lemma ReadableMap(c: JsonStore.Codec, file: Option<Bytes>, now: int, allowRecover: bool, backupOk: bool)
    requires JsonStore.Lawful(c) && JsonStore.Readable(c, file)
    ensures JsonStore.LoadOf(c, file, now, allowRecover, true, backupOk) == JsonStore.Loaded(Live(MapIn(c, file), now))
  {
    var m :| JsonStore.Encodes(c, file, m);
    EncodedMap(c, file, m);
    assert Live(map[], now) == map[];
  }

  /** Save as the service sees it: Saved, NotWritten or WrittenButFailed, each with the effect it has in the machine. */
  method SaveJson(store: JsonStore.TokenStore, tokens: TokenMap, now: int, faults: JsonStore.Faults)
    returns (ok: bool, ghost outcome: SaveOutcome)
    requires JsonStore.Lawful(store.codec) && JsonStore.Floats(store.codec, tokens)
    requires store.Valid() && store.fs.progress.Idle? && JsonStore.Readable(store.codec, store.File())
    modifies store
    ensures store.Valid() && store.fs.progress.Idle? && JsonStore.Readable(store.codec, store.File())
    ensures MapIn(store.codec, store.File()) ==
            StoreAfter(JsonFile, MapIn(store.codec, old(store.File())), tokens, now, outcome)
    ensures ok <==> outcome == Saved
    ensures
      var size := |store.codec.marshal(Live(tokens, now))|;
      outcome == Outcome(faults.None(size), faults.ReachRename(size))
  {
    hide JsonStore.Lawful, MapIn, JsonStore.Floats, JsonStore.Encodes, JsonSave.Inv, JsonSave.OnDisk;
    MarshalledMap(store.codec, tokens, now);
    ghost var es;
    ok, es := store.Save(tokens, now, faults);
    outcome := Outcome(ok, JsonSave.RenameOver(true) in es);
  }

  /** Load as the service sees it, when the file can be read: the unexpired entries, and never corruption. */
  method LoadJson(store: JsonStore.TokenStore, now: int, backupOk: bool) returns (r: JsonStore.LoadOutcome)
    requires JsonStore.Lawful(store.codec) && JsonStore.Readable(store.codec, store.File())
    ensures r == JsonStore.Loaded(Live(MapIn(store.codec, store.File()), now))
  {
    r := store.Load(now, true, backupOk);
    ReadableMap(store.codec, store.File(), now, store.allowRecover, backupOk);
  }

  // ----- The SQLite store -----

  function MapOf(d: SqliteStore.Db): TokenMap {
    SqliteStore.Tokens(SqliteStore.Visible(d))
  }

  method SaveSqlite(store: SqliteStore.SQLiteStore, tokens: TokenMap, now: int, faults: SqliteStore.SaveFaults)
    returns (ok: bool, ghost outcome: SaveOutcome)
    requires store.tx.None?
    modifies store
    ensures store.tx.None?
    ensures MapOf(store.db) == StoreAfter(Sqlite, MapOf(old(store.db)), tokens, now, outcome)
    ensures outcome == (if ok then Saved else NotWritten) && Possible(Sqlite, outcome)
    ensures ok <==> faults.None(SqliteStore.RowsOf(tokens, now))
    ensures Integral(MapOf(old(store.db))) && Integral(MapOf(store.db))
  {
    IntegralRows(store.db);
    SqliteStore.RowsPersist(tokens, now);
    ok := store.Save(tokens, now, faults);
    outcome := if ok then Saved else NotWritten;
    IntegralRows(store.db);
  }

  method LoadSqlite(store: SqliteStore.SQLiteStore, now: int,
                    faults: SqliteStore.LoadFaults) returns (r: Option<TokenMap>)
    ensures r == if faults.None(Live(MapOf(store.db), now)) then Some(Live(MapOf(store.db), now)) else None
  {
    r := store.Load(now, faults);
  }

  lemma IntegralRows(d: SqliteStore.Db)
    ensures Integral(MapOf(d))
  {
    forall h | h in MapOf(d)
      ensures MapOf(d)[h].Floor as real == MapOf(d)[h]
    {
    }
  }

  // ----- Tokens and power losses -----

  /** Every Save since the last acknowledged one, itself included, carries the token `h` until `expiry`. */
  ghost predicate CarriedSinceAck(c: JsonStore.Codec, s: JsonSave.State, h: Hash, expiry: real) {
    forall k, m | s.acked <= k < |s.contents| && JsonStore.Encodes(c, s.contents[k], m) :: h in m && m[h] == expiry
  }

  /**
   A token answered Ok is in the Save that was acknowledged for it. As long as later Saves carry it
   too, it is there after any power loss, whatever those Saves came to.
   */
  lemma CarriedTokenSurvivesPowerLoss(c: JsonStore.Codec, file: Option<Bytes>, stray: Option<Bytes>,
                                      es: seq<JsonSave.Event>,
                                      kept: nat -> bool, garbage: nat -> Bytes, now: int, h: Hash, expiry: real)
    requires JsonStore.Lawful(c) && JsonStore.Readable(c, file)
    requires JsonSave.IsRun(JsonSave.Start(file, stray), es) && JsonStore.SavesMaps(c, es)
    requires CarriedSinceAck(c, JsonSave.Run(JsonSave.Start(file, stray), es), h, expiry) && expiry > now as real
    ensures
      var r := JsonStore.LoadOf(c, JsonSave.Recovered(JsonSave.Run(JsonSave.Start(file, stray), es), kept, garbage),
          now, false, true, true);
      r.Loaded? && h in r.tokens && r.tokens[h] == expiry
  {
    hide JsonSave.IsRun, JsonSave.Run, JsonSave.Recovered, JsonStore.LoadOf;
    var k, m := JsonStore.LoadAfterAnyHistory(c, file, stray, es, kept, garbage, now, false, true);
  }

  /**
   What an error after the rename can do: the power loss decides whether the old map or the new one
   comes back, so it can revive a token answered with an error and lose one that only the old map has.
   */
  lemma FailedSaveReviveOrLose(c: JsonStore.Codec, s: JsonSave.State, before: TokenMap, tokens: TokenMap, saved: int,
                               now: int, garbage: nat -> Bytes)
    requires JsonStore.Lawful(c) && JsonStore.Floats(c, before) && JsonStore.Floats(c, tokens) && saved <= now
    requires JsonSave.Inv(s) && s.progress.Synced? && JsonSave.OnDisk(s, c.marshal(before))
    requires JsonSave.Wanted(s) == c.marshal(Live(tokens, saved))
    ensures
      var t := JsonSave.Next(JsonSave.Next(s, JsonSave.RenameOver(true)), JsonSave.OpenDir(false));
      && t.acked == s.acked
      && JsonStore.LoadOf(c, JsonSave.Recovered(t, FileSystem.Always, garbage), now, false, true, true) ==
         JsonStore.Loaded(Live(tokens, now))
      && JsonStore.LoadOf(c, JsonSave.Recovered(t, k => false, garbage), now, false, true, true) ==
         JsonStore.Loaded(Live(before, now))
  {
    hide JsonSave.Inv, JsonSave.OnDisk, JsonSave.Recovered;
    JsonSave.AfterRenameEitherComesBack(s, c.marshal(before), garbage);
    assert JsonStore.Floats(c, Live(tokens, saved));
    LiveLater(tokens, saved, now);
  }
}
