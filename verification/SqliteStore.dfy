/**
 The SQLite token store at the level of its transactions: Save replaces all rows in one
 transaction, Load reads the unexpired rows. With a write-ahead log and `synchronous = NORMAL` a
 power loss may undo the newest commits; a checkpoint makes them durable.
 */
module SqliteStore {
  import opened Wrappers
  import opened TokenMaps

  /** The table: a token hash and its expiry as an integer column. */
  type Rows = map<Hash, int>

  /** `durable` is in the database file; `log` are the states committed since the last checkpoint. */
  datatype Db = Db(durable: Rows, log: seq<Rows>)

  function Visible(d: Db): Rows {
    if |d.log| == 0 then d.durable else d.log[|d.log| - 1]
  }

  /** The states a power loss can bring back. */
  predicate MayRecover(d: Db, rows: Rows) {
    rows == d.durable || rows in d.log
  }

  function Tokens(rows: Rows): TokenMap {
    map h | h in rows :: rows[h] as real
  }

  /** The rows a Save of `m` in clock second `now` inserts. */
  function RowsOf(m: TokenMap, now: int): Rows {
    map h | h in m && Trunc(m[h]) > now :: Trunc(m[h])
  }

  /** The rows a Save has inserted while the tokens `rest` are still to come. */
  function Inserted(m: TokenMap, rest: set<Hash>, now: int): Rows {
    map h | h in m && h !in rest && Trunc(m[h]) > now :: Trunc(m[h])
  }

  lemma InsertedNext(m: TokenMap, rest: set<Hash>, now: int, h: Hash)
    requires h in rest && h in m
    ensures Inserted(m, rest - {h}, now) ==
            if Trunc(m[h]) > now then Inserted(m, rest, now)[h := Trunc(m[h])] else Inserted(m, rest, now)
  {
  }

  /** The rows are the SQLite form of persistence in the model of the service. */
  lemma RowsPersist(m: TokenMap, now: int)
    ensures Tokens(RowsOf(m, now)) == Persist(Sqlite, m, now)
  {
  }

  datatype SaveFaults = SaveFaults(beginOk: bool, deleteOk: bool, prepareOk: bool, insertOk: Hash -> bool,
      commitOk: bool)
  {
    /** No call fails while these rows are saved. */
    predicate None(rows: Rows) {
      beginOk && deleteOk && prepareOk && commitOk && forall h | h in rows :: insertOk(h)
    }
  }

  datatype LoadFaults = LoadFaults(queryOk: bool, scanOk: Hash -> bool, rowsOk: bool)
  {
    /** No call fails while these tokens are read. */
    predicate None(tokens: TokenMap) {
      queryOk && rowsOk && forall h | h in tokens :: scanOk(h)
    }
  }

  /**
   A checkpoint can be blocked by another connection. The PRAGMA then reports `busy` in a result row
   and no error, and Exec drops the row.
   */
  datatype Checkpointing = Done | Busy | Failed

  class SQLiteStore {
    var db: Db
    var tx: Option<Rows>

    constructor (db: Db)
      ensures this.db == db && tx.None?
    {
      this.db, tx := db, None;
    }

    /** All rows are replaced when the transaction commits; any error on the way changes nothing. */
    method Save(tokens: TokenMap, now: int, faults: SaveFaults) returns (ok: bool)
      requires tx.None?
      modifies this
      ensures tx.None?
      ensures ok <==> faults.None(RowsOf(tokens, now))
      ensures db == if ok then old(db).(log := old(db.log) + [RowsOf(tokens, now)]) else old(db)
    {
      ok := false;
      if !faults.beginOk {
        return;
      }
      tx := Some(Visible(db));
      if !faults.deleteOk {
        tx := None;
        return;
      }
      tx := Some(map[]);
      if !faults.prepareOk {
        tx := None;
        return;
      }
      var rest := tokens.Keys;
      while rest != {}
        invariant rest <= tokens.Keys
        invariant tx == Some(Inserted(tokens, rest, now))
        invariant db == old(db)
        invariant forall h | h in RowsOf(tokens, now) && h !in rest :: faults.insertOk(h)
        decreases |rest|
      {
        var hash :| hash in rest;
        InsertedNext(tokens, rest, now, hash);
        if Trunc(tokens[hash]) > now {
          if !faults.insertOk(hash) {
            tx := None;
            assert hash in RowsOf(tokens, now);
            return;
          }
          tx := Some(tx.value[hash := Trunc(tokens[hash])]);
        }
        rest := rest - {hash};
      }
      assert Inserted(tokens, {}, now) == RowsOf(tokens, now);
      if faults.commitOk {
        db := db.(log := db.log + [tx.value]);
        ok := true;
      }
      tx := None;
    }

    /** Load returns the unexpired rows with their integer expiries, or an error and nothing. */
    method Load(now: int, faults: LoadFaults) returns (r: Option<TokenMap>)
      ensures r == if faults.None(Live(Tokens(Visible(db)), now)) then Some(Live(Tokens(Visible(db)), now)) else None
    {
      if !faults.queryOk {
        return None;
      }
      var rows := Visible(db);
      var selected := map h | h in rows && rows[h] > now :: rows[h];
      assert selected.Keys == Live(Tokens(rows), now).Keys;
      var tokens: TokenMap := map[];
      var rest := selected.Keys;
      while rest != {}
        invariant rest <= selected.Keys
        invariant tokens == map h | h in selected && h !in rest :: selected[h] as real
        invariant forall h | h in selected && h !in rest :: faults.scanOk(h)
        decreases |rest|
      {
        var hash :| hash in rest;
        if !faults.scanOk(hash) {
          assert hash in Live(Tokens(rows), now);
          return None;
        }
        tokens := tokens[hash := selected[hash] as real];
        rest := rest - {hash};
      }
      assert tokens == Live(Tokens(rows), now);
      return if faults.rowsOk then Some(tokens) else None;
    }

    /** Moves every commit of the log into the database file, unless it fails or is blocked. */
    method Checkpoint(how: Checkpointing) returns (ok: bool)
      modifies this`db
      ensures ok <==> how != Failed
      ensures db == if how == Done then Db(Visible(old(db)), []) else old(db)
      ensures how == Done ==> forall rows :: MayRecover(db, rows) <==> rows == Visible(old(db))
    {
      if how == Done {
        db := Db(Visible(db), []);
      }
      return how != Failed;
    }
  }
}
