/**
 Token maps: a token hash mapped to its expiry in seconds since the epoch. The service keeps one
 in memory, and both stores persist one. Times are real seconds; `Unix` is the whole second of a
 time, which is all the service and the stores ever compare with.
 */
module TokenMaps {
  type Hash = string
  type TokenMap = map<Hash, real>

  datatype StoreKind = JsonFile | Sqlite

  function Unix(t: real): int {
    t.Floor
  }

  /** The conversion of a float64 to an int64: truncation toward zero. */
  function Trunc(v: real): int {
    if v >= 0.0 then v.Floor else -((-v).Floor)
  }

  /** The entries that are unexpired in clock second `now`. Loading from either store keeps these. */
  function Live(m: TokenMap, now: int): TokenMap {
    map h | h in m && m[h] > now as real :: m[h]
  }

  /** What a successful Save of `m` in clock second `now` leaves in a store of kind `kind`. */
  function Persist(kind: StoreKind, m: TokenMap, now: int): TokenMap {
    match kind
    case JsonFile => Live(m, now)
    case Sqlite => map h | h in m && Trunc(m[h]) > now :: Trunc(m[h]) as real
  }

  predicate Integral(m: TokenMap) {
    forall h | h in m :: m[h].Floor as real == m[h]
  }

  lemma FloorShift(x: real, k: int)
    ensures (x + k as real).Floor == x.Floor + k
  {
    var n := x.Floor + k;
    assert n as real <= x + k as real < n as real + 1.0;
  }

  lemma FloorBelow(x: real, n: int)
    ensures x.Floor < n <==> x < n as real
  {
  }

  lemma TruncOfIntegral(v: real)
    requires v.Floor as real == v
    ensures Trunc(v) as real == v
  {
    if v < 0.0 {
      assert v.Floor == -((-v).Floor);
    }
  }

  /** The conversion drops the fraction, towards zero. */
  lemma TruncTowardZero(v: real)
    ensures v >= 0.0 ==> Trunc(v) as real <= v < Trunc(v) as real + 1.0
    ensures v < 0.0 ==> Trunc(v) as real - 1.0 < v <= Trunc(v) as real
  {
  }

  /** On whole-second expiries the two stores keep the same entries. */
  lemma PersistIntegral(kind: StoreKind, m: TokenMap, now: int)
    requires kind == Sqlite ==> Integral(m)
    ensures Persist(kind, m, now) == Live(m, now)
  {
    forall h | h in m && m[h].Floor as real == m[h]
      ensures Trunc(m[h]) as real == m[h]
    {
      TruncOfIntegral(m[h]);
    }
  }

  lemma LiveLater(m: TokenMap, t1: int, t2: int)
    requires t1 <= t2
    ensures Live(Live(m, t1), t2) == Live(m, t2)
  {
  }

  /** Expired entries never come back: equality of the live parts is kept as the clock advances. */
  lemma LiveAgreementPersists(a: TokenMap, b: TokenMap, t1: int, t2: int)
    requires t1 <= t2 && Live(a, t1) == Live(b, t1)
    ensures Live(a, t2) == Live(b, t2)
  {
    LiveLater(a, t1, t2);
    LiveLater(b, t1, t2);
  }

  // ----- The two stores compared -----

  /** What Load returns at `t2` after Save succeeded at `t1`. */
  function SaveThenLoad(kind: StoreKind, m: TokenMap, t1: int, t2: int): TokenMap {
    Live(Persist(kind, m, t1), t2)
  }

  /** Save then Load gives back exactly the unexpired entries: v > t2 in JSON, floor(v) > t2 in SQLite. */
  lemma SaveThenLoadExact(m: TokenMap, t1: int, t2: int)
    requires 0 <= t1 <= t2
    ensures SaveThenLoad(JsonFile, m, t1, t2) == map h | h in m && m[h] > t2 as real :: m[h]
    ensures SaveThenLoad(Sqlite, m, t1, t2) == map h | h in m && m[h].Floor > t2 :: m[h].Floor as real
  {
    var s := SaveThenLoad(Sqlite, m, t1, t2);
    var expected := map h | h in m && m[h].Floor > t2 :: m[h].Floor as real;
    forall h | h in m
      ensures h in s <==> h in expected
      ensures h in s ==> s[h] == expected[h]
    {
      if m[h] < 0.0 {
        assert Trunc(m[h]) as real >= m[h] && Trunc(m[h]) <= 0;
      }
    }
    assert s.Keys == expected.Keys;
  }

  /**
   A token is still valid in one store and not in the other exactly in the one clock second
   floor(v) of a fractional expiry v, and it is always SQLite that has dropped it.
   */
  lemma StoresDifferInOneSecond(m: TokenMap, t1: int, t2: int, h: Hash)
    requires 0 <= t1 <= t2
    ensures h in SaveThenLoad(Sqlite, m, t1, t2) ==> h in SaveThenLoad(JsonFile, m, t1, t2)
    ensures (h in SaveThenLoad(JsonFile, m, t1, t2) && h !in SaveThenLoad(Sqlite, m, t1, t2)) <==>
            (h in m && m[h].Floor == t2 && m[h].Floor as real != m[h])
  {
    SaveThenLoadExact(m, t1, t2);
  }

  /** The stores are interchangeable for a map exactly when no fractional expiry falls in the second of the Load. */
  lemma StoresAgreeOnKeysIff(m: TokenMap, t1: int, t2: int)
    requires 0 <= t1 <= t2
    ensures SaveThenLoad(JsonFile, m, t1, t2).Keys == SaveThenLoad(Sqlite, m, t1, t2).Keys <==>
            (forall h | h in m :: m[h].Floor == t2 ==> m[h].Floor as real == m[h])
  {
    var j, s := SaveThenLoad(JsonFile, m, t1, t2), SaveThenLoad(Sqlite, m, t1, t2);
    forall h
      ensures h in s ==> h in j
      ensures (h in j && h !in s) <==> (h in m && m[h].Floor == t2 && m[h].Floor as real != m[h])
    {
      StoresDifferInOneSecond(m, t1, t2, h);
    }
    if forall h | h in m :: m[h].Floor == t2 ==> m[h].Floor as real == m[h] {
      assert j.Keys == s.Keys;
    } else {
      var h :| h in m && m[h].Floor == t2 && m[h].Floor as real != m[h];
      assert h in j.Keys && h !in s.Keys;
    }
  }
}
