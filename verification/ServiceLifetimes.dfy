/**
 How long tokens stay accepted: a token once accepted, and every token whose issuance was confirmed,
 is accepted until it expires, in every run, whatever purges and failing Saves come in between.
 */
module ServiceLifetimes {
  import opened Wrappers
  import opened TokenMaps
  import opened Grant
  import opened ServiceMachine
  import opened ServiceHistory
  import opened ServiceInvariants
  import opened ServiceTheorems
  import ServicePurges

  /** The entry of `k` in `n` is that of `m`, unless it has expired by clock second `now` and may be gone. */
  predicate KeptEntry(m: TokenMap, n: TokenMap, k: Hash, now: int)
    requires k in m
  {
    && (m[k] > now as real ==> k in n)
    && (k in n ==> n[k] == m[k])
  }

  /** What a step other than a restart does to the entries that readers can see. */
  lemma VisibleKept(cfg: Config, w: World, e: Event, k: Hash)
    requires Inv(cfg, w) && Allowed(cfg, w, e) && e != Restart && k in Visible(cfg, w.sys)
    ensures
      var n := Next(cfg, w.sys, e);
      KeptEntry(Visible(cfg, w.sys), Visible(cfg, n), k, Unix(n.clock))
  {
    hide LockInv, TraceInv, CodeInv, GrantInv, OnceInv, PurgeInv, Mirrors, CopiesMirror, FailInv, Visible;
    if e.Save? {
      OneInserted(w.sys.threads, w.sys.writer, e.tid);
      VisibleSave(cfg, w.sys, e.tid, e.outcome);
    } else if e.PurgeTokens? {
      SweepKeeps(cfg, w, e, k);
    } else {
      VisibleSame(cfg, w, e);
    }
  }

  lemma SweepKeeps(cfg: Config, w: World, e: Event, k: Hash)
    requires Inv(cfg, w) && Allowed(cfg, w, e) && e.PurgeTokens? && k in Visible(cfg, w.sys)
    ensures
      var n := Next(cfg, w.sys, e);
      KeptEntry(Visible(cfg, w.sys), Visible(cfg, n), k, Unix(n.clock))
  {
    hide LockInv, TraceInv, CodeInv, GrantInv, OnceInv, Mirrors, CopiesMirror, FailInv;
  }

  /** Only Saves, sweeps and restarts change what readers can see. */
  lemma VisibleSame(cfg: Config, w: World, e: Event)
    requires Inv(cfg, w) && Allowed(cfg, w, e) && e != Restart && !e.Save? && !e.PurgeTokens?
    ensures Visible(cfg, Next(cfg, w.sys, e)) == Visible(cfg, w.sys)
  {
    hide LockInv, TraceInv, CodeInv, GrantInv, OnceInv, PurgeInv, Mirrors, CopiesMirror, FailInv;
    var s, h := w.sys, w.hist;
    if e.Begin? || e.Check? {
      ServicePurges.VisibleOutside(cfg, w, e);
    } else if e.Insert? {
      var p := s.threads[e.tid];
      var g := GrantRecord(p.req, p.data, p.checkedAt, e.mintAt);
      TraceMint(cfg, h.init, h.grants, s.tokens, s.store, s.purges, cfg.hashToken(e.token), g);
      VisibleInsert(cfg, s, e.tid, e.token, e.mintAt);
    } else if e.Unlock? {
      OneInserted(s.threads, s.writer, e.tid);
      VisibleUnlock(cfg, s, e.tid);
    }
  }

  lemma {:induction false} StaysVisible(cfg: Config, w: World, es: seq<Event>, k: Hash)
    requires Inv(cfg, w) && k in Visible(cfg, w.sys)
    requires Exec(cfg, w, es).Some? && forall i | 0 <= i < |es| :: es[i] != Restart
    ensures
      var v := Exec(cfg, w, es).value;
      && Inv(cfg, v) && w.sys.clock <= v.sys.clock
      && (Visible(cfg, w.sys)[k] > Unix(v.sys.clock) as real ==>
            k in Visible(cfg, v.sys) && Visible(cfg, v.sys)[k] == Visible(cfg, w.sys)[k])
  {
    hide Inv, Step, Allowed, Visible;
    if |es| > 0 {
      var before, e := es[..|es| - 1], es[|es| - 1];
      StaysVisible(cfg, w, before, k);
      var u := Exec(cfg, w, before).value;
      InvStep(cfg, u, e);
      StepClock(cfg, u, e);
      if k in Visible(cfg, u.sys) {
        VisibleKept(cfg, u, e, k);
      }
    }
  }

  lemma StepClock(cfg: Config, w: World, e: Event)
    requires Allowed(cfg, w, e)
    ensures w.sys.clock <= Step(cfg, w, e).sys.clock && Step(cfg, w, e).sys == Next(cfg, w.sys, e)
  {
    hide Next, NextHist, Enabled;
    ServicePurges.ClockAdvances(cfg, w.sys, e);
  }

  /**
   A token that is accepted once is accepted at every later time before its expiry, in whatever way
   the run goes on without a restart: no purge, failed Save or other exchange takes it away.
   */
  lemma AcceptedUntilExpiry(cfg: Config, clock: real, initial: TokenMap, es: seq<Event>, w: World, token: string,
                            later: seq<Event>, v: World)
    requires IsRun(cfg, clock, initial, es, w) && w.sys.writer.None? && Valid(cfg, w.sys, token)
    requires Exec(cfg, w, later) == Some(v) && v.sys.writer.None? && forall i | 0 <= i < |later| :: later[i] != Restart
    requires w.sys.tokens[cfg.hashToken(token)] > Unix(v.sys.clock) as real
    ensures Valid(cfg, v.sys, token)
  {
    RunInv(cfg, clock, initial, es, w);
    hide Inv, Exec;
    StaysVisible(cfg, w, later, cfg.hashToken(token));
  }

  // ----- Confirmed tokens -----

  /** A confirmed token is visible until it expires. */
  ghost predicate ConfirmedHeld(cfg: Config, now: int, visible: TokenMap, log: seq<Hash>, grants: map<Hash,
                                GrantRecord>) {
    forall i | 0 <= i < |log| ::
      log[i] in grants && (TokenExpiry(cfg, grants[log[i]].mintAt) > now as real ==> log[i] in visible)
  }

  /** A token whose Save is under way is in memory. */
  ghost predicate InsertedHeld(cfg: Config, threads: map<nat, Phase>, tokens: TokenMap) {
    forall t | t in threads && threads[t].Inserted? :: cfg.hashToken(threads[t].token) in tokens
  }

  ghost predicate Held(cfg: Config, w: World) {
    && ConfirmedHeld(cfg, Unix(w.sys.clock), Visible(cfg, w.sys), w.hist.log, w.hist.grants)
    && InsertedHeld(cfg, w.sys.threads, w.sys.tokens)
  }

  lemma VisibleExpiry(cfg: Config, w: World, k: Hash)
    requires Inv(cfg, w) && k in Visible(cfg, w.sys) && k in w.hist.grants
    ensures Visible(cfg, w.sys)[k] == TokenExpiry(cfg, w.hist.grants[k].mintAt)
  {
    hide LockInv, CodeInv, GrantInv, OnceInv, PurgeInv, Mirrors, CopiesMirror, FailInv, TokenExpiry;
  }

  lemma ConfirmedStep(cfg: Config, w: World, e: Event)
    requires Inv(cfg, w) && Allowed(cfg, w, e) && Held(cfg, w)
    requires !e.Save? && e != Restart
    ensures
      var n := Step(cfg, w, e);
      ConfirmedHeld(cfg, Unix(n.sys.clock), Visible(cfg, n.sys), n.hist.log, n.hist.grants)
  {
    hide Inv, Next, NextHist, Enabled, Visible, TokenExpiry, InsertedHeld;
    var n, log := Step(cfg, w, e), w.hist.log;
    StampsKept(cfg, w, e);
    GrantsGrow(cfg, w, e);
    StepClock(cfg, w, e);
    forall i | 0 <= i < |n.hist.log|
      ensures n.hist.log[i] in n.hist.grants
      ensures TokenExpiry(cfg, n.hist.grants[n.hist.log[i]].mintAt) > Unix(n.sys.clock) as real ==>
                n.hist.log[i] in Visible(cfg, n.sys)
    {
      var k := log[i];
      if TokenExpiry(cfg, n.hist.grants[k].mintAt) > Unix(n.sys.clock) as real {
        VisibleExpiry(cfg, w, k);
        VisibleKept(cfg, w, e, k);
      }
    }
  }

  lemma GrantsGrow(cfg: Config, w: World, e: Event)
    requires Allowed(cfg, w, e)
    ensures forall k | k in w.hist.grants ::
              k in NextHist(cfg, w, e).grants && NextHist(cfg, w, e).grants[k] == w.hist.grants[k]
  {
    ServicePurges.IssuedAndGranted(cfg, w, e);
    hide NextHist, Next, Enabled;
  }

  lemma ConfirmedSave(cfg: Config, w: World, e: Event)
    requires Inv(cfg, w) && Allowed(cfg, w, e) && Held(cfg, w) && e.Save?
    ensures
      var n := Step(cfg, w, e);
      ConfirmedHeld(cfg, Unix(n.sys.clock), Visible(cfg, n.sys), n.hist.log, n.hist.grants)
  {
    hide LockInv, TraceInv, CodeInv, GrantInv, OnceInv, PurgeInv, Mirrors, CopiesMirror, FailInv, Visible, TokenExpiry;
    var s, h, tid := w.sys, w.hist, e.tid;
    var k := cfg.hashToken(s.threads[tid].token);
    OneInserted(s.threads, s.writer, tid);
    VisibleSave(cfg, s, tid, e.outcome);
    InsertedIsGranted(cfg, w, tid);
    SaveLogs(cfg, s, h, tid, e.outcome);
    hide HistAfterSave, StoreAfter;
  }

  lemma SaveLogs(cfg: Config, s: Sys, h: Hist, tid: nat, outcome: SaveOutcome)
    requires tid in s.threads && s.threads[tid].Inserted?
    ensures HistAfterSave(cfg, s, h, tid, outcome).grants == h.grants
    ensures HistAfterSave(cfg, s, h, tid, outcome).log ==
            if outcome == Saved then h.log + [cfg.hashToken(s.threads[tid].token)] else h.log
  {
  }

  lemma InsertedIsGranted(cfg: Config, w: World, tid: nat)
    requires Inv(cfg, w) && tid in w.sys.threads && w.sys.threads[tid].Inserted?
    ensures cfg.hashToken(w.sys.threads[tid].token) in w.hist.grants
  {
    hide LockInv, TraceInv, CodeInv, GrantInv, OnceInv, PurgeInv, Mirrors, CopiesMirror;
  }

  lemma InsertedStep(cfg: Config, w: World, e: Event)
    requires Inv(cfg, w) && Allowed(cfg, w, e) && Held(cfg, w)
    ensures InsertedHeld(cfg, Next(cfg, w.sys, e).threads, Next(cfg, w.sys, e).tokens)
  {
    hide TraceInv, CodeInv, GrantInv, OnceInv, PurgeInv, Mirrors, CopiesMirror, FailInv, Visible, ConfirmedHeld;
    hide TokenExpiry, RequestRefusal, CodeRefusal, IssueRefusal, StoreAfter;
    if e.PurgeTokens? || e.Insert? {
      NoneInserted(w.sys.threads);
    } else if e.Unlock? {
      OneInserted(w.sys.threads, w.sys.writer, e.tid);
    }
  }

  lemma HeldStep(cfg: Config, w: World, e: Event)
    requires Inv(cfg, w) && Allowed(cfg, w, e) && Held(cfg, w)
    ensures Held(cfg, Step(cfg, w, e))
  {
    InsertedStep(cfg, w, e);
    if e.Save? {
      ConfirmedSave(cfg, w, e);
    } else if e != Restart {
      ConfirmedStep(cfg, w, e);
    } else {
      StampsKept(cfg, w, e);
    }
    hide Inv, Next, NextHist, Enabled, Visible, InsertedHeld;
  }

  lemma {:induction false} RunHeld(cfg: Config, clock: real, initial: TokenMap, es: seq<Event>, w: World)
    requires IsRun(cfg, clock, initial, es, w)
    ensures Inv(cfg, w) && Held(cfg, w)
  {
    RunInv(cfg, clock, initial, es, w);
    if |es| > 0 {
      hide Inv, Held, Step, Allowed;
      var v := Exec(cfg, Start(clock, initial), es[..|es| - 1]).value;
      RunHeld(cfg, clock, initial, es[..|es| - 1], v);
      HeldStep(cfg, v, es[|es| - 1]);
    }
  }

  /**
   In every run, a token whose issuance was confirmed since the last start is accepted exactly until
   its expiry. The service forgets none of them early.
   */
  lemma ConfirmedAcceptedIff(cfg: Config, clock: real, initial: TokenMap, es: seq<Event>, w: World, token: string)
    requires IsRun(cfg, clock, initial, es, w) && w.sys.writer.None?
    requires cfg.hashToken(token) in w.hist.log
    ensures cfg.hashToken(token) in w.hist.grants
    ensures Valid(cfg, w.sys, token) <==>
            TokenExpiry(cfg, w.hist.grants[cfg.hashToken(token)].mintAt) > Unix(w.sys.clock) as real
  {
    var k := cfg.hashToken(token);
    RunHeld(cfg, clock, initial, es, w);
    var i :| 0 <= i < |w.hist.log| && w.hist.log[i] == k;
    hide Inv, TokenExpiry;
    if k in Visible(cfg, w.sys) {
      VisibleExpiry(cfg, w, k);
    }
  }

  /**
   In every run a minted token is accepted at most TTL seconds after its minting, and if its issuance
   was confirmed, for more than TTL - 1 seconds: exactly until floor(mint time) + TTL.
   */
  lemma AcceptedOnlyWithinTTL(cfg: Config, clock: real, initial: TokenMap, es: seq<Event>, w: World, token: string)
    requires IsRun(cfg, clock, initial, es, w) && cfg.hashToken(token) in w.hist.grants
    ensures
      var mintAt, ttl := w.hist.grants[cfg.hashToken(token)].mintAt, cfg.accessTokenTTL as real;
      && (Valid(cfg, w.sys, token) ==> w.sys.clock < mintAt + ttl)
      && (cfg.hashToken(token) in w.sys.tokens && w.sys.clock <= mintAt + ttl - 1.0 ==> Valid(cfg, w.sys, token))
      && (cfg.hashToken(token) in w.hist.log && w.sys.writer.None? ==>
            && (w.sys.clock <= mintAt + ttl - 1.0 ==> Valid(cfg, w.sys, token))
            && (Valid(cfg, w.sys, token) <==> w.sys.clock < (Unix(mintAt) + cfg.accessTokenTTL) as real))
  {
    var k := cfg.hashToken(token);
    TokenLifetime(cfg, w.hist.grants[k].mintAt, w.sys.clock);
    if k in w.sys.tokens {
      TokenProvenance(cfg, clock, initial, es, w, w.sys.tokens, k);
    }
    hide IsRun, TokenExpiry;
    if k in w.hist.log && w.sys.writer.None? {
      ConfirmedAcceptedIff(cfg, clock, initial, es, w, token);
    }
  }

  /**
   A restart keeps a confirmed, unexpired token exactly when the stored map was copied after its
   confirmation; so it keeps all of them exactly when the store is current.
   */
  lemma ConfirmedSurvivesRestartIff(cfg: Config, clock: real, initial: TokenMap, es: seq<Event>, w: World,
                                    token: string)
    requires IsRun(cfg, clock, initial, es, w) && NoTornSave(es) && w.sys.writer.None?
    requires cfg.hashToken(token) in w.hist.log && Valid(cfg, w.sys, token)
    ensures w.hist.storeStamp <= |w.hist.log|
    ensures Valid(cfg, Next(cfg, w.sys, Restart), token) <==>
            cfg.hashToken(token) !in Late(w.hist.log, w.hist.storeStamp)
    ensures PurgesUninterrupted(es) ==> Valid(cfg, Next(cfg, w.sys, Restart), token)
  {
    NoOrphan(cfg, clock, initial, es, w);
    ValidAfterRestartIff(cfg, clock, initial, es, w, token);
    if PurgesUninterrupted(es) {
      UninterruptedPurgesKeepStoreEqual(cfg, clock, initial, es, w);
    }
  }

  /**
   Which Saves carry a confirmed, unexpired token: every Save of an exchange does, and a purge's Save
   does exactly when its copy was taken after the confirmation. With the JSON store a power loss can
   therefore take such a token away only through a purge's stale copy.
   */
  lemma SavesCarryConfirmedIff(cfg: Config, clock: real, initial: TokenMap, es: seq<Event>, w: World, k: Hash)
    requires IsRun(cfg, clock, initial, es, w) && k in w.hist.log
    requires k in w.hist.grants && TokenExpiry(cfg, w.hist.grants[k].mintAt) > Unix(w.sys.clock) as real
    ensures k in w.sys.tokens && w.sys.tokens[k] == TokenExpiry(cfg, w.hist.grants[k].mintAt)
    ensures forall p | p in w.sys.purges && w.sys.purges[p].Snapshot? ::
              p in w.hist.stamps && w.hist.stamps[p] <= |w.hist.log| &&
              (k in w.sys.purges[p].copy <==> k !in Late(w.hist.log, w.hist.stamps[p]))
  {
    RunHeld(cfg, clock, initial, es, w);
    var i :| 0 <= i < |w.hist.log| && w.hist.log[i] == k;
    assert k in Visible(cfg, w.sys) && k in w.sys.tokens;
    hide Inv, Visible, TokenExpiry, Late;
    VisibleExpiry(cfg, w, k);
    TokenProvenance(cfg, clock, initial, es, w, w.sys.tokens, k);
    forall p | p in w.sys.purges && w.sys.purges[p].Snapshot?
      ensures p in w.hist.stamps && w.hist.stamps[p] <= |w.hist.log| &&
              (k in w.sys.purges[p].copy <==> k !in Late(w.hist.log, w.hist.stamps[p]))
    {
      CopyCarriesIff(cfg, w, p, k);
      if k in w.sys.purges[p].copy {
        TokenProvenance(cfg, clock, initial, es, w, w.sys.purges[p].copy, k);
      }
    }
  }

  lemma CopyCarriesIff(cfg: Config, w: World, p: nat, k: Hash)
    requires Inv(cfg, w) && p in w.sys.purges && w.sys.purges[p].Snapshot?
    ensures
      var now := Unix(w.sys.clock);
      && p in w.hist.stamps && w.hist.stamps[p] <= |w.hist.log|
      && (k in Live(w.sys.purges[p].copy, now) <==>
            k in Live(Visible(cfg, w.sys), now) && k !in Late(w.hist.log, w.hist.stamps[p]))
  {
    hide LockInv, TraceInv, CodeInv, GrantInv, OnceInv, PurgeInv, Mirrors, FailInv, Visible, Late;
    CopyMirrors(Unix(w.sys.clock), Visible(cfg, w.sys), w.hist.log, w.hist.stamps, w.sys.purges, p, k);
  }

  lemma CopyMirrors(now: int, visible: TokenMap, log: seq<Hash>, stamps: map<nat, nat>, purges: map<nat, PurgePhase>,
                    p: nat, k: Hash)
    requires CopiesMirror(now, visible, log, stamps, purges) && p in purges && purges[p].Snapshot?
    ensures p in stamps && stamps[p] <= |log|
    ensures k in Live(purges[p].copy, now) <==> k in Live(visible, now) && k !in Late(log, stamps[p])
  {
    var late := Late(log, stamps[p]);
    assert (visible - late) + map[] == visible - late;
    assert k in Live(visible - late, now) <==> k in Live(visible, now) && k !in late;
  }
}
