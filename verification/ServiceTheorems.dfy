/**
 What the invariant means for callers of the service: where tokens come from, what happens to
 codes, how memory and store relate, and what a restart or a failed Save can change. Every theorem
 speaks of an arbitrary interleaved run from an arbitrary store.
 */
module ServiceTheorems {
  import opened Wrappers
  import opened TokenMaps
  import opened Pkce
  import opened Grant
  import opened ServiceMachine
  import opened ServiceHistory
  import opened ServiceInvariants
  import RedirectUri

  /** `es` leads from a start on store content `initial` to `w`. */
  ghost predicate IsRun(cfg: Config, clock: real, initial: TokenMap, es: seq<Event>, w: World) {
    Startable(cfg, initial) && Exec(cfg, Start(clock, initial), es) == Some(w)
  }

  lemma RunInv(cfg: Config, clock: real, initial: TokenMap, es: seq<Event>, w: World)
    requires IsRun(cfg, clock, initial, es, w)
    ensures Inv(cfg, w)
    ensures w.hist.init == initial
  {
    hide Inv;
    ReachableInv(cfg, w);
    InitKept(cfg, Start(clock, initial), es);
  }

  /** How one step can change the parts of the history that runs are judged by. */
  lemma HistStep(cfg: Config, w: World, e: Event)
    requires Allowed(cfg, w, e)
    ensures
      var h, n := w.hist, Step(cfg, w, e).hist;
      && n.init == h.init && h.failed <= n.failed
      && (e != Restart ==> h.torn <= n.torn)
      && (!(e.Save? && e.outcome == WrittenButFailed) && h.orphan == map[] && h.torn == {} ==>
            n.orphan == map[] && n.torn == {})
  {
    if e.Save? {
      HistStepSave(cfg, w, e);
    } else {
      hide Next, Enabled, IssueRefusal, RequestRefusal;
    }
  }

  lemma HistStepSave(cfg: Config, w: World, e: Event)
    requires e.Save? && Allowed(cfg, w, e)
    ensures
      var h, n := w.hist, NextHist(cfg, w, e);
      && n.init == h.init && h.failed <= n.failed && h.torn <= n.torn
      && (e.outcome != WrittenButFailed && h.orphan == map[] && h.torn == {} ==> n.orphan == map[] && n.torn == {})
  {
    AfterSaveKeeps(cfg, w.sys, w.hist, e.tid, e.outcome);
    hide Next, HistAfterSave;
  }

  lemma AfterSaveKeeps(cfg: Config, s: Sys, h: Hist, tid: nat, outcome: SaveOutcome)
    requires tid in s.threads && s.threads[tid].Inserted?
    ensures
      var n := HistAfterSave(cfg, s, h, tid, outcome);
      && n.init == h.init && n.issued == h.issued && n.grants == h.grants && n.stamps == h.stamps
          && h.failed <= n.failed && h.torn <= n.torn
      && (outcome != WrittenButFailed && h.orphan == map[] && h.torn == {} ==> n.orphan == map[] && n.torn == {})
      && (n.storeStamp == |n.log| || (n.log == h.log && n.storeStamp == h.storeStamp && outcome == NotWritten))
  {
  }

  lemma {:induction false} InitKept(cfg: Config, v: World, es: seq<Event>)
    requires Exec(cfg, v, es).Some?
    ensures Exec(cfg, v, es).value.hist.init == v.hist.init
  {
    hide Step, Allowed;
    if |es| > 0 {
      InitKept(cfg, v, es[..|es| - 1]);
      HistStep(cfg, Exec(cfg, v, es[..|es| - 1]).value, es[|es| - 1]);
    }
  }

  // ----- Provenance -----

  /** What earned the token with hash `k`: a code issued and exchanged as RFC 6749 and RFC 7636 ask. */
  ghost predicate Earned(cfg: Config, h: Hist, k: Hash) {
    && k in h.grants
    && var g := h.grants[k];
       && g.req.code in h.issued
       && var r := h.issued[g.req.code];
          && r.areq.responseType == "code" && r.areq.clientID == cfg.clientID && r.areq.state != ""
          && cfg.redirectAllowed(r.areq.redirectURI)
          && g.req.grantType == "authorization_code" && g.req.clientID == cfg.clientID
          && (g.req.clientSecret == "" || g.req.clientSecret == cfg.clientSecret)
          && g.req.redirectURI == r.areq.redirectURI && g.req.redirectURI != ""
          && r.at <= g.checkedAt <= r.at + cfg.authCodeTTL as real
          && (r.areq.codeChallenge != "" ==>
                r.areq.codeChallengeMethod == "S256" && S256(cfg.sha256, g.req.codeVerifier) == r.areq.codeChallenge)
          && (cfg.mandatoryPKCE ==> r.areq.codeChallenge != "")
  }

  lemma GrantsEarned(cfg: Config, w: World, k: Hash)
    requires Inv(cfg, w) && k in w.hist.grants
    ensures Earned(cfg, w.hist, k)
  {
    var s, h := w.sys, w.hist;
    hide LockInv, TraceInv, OnceInv, PurgeInv, Mirrors, CopiesMirror, FailInv;
    var g := h.grants[k];
    assert GrantOk(cfg, s.clock, h.issued, h.consumed, g);
    assert IssueRefusal(cfg, h.issued[g.req.code].areq).None?;
  }

  /**
   Every hash the service accepts, has stored or is about to store was in the store before the first
   start, or was earned; its expiry is the initial one, or the one of its minting. This spans
   restarts: a token loaded at startup was itself earned in an earlier life of the service.
   */
  lemma TokenProvenance(cfg: Config, clock: real, initial: TokenMap, es: seq<Event>, w: World, m: TokenMap, k: Hash)
    requires IsRun(cfg, clock, initial, es, w)
    requires m == w.sys.tokens || m == w.sys.store || (exists p :: p in w.sys.purges && w.sys.purges[p] == Snapshot(m))
    requires k in m
    ensures Earned(cfg, w.hist, k) || (k !in w.hist.grants && k in initial)
    ensures m[k] == if k in w.hist.grants then TokenExpiry(cfg, w.hist.grants[k].mintAt) else initial[k]
  {
    RunInv(cfg, clock, initial, es, w);
    if k in w.hist.grants {
      GrantsEarned(cfg, w, k);
    }
    hide LockInv, CodeInv, GrantInv, OnceInv, PurgeInv, Mirrors, CopiesMirror, FailInv;
    if m != w.sys.tokens && m != w.sys.store {
      var p :| p in w.sys.purges && w.sys.purges[p] == Snapshot(m);
      assert Traced(cfg, initial, w.hist.grants, w.sys.purges[p].copy);
    }
  }

  /**
   With the redirect rules of the service, every token of every run went to an https URI whose host
   has claude.ai or anthropic.com as its last two labels.
   */
  lemma TokensOnlyToAllowedHosts(cfg: Config, parse: string -> Option<RedirectUri.Url>, clock: real, initial: TokenMap,
                                 es: seq<Event>, w: World, k: Hash)
    requires forall uri :: cfg.redirectAllowed(uri) <==> RedirectUri.IsAllowedRedirect(parse, uri)
    requires IsRun(cfg, clock, initial, es, w) && k in w.hist.grants
    ensures
      var u := parse(w.hist.grants[k].req.redirectURI);
      && u.Some? && u.value.scheme == "https"
      && (RedirectUri.Under(u.value.host, "claude", "ai") || RedirectUri.Under(u.value.host, "anthropic", "com"))
  {
    RunInv(cfg, clock, initial, es, w);
    GrantsEarned(cfg, w, k);
    hide Inv, RedirectUri.IsAllowedRedirect, RedirectUri.Under;
    RedirectUri.AllowedIffLabels(parse, w.hist.grants[k].req.redirectURI);
  }

  /** Over every run, no two tokens ever come from one code. */
  lemma OneTokenPerCode(cfg: Config, clock: real, initial: TokenMap, es: seq<Event>, w: World, k: Hash, l: Hash)
    requires IsRun(cfg, clock, initial, es, w)
    requires k in w.hist.grants && l in w.hist.grants && w.hist.grants[k].req.code == w.hist.grants[l].req.code
    ensures k == l
  {
    RunInv(cfg, clock, initial, es, w);
    hide LockInv, TraceInv, CodeInv, GrantInv, PurgeInv, Mirrors, CopiesMirror, FailInv;
  }

  /** Codes are conserved: each one issued is outstanding, or was consumed, purged or lost to a restart. */
  lemma CodesConserved(cfg: Config, clock: real, initial: TokenMap, es: seq<Event>, w: World)
    requires IsRun(cfg, clock, initial, es, w)
    ensures w.hist.issued.Keys == w.sys.codes.Keys + w.hist.consumed + w.hist.purged + w.hist.lost
    ensures |w.hist.issued| == |w.sys.codes| + |w.hist.consumed| + |w.hist.purged| + |w.hist.lost|
    ensures |w.hist.grants| <= |w.hist.consumed|
  {
    RunInv(cfg, clock, initial, es, w);
    hide LockInv, TraceInv, GrantInv, PurgeInv, Mirrors, CopiesMirror, FailInv;
    var s, h := w.sys, w.hist;
    assert |h.issued.Keys| == |s.codes.Keys| + |h.consumed| + |h.purged| + |h.lost|;
    GrantCount(h.grants, h.consumed);
  }

  lemma {:induction false} GrantCount(grants: map<Hash, GrantRecord>, consumed: set<string>)
    requires forall k, l | k in grants && l in grants && k != l :: grants[k].req.code != grants[l].req.code
    requires forall k | k in grants :: grants[k].req.code in consumed
    ensures |grants| <= |consumed|
    decreases |grants|
  {
    if grants.Keys != {} {
      var k :| k in grants;
      var rest := grants - {k};
      assert rest.Keys == grants.Keys - {k};
      GrantCount(rest, consumed - {grants[k].req.code});
    }
  }

  // ----- Burned codes -----

  /** No exchange can earn a token with `c` any more, and none has. */
  ghost predicate Dead(w: World, c: string) {
    && c in w.hist.issued && c !in w.sys.codes
    && (forall t | t in w.sys.threads :: Held(w.sys.threads[t]) != Some(c))
    && (forall k | k in w.hist.grants :: w.hist.grants[k].req.code != c)
  }

  lemma DeadStep(cfg: Config, w: World, e: Event, c: string)
    requires Dead(w, c) && Allowed(cfg, w, e)
    ensures Dead(Step(cfg, w, e), c)
  {
    if e.Begin? || e.Check? || e.Insert? {
      DeadStepExchange(cfg, w, e, c);
    }
  }

  lemma DeadStepExchange(cfg: Config, w: World, e: Event, c: string)
    requires e.Begin? || e.Check? || e.Insert?
    requires Dead(w, c) && Allowed(cfg, w, e)
    ensures Dead(Step(cfg, w, e), c)
  {
    if e.Check? {
      UnknownCodeRefused(cfg, w.sys.threads[e.tid].req, w.sys.clock);
    }
    hide RequestRefusal, CodeRefusal;
  }

  lemma {:induction false} DeadForGood(cfg: Config, w: World, es: seq<Event>, c: string)
    requires Dead(w, c) && Exec(cfg, w, es).Some?
    ensures Dead(Exec(cfg, w, es).value, c)
  {
    if |es| > 0 {
      DeadForGood(cfg, w, es[..|es| - 1], c);
      hide Dead;
      DeadStep(cfg, Exec(cfg, w, es[..|es| - 1]).value, es[|es| - 1], c);
    }
  }

  /**
   An exchange whose code check fails (expired, wrong redirect or wrong verifier) burns the code it
   consumed: whatever happens afterwards, no token is ever minted for it.
   */
  lemma FailedCheckBurnsCode(cfg: Config, clock: real, initial: TokenMap, es: seq<Event>, w: World, tid: nat,
                             later: seq<Event>, v: World)
    requires IsRun(cfg, clock, initial, es, w)
    requires tid in w.sys.threads && w.sys.threads[tid].Consumed? && w.sys.threads[tid].found.Some?
    requires CodeRefusal(cfg, w.sys.threads[tid].req, w.sys.threads[tid].found, w.sys.clock).Some?
    requires Exec(cfg, Step(cfg, w, Check(tid)), later) == Some(v)
    ensures forall k | k in v.hist.grants :: v.hist.grants[k].req.code != w.sys.threads[tid].req.code
  {
    RunInv(cfg, clock, initial, es, w);
    hide LockInv, TraceInv, PurgeInv, Mirrors, CopiesMirror, FailInv, CodeRefusal, RequestRefusal, IssueRefusal;
    var c, n := w.sys.threads[tid].req.code, Step(cfg, w, Check(tid));
    assert Held(w.sys.threads[tid]) == Some(c);
    assert PhaseOk(cfg, w.sys.clock, w.hist.issued, w.hist.consumed, w.sys.threads[tid]);
    assert Dead(n, c);
    DeadForGood(cfg, n, later, c);
  }

  /** A request refused for its grant type or client changes nothing; any other consumes its code. */
  lemma RefusedRequestKeepsCodes(cfg: Config, w: World, tid: nat, req: TokenRequest)
    requires Allowed(cfg, w, Begin(tid, req))
    ensures RequestRefusal(cfg, req).Some? ==> Step(cfg, w, Begin(tid, req)) == w
    ensures Step(cfg, w, Begin(tid, req)).sys.codes ==
            if RequestRefusal(cfg, req).Some? then w.sys.codes else w.sys.codes - {req.code}
    ensures RequestRefusal(cfg, req).Some? <==>
            req.grantType != "authorization_code" || req.clientID != cfg.clientID ||
            (req.clientSecret != "" && (cfg.clientSecret == "" || req.clientSecret != cfg.clientSecret))
  {
  }

  /** The run without its refused requests. */
  function WithoutRefused(cfg: Config, es: seq<Event>): seq<Event> {
    if |es| == 0 then []
    else
      var before, e := WithoutRefused(cfg, es[..|es| - 1]), es[|es| - 1];
      if e.Begin? && RequestRefusal(cfg, e.req).Some? then before else before + [e]
  }

  /**
   Requests refused for their grant type or client leave no trace: any run ends exactly where it would
   without them, so each code they named can still be exchanged, once, by whoever holds it.
   */
  lemma {:induction false} RefusedRequestsLeaveNoTrace(cfg: Config, w: World, es: seq<Event>)
    requires Exec(cfg, w, es).Some?
    ensures Exec(cfg, w, WithoutRefused(cfg, es)) == Exec(cfg, w, es)
  {
    if |es| > 0 {
      var before, e := es[..|es| - 1], es[|es| - 1];
      var v := Exec(cfg, w, before).value;
      RefusedRequestsLeaveNoTrace(cfg, w, before);
      if e.Begin? && RequestRefusal(cfg, e.req).Some? {
        RefusedRequestKeepsCodes(cfg, v, e.tid, e.req);
      } else {
        ExecSnoc(cfg, w, WithoutRefused(cfg, before), e);
      }
      hide Step, Allowed, RequestRefusal;
    }
  }

  /**
   Issuance accepts challenges of 43 to 128 characters, but a challenge longer than 43 matches no
   verifier: a code issued with one is never exchanged, in any run.
   */
  lemma LongChallengeNeverExchanged(cfg: Config, clock: real, initial: TokenMap, es: seq<Event>, w: World, k: Hash)
    requires IsRun(cfg, clock, initial, es, w) && k in w.hist.grants
    ensures
      var c := w.hist.grants[k].req.code;
      c in w.hist.issued && (w.hist.issued[c].areq.codeChallenge == "" || |w.hist.issued[c].areq.codeChallenge| == 43)
    ensures cfg.mandatoryPKCE ==> |w.hist.issued[w.hist.grants[k].req.code].areq.codeChallenge| == 43
  {
    RunInv(cfg, clock, initial, es, w);
    GrantsEarned(cfg, w, k);
    hide Inv;
    var g := w.hist.grants[k];
    MatchedChallengeIsADigest(cfg.sha256, w.hist.issued[g.req.code].areq.codeChallenge, g.req.codeVerifier);
  }

  // ----- Lifetimes -----

  /**
   A token outlives the issue time of its code by more than the two configured lifetimes exactly
   when a whole second began after the code expired and before the token was minted. The exchange
   reads the clock twice, once to check the code and once to mint, so this can happen.
   */
  lemma TokenOutlivesCodeIff(cfg: Config, clock: real, initial: TokenMap, es: seq<Event>, w: World, k: Hash)
    requires IsRun(cfg, clock, initial, es, w) && k in w.hist.grants
    ensures
      var g := w.hist.grants[k];
      g.req.code in w.hist.issued &&
      var r := w.hist.issued[g.req.code];
      && r.at <= g.checkedAt <= r.at + cfg.authCodeTTL as real
      && (TokenExpiry(cfg, g.mintAt) <= r.at + cfg.authCodeTTL as real + cfg.accessTokenTTL as real <==>
            Unix(g.mintAt) as real <= r.at + cfg.authCodeTTL as real)
  {
    RunInv(cfg, clock, initial, es, w);
    GrantsEarned(cfg, w, k);
    hide Inv;
    TokenLifetime(cfg, w.hist.grants[k].mintAt, 0.0);
  }

  // ----- Memory and store -----

  /** No Save of an exchange failed after having replaced the store. */
  ghost predicate NoTornSave(es: seq<Event>) {
    forall i | 0 <= i < |es| :: es[i].Save? ==> es[i].outcome != WrittenButFailed
  }

  /** A SQLite Save is all or nothing, so runs on SQLite have none. */
  lemma {:induction false} SqliteNeverTorn(cfg: Config, w: World, es: seq<Event>)
    requires cfg.kind == Sqlite && Exec(cfg, w, es).Some?
    ensures NoTornSave(es)
  {
    if |es| > 0 {
      SqliteNeverTorn(cfg, w, es[..|es| - 1]);
      var v, e := Exec(cfg, w, es[..|es| - 1]).value, es[|es| - 1];
      assert Enabled(cfg, v.sys, e);
      assert forall i | 0 <= i < |es| - 1 :: es[i] == es[..|es| - 1][i];
    }
  }

  lemma {:induction false} NoOrphan(cfg: Config, clock: real, initial: TokenMap, es: seq<Event>, w: World)
    requires IsRun(cfg, clock, initial, es, w) && NoTornSave(es)
    ensures w.hist.orphan == map[] && w.hist.torn == {}
  {
    hide Step, Allowed;
    if |es| > 0 {
      var v := Exec(cfg, Start(clock, initial), es[..|es| - 1]).value;
      HistStep(cfg, v, es[|es| - 1]);
      NoOrphan(cfg, clock, initial, es[..|es| - 1], v);
      assert es[|es| - 1].Save? ==> es[|es| - 1].outcome != WrittenButFailed;
    }
  }

  /**
   In every reachable state the store's unexpired content is known exactly: the tokens a reader can
   see, less those confirmed after the stored map was copied, plus the token of a torn Save.
   */
  lemma StoreContentExact(cfg: Config, clock: real, initial: TokenMap, es: seq<Event>, w: World)
    requires IsRun(cfg, clock, initial, es, w)
    ensures w.hist.storeStamp <= |w.hist.log|
    ensures Live(w.sys.store, Unix(w.sys.clock)) ==
            Live((Visible(cfg, w.sys) - Late(w.hist.log, w.hist.storeStamp)) + w.hist.orphan, Unix(w.sys.clock))
  {
    RunInv(cfg, clock, initial, es, w);
    hide LockInv, TraceInv, CodeInv, GrantInv, OnceInv, PurgeInv, CopiesMirror, FailInv;
  }

  /** Without torn Saves the unexpired store is within the unexpired memory, with equal expiries. */
  lemma StoreWithinMemory(cfg: Config, clock: real, initial: TokenMap, es: seq<Event>, w: World)
    requires IsRun(cfg, clock, initial, es, w) && NoTornSave(es)
    ensures
      var now := Unix(w.sys.clock);
      forall k | k in Live(w.sys.store, now) :: k in Live(w.sys.tokens, now) && Live(w.sys.store,
          now)[k] == Live(w.sys.tokens, now)[k]
  {
    StoreContentExact(cfg, clock, initial, es, w);
    NoOrphan(cfg, clock, initial, es, w);
    var now := Unix(w.sys.clock);
    var seen := Visible(cfg, w.sys) - Late(w.hist.log, w.hist.storeStamp);
    forall k | k in Live(w.sys.store, now)
      ensures k in Live(w.sys.tokens, now) && Live(w.sys.store, now)[k] == Live(w.sys.tokens, now)[k]
    {
      assert k in Live(seen + w.hist.orphan, now);
      assert Live(w.sys.store, now)[k] == Live(seen + w.hist.orphan, now)[k];
    }
  }

  /**
   The tokens valid after a restart, exactly. In particular a restart makes no token valid that
   memory would reject, except the one of a torn Save.
   */
  lemma ValidAfterRestartIff(cfg: Config, clock: real, initial: TokenMap, es: seq<Event>, w: World, token: string)
    requires IsRun(cfg, clock, initial, es, w)
    ensures w.hist.storeStamp <= |w.hist.log|
    ensures
      var k, now, visible := cfg.hashToken(token), Unix(w.sys.clock), Visible(cfg, w.sys);
      Valid(cfg, Next(cfg, w.sys, Restart), token) <==>
        if k in w.hist.orphan then w.hist.orphan[k] > now as real
        else k in visible && visible[k] > now as real && k !in Late(w.hist.log, w.hist.storeStamp)
    ensures NoTornSave(es) && Valid(cfg, Next(cfg, w.sys, Restart), token) ==> Valid(cfg, w.sys, token)
  {
    StoreContentExact(cfg, clock, initial, es, w);
    var k, now, visible := cfg.hashToken(token), Unix(w.sys.clock), Visible(cfg, w.sys);
    var seen := visible - Late(w.hist.log, w.hist.storeStamp);
    assert k in Live(w.sys.store, now) <==> k in Live(seen + w.hist.orphan, now);
    if NoTornSave(es) && Valid(cfg, Next(cfg, w.sys, Restart), token) {
      StoreWithinMemory(cfg, clock, initial, es, w);
    }
  }

  /** Store and visible memory agree exactly when no token confirmed after the stored copy is still unexpired. */
  lemma StoreEqualsMemoryIff(cfg: Config, clock: real, initial: TokenMap, es: seq<Event>, w: World)
    requires IsRun(cfg, clock, initial, es, w) && NoTornSave(es)
    ensures w.hist.storeStamp <= |w.hist.log|
    ensures
      var now, visible := Unix(w.sys.clock), Visible(cfg, w.sys);
      Live(w.sys.store, now) == Live(visible, now) <==>
        (forall i | w.hist.storeStamp <= i < |w.hist.log| :: w.hist.log[i] !in Live(visible, now))
  {
    StoreContentExact(cfg, clock, initial, es, w);
    NoOrphan(cfg, clock, initial, es, w);
    AgreesIff(Unix(w.sys.clock), Visible(cfg, w.sys), w.hist.log, w.hist.storeStamp, w.sys.store);
  }

  lemma AgreesIff(now: int, visible: TokenMap, log: seq<Hash>, stamp: nat, m: TokenMap)
    requires stamp <= |log| && Live(m, now) == Live((visible - Late(log, stamp)) + map[], now)
    ensures Live(m, now) == Live(visible, now) <==> (forall i | stamp <= i < |log| :: log[i] !in Live(visible, now))
  {
    var late := Late(log, stamp);
    assert (visible - late) + map[] == visible - late;
    if i :| stamp <= i < |log| && log[i] in Live(visible, now) {
      assert log[i] in late && log[i] !in Live(visible - late, now);
    } else {
      forall k | k in late ensures k !in Live(visible, now) {
        var i :| stamp <= i < |log| && log[i] == k;
      }
      assert Live(visible - late, now) == Live(visible, now);
    }
  }

  /** The copy that a purge saves is what readers see, less the tokens confirmed since it was taken. */
  lemma PurgeSaveContent(cfg: Config, w: World, pid: nat, outcome: SaveOutcome)
    requires Inv(cfg, w) && outcome != NotWritten
    requires pid in w.sys.purges && w.sys.purges[pid].Snapshot?
    ensures pid in w.hist.stamps
    ensures
      var s, h, now := w.sys, w.hist, Unix(w.sys.clock);
      Mirrors(now, Visible(cfg, s), h.log, h.stamps[pid], map[], StoreAfter(cfg.kind, s.store, s.purges[pid].copy,
          now, outcome))
  {
    hide LockInv, TraceInv, CodeInv, GrantInv, OnceInv, PurgeInv, CopiesMirror, FailInv, Persist, Visible, Mirrors;
    var s, h, now := w.sys, w.hist, Unix(w.sys.clock);
    var store := StoreAfter(cfg.kind, s.store, s.purges[pid].copy, now, outcome);
    TracePurgeSave(cfg, h.init, h.grants, s.tokens, s.store, s.purges, now, pid, outcome, store);
    CopySaved(now, Visible(cfg, s), h.log, h.stamps, s.purges, pid);
  }

  /** A purge's Save leaves the store current exactly when no token confirmed since its copy is unexpired. */
  lemma PurgeSaveCurrentIff(cfg: Config, clock: real, initial: TokenMap, es: seq<Event>, w: World, pid: nat,
                            outcome: SaveOutcome)
    requires IsRun(cfg, clock, initial, es, w)
    requires pid in w.sys.purges && w.sys.purges[pid].Snapshot? && outcome != NotWritten && Possible(cfg.kind, outcome)
    ensures pid in w.hist.stamps && w.hist.stamps[pid] <= |w.hist.log|
    ensures
      var now, visible, n := Unix(w.sys.clock), Visible(cfg, w.sys), Next(cfg, w.sys, PurgeSave(pid, outcome));
      Live(n.store, now) == Live(visible, now) <==>
        (forall i | w.hist.stamps[pid] <= i < |w.hist.log| :: w.hist.log[i] !in Live(visible, now))
  {
    hide IsRun, Inv, Persist, Visible, Live, StoreAfter, Late;
    RunInv(cfg, clock, initial, es, w);
    PurgeSaveContent(cfg, w, pid, outcome);
    var s, h, now := w.sys, w.hist, Unix(w.sys.clock);
    AgreesIff(now, Visible(cfg, s), h.log, h.stamps[pid], StoreAfter(cfg.kind, s.store, s.purges[pid].copy, now,
        outcome));
  }

  // ----- Purges that no issuance interrupts -----

  /** The pending copies are the open ones, and while none is interrupted they miss no confirmed token. */
  lemma {:induction false} UninterruptedStamps(cfg: Config, clock: real, initial: TokenMap, es: seq<Event>, w: World)
    requires IsRun(cfg, clock, initial, es, w) && PurgesUninterrupted(es)
    ensures w.hist.storeStamp == |w.hist.log|
    ensures forall p | p in w.sys.purges && w.sys.purges[p].Snapshot? ::
              p in OpenCopies(es) && p in w.hist.stamps && w.hist.stamps[p] == |w.hist.log|
  {
    if |es| > 0 {
      var before, e := es[..|es| - 1], es[|es| - 1];
      var v := Exec(cfg, Start(clock, initial), before).value;
      UninterruptedStamps(cfg, clock, initial, before, v);
      UninterruptedStep(cfg, v, e, OpenCopies(before), OpenCopies(es));
    }
  }

  /** How one step changes the log and the stamps. */
  lemma StampsKept(cfg: Config, w: World, e: Event)
    requires Allowed(cfg, w, e)
    ensures
      var h, n := w.hist, NextHist(cfg, w, e);
      && (!e.Save? && !e.PurgeSave? && e != Restart ==> n.log == h.log && n.storeStamp == h.storeStamp)
      && (e.Save? ==>
            || n.storeStamp == |n.log|
            || (n.log == h.log && n.storeStamp == h.storeStamp && e.outcome == NotWritten))
      && (e == Restart ==> n.log == [] && n.storeStamp == 0)
      && (e.PurgeSave? ==> n.log == h.log)
      && (e.PurgeSave? ==>
          n.storeStamp == if e.outcome == NotWritten || e.pid !in h.stamps then h.storeStamp else h.stamps[e.pid])
      && (e != Restart ==> n.stamps == if e.PurgeSnapshot? then h.stamps[e.pid := |h.log|] else h.stamps)
  {
    if e.Save? {
      AfterSaveKeeps(cfg, w.sys, w.hist, e.tid, e.outcome);
    }
    hide Next, HistAfterSave, IssueRefusal, RequestRefusal;
  }

  /** A pending copy was just taken, or was pending before and is not being saved. */
  lemma CopiesPending(cfg: Config, s: Sys, e: Event, p: nat)
    requires Enabled(cfg, s, e)
    requires p in Next(cfg, s, e).purges && Next(cfg, s, e).purges[p].Snapshot?
    ensures e != Restart
    ensures e == PurgeSnapshot(p) || (p in s.purges && s.purges[p].Snapshot? && !(e.PurgeSave? && e.pid == p))
    ensures e.PurgeSave? ==> e.pid in s.purges && s.purges[e.pid].Snapshot?
  {
  }

  lemma UninterruptedStep(cfg: Config, v: World, e: Event, open: set<nat>, after: set<nat>)
    requires Allowed(cfg, v, e) && v.hist.storeStamp == |v.hist.log|
    requires forall p | p in v.sys.purges && v.sys.purges[p].Snapshot? ::
               p in open && p in v.hist.stamps && v.hist.stamps[p] == |v.hist.log|
    requires e.Save? && e.outcome == Saved ==> open == {}
    requires forall p | p in open && !(e.PurgeSave? && e.pid == p) && e != Restart :: p in after
    requires e.PurgeSnapshot? ==> e.pid in after
    ensures
      var w := Step(cfg, v, e);
      && w.hist.storeStamp == |w.hist.log|
      && forall p | p in w.sys.purges && w.sys.purges[p].Snapshot? ::
           p in after && p in w.hist.stamps && w.hist.stamps[p] == |w.hist.log|
  {
    StampsKept(cfg, v, e);
    SaveKeepsLog(cfg, v, e);
    var w := Step(cfg, v, e);
    assert e.PurgeSave? ==> e.pid in v.sys.purges && v.sys.purges[e.pid].Snapshot?;
    hide Next, NextHist, Enabled;
    forall p | p in w.sys.purges && w.sys.purges[p].Snapshot?
      ensures p in after && p in w.hist.stamps && w.hist.stamps[p] == |w.hist.log|
    {
      CopiesPending(cfg, v.sys, e, p);
    }
  }

  /** A Save that does not return nil confirms no token. */
  lemma SaveKeepsLog(cfg: Config, w: World, e: Event)
    requires Allowed(cfg, w, e)
    ensures e.Save? && e.outcome != Saved ==> NextHist(cfg, w, e).log == w.hist.log
  {
    hide Next;
  }

  /**
   As long as no exchange saves between a purge's copy and the Save of that copy, the store always
   agrees with what readers can see, whatever Saves fail, so a restart between two requests changes
   no answer. Runs of the operations one after another are of this kind.
   */
  lemma UninterruptedPurgesKeepStoreEqual(cfg: Config, clock: real, initial: TokenMap, es: seq<Event>, w: World)
    requires IsRun(cfg, clock, initial, es, w) && NoTornSave(es) && PurgesUninterrupted(es)
    ensures Live(w.sys.store, Unix(w.sys.clock)) == Live(Visible(cfg, w.sys), Unix(w.sys.clock))
    ensures w.sys.writer.None? ==> forall token :: Valid(cfg, Next(cfg, w.sys, Restart), token) <==> Valid(cfg,
            w.sys, token)
  {
    UninterruptedStamps(cfg, clock, initial, es, w);
    StoreEqualsMemoryIff(cfg, clock, initial, es, w);
    if w.sys.writer.None? {
      var now := Unix(w.sys.clock);
      forall token
        ensures Valid(cfg, Next(cfg, w.sys, Restart), token) <==> Valid(cfg, w.sys, token)
      {
        assert cfg.hashToken(token) in Live(w.sys.store, now) <==> cfg.hashToken(token) in Live(w.sys.tokens, now);
      }
    }
  }

  // ----- Failed issuance -----

  /**
   A token whose Save failed is never accepted and never copied by a purge in the same process; one
   whose failing Save wrote nothing is in no store either.
   */
  lemma FailedTokenInvisible(cfg: Config, clock: real, initial: TokenMap, es: seq<Event>, w: World, k: Hash)
    requires IsRun(cfg, clock, initial, es, w)
    requires k in w.hist.failed + w.hist.torn
    ensures w.sys.writer.None? ==> k !in w.sys.tokens
    ensures forall p | p in w.sys.purges && w.sys.purges[p].Snapshot? :: k !in w.sys.purges[p].copy
    ensures k in w.hist.failed ==> k !in w.sys.store
  {
    RunInv(cfg, clock, initial, es, w);
    hide LockInv, TraceInv, CodeInv, GrantInv, OnceInv, PurgeInv, Mirrors, CopiesMirror;
  }

  lemma {:induction false} FailedStays(cfg: Config, w: World, es: seq<Event>)
    requires Exec(cfg, w, es).Some?
    ensures w.hist.failed <= Exec(cfg, w, es).value.hist.failed
    ensures (forall i | 0 <= i < |es| :: es[i] != Restart) ==> w.hist.torn <= Exec(cfg, w, es).value.hist.torn
  {
    hide Step, Allowed;
    if |es| > 0 {
      FailedStays(cfg, w, es[..|es| - 1]);
      HistStep(cfg, Exec(cfg, w, es[..|es| - 1]).value, es[|es| - 1]);
      assert (forall i | 0 <= i < |es| :: es[i] != Restart) ==> es[|es| - 1] != Restart;
    }
  }

  lemma {:induction false} ExecConcat(cfg: Config, w: World, es: seq<Event>, fs: seq<Event>)
    requires Exec(cfg, w, es).Some?
    ensures Exec(cfg, w, es + fs) == Exec(cfg, Exec(cfg, w, es).value, fs)
  {
    if |fs| == 0 {
      assert es + fs == es;
    } else {
      ExecConcat(cfg, w, es, fs[..|fs| - 1]);
      assert (es + fs)[..|es + fs| - 1] == es + fs[..|fs| - 1];
    }
  }

  lemma FailedStaysInvisible(cfg: Config, clock: real, initial: TokenMap, es: seq<Event>, w: World, k: Hash,
                             later: seq<Event>, v: World)
    requires IsRun(cfg, clock, initial, es, w) && k in w.hist.failed + w.hist.torn
    requires Exec(cfg, w, later) == Some(v)
    requires NoTornSave(es) || (forall i | 0 <= i < |later| :: later[i] != Restart)
    ensures v.sys.writer.None? ==> k !in v.sys.tokens
  {
    hide Step, Allowed, Next;
    if NoTornSave(es) {
      NoOrphan(cfg, clock, initial, es, w);
    }
    FailedStays(cfg, w, later);
    ExecConcat(cfg, Start(clock, initial), es, later);
    FailedTokenInvisible(cfg, clock, initial, es + later, v, k);
  }

  /**
   Fail-closed issuance over whole runs: a token whose exchange is about to be answered with a
   server error is rejected by every later validation, up to the next restart; and beyond any
   restart when no failing Save had replaced the store.
   */
  lemma ServerErrorTokenNeverValid(cfg: Config, clock: real, initial: TokenMap, es: seq<Event>, w: World, tid: nat,
                                   later: seq<Event>, v: World)
    requires IsRun(cfg, clock, initial, es, w)
    requires tid in w.sys.threads && w.sys.threads[tid].Persisted? && !w.sys.threads[tid].ok
    requires Exec(cfg, w, later) == Some(v)
    requires NoTornSave(es) || (forall i | 0 <= i < |later| :: later[i] != Restart)
    ensures Observe(cfg, w.sys, Unlock(tid)) == ExchangeResult(tid, Err(ServerError))
    ensures v.sys.writer.None? ==>
            Observe(cfg, v.sys, Validate(w.sys.threads[tid].token)) == ValidateResult(w.sys.threads[tid].token, false)
  {
    hide Inv, IsRun, NoTornSave, Exec;
    RunInv(cfg, clock, initial, es, w);
    ErrorMeansFailed(cfg, w, tid);
    FailedStaysInvisible(cfg, clock, initial, es, w, cfg.hashToken(w.sys.threads[tid].token), later, v);
  }

  lemma ErrorMeansFailed(cfg: Config, w: World, tid: nat)
    requires Inv(cfg, w) && tid in w.sys.threads && w.sys.threads[tid].Persisted? && !w.sys.threads[tid].ok
    ensures cfg.hashToken(w.sys.threads[tid].token) in w.hist.failed + w.hist.torn
  {
    hide LockInv, TraceInv, CodeInv, GrantInv, OnceInv, PurgeInv, Mirrors, CopiesMirror;
  }
}
