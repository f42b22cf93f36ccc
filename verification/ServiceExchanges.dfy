/**
 What an exchange is answered, in every interleaved run and in plain terms: which condition gives
 which error, and that a correct request gets a token that is then accepted until it expires.
 */
module ServiceExchanges {
  import opened Wrappers
  import opened TokenMaps
  import opened Grant
  import opened ServiceMachine
  import opened ServiceHistory
  import opened ServiceInvariants
  import opened ServiceTheorems
  import ServiceLifetimes
  import Base64Url

  /** A step of exchange `tid`. */
  predicate Of(e: Event, tid: nat) {
    (e.Begin? || e.Check? || e.Insert? || e.Save? || e.Unlock?) && e.tid == tid
  }

  /** Steps of others, without a restart. */
  predicate Others(es: seq<Event>, tid: nat) {
    forall i | 0 <= i < |es| :: es[i] != Restart && !Of(es[i], tid)
  }

  lemma OtherThread(cfg: Config, s: Sys, e: Event, tid: nat)
    requires e.Begin? || e.Check? || e.Insert? || e.Save? || e.Unlock?
    requires Enabled(cfg, s, e) && e.tid != tid && tid in s.threads
    ensures tid in Next(cfg, s, e).threads && Next(cfg, s, e).threads[tid] == s.threads[tid]
  {
    hide CodeRefusal, RequestRefusal, StoreAfter, TokenExpiry;
  }

  lemma ThreadKept(cfg: Config, s: Sys, e: Event, tid: nat)
    requires Enabled(cfg, s, e) && e != Restart && !Of(e, tid) && tid in s.threads
    ensures tid in Next(cfg, s, e).threads && Next(cfg, s, e).threads[tid] == s.threads[tid]
  {
    if e.Begin? || e.Check? || e.Insert? || e.Save? || e.Unlock? {
      OtherThread(cfg, s, e, tid);
    } else {
      hide AfterBegin, AfterCheck, AfterInsert, AfterSave, AfterUnlock;
      hide IssueRefusal, StoreAfter, SweepsCodes, SweepTokens, CodeFor;
      assert Next(cfg, s, e).threads == s.threads;
    }
  }

  lemma PhaseKept(cfg: Config, w: World, e: Event, tid: nat)
    requires Allowed(cfg, w, e) && e != Restart && !Of(e, tid) && tid in w.sys.threads
    ensures
      var n := Step(cfg, w, e);
      && tid in n.sys.threads && n.sys.threads[tid] == w.sys.threads[tid]
      && w.sys.clock <= n.sys.clock && w.hist.log <= n.hist.log
  {
    hide Next, NextHist, Enabled, Of;
    assert Enabled(cfg, w.sys, e);
    ThreadKept(cfg, w.sys, e, tid);
    LogGrows(cfg, w, e);
    ServiceLifetimes.StepClock(cfg, w, e);
  }

  lemma LogGrows(cfg: Config, w: World, e: Event)
    requires Allowed(cfg, w, e) && e != Restart
    ensures w.hist.log <= NextHist(cfg, w, e).log
  {
    if e.Save? {
      ServiceLifetimes.SaveLogs(cfg, w.sys, w.hist, e.tid, e.outcome);
    } else {
      StampsKept(cfg, w, e);
    }
    hide Next, HistAfterSave, IssueRefusal, RequestRefusal;
  }

  /** While others run, an exchange stays where it is. */
  lemma {:induction false} PhaseStays(cfg: Config, w: World, es: seq<Event>, tid: nat)
    requires tid in w.sys.threads && Others(es, tid) && Exec(cfg, w, es).Some?
    ensures
      var v := Exec(cfg, w, es).value;
      && tid in v.sys.threads && v.sys.threads[tid] == w.sys.threads[tid]
      && w.sys.clock <= v.sys.clock && w.hist.log <= v.hist.log
  {
    hide Step, Allowed, Of;
    if |es| > 0 {
      PhaseStays(cfg, w, es[..|es| - 1], tid);
      PhaseKept(cfg, Exec(cfg, w, es[..|es| - 1]).value, es[|es| - 1], tid);
    }
  }

  /** The answer to a request that is refused before its code is touched; any other goes on in silence. */
  lemma BeginAnswers(cfg: Config, w: World, tid: nat, req: TokenRequest)
    requires Allowed(cfg, w, Begin(tid, req))
    ensures Observe(cfg, w.sys, Begin(tid, req)) ==
            if req.grantType != "authorization_code" then ExchangeResult(tid, Err(UnsupportedGrantType))
            else if req.clientID != cfg.clientID then ExchangeResult(tid, Err(InvalidClient))
            else if |req.clientSecret| > 0 && (|cfg.clientSecret| == 0 || req.clientSecret != cfg.clientSecret) then
              ExchangeResult(tid, Err(InvalidClient))
            else Silent
  {
    RequestJudged(cfg, req);
    hide RequestRefusal;
  }

  /** The request comes from the right client for the right grant. */
  predicate WellMeant(cfg: Config, req: TokenRequest) {
    && req.grantType == "authorization_code" && req.clientID == cfg.clientID
    && (|req.clientSecret| == 0 || req.clientSecret == cfg.clientSecret)
  }

  /** After Begin the exchange holds what its code was issued with, or nothing. */
  lemma BeginHolds(cfg: Config, w: World, tid: nat, req: TokenRequest)
    requires Inv(cfg, w) && Allowed(cfg, w, Begin(tid, req)) && WellMeant(cfg, req)
    ensures req.code in w.sys.codes ==> req.code in w.hist.issued
    ensures
      var n := Step(cfg, w, Begin(tid, req));
      var found :=
        if req.code in w.sys.codes then
          Some(CodeFor(cfg, w.hist.issued[req.code].areq, w.hist.issued[req.code].at))
        else None;
      n.sys.threads == w.sys.threads[tid := Consumed(req, found)]
  {
    RequestJudged(cfg, req);
    hide LockInv, TraceInv, GrantInv, OnceInv, PurgeInv, Mirrors, CopiesMirror, FailInv, RequestRefusal, CodeFor;
  }

  /**
   What the check of an exchange answers, whatever others do between the consumption of the code and the
   check: the conditions in order, each with its error. `w` is where the exchange begins, `u` where it
   checks; the code is judged by what it was issued for.
   */
  lemma CheckAnswers(cfg: Config, clock: real, initial: TokenMap, es: seq<Event>, w: World, tid: nat, req: TokenRequest,
                     others: seq<Event>, u: World)
    requires IsRun(cfg, clock, initial, es, w) && Allowed(cfg, w, Begin(tid, req))
    requires req.grantType == "authorization_code" && req.clientID == cfg.clientID
    requires |req.clientSecret| == 0 || req.clientSecret == cfg.clientSecret
    requires Others(others, tid) && Exec(cfg, Step(cfg, w, Begin(tid, req)), others) == Some(u)
    ensures Allowed(cfg, u, Check(tid))
    ensures req.code in w.sys.codes ==> req.code in w.hist.issued
    ensures Observe(cfg, u.sys, Check(tid)) ==
            if req.code !in w.sys.codes then ExchangeResult(tid, Err(InvalidOrExpiredCode))
            else
              var issue := w.hist.issued[req.code];
              if issue.at + cfg.authCodeTTL as real < u.sys.clock then ExchangeResult(tid, Err(InvalidOrExpiredCode))
              else if |req.redirectURI| == 0 || req.redirectURI != issue.areq.redirectURI then
                ExchangeResult(tid, Err(RedirectMismatch))
              else if |issue.areq.codeChallenge| > 0 &&
                      Base64Url.Decode(issue.areq.codeChallenge) != Some(cfg.sha256(req.codeVerifier)) then
                ExchangeResult(tid, Err(PkceFailed))
              else Silent
  {
    RunInv(cfg, clock, initial, es, w);
    BeginHolds(cfg, w, tid, req);
    hide Inv, Step, Exec, Base64Url.Decode, IsRun;
    PhaseStays(cfg, Step(cfg, w, Begin(tid, req)), others, tid);
    var p := u.sys.threads[tid];
    CodeJudged(cfg, req, p.found, u.sys.clock);
    hide CodeRefusal;
  }

  /** An exchange that its check lets through goes on to insert its token. */
  lemma CheckPasses(cfg: Config, u: World, tid: nat)
    requires Allowed(cfg, u, Check(tid)) && Observe(cfg, u.sys, Check(tid)) == Silent
    ensures tid in Step(cfg, u, Check(tid)).sys.threads && Step(cfg, u, Check(tid)).sys.threads[tid].Checked?
  {
    UnknownCodeRefused(cfg, u.sys.threads[tid].req, u.sys.clock);
    hide CodeRefusal;
  }

  lemma InsertPasses(cfg: Config, x: World, tid: nat, token: string, mintAt: real)
    requires Allowed(cfg, x, Insert(tid, token, mintAt))
    ensures
      var n := Step(cfg, x, Insert(tid, token, mintAt)).sys;
      tid in n.threads && n.threads[tid].Inserted? && n.threads[tid].token == token
  {
    hide TokenExpiry;
  }

  lemma SavePasses(cfg: Config, y: World, tid: nat, outcome: SaveOutcome)
    requires Allowed(cfg, y, Save(tid, outcome))
    ensures
      var n := Step(cfg, y, Save(tid, outcome));
      && tid in n.sys.threads && n.sys.threads[tid].Persisted? && n.sys.threads[tid].token == y.sys.threads[tid].token
      && (n.sys.threads[tid].ok <==> outcome == Saved)
      && (outcome == Saved ==> cfg.hashToken(y.sys.threads[tid].token) in n.hist.log)
  {
    ServiceLifetimes.SaveLogs(cfg, y.sys, y.hist, tid, outcome);
    var k := cfg.hashToken(y.sys.threads[tid].token);
    assert (y.hist.log + [k])[|y.hist.log|] == k;
    hide StoreAfter, HistAfterSave;
  }

  lemma UnlockPasses(cfg: Config, z: World, tid: nat)
    requires tid in z.sys.threads && z.sys.threads[tid].Persisted?
    ensures Allowed(cfg, z, Unlock(tid))
    ensures
      var p := z.sys.threads[tid];
      Observe(cfg, z.sys, Unlock(tid)) == ExchangeResult(tid, if p.ok then Ok(p.token) else Err(ServerError))
    ensures
      var n := Step(cfg, z, Unlock(tid));
      n.sys.writer.None? && n.hist == z.hist && n.sys.clock == z.sys.clock
  {
  }

  /**
   The rest of an exchange that its check lets through. It answers Ok with its token exactly when its
   Save succeeds, whatever others do in between; `u` is where it checks, and each `others` is what
   happens until its next step.
   */
  lemma ExchangeAnswers(cfg: Config, u: World, tid: nat, others1: seq<Event>, x: World, token: string, mintAt: real,
                        others2: seq<Event>, y: World, outcome: SaveOutcome, others3: seq<Event>, z: World)
    requires Allowed(cfg, u, Check(tid)) && Observe(cfg, u.sys, Check(tid)) == Silent
    requires Others(others1, tid) && Exec(cfg, Step(cfg, u, Check(tid)), others1) == Some(x)
    requires Allowed(cfg, x, Insert(tid, token, mintAt))
    requires Others(others2, tid) && Exec(cfg, Step(cfg, x, Insert(tid, token, mintAt)), others2) == Some(y)
    requires Allowed(cfg, y, Save(tid, outcome))
    requires Others(others3, tid) && Exec(cfg, Step(cfg, y, Save(tid, outcome)), others3) == Some(z)
    ensures Allowed(cfg, z, Unlock(tid))
    ensures Observe(cfg, z.sys, Unlock(tid)) ==
            ExchangeResult(tid, if outcome == Saved then Ok(token) else Err(ServerError))
    ensures outcome == Saved ==> cfg.hashToken(token) in z.hist.log
  {
    hide Step, Exec, Allowed, Observe, Others;
    CheckPasses(cfg, u, tid);
    PhaseStays(cfg, Step(cfg, u, Check(tid)), others1, tid);
    InsertPasses(cfg, x, tid, token, mintAt);
    PhaseStays(cfg, Step(cfg, x, Insert(tid, token, mintAt)), others2, tid);
    SavePasses(cfg, y, tid, outcome);
    PhaseStays(cfg, Step(cfg, y, Save(tid, outcome)), others3, tid);
    UnlockPasses(cfg, z, tid);
  }

  /**
   A token that an exchange answers with is accepted from that answer on until it expires. `es` is the
   run up to the answer.
   */
  lemma AnsweredTokenAccepted(cfg: Config, clock: real, initial: TokenMap, es: seq<Event>, z: World, tid: nat,
                              token: string)
    requires IsRun(cfg, clock, initial, es, z) && tid in z.sys.threads && z.sys.threads[tid].Persisted?
    requires cfg.hashToken(token) in z.hist.log
    ensures cfg.hashToken(token) in z.hist.grants
    ensures
      var mintAt := z.hist.grants[cfg.hashToken(token)].mintAt;
      Valid(cfg, Step(cfg, z, Unlock(tid)).sys, token) <==>
        z.sys.clock < (mintAt.Floor + cfg.accessTokenTTL) as real
  {
    var k, n := cfg.hashToken(token), Step(cfg, z, Unlock(tid));
    UnlockPasses(cfg, z, tid);
    ExecSnoc(cfg, Start(clock, initial), es, Unlock(tid));
    hide Step, Exec, Allowed, TokenExpiry;
    ServiceLifetimes.ConfirmedAcceptedIff(cfg, clock, initial, es + [Unlock(tid)], n, token);
    TokenLifetime(cfg, z.hist.grants[k].mintAt, z.sys.clock);
  }

  /**
   A correct exchange gets a token. The request names the grant type authorization_code and the right
   client, its code is held and was issued for the same redirect URI, the check comes no later than the
   code's expiry, and the code has no challenge or one that decodes to the digest of the verifier. Then,
   whatever others do in between, the answer is Ok with the new token when its Save succeeds.
   */
  lemma CorrectExchangeGetsToken(cfg: Config, clock: real, initial: TokenMap, es: seq<Event>, w: World, tid: nat,
                                 req: TokenRequest, others: seq<Event>, u: World, others1: seq<Event>, x: World,
                                 token: string, mintAt: real, others2: seq<Event>, y: World,
                                 others3: seq<Event>, z: World)
    requires IsRun(cfg, clock, initial, es, w) && Allowed(cfg, w, Begin(tid, req))
    requires req.grantType == "authorization_code" && req.clientID == cfg.clientID
    requires |req.clientSecret| == 0 || req.clientSecret == cfg.clientSecret
    requires req.code in w.sys.codes && req.code in w.hist.issued
    requires |req.redirectURI| > 0 && req.redirectURI == w.hist.issued[req.code].areq.redirectURI
    requires
      var challenge := w.hist.issued[req.code].areq.codeChallenge;
      |challenge| == 0 || Base64Url.Decode(challenge) == Some(cfg.sha256(req.codeVerifier))
    requires Others(others, tid) && Exec(cfg, Step(cfg, w, Begin(tid, req)), others) == Some(u)
    requires u.sys.clock <= w.hist.issued[req.code].at + cfg.authCodeTTL as real
    requires Allowed(cfg, u, Check(tid))
    requires Others(others1, tid) && Exec(cfg, Step(cfg, u, Check(tid)), others1) == Some(x)
    requires Allowed(cfg, x, Insert(tid, token, mintAt))
    requires Others(others2, tid) && Exec(cfg, Step(cfg, x, Insert(tid, token, mintAt)), others2) == Some(y)
    requires Allowed(cfg, y, Save(tid, Saved))
    requires Others(others3, tid) && Exec(cfg, Step(cfg, y, Save(tid, Saved)), others3) == Some(z)
    ensures Allowed(cfg, z, Unlock(tid)) && Observe(cfg, z.sys, Unlock(tid)) == ExchangeResult(tid, Ok(token))
    ensures cfg.hashToken(token) in z.hist.log
  {
    hide Step, Exec, Allowed, Observe, Others, IsRun;
    CheckAnswers(cfg, clock, initial, es, w, tid, req, others, u);
    ExchangeAnswers(cfg, u, tid, others1, x, token, mintAt, others2, y, Saved, others3, z);
  }
}
