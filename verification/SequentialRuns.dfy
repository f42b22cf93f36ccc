/** The machine runs that an operation performs when nothing else happens in between. */
module SequentialRuns {
  import opened Wrappers
  import opened TokenMaps
  import opened Grant
  import opened ServiceMachine

  ghost predicate Quiet(s: Sys) {
    s.threads == map[] && s.purges == map[] && s.writer.None?
  }

  /** `answer` is what the last of the events told the caller. */
  ghost predicate Answers(cfg: Config, s: Sys, evs: seq<Event>, answer: Observation) {
    && |evs| > 0
    && var before := Run(cfg, s, evs[..|evs| - 1]);
       before.Some? && Enabled(cfg, before.value, evs[|evs| - 1]) && Observe(cfg, before.value,
           evs[|evs| - 1]) == answer
  }

  lemma RunNothing(cfg: Config, s: Sys)
    ensures Run(cfg, s, []) == Some(s)
  {
  }

  lemma RunTwo(cfg: Config, s: Sys, e1: Event, e2: Event)
    requires Enabled(cfg, s, e1) && Enabled(cfg, Next(cfg, s, e1), e2)
    ensures Run(cfg, s, [e1, e2]) == Some(Next(cfg, Next(cfg, s, e1), e2))
    ensures Answers(cfg, s, [e1, e2], Observe(cfg, Next(cfg, s, e1), e2))
  {
    hide Next, Enabled, Run, Observe;
    RunNothing(cfg, s);
    RunSnoc(cfg, s, [], e1);
    assert [] + [e1] == [e1];
    RunSnoc(cfg, s, [e1], e2);
    assert [e1] + [e2] == [e1, e2] && [e1, e2][..1] == [e1];
  }

  // ----- One exchange -----

  lemma BeginNext(cfg: Config, s: Sys, req: TokenRequest)
    requires Quiet(s) && RequestRefusal(cfg, req).None?
    ensures Enabled(cfg, s, Begin(0, req))
    ensures
      var found := if req.code in s.codes then Some(s.codes[req.code]) else None;
      Next(cfg, s, Begin(0, req)) == s.(codes := s.codes - {req.code}, threads := map[0 := Consumed(req, found)])
  {
    hide RequestRefusal;
    if req.code !in s.codes {
      assert s.codes - {req.code} == s.codes;
    }
  }

  lemma TickNext(cfg: Config, s: Sys, later: real)
    requires s.clock <= later
    ensures Enabled(cfg, s, Tick(later - s.clock)) && Next(cfg, s, Tick(later - s.clock)) == s.(clock := later)
  {
  }

  lemma CheckNext(cfg: Config, s: Sys, req: TokenRequest, found: Option<AuthCode>)
    requires s.threads == map[0 := Consumed(req, found)]
    ensures Enabled(cfg, s, Check(0))
    ensures
      var refusal := CodeRefusal(cfg, req, found, s.clock);
      if refusal.Some? then
        && Next(cfg, s, Check(0)) == s.(threads := map[])
        && Observe(cfg, s, Check(0)) == ExchangeResult(0, Err(refusal.value))
      else
        found.Some? && Next(cfg, s, Check(0)) == s.(threads := map[0 := Checked(req, found.value, s.clock)])
  {
    assert s.threads - {0} == map[];
    assert found.None? ==> CodeRefusal(cfg, req, found, s.clock).Some?;
    hide CodeRefusal;
    if CodeRefusal(cfg, req, found, s.clock).None? {
      var p := Checked(req, found.value, s.clock);
      assert s.threads[0 := p] == map[0 := p];
    }
  }

  lemma InsertNext(cfg: Config, s: Sys, req: TokenRequest, data: AuthCode, at: real, token: string)
    requires s.threads == map[0 := Checked(req, data, at)] && s.writer.None? && at <= s.clock
    ensures Enabled(cfg, s, Insert(0, token, s.clock))
    ensures
      Next(cfg, s, Insert(0, token, s.clock)) ==
      s.(tokens := s.tokens[cfg.hashToken(token) := TokenExpiry(cfg, s.clock)],
         threads := map[0 := Inserted(req, data, at, token, s.clock)], writer := Some(0))
  {
    hide TokenExpiry;
    var p := Inserted(req, data, at, token, s.clock);
    assert s.threads[0 := p] == map[0 := p];
  }

  lemma SaveNext(cfg: Config, s: Sys, p: Phase, outcome: SaveOutcome)
    requires s.threads == map[0 := p] && p.Inserted? && Possible(cfg.kind, outcome)
    ensures Enabled(cfg, s, Save(0, outcome))
    ensures
      Next(cfg, s, Save(0, outcome)) ==
      s.(store := StoreAfter(cfg.kind, s.store, s.tokens, Unix(s.clock), outcome),
         threads := map[0 := Persisted(p.req, p.token, outcome == Saved)])
  {
    hide StoreAfter;
    var q := Persisted(p.req, p.token, outcome == Saved);
    assert s.threads[0 := q] == map[0 := q];
  }

  lemma UnlockNext(cfg: Config, s: Sys, p: Phase)
    requires s.threads == map[0 := p] && p.Persisted?
    ensures Enabled(cfg, s, Unlock(0))
    ensures Observe(cfg, s, Unlock(0)) == ExchangeResult(0, if p.ok then Ok(p.token) else Err(ServerError))
    ensures
      Next(cfg, s, Unlock(0)) ==
      s.(tokens := if p.ok then s.tokens else s.tokens - {cfg.hashToken(p.token)}, threads := map[], writer := None)
  {
    assert s.threads - {0} == map[];
  }

  lemma RefusedRequest(cfg: Config, s: Sys, req: TokenRequest)
    requires Quiet(s) && RequestRefusal(cfg, req).Some?
    ensures Run(cfg, s, [Begin(0, req)]) == Some(s)
    ensures Answers(cfg, s, [Begin(0, req)], ExchangeResult(0, Err(RequestRefusal(cfg, req).value)))
  {
    hide RequestRefusal;
    RunNothing(cfg, s);
    RunSnoc(cfg, s, [], Begin(0, req));
    assert [] + [Begin(0, req)] == [Begin(0, req)];
    assert [Begin(0, req)][..0] == [];
  }

  /** Begin, and check the code at time `t1`. */
  function CheckEvents(s: Sys, req: TokenRequest, t1: real): seq<Event> {
    [Begin(0, req), Tick(t1 - s.clock), Check(0)]
  }

  lemma RunToCheck(cfg: Config, s: Sys, req: TokenRequest, found: Option<AuthCode>, t1: real)
    requires Quiet(s) && RequestRefusal(cfg, req).None? && s.clock <= t1
    requires found == if req.code in s.codes then Some(s.codes[req.code]) else None
    ensures
      var ready := s.(clock := t1, codes := s.codes - {req.code}, threads := map[0 := Consumed(req, found)]);
      && CheckEvents(s, req, t1)[..2] == [Begin(0, req), Tick(t1 - s.clock)]
      && Run(cfg, s, CheckEvents(s, req, t1)[..2]) == Some(ready)
      && Enabled(cfg, ready, Check(0)) && Run(cfg, s, CheckEvents(s, req, t1)) == Some(Next(cfg, ready, Check(0)))
  {
    hide Next, Enabled, Run, RequestRefusal;
    var e1, e2, e3 := Begin(0, req), Tick(t1 - s.clock), Check(0);
    BeginNext(cfg, s, req);
    TickNext(cfg, Next(cfg, s, e1), t1);
    RunTwo(cfg, s, e1, e2);
    CheckNext(cfg, Next(cfg, Next(cfg, s, e1), e2), req, found);
    RunSnoc(cfg, s, [e1, e2], e3);
    assert [e1, e2] + [e3] == CheckEvents(s, req, t1);
    assert CheckEvents(s, req, t1)[..2] == [e1, e2];
  }

  lemma RefusedCode(cfg: Config, s: Sys, req: TokenRequest, found: Option<AuthCode>, t1: real)
    requires Quiet(s) && RequestRefusal(cfg, req).None? && s.clock <= t1
    requires found == if req.code in s.codes then Some(s.codes[req.code]) else None
    requires CodeRefusal(cfg, req, found, t1).Some?
    ensures Run(cfg, s, CheckEvents(s, req, t1)) == Some(s.(clock := t1, codes := s.codes - {req.code}))
    ensures Answers(cfg, s, CheckEvents(s, req, t1), ExchangeResult(0, Err(CodeRefusal(cfg, req, found, t1).value)))
  {
    hide Next, Enabled, Run, Observe, RequestRefusal, CodeRefusal;
    RunToCheck(cfg, s, req, found, t1);
    CheckNext(cfg, s.(clock := t1, codes := s.codes - {req.code}, threads := map[0 := Consumed(req, found)]), req,
        found);
  }

  /** A whole exchange: checked at `t1`, minted at `t2`, saved at `t3`. */
  function ExchangeEvents(s: Sys, req: TokenRequest, token: string, t1: real, t2: real, t3: real,
                          outcome: SaveOutcome): seq<Event> {
    CheckEvents(s, req, t1) + [Tick(t2 - t1), Insert(0, token, t2)] + [Tick(t3 - t2), Save(0, outcome)] + [Unlock(0)]
  }

  lemma RunTwoMore(cfg: Config, s: Sys, es: seq<Event>, e1: Event, e2: Event)
    requires Run(cfg, s, es).Some? && Enabled(cfg, Run(cfg, s, es).value, e1)
    requires Enabled(cfg, Next(cfg, Run(cfg, s, es).value, e1), e2)
    ensures Run(cfg, s, es + [e1, e2]) == Some(Next(cfg, Next(cfg, Run(cfg, s, es).value, e1), e2))
  {
    hide Next, Enabled, Run;
    RunSnoc(cfg, s, es, e1);
    RunSnoc(cfg, s, es + [e1], e2);
    assert es + [e1] + [e2] == es + [e1, e2];
  }

  lemma RunExchange(cfg: Config, s: Sys, req: TokenRequest, data: AuthCode, token: string,
                    t1: real, t2: real, t3: real, outcome: SaveOutcome)
    requires Possible(cfg.kind, outcome)
    requires Quiet(s) && RequestRefusal(cfg, req).None? && s.clock <= t1 <= t2 <= t3
    requires req.code in s.codes && s.codes[req.code] == data && CodeRefusal(cfg, req, Some(data), t1).None?
    ensures
      var es := ExchangeEvents(s, req, token, t1, t2, t3, outcome);
      var tokens := s.tokens[cfg.hashToken(token) := TokenExpiry(cfg, t2)];
      && Run(cfg, s, es) == Some(s.(clock := t3, codes := s.codes - {req.code},
                                    tokens := if outcome == Saved then tokens else tokens - {cfg.hashToken(token)},
                                    store := StoreAfter(cfg.kind, s.store, tokens, Unix(t3), outcome)))
      && Answers(cfg, s, es, ExchangeResult(0, if outcome == Saved then Ok(token) else Err(ServerError)))
  {
    hide Next, Enabled, Run, Observe, RequestRefusal, CodeRefusal, TokenExpiry, StoreAfter;
    var es1 := CheckEvents(s, req, t1);
    RunToCheck(cfg, s, req, Some(data), t1);
    var s0 := s.(clock := t1, codes := s.codes - {req.code}, threads := map[0 := Consumed(req, Some(data))]);
    CheckNext(cfg, s0, req, Some(data));
    var s1 := Next(cfg, s0, Check(0));
    var e1, e2 := Tick(t2 - t1), Insert(0, token, t2);
    TickNext(cfg, s1, t2);
    InsertNext(cfg, Next(cfg, s1, e1), req, data, t1, token);
    RunTwoMore(cfg, s, es1, e1, e2);
    var s2 := Next(cfg, Next(cfg, s1, e1), e2);
    var e3, e4 := Tick(t3 - t2), Save(0, outcome);
    TickNext(cfg, s2, t3);
    SaveNext(cfg, Next(cfg, s2, e3), Inserted(req, data, t1, token, t2), outcome);
    RunTwoMore(cfg, s, es1 + [e1, e2], e3, e4);
    var s3 := Next(cfg, Next(cfg, s2, e3), e4);
    UnlockNext(cfg, s3, Persisted(req, token, outcome == Saved));
    RunSnoc(cfg, s, es1 + [e1, e2] + [e3, e4], Unlock(0));
    var es := ExchangeEvents(s, req, token, t1, t2, t3, outcome);
    assert es[..|es| - 1] == es1 + [e1, e2] + [e3, e4];
  }

  // ----- One purge -----

  /** The sweeps of a purge that reads the clock at `t0` and sweeps the codes until `t1`. */
  function SweepEvents(s: Sys, t0: real, t1: real, removed: set<string>): seq<Event> {
    [Tick(t0 - s.clock), PurgeStart(0)] + [Tick(t1 - t0), PurgeCodes(0, removed)] + [PurgeTokens(0)]
  }

  lemma RunSweeps(cfg: Config, s: Sys, t0: real, t1: real, removed: set<string>)
    requires Quiet(s) && s.clock <= t0 <= t1
    requires SweepsCodes(s.(clock := t1), removed, t0)
    ensures
      var swept := SweepTokens(s.tokens, Unix(t0));
      Run(cfg, s, SweepEvents(s, t0, t1, removed)) ==
      Some(s.(clock := t1, codes := s.codes - removed, tokens := swept,
          purges := if swept == s.tokens then map[] else map[0 := TokensSwept]))
  {
    hide Run, SweepTokens;
    var e1, e2, e3, e4, e5 := Tick(t0 - s.clock), PurgeStart(0), Tick(t1 - t0), PurgeCodes(0, removed), PurgeTokens(0);
    var s1 := s.(clock := t0);
    TickNext(cfg, s, t0);
    RunTwo(cfg, s, e1, e2);
    var s2 := s1.(purges := map[0 := Started(Unix(t0), t0)]);
    assert Next(cfg, s1, e2) == s2;
    TickNext(cfg, s2, t1);
    SweepCodesNext(cfg, s2.(clock := t1), Unix(t0), t0, removed);
    RunTwoMore(cfg, s, [e1, e2], e3, e4);
    SweepTokensNext(cfg, s2.(clock := t1, codes := s.codes - removed, purges := map[0 := CodesSwept(Unix(t0))]),
        Unix(t0));
    RunSnoc(cfg, s, [e1, e2] + [e3, e4], e5);
  }

  lemma SweepCodesNext(cfg: Config, s: Sys, now: int, at: real, removed: set<string>)
    requires s.purges == map[0 := Started(now, at)] && SweepsCodes(s, removed, at)
    ensures Enabled(cfg, s, PurgeCodes(0, removed))
    ensures Next(cfg, s, PurgeCodes(0, removed)) == s.(codes := s.codes - removed, purges := map[0 := CodesSwept(now)])
  {
    hide SweepsCodes;
    assert s.purges[0 := CodesSwept(now)] == map[0 := CodesSwept(now)];
  }

  lemma SweepTokensNext(cfg: Config, s: Sys, now: int)
    requires s.purges == map[0 := CodesSwept(now)] && s.writer.None?
    ensures Enabled(cfg, s, PurgeTokens(0))
    ensures
      var swept := SweepTokens(s.tokens, now);
      Next(cfg, s, PurgeTokens(0)) == s.(tokens := swept,
          purges := if swept == s.tokens then map[] else map[0 := TokensSwept])
  {
    hide SweepTokens;
    assert s.purges - {0} == map[];
    assert s.purges[0 := TokensSwept] == map[0 := TokensSwept];
  }

  /** The purge goes on to copy the tokens and save the copy at `t2`. */
  function SyncEvents(t1: real, t2: real, outcome: SaveOutcome): seq<Event> {
    [PurgeSnapshot(0), Tick(t2 - t1)] + [PurgeSave(0, outcome)]
  }

  lemma RunSync(cfg: Config, s: Sys, es: seq<Event>, t: Sys, t2: real, outcome: SaveOutcome)
    requires Run(cfg, s, es) == Some(t)
    requires t.purges == map[0 := TokensSwept] && t.writer.None? && t.clock <= t2 && Possible(cfg.kind, outcome)
    ensures
      Run(cfg, s, es + SyncEvents(t.clock, t2, outcome)) ==
      Some(t.(clock := t2, purges := map[], store := StoreAfter(cfg.kind, t.store, t.tokens, Unix(t2), outcome)))
  {
    hide Run, StoreAfter;
    var e1, e2, e3 := PurgeSnapshot(0), Tick(t2 - t.clock), PurgeSave(0, outcome);
    CopyNext(cfg, t);
    var u := t.(purges := map[0 := Snapshot(t.tokens)]);
    TickNext(cfg, u, t2);
    RunTwoMore(cfg, s, es, e1, e2);
    CopySaveNext(cfg, u.(clock := t2), t.tokens, outcome);
    RunSnoc(cfg, s, es + [e1, e2], e3);
    assert es + [e1, e2] + [e3] == es + SyncEvents(t.clock, t2, outcome);
  }

  lemma CopyNext(cfg: Config, s: Sys)
    requires s.purges == map[0 := TokensSwept] && s.writer.None?
    ensures Enabled(cfg, s, PurgeSnapshot(0))
    ensures Next(cfg, s, PurgeSnapshot(0)) == s.(purges := map[0 := Snapshot(s.tokens)])
  {
    assert s.purges[0 := Snapshot(s.tokens)] == map[0 := Snapshot(s.tokens)];
  }

  lemma CopySaveNext(cfg: Config, s: Sys, copy: TokenMap, outcome: SaveOutcome)
    requires s.purges == map[0 := Snapshot(copy)] && Possible(cfg.kind, outcome)
    ensures Enabled(cfg, s, PurgeSave(0, outcome))
    ensures
      Next(cfg, s, PurgeSave(0, outcome)) ==
      s.(store := StoreAfter(cfg.kind, s.store, copy, Unix(s.clock), outcome), purges := map[])
  {
    hide StoreAfter;
    assert s.purges - {0} == map[];
  }

  // ----- Operations one after another -----

  /** A purge that runs on its own saves the copy it took. */
  lemma SyncIsSequential(es: seq<Event>, t1: real, t2: real, outcome: SaveOutcome)
    requires Sequential(es)
    ensures Sequential(es + SyncEvents(t1, t2, outcome))
  {
    var e1, e2, e3 := PurgeSnapshot(0), Tick(t2 - t1), PurgeSave(0, outcome);
    var fs := SyncEvents(t1, t2, outcome);
    assert fs[..2][..1] == [e1] && [e1][..0] == [] && fs[..2] == [e1, e2];
    assert OpenCopies([]) == {} && OpenCopies([e1]) == {0} && OpenCopies([e1, e2]) == {0};
    assert PurgesUninterrupted([]) && PurgesUninterrupted([e1]) && PurgesUninterrupted([e1, e2]);
    assert Sequential(fs);
    SequentialConcat(es, fs);
  }

  // ----- What the operations perform -----

  /** `evs` lead from `s` to `t`, tell the caller `answer` last, and leave no purge copy open. */
  ghost predicate Performs(cfg: Config, s: Sys, evs: seq<Event>, t: Sys, answer: Observation) {
    Run(cfg, s, evs) == Some(t) && Answers(cfg, s, evs, answer) && Sequential(evs)
  }

  lemma TwoPerform(cfg: Config, s: Sys, e1: Event, e2: Event)
    requires Enabled(cfg, s, e1) && Enabled(cfg, Next(cfg, s, e1), e2) && !e1.PurgeSnapshot? && !e2.PurgeSnapshot?
    ensures Performs(cfg, s, [e1, e2], Next(cfg, Next(cfg, s, e1), e2), Observe(cfg, Next(cfg, s, e1), e2))
  {
    hide Next, Enabled, Observe, Run, Answers, Sequential;
    RunTwo(cfg, s, e1, e2);
    NoPurgeNoCopies([e1, e2]);
  }

  lemma IssuePerforms(cfg: Config, s: Sys, req: AuthorizeRequest, code: string, t: real)
    requires s.clock <= t
    ensures
      var refusal := IssueRefusal(cfg, req);
      Performs(cfg, s, [Tick(t - s.clock), Issue(req, code, t)],
               s.(clock := t, codes := if refusal.Some? then s.codes else s.codes[code := CodeFor(cfg, req, t)]),
               IssueResult(if refusal.Some? then Err(refusal.value) else Ok(code)))
  {
    hide IssueRefusal, Performs;
    TickNext(cfg, s, t);
    TwoPerform(cfg, s, Tick(t - s.clock), Issue(req, code, t));
  }

  /** The three ways an exchange can go. */
  ghost predicate ExchangeRun(s: Sys, req: TokenRequest, token: string, evs: seq<Event>, t3: real) {
    || evs == [Begin(0, req)]
    || (exists t1 :: evs == CheckEvents(s, req, t1))
    || (exists t1, t2, outcome :: evs == ExchangeEvents(s, req, token, t1, t2, t3, outcome))
  }

  lemma RefusedRequestPerforms(cfg: Config, s: Sys, req: TokenRequest, token: string)
    requires Quiet(s) && RequestRefusal(cfg, req).Some?
    ensures
      var evs := [Begin(0, req)];
      && Performs(cfg, s, evs, s, ExchangeResult(0, Err(RequestRefusal(cfg, req).value)))
      && ExchangeRun(s, req, token, evs, s.clock)
  {
    hide RequestRefusal, Run, Answers, Sequential;
    RefusedRequest(cfg, s, req);
    NoPurgeNoCopies([Begin(0, req)]);
  }

  lemma RefusedCodePerforms(cfg: Config, s: Sys, req: TokenRequest, token: string, found: Option<AuthCode>, t1: real)
    requires Quiet(s) && RequestRefusal(cfg, req).None? && s.clock <= t1
    requires found == if req.code in s.codes then Some(s.codes[req.code]) else None
    requires CodeRefusal(cfg, req, found, t1).Some?
    ensures
      var evs := CheckEvents(s, req, t1);
      && Performs(cfg, s, evs, s.(clock := t1, codes := s.codes - {req.code}),
                  ExchangeResult(0, Err(CodeRefusal(cfg, req, found, t1).value)))
      && ExchangeRun(s, req, token, evs, t1)
  {
    hide RequestRefusal, CodeRefusal, Run, Answers, Sequential;
    RefusedCode(cfg, s, req, found, t1);
    NoPurgeNoCopies(CheckEvents(s, req, t1));
  }

  lemma ExchangePerforms(cfg: Config, s: Sys, req: TokenRequest, data: AuthCode, token: string,
                         t1: real, t2: real, t3: real, outcome: SaveOutcome)
    requires Possible(cfg.kind, outcome)
    requires Quiet(s) && RequestRefusal(cfg, req).None? && s.clock <= t1 <= t2 <= t3
    requires req.code in s.codes && s.codes[req.code] == data && CodeRefusal(cfg, req, Some(data), t1).None?
    ensures
      var evs := ExchangeEvents(s, req, token, t1, t2, t3, outcome);
      var tokens := s.tokens[cfg.hashToken(token) := TokenExpiry(cfg, t2)];
      && Performs(cfg, s, evs,
                  s.(clock := t3, codes := s.codes - {req.code},
                     tokens := if outcome == Saved then tokens else tokens - {cfg.hashToken(token)},
                     store := StoreAfter(cfg.kind, s.store, tokens, Unix(t3), outcome)),
                  ExchangeResult(0, if outcome == Saved then Ok(token) else Err(ServerError)))
      && ExchangeRun(s, req, token, evs, t3)
  {
    hide RequestRefusal, CodeRefusal, Run, Answers, Sequential, StoreAfter, TokenExpiry;
    RunExchange(cfg, s, req, data, token, t1, t2, t3, outcome);
    var evs := ExchangeEvents(s, req, token, t1, t2, t3, outcome);
    NoPurgeNoCopies(evs);
    assert exists u1, u2, o :: evs == ExchangeEvents(s, req, token, u1, u2, t3, o);
  }

  /** `evs` are the steps of a purge that runs on its own from `s` to `t`. */
  ghost predicate PurgePerforms(cfg: Config, s: Sys, evs: seq<Event>, t: Sys) {
    Run(cfg, s, evs) == Some(t) && Sequential(evs) && forall i | 0 <= i < |evs| :: evs[i].IsPurge() || evs[i].Tick?
  }

  lemma SweepsPerform(cfg: Config, s: Sys, t0: real, t1: real, removed: set<string>)
    requires Quiet(s) && s.clock <= t0 <= t1 && SweepsCodes(s.(clock := t1), removed, t0)
    requires SweepTokens(s.tokens, Unix(t0)) == s.tokens
    ensures PurgePerforms(cfg, s, SweepEvents(s, t0, t1, removed), s.(clock := t1, codes := s.codes - removed))
  {
    hide Run, SweepTokens, SweepsCodes, Sequential;
    RunSweeps(cfg, s, t0, t1, removed);
    NoPurgeNoCopies(SweepEvents(s, t0, t1, removed));
  }

  lemma PurgeAndSyncPerform(cfg: Config, s: Sys, t0: real, t1: real, t2: real, removed: set<string>,
                            outcome: SaveOutcome)
    requires Quiet(s) && s.clock <= t0 <= t1 <= t2 && SweepsCodes(s.(clock := t1), removed, t0)
    requires SweepTokens(s.tokens, Unix(t0)) != s.tokens && Possible(cfg.kind, outcome)
    ensures
      var swept := SweepTokens(s.tokens, Unix(t0));
      PurgePerforms(cfg, s, SweepEvents(s, t0, t1, removed) + SyncEvents(t1, t2, outcome),
                    s.(clock := t2, codes := s.codes - removed, tokens := swept,
                       store := StoreAfter(cfg.kind, s.store, swept, Unix(t2), outcome)))
  {
    hide Run, SweepTokens, SweepsCodes, Sequential, StoreAfter;
    var evs := SweepEvents(s, t0, t1, removed);
    RunSweeps(cfg, s, t0, t1, removed);
    var swept := SweepTokens(s.tokens, Unix(t0));
    RunSync(cfg, s, evs, s.(clock := t1, codes := s.codes - removed, tokens := swept,
        purges := map[0 := TokensSwept]), t2, outcome);
    NoPurgeNoCopies(evs);
    SyncIsSequential(evs, t1, t2, outcome);
  }

  /** A sweep by an earlier second leaves every unexpired entry, and none that had expired by then. */
  lemma SweepKeepsLive(m: TokenMap, now: int, later: int)
    requires now <= later
    ensures Live(SweepTokens(m, now), later) == Live(m, later)
    ensures forall k | k in SweepTokens(m, now) :: SweepTokens(m, now)[k] > now as real
  {
  }
}
