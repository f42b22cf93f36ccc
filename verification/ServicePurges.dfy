/**
 Purging is invisible: a run and the same run with its purge steps erased give callers the same
 answers. `with` below is the world of the full run, `bare` that of the erased one.
 */
module ServicePurges {
  import opened Wrappers
  import opened TokenMaps
  import opened Grant
  import opened ServiceMachine
  import opened ServiceHistory
  import opened ServiceInvariants
  import opened ServiceTheorems

  function Erase(es: seq<Event>): seq<Event> {
    if |es| == 0 then []
    else
      var before, e := Erase(es[..|es| - 1]), es[|es| - 1];
      if e.IsPurge() then before else before + [e]
  }

  /** What callers learn along a run; purge steps tell them nothing. */
  ghost function Answers(cfg: Config, w: World, es: seq<Event>): seq<Observation> {
    if |es| == 0 then []
    else
      var before, e := Answers(cfg, w, es[..|es| - 1]), es[|es| - 1];
      match Exec(cfg, w, es[..|es| - 1])
      case None => before
      case Some(v) => if e.IsPurge() || !Allowed(cfg, v, e) then before else before + [Observe(cfg, v.sys, e)]
  }

  // ----- States that differ only in what was purged -----

  ghost predicate CodesAlike(clock: real, codes: map<string, AuthCode>, bare: map<string, AuthCode>) {
    && (forall c | c in codes :: c in bare && bare[c] == codes[c])
    && (forall c | c in bare && c !in codes :: bare[c].expiresAt < clock)
  }

  /** Where one run found its code purged, the other found it expired. */
  ghost predicate PhaseAlike(clock: real, p: Phase, q: Phase) {
    p == q || (p.Consumed? && p.found.None? && q.Consumed? && q.req == p.req && q.found.Some?
        && q.found.value.expiresAt < clock)
  }

  ghost predicate ThreadsAlike(clock: real, threads: map<nat, Phase>, bare: map<nat, Phase>) {
    threads.Keys == bare.Keys && forall t | t in threads :: PhaseAlike(clock, threads[t], bare[t])
  }

  ghost predicate TokensAlike(clock: real, tokens: TokenMap, bare: TokenMap) {
    Live(tokens, Unix(clock)) == Live(bare, Unix(clock))
  }

  ghost predicate Alike(s: Sys, t: Sys) {
    && s.clock == t.clock && s.writer == t.writer
    && CodesAlike(s.clock, s.codes, t.codes)
    && ThreadsAlike(s.clock, s.threads, t.threads)
    && TokensAlike(s.clock, s.tokens, t.tokens)
  }

  lemma TokensAlikeUpdate(clock: real, tokens: TokenMap, bare: TokenMap, k: Hash, v: real)
    requires TokensAlike(clock, tokens, bare)
    ensures TokensAlike(clock, tokens[k := v], bare[k := v])
    ensures TokensAlike(clock, tokens - {k}, bare - {k})
  {
    var now := Unix(clock);
    var a, b := Live(tokens[k := v], now), Live(bare[k := v], now);
    var c, d := Live(tokens - {k}, now), Live(bare - {k}, now);
    forall h
      ensures h in a <==> h in b
      ensures h in a ==> a[h] == b[h]
      ensures h in c <==> h in d
      ensures h in c ==> c[h] == d[h]
    {
      assert h in Live(tokens, now) <==> h in Live(bare, now);
      assert h in Live(tokens, now) ==> Live(tokens, now)[h] == Live(bare, now)[h];
    }
    assert a == b && c == d;
  }

  lemma CodesAlikeUpdate(clock: real, codes: map<string, AuthCode>, bare: map<string, AuthCode>, c: string,
                         data: AuthCode)
    requires CodesAlike(clock, codes, bare)
    ensures CodesAlike(clock, codes[c := data], bare[c := data])
    ensures CodesAlike(clock, codes - {c}, bare - {c})
  {
  }

  lemma ThreadsAlikeUpdate(clock: real, threads: map<nat, Phase>, bare: map<nat, Phase>, t: nat, p: Phase, q: Phase)
    requires ThreadsAlike(clock, threads, bare)
    ensures PhaseAlike(clock, p, q) ==> ThreadsAlike(clock, threads[t := p], bare[t := q])
    ensures ThreadsAlike(clock, threads - {t}, bare - {t})
  {
  }

  lemma AlikeTick(cfg: Config, s: Sys, t: Sys, e: Event)
    requires e.Tick? && Alike(s, t) && Enabled(cfg, s, e)
    ensures Enabled(cfg, t, e) && Observe(cfg, s, e) == Observe(cfg, t, e)
    ensures Alike(Next(cfg, s, e), Next(cfg, t, e))
  {
    hide CodesAlike, ThreadsAlike, TokensAlike;
    CodesAlikeLater(s.clock, s.clock + e.dt, s.codes, t.codes);
    ThreadsAlikeLater(s.clock, s.clock + e.dt, s.threads, t.threads);
    TokensAlikeLater(s.clock, s.clock + e.dt, s.tokens, t.tokens);
  }

  lemma CodesAlikeLater(clock: real, later: real, codes: map<string, AuthCode>, bare: map<string, AuthCode>)
    requires CodesAlike(clock, codes, bare) && clock <= later
    ensures CodesAlike(later, codes, bare)
  {
  }

  lemma ThreadsAlikeLater(clock: real, later: real, threads: map<nat, Phase>, bare: map<nat, Phase>)
    requires ThreadsAlike(clock, threads, bare) && clock <= later
    ensures ThreadsAlike(later, threads, bare)
  {
  }

  lemma TokensAlikeLater(clock: real, later: real, tokens: TokenMap, bare: TokenMap)
    requires TokensAlike(clock, tokens, bare) && clock <= later
    ensures TokensAlike(later, tokens, bare)
  {
    LiveAgreementPersists(tokens, bare, Unix(clock), Unix(later));
  }

  lemma AlikeIssue(cfg: Config, s: Sys, t: Sys, e: Event)
    requires e.Issue? && Alike(s, t) && Enabled(cfg, s, e)
    ensures Enabled(cfg, t, e) && Observe(cfg, s, e) == Observe(cfg, t, e)
    ensures Alike(Next(cfg, s, e), Next(cfg, t, e))
  {
    hide CodesAlike, ThreadsAlike, TokensAlike;
    CodesAlikeUpdate(s.clock, s.codes, t.codes, e.code, CodeFor(cfg, e.areq, e.readAt));
  }

  ghost function Take(codes: map<string, AuthCode>, c: string): (Option<AuthCode>, map<string, AuthCode>) {
    if c in codes then (Some(codes[c]), codes - {c}) else (None, codes)
  }

  lemma TakeAlike(clock: real, codes: map<string, AuthCode>, bare: map<string, AuthCode>, req: TokenRequest)
    requires CodesAlike(clock, codes, bare)
    ensures PhaseAlike(clock, Consumed(req, Take(codes, req.code).0), Consumed(req, Take(bare, req.code).0))
    ensures CodesAlike(clock, Take(codes, req.code).1, Take(bare, req.code).1)
  {
  }

  lemma BeginTakes(cfg: Config, s: Sys, tid: nat, req: TokenRequest)
    requires RequestRefusal(cfg, req).None?
    ensures
      var (found, codes) := Take(s.codes, req.code);
      AfterBegin(cfg, s, tid, req) == s.(codes := codes, threads := s.threads[tid := Consumed(req, found)])
  {
    hide RequestRefusal;
  }

  lemma AlikeBegin(cfg: Config, s: Sys, t: Sys, e: Event)
    requires e.Begin? && Alike(s, t) && Enabled(cfg, s, e)
    ensures Enabled(cfg, t, e) && Observe(cfg, s, e) == Observe(cfg, t, e)
    ensures Alike(Next(cfg, s, e), Next(cfg, t, e))
  {
    assert s.threads.Keys == t.threads.Keys;
    hide CodesAlike, ThreadsAlike, TokensAlike, PhaseAlike, RequestRefusal, AfterBegin, Take;
    if RequestRefusal(cfg, e.req).None? {
      TakeAlike(s.clock, s.codes, t.codes, e.req);
      BeginTakes(cfg, s, e.tid, e.req);
      BeginTakes(cfg, t, e.tid, e.req);
      ThreadsAlikeUpdate(s.clock, s.threads, t.threads, e.tid,
                         Consumed(e.req, Take(s.codes, e.req.code).0), Consumed(e.req, Take(t.codes, e.req.code).0));
    } else {
      BeginRefused(cfg, s, e.tid, e.req);
      BeginRefused(cfg, t, e.tid, e.req);
    }
  }

  lemma BeginRefused(cfg: Config, s: Sys, tid: nat, req: TokenRequest)
    requires RequestRefusal(cfg, req).Some?
    ensures AfterBegin(cfg, s, tid, req) == s
  {
    hide RequestRefusal;
  }

  lemma FoundAlike(cfg: Config, clock: real, p: Phase, q: Phase)
    requires PhaseAlike(clock, p, q) && p.Consumed?
    ensures q.Consumed? && q.req == p.req
    ensures CodeRefusal(cfg, p.req, p.found, clock) == CodeRefusal(cfg, q.req, q.found, clock)
    ensures CodeRefusal(cfg, p.req, p.found, clock).None? ==> p == q
  {
    UnknownCodeRefused(cfg, p.req, clock);
  }

  lemma AfterCheckAlike(cfg: Config, s: Sys, t: Sys, tid: nat)
    requires Alike(s, t) && tid in s.threads && tid in t.threads && s.threads[tid].Consumed? && t.threads[tid].Consumed?
    requires
      var p, q := s.threads[tid], t.threads[tid];
      var refusal := CodeRefusal(cfg, p.req, p.found, s.clock);
      refusal == CodeRefusal(cfg, q.req, q.found, s.clock) && (refusal.None? ==> p == q)
    ensures Alike(AfterCheck(cfg, s, tid), AfterCheck(cfg, t, tid))
  {
    hide CodesAlike, ThreadsAlike, TokensAlike, CodeRefusal, AfterCheck;
    var p := s.threads[tid];
    CheckResult(cfg, s, tid);
    CheckResult(cfg, t, tid);
    if CodeRefusal(cfg, p.req, p.found, s.clock).Some? {
      ThreadsSame(s.clock, s.threads, t.threads, tid, p);
    } else {
      ThreadsSame(s.clock, s.threads, t.threads, tid, Checked(p.req, p.found.value, s.clock));
    }
  }

  /** An expired code and a purged one are answered with the same error. */
  lemma AlikeCheck(cfg: Config, s: Sys, t: Sys, e: Event)
    requires e.Check? && Alike(s, t) && Enabled(cfg, s, e)
    ensures Enabled(cfg, t, e) && Observe(cfg, s, e) == Observe(cfg, t, e)
    ensures Alike(Next(cfg, s, e), Next(cfg, t, e))
  {
    hide Alike, CodeRefusal, PhaseAlike, AfterCheck;
    PhasesAlike(s, t, e.tid);
    AlikeClock(s, t);
    FoundAlike(cfg, s.clock, s.threads[e.tid], t.threads[e.tid]);
    AfterCheckAlike(cfg, s, t, e.tid);
  }

  lemma PhasesAlike(s: Sys, t: Sys, tid: nat)
    requires Alike(s, t) && tid in s.threads
    ensures tid in t.threads && PhaseAlike(s.clock, s.threads[tid], t.threads[tid])
  {
  }

  lemma CheckResult(cfg: Config, s: Sys, tid: nat)
    requires tid in s.threads && s.threads[tid].Consumed?
    ensures
      var p := s.threads[tid];
      if CodeRefusal(cfg, p.req, p.found, s.clock).Some? then AfterCheck(cfg, s,
          tid) == s.(threads := s.threads - {tid})
      else p.found.Some? && AfterCheck(cfg, s, tid) == s.(threads := s.threads[tid := Checked(p.req, p.found.value,
          s.clock)])
  {
    UnknownCodeRefused(cfg, s.threads[tid].req, s.clock);
    hide CodeRefusal;
  }

  lemma AlikeToken(cfg: Config, s: Sys, t: Sys, e: Event)
    requires (e.Insert? || e.Save? || e.Unlock? || e.Validate?) && Alike(s, t) && Enabled(cfg, s, e)
    ensures Enabled(cfg, t, e) && Observe(cfg, s, e) == Observe(cfg, t, e)
    ensures Alike(Next(cfg, s, e), Next(cfg, t, e))
  {
    if e.Validate? {
      var k, now := cfg.hashToken(e.token), Unix(s.clock);
      assert k in Live(s.tokens, now) <==> k in Live(t.tokens, now);
    } else {
      var p := s.threads[e.tid];
      assert PhaseAlike(s.clock, p, t.threads[e.tid]);
      assert t.threads[e.tid] == p;
      hide CodesAlike, ThreadsAlike, TokensAlike, PhaseAlike, TokenExpiry, Persist;
      var n := Next(cfg, s, e);
      if e.Insert? {
        ThreadsSame(s.clock, s.threads, t.threads, e.tid, n.threads[e.tid]);
        TokensAlikeUpdate(s.clock, s.tokens, t.tokens, cfg.hashToken(e.token), TokenExpiry(cfg, e.mintAt));
      } else if e.Save? {
        ThreadsSame(s.clock, s.threads, t.threads, e.tid, n.threads[e.tid]);
      } else {
        ThreadsSame(s.clock, s.threads, t.threads, e.tid, p);
        TokensAlikeUpdate(s.clock, s.tokens, t.tokens, cfg.hashToken(p.token), 0.0);
      }
    }
  }

  lemma ThreadsSame(clock: real, threads: map<nat, Phase>, bare: map<nat, Phase>, t: nat, p: Phase)
    requires ThreadsAlike(clock, threads, bare)
    ensures ThreadsAlike(clock, threads[t := p], bare[t := p])
    ensures ThreadsAlike(clock, threads - {t}, bare - {t})
  {
    ThreadsAlikeUpdate(clock, threads, bare, t, p, p);
  }

  lemma AlikeStep(cfg: Config, s: Sys, t: Sys, e: Event)
    requires !e.IsPurge() && e != Restart && Alike(s, t) && Enabled(cfg, s, e)
    ensures Enabled(cfg, t, e) && Observe(cfg, s, e) == Observe(cfg, t, e)
    ensures Alike(Next(cfg, s, e), Next(cfg, t, e))
  {
    hide Alike, Next, Observe, Enabled;
    if e.Tick? { AlikeTick(cfg, s, t, e); }
    else if e.Issue? { AlikeIssue(cfg, s, t, e); }
    else if e.Begin? { AlikeBegin(cfg, s, t, e); }
    else if e.Check? { AlikeCheck(cfg, s, t, e); }
    else { AlikeToken(cfg, s, t, e); }
  }

  lemma SweptCodesAlike(clock: real, codes: map<string, AuthCode>, bare: map<string, AuthCode>, removed: set<string>)
    requires CodesAlike(clock, codes, bare)
    requires removed <= codes.Keys && forall c | c in removed :: codes[c].expiresAt < clock
    ensures CodesAlike(clock, codes - removed, bare)
  {
  }

  lemma SweptTokensAlike(clock: real, tokens: TokenMap, bare: TokenMap, now: int)
    requires TokensAlike(clock, tokens, bare) && now <= Unix(clock)
    ensures TokensAlike(clock, SweepTokens(tokens, now), bare)
  {
    assert Live(SweepTokens(tokens, now), Unix(clock)) == Live(tokens, Unix(clock));
  }

  /** A purge step removes only what is expired. */
  lemma AlikePurge(cfg: Config, s: Sys, t: Sys, e: Event)
    requires e.IsPurge() && Alike(s, t) && Enabled(cfg, s, e) && PurgeInv(s.clock, s.purges)
    ensures Alike(Next(cfg, s, e), t)
  {
    if e.PurgeTokens? {
      SweptTokensAlike(s.clock, s.tokens, t.tokens, s.purges[e.pid].now);
    } else if e.PurgeCodes? {
      SweptCodesAlike(s.clock, s.codes, t.codes, e.removed);
    }
    hide CodesAlike, TokensAlike, ThreadsAlike, StoreAfter, SweepTokens, SweepsCodes;
  }

  // ----- Runs -----

  ghost predicate WorldsAlike(with: World, bare: World) {
    && Alike(with.sys, bare.sys)
    && with.hist.init == bare.hist.init && with.hist.issued == bare.hist.issued && with.hist.grants == bare.hist.grants
  }

  lemma HistoriesAlike(cfg: Config, with: World, bare: World, e: Event)
    requires !e.IsPurge() && WorldsAlike(with, bare) && Allowed(cfg, with, e) && Enabled(cfg, bare.sys, e)
    ensures Allowed(cfg, bare, e)
    ensures
      var m, n := NextHist(cfg, with, e), NextHist(cfg, bare, e);
      m.init == n.init && m.issued == n.issued && m.grants == n.grants
  {
    if e.Insert? {
      assert PhaseAlike(with.sys.clock, with.sys.threads[e.tid], bare.sys.threads[e.tid]);
    }
    hide Alike, Enabled, NextHist, IssueRefusal;
    IssuedAndGranted(cfg, with, e);
    IssuedAndGranted(cfg, bare, e);
  }

  lemma IssuedAndGranted(cfg: Config, w: World, e: Event)
    requires Allowed(cfg, w, e)
    ensures
      var h, n := w.hist, NextHist(cfg, w, e);
      && n.init == h.init
      && n.issued == (if e.Issue? && IssueRefusal(cfg, e.areq).None? then h.issued[e.code := IssueRecord(e.areq,
          e.readAt)] else h.issued)
      && (if e.Insert? then
            var p := w.sys.threads[e.tid];
            n.grants == h.grants[cfg.hashToken(e.token) := GrantRecord(p.req, p.data, p.checkedAt, e.mintAt)]
          else n.grants == h.grants)
  {
    if e.Issue? || e.Insert? {
      IssuedOrGranted(cfg, w, e);
      hide Next, NextHist, Enabled, IssueRefusal;
    } else {
      if e.Save? {
        AfterSaveKeeps(cfg, w.sys, w.hist, e.tid, e.outcome);
      }
      hide Next, HistAfterSave, IssueRefusal, RequestRefusal;
    }
  }

  lemma IssuedOrGranted(cfg: Config, w: World, e: Event)
    requires (e.Issue? || e.Insert?) && Allowed(cfg, w, e)
    ensures
      var h, n := w.hist, NextHist(cfg, w, e);
      if e.Insert? then
        var p := w.sys.threads[e.tid];
        n == h.(grants := h.grants[cfg.hashToken(e.token) := GrantRecord(p.req, p.data, p.checkedAt, e.mintAt)])
      else n == if IssueRefusal(cfg, e.areq).None? then h.(issued := h.issued[e.code := IssueRecord(e.areq,
          e.readAt)]) else h
  {
    hide Next, IssueRefusal, RequestRefusal;
  }

  lemma PurgeKeepsHistory(cfg: Config, w: World, e: Event)
    requires e.IsPurge() && Allowed(cfg, w, e)
    ensures
      var n := NextHist(cfg, w, e);
      n.init == w.hist.init && n.issued == w.hist.issued && n.grants == w.hist.grants
  {
    hide NextHist;
    IssuedAndGranted(cfg, w, e);
  }

  /** One more event of the full run, against the erased run. */
  lemma WorldsStep(cfg: Config, with: World, bare: World, e: Event)
    requires WorldsAlike(with, bare) && Allowed(cfg, with, e) && Inv(cfg, with)
    requires e == Restart ==> Live(with.sys.store, Unix(with.sys.clock)) == Live(bare.sys.store, Unix(with.sys.clock))
    ensures e.IsPurge() ==> WorldsAlike(Step(cfg, with, e), bare)
    ensures !e.IsPurge() ==>
              && Allowed(cfg, bare, e) && Observe(cfg, with.sys, e) == Observe(cfg, bare.sys, e)
              && WorldsAlike(Step(cfg, with, e), Step(cfg, bare, e))
  {
    if e.IsPurge() {
      assert PurgeInv(with.sys.clock, with.sys.purges);
      hide Inv, Alike, Next, NextHist, Allowed;
      AlikePurgeAllowed(cfg, with, bare, e);
    } else if e == Restart {
      RestartAlike(cfg, with.sys, bare.sys);
      hide Inv, Alike, Next;
      HistoriesAlike(cfg, with, bare, e);
    } else {
      hide Inv, Alike, Next, NextHist, Observe;
      AlikeStep(cfg, with.sys, bare.sys, e);
      HistoriesAlike(cfg, with, bare, e);
    }
  }

  lemma AlikePurgeAllowed(cfg: Config, with: World, bare: World, e: Event)
    requires WorldsAlike(with, bare) && Allowed(cfg, with, e) && PurgeInv(with.sys.clock, with.sys.purges)
             && e.IsPurge()
    ensures WorldsAlike(Step(cfg, with, e), bare)
  {
    hide Alike, Next, NextHist;
    AlikePurge(cfg, with.sys, bare.sys, e);
    PurgeKeepsHistory(cfg, with, e);
  }

  lemma RestartAlike(cfg: Config, s: Sys, t: Sys)
    requires s.clock == t.clock && Live(s.store, Unix(s.clock)) == Live(t.store, Unix(s.clock))
    ensures Alike(Next(cfg, s, Restart), Next(cfg, t, Restart))
    ensures Observe(cfg, s, Restart) == Observe(cfg, t, Restart)
    ensures Enabled(cfg, t, Restart)
  {
  }

  lemma EraseSnoc(es: seq<Event>, e: Event)
    ensures Erase(es + [e]) == if e.IsPurge() then Erase(es) else Erase(es) + [e]
  {
    assert (es + [e])[..|es|] == es;
  }

  /** What the two runs agree on once both have happened. */
  ghost predicate SameAnswers(cfg: Config, clock: real, initial: TokenMap, es: seq<Event>, w: World) {
    var start := Start(clock, initial);
    && Exec(cfg, start, Erase(es)).Some?
    && WorldsAlike(w, Exec(cfg, start, Erase(es)).value)
    && Answers(cfg, start, es) == Answers(cfg, start, Erase(es))
  }

  lemma SameAnswersSnoc(cfg: Config, clock: real, initial: TokenMap, es: seq<Event>, with: World, e: Event)
    requires Exec(cfg, Start(clock, initial), es) == Some(with) && SameAnswers(cfg, clock, initial, es, with)
    requires Allowed(cfg, with, e) && Inv(cfg, with)
    requires e == Restart ==>
      Live(with.sys.store, Unix(with.sys.clock)) ==
      Live(Exec(cfg, Start(clock, initial), Erase(es)).value.sys.store, Unix(with.sys.clock))
    ensures Exec(cfg, Start(clock, initial), es + [e]) == Some(Step(cfg, with, e))
    ensures SameAnswers(cfg, clock, initial, es + [e], Step(cfg, with, e))
  {
    hide Inv, WorldsAlike, Step, Allowed, Observe, Exec, Answers, Start;
    var start := Start(clock, initial);
    var bare := Exec(cfg, start, Erase(es)).value;
    WorldsStep(cfg, with, bare, e);
    EraseSnoc(es, e);
    ExecSnoc(cfg, start, es, e);
    AnswersSnoc(cfg, start, es, e);
    if !e.IsPurge() {
      ExecSnoc(cfg, start, Erase(es), e);
      AnswersSnoc(cfg, start, Erase(es), e);
    }
  }

  lemma AnswersSnoc(cfg: Config, w: World, es: seq<Event>, e: Event)
    requires Exec(cfg, w, es).Some? && Allowed(cfg, Exec(cfg, w, es).value, e)
    ensures Answers(cfg, w, es + [e]) ==
            if e.IsPurge() then Answers(cfg, w, es) else Answers(cfg, w, es) + [Observe(cfg, Exec(cfg, w,
                es).value.sys, e)]
  {
    hide Allowed, Observe, Step;
    assert (es + [e])[..|es|] == es;
  }

  /**
   Within one life of the service, erasing every purge step of a run (however its copies and Saves
   interleave and fail) leaves a run with the same answers: the same exchange outcomes with the same
   errors, and the same validations.
   */
  lemma {:induction false} PurgesInvisible(cfg: Config, clock: real, initial: TokenMap, es: seq<Event>, w: World)
    requires IsRun(cfg, clock, initial, es, w)
    requires forall i | 0 <= i < |es| :: es[i] != Restart
    ensures SameAnswers(cfg, clock, initial, es, w)
  {
    if |es| == 0 {
      StartAlike(cfg, clock, initial);
    } else {
      hide SameAnswers, Step, Allowed, Inv, Exec;
      LastStep(cfg, Start(clock, initial), es);
      var before, e := es[..|es| - 1], es[|es| - 1];
      var v := Exec(cfg, Start(clock, initial), before).value;
      PurgesInvisible(cfg, clock, initial, before, v);
      RunInv(cfg, clock, initial, before, v);
      SameAnswersSnoc(cfg, clock, initial, before, v, e);
      assert before + [e] == es;
    }
  }

  lemma StartAlike(cfg: Config, clock: real, initial: TokenMap)
    ensures SameAnswers(cfg, clock, initial, [], Start(clock, initial))
  {
  }

  /** Two runs that differ only in where and how they purge give the same answers. */
  lemma PurgeScheduleInvisible(cfg: Config, clock: real, initial: TokenMap, es: seq<Event>, w: World, fs: seq<Event>,
                               v: World)
    requires IsRun(cfg, clock, initial, es, w) && IsRun(cfg, clock, initial, fs, v)
    requires forall i | 0 <= i < |es| :: es[i] != Restart
    requires forall i | 0 <= i < |fs| :: fs[i] != Restart
    requires Erase(es) == Erase(fs)
    ensures Answers(cfg, Start(clock, initial), es) == Answers(cfg, Start(clock, initial), fs)
  {
    PurgesInvisible(cfg, clock, initial, es, w);
    PurgesInvisible(cfg, clock, initial, fs, v);
  }

  // ----- Across restarts -----

  /** No token confirmed after the stored map was copied is still unexpired. */
  ghost predicate StoreCurrent(cfg: Config, w: World) {
    forall i | w.hist.storeStamp <= i < |w.hist.log| :: w.hist.log[i] !in Live(Visible(cfg, w.sys), Unix(w.sys.clock))
  }

  /** Every purge Save of the run that reaches the store writes a copy that misses no unexpired token. */
  ghost predicate PurgeSavesCurrent(cfg: Config, start: World, es: seq<Event>) {
    |es| > 0 ==>
      var before, e := es[..|es| - 1], es[|es| - 1];
      && PurgeSavesCurrent(cfg, start, before)
      && (e.PurgeSave? && e.outcome != NotWritten ==>
            match Exec(cfg, start, before)
            case None => true
            case Some(v) =>
              e.pid in v.hist.stamps &&
              forall i | v.hist.stamps[e.pid] <= i < |v.hist.log| :: v.hist.log[i] !in Live(Visible(cfg, v.sys),
                  Unix(v.sys.clock)))
  }

  lemma VisibleShrinks(cfg: Config, w: World, e: Event)
    requires !e.Save? && e != Restart && Inv(cfg, w) && Allowed(cfg, w, e)
    ensures
      var before, after := Visible(cfg, w.sys), Visible(cfg, Next(cfg, w.sys, e));
      forall k | k in after :: k in before && after[k] == before[k]
  {
    hide LockInv, TraceInv, CodeInv, GrantInv, OnceInv, PurgeInv, Mirrors, CopiesMirror, FailInv;
    var s, h := w.sys, w.hist;
    if e.Begin? || e.Check? {
      VisibleOutside(cfg, w, e);
    } else if e.Insert? {
      var p := s.threads[e.tid];
      TraceMint(cfg, h.init, h.grants, s.tokens, s.store, s.purges, cfg.hashToken(e.token), GrantRecord(p.req,
          p.data, p.checkedAt, e.mintAt));
      VisibleInsert(cfg, s, e.tid, e.token, e.mintAt);
    } else if e.Unlock? {
      OneInserted(s.threads, s.writer, e.tid);
      VisibleUnlock(cfg, s, e.tid);
    }
  }

  lemma VisibleOutside(cfg: Config, w: World, e: Event)
    requires (e.Begin? || e.Check?) && Inv(cfg, w) && Allowed(cfg, w, e)
    ensures Visible(cfg, Next(cfg, w.sys, e)) == Visible(cfg, w.sys)
  {
    hide LockInv, TraceInv, CodeInv, GrantInv, OnceInv, PurgeInv, Mirrors, CopiesMirror, FailInv, Visible,
         RequestRefusal, CodeRefusal;
    var s := w.sys;
    if e.Begin? {
      LockFree(s.threads, s.writer, e.tid);
    } else {
      OneInserted(s.threads, s.writer, e.tid);
    }
    VisibleOutsideLock(cfg, s, Next(cfg, s, e), e.tid);
  }

  /** The store stays current as long as purge Saves are. */
  lemma CurrentStep(cfg: Config, w: World, e: Event)
    requires Inv(cfg, w) && Allowed(cfg, w, e) && StoreCurrent(cfg, w)
    requires e.PurgeSave? && e.outcome != NotWritten && e.pid in w.hist.stamps ==>
      forall i | w.hist.stamps[e.pid] <= i < |w.hist.log| :: w.hist.log[i] !in Live(Visible(cfg, w.sys),
          Unix(w.sys.clock))
    ensures StoreCurrent(cfg, Step(cfg, w, e))
  {
    hide Next, NextHist, Inv, Visible, Enabled;
    StampsKept(cfg, w, e);
    var s, n := w.sys, Next(cfg, w.sys, e);
    if e.Save? {
      if e.outcome == NotWritten {
        SaveKeepsVisible(cfg, w, e);
      }
    } else if e != Restart {
      ClockAdvances(cfg, s, e);
      VisibleShrinks(cfg, w, e);
      LiveShrinks(Visible(cfg, s), Visible(cfg, n), Unix(s.clock), Unix(n.clock));
    }
  }

  lemma LiveShrinks(before: TokenMap, after: TokenMap, now: int, later: int)
    requires now <= later && forall k | k in after :: k in before && after[k] == before[k]
    ensures Live(after, later).Keys <= Live(before, now).Keys
  {
  }

  lemma ClockAdvances(cfg: Config, s: Sys, e: Event)
    requires Enabled(cfg, s, e)
    ensures s.clock <= Next(cfg, s, e).clock && (!e.Tick? ==> s.clock == Next(cfg, s, e).clock)
  {
  }

  lemma SaveKeepsVisible(cfg: Config, w: World, e: Event)
    requires e.Save? && e.outcome == NotWritten && Inv(cfg, w) && Allowed(cfg, w, e)
    ensures Visible(cfg, Next(cfg, w.sys, e)) == Visible(cfg, w.sys) && Next(cfg, w.sys, e).clock == w.sys.clock
  {
    hide LockInv, TraceInv, CodeInv, GrantInv, OnceInv, PurgeInv, Mirrors, CopiesMirror, FailInv, Visible;
    OneInserted(w.sys.threads, w.sys.writer, e.tid);
    VisibleSave(cfg, w.sys, e.tid, e.outcome);
  }

  lemma {:induction false} CurrentAlong(cfg: Config, clock: real, initial: TokenMap, es: seq<Event>, w: World)
    requires IsRun(cfg, clock, initial, es, w) && PurgeSavesCurrent(cfg, Start(clock, initial), es)
    ensures StoreCurrent(cfg, w)
  {
    if |es| > 0 {
      var before, e := es[..|es| - 1], es[|es| - 1];
      var v := Exec(cfg, Start(clock, initial), before).value;
      hide Step, Allowed, Inv, StoreCurrent, Visible;
      CurrentAlong(cfg, clock, initial, before, v);
      RunInv(cfg, clock, initial, before, v);
      CurrentStep(cfg, v, e);
    }
  }

  lemma {:induction false} ErasedHasNoPurges(es: seq<Event>)
    ensures Sequential(Erase(es))
    ensures forall i | 0 <= i < |Erase(es)| :: !Erase(es)[i].IsPurge()
    ensures NoTornSave(es) ==> NoTornSave(Erase(es))
  {
    hide PurgesUninterrupted, OpenCopies, Sequential;
    if |es| > 0 {
      ErasedHasNoPurges(es[..|es| - 1]);
      assert NoTornSave(es) ==> NoTornSave(es[..|es| - 1]);
      assert NoTornSave(es) && es[|es| - 1].Save? ==> es[|es| - 1].outcome != WrittenButFailed;
    }
    NoPurgeNoCopies(Erase(es));
  }

  lemma VisibleAlike(cfg: Config, s: Sys, t: Sys)
    requires Alike(s, t) && LockInv(s.threads, s.writer)
    ensures Live(Visible(cfg, s), Unix(s.clock)) == Live(Visible(cfg, t), Unix(t.clock))
  {
    if s.writer.Some? {
      var tid := s.writer.value;
      assert PhaseAlike(s.clock, s.threads[tid], t.threads[tid]);
      assert s.threads[tid].Holding() && t.threads[tid] == s.threads[tid];
      TokensAlikeUpdate(s.clock, s.tokens, t.tokens, cfg.hashToken(s.threads[tid].token), 0.0);
    }
  }

  /** The run without purges always has its visible tokens in the store; the two agree when this store is current. */
  lemma StoresAgreeIff(cfg: Config, clock: real, initial: TokenMap, es: seq<Event>, with: World)
    requires IsRun(cfg, clock, initial, es, with) && NoTornSave(es)
    requires SameAnswers(cfg, clock, initial, es, with)
    ensures SameStore(cfg, clock, initial, es, with) <==> StoreCurrent(cfg, with)
  {
    hide Exec, Visible, Alike, Answers;
    var bare := Exec(cfg, Start(clock, initial), Erase(es)).value;
    ErasedHasNoPurges(es);
    RunInv(cfg, clock, initial, es, with);
    assert LockInv(with.sys.threads, with.sys.writer);
    hide Inv, NoTornSave, PurgesUninterrupted;
    StoreEqualsMemoryIff(cfg, clock, initial, es, with);
    UninterruptedPurgesKeepStoreEqual(cfg, clock, initial, Erase(es), bare);
    VisibleAlike(cfg, with.sys, bare.sys);
    AlikeClock(with.sys, bare.sys);
  }

  lemma AlikeClock(s: Sys, t: Sys)
    requires Alike(s, t)
    ensures s.clock == t.clock
  {
  }

  /** The run with purges and the run without leave the same unexpired entries in the store. */
  ghost predicate SameStore(cfg: Config, clock: real, initial: TokenMap, es: seq<Event>, w: World) {
    var bare := Exec(cfg, Start(clock, initial), Erase(es));
    bare.Some? && Live(w.sys.store, Unix(w.sys.clock)) == Live(bare.value.sys.store, Unix(w.sys.clock))
  }

  /** At every restart of the run the store is current. */
  ghost predicate CurrentAtRestarts(cfg: Config, start: World, es: seq<Event>) {
    |es| > 0 ==>
      var before, e := es[..|es| - 1], es[|es| - 1];
      && CurrentAtRestarts(cfg, start, before)
      && (e == Restart ==> match Exec(cfg, start, before) case None => true case Some(v) => StoreCurrent(cfg, v))
  }

  lemma CurrentBefore(cfg: Config, start: World, es: seq<Event>)
    requires |es| > 0 && NoTornSave(es) && CurrentAtRestarts(cfg, start, es)
    ensures NoTornSave(es[..|es| - 1]) && CurrentAtRestarts(cfg, start, es[..|es| - 1])
    ensures es[|es| - 1] == Restart && Exec(cfg, start, es[..|es| - 1]).Some? ==>
              StoreCurrent(cfg, Exec(cfg, start, es[..|es| - 1]).value)
  {
  }

  /**
   Across any number of restarts: erasing the purge steps of a run changes no answer as long as the
   store is current whenever the service restarts; and it changes no unexpired entry of the store
   exactly when the store is current. In one life of the service the condition on restarts is void.
   */
  lemma {:induction false} PurgesChangeStoreIff(cfg: Config, clock: real, initial: TokenMap, es: seq<Event>, w: World)
    requires IsRun(cfg, clock, initial, es, w) && NoTornSave(es) && CurrentAtRestarts(cfg, Start(clock, initial), es)
    ensures SameAnswers(cfg, clock, initial, es, w)
    ensures SameStore(cfg, clock, initial, es, w) <==> StoreCurrent(cfg, w)
  {
    hide SameAnswers, Step, Allowed, Inv, NoTornSave, CurrentAtRestarts, StoreCurrent, Visible, Exec;
    if |es| == 0 {
      RunOfNothing(cfg, clock, initial, w);
      StartAlike(cfg, clock, initial);
    } else {
      LastStep(cfg, Start(clock, initial), es);
      var before, e := es[..|es| - 1], es[|es| - 1];
      var v := Exec(cfg, Start(clock, initial), before).value;
      CurrentBefore(cfg, Start(clock, initial), es);
      PurgesChangeStoreIff(cfg, clock, initial, before, v);
      RunInv(cfg, clock, initial, before, v);
      SameAnswersSnoc(cfg, clock, initial, before, v, e);
      assert before + [e] == es;
    }
    StoresAgreeIff(cfg, clock, initial, es, w);
  }

  lemma RunOfNothing(cfg: Config, clock: real, initial: TokenMap, w: World)
    requires Exec(cfg, Start(clock, initial), []) == Some(w)
    ensures w == Start(clock, initial)
  {
  }

  /** Within one life no restart can reload a stale store, so only the last store matters. */
  lemma {:induction false} OneLifeNeedsNothing(cfg: Config, start: World, es: seq<Event>)
    requires forall i | 0 <= i < |es| :: es[i] != Restart
    ensures CurrentAtRestarts(cfg, start, es)
  {
    if |es| > 0 {
      OneLifeNeedsNothing(cfg, start, es[..|es| - 1]);
    }
  }

  /** Purge Saves that miss no unexpired token keep the store current, at every restart and at the end. */
  lemma {:induction false} CurrentSavesSuffice(cfg: Config, clock: real, initial: TokenMap, es: seq<Event>, w: World)
    requires IsRun(cfg, clock, initial, es, w) && PurgeSavesCurrent(cfg, Start(clock, initial), es)
    ensures CurrentAtRestarts(cfg, Start(clock, initial), es) && StoreCurrent(cfg, w)
  {
    hide Step, Allowed, Inv, StoreCurrent, Visible;
    CurrentAlong(cfg, clock, initial, es, w);
    if |es| > 0 {
      var before := es[..|es| - 1];
      CurrentSavesSuffice(cfg, clock, initial, before, Exec(cfg, Start(clock, initial), before).value);
    }
  }

  /** The same answers, and the same unexpired entries in the store. */
  ghost predicate SameOutcome(cfg: Config, clock: real, initial: TokenMap, es: seq<Event>, w: World) {
    SameAnswers(cfg, clock, initial, es, w) && SameStore(cfg, clock, initial, es, w)
  }

  /** Purging is invisible to callers and in the store while purge Saves miss no unexpired token. */
  lemma PurgesInvisibleAcrossRestarts(cfg: Config, clock: real, initial: TokenMap, es: seq<Event>, w: World)
    requires IsRun(cfg, clock, initial, es, w) && NoTornSave(es) && PurgeSavesCurrent(cfg, Start(clock, initial), es)
    ensures SameOutcome(cfg, clock, initial, es, w)
  {
    hide IsRun, SameAnswers, SameStore, NoTornSave, PurgeSavesCurrent, CurrentAtRestarts, StoreCurrent;
    CurrentSavesSuffice(cfg, clock, initial, es, w);
    PurgesChangeStoreIff(cfg, clock, initial, es, w);
  }
}
