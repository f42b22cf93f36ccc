/**
 The OAuth service as a step machine. Every region the service runs under one lock is one step, so
 a run interleaves any number of exchanges, validations and purges with clock ticks and restarts:

 - an exchange consumes its code (codesMu), checks it, inserts the new token (tokensMu held from
   here), saves, and unlocks, rolling the token back when the save failed;
 - a purge reads the clock, sweeps codes, sweeps tokens, copies the token map, and saves the copy
   with no lock held.

 Everything the environment decides (save outcomes, generated codes and tokens, when clocks were
 read) is carried by the event, so a step is a function.
 */
module ServiceMachine {
  import opened Wrappers
  import opened TokenMaps
  import opened Grant

  /** A failing Save normally leaves the store alone; the JSON store can also fail after its rename. */
  datatype SaveOutcome = Saved | NotWritten | WrittenButFailed

  predicate Possible(kind: StoreKind, outcome: SaveOutcome) {
    outcome == WrittenButFailed ==> kind == JsonFile
  }

  /** Where an exchange stands. From Inserted on it holds the write lock on the token map. */
  datatype Phase =
    | Consumed(req: TokenRequest, found: Option<AuthCode>)
    | Checked(req: TokenRequest, data: AuthCode, checkedAt: real)
    | Inserted(req: TokenRequest, data: AuthCode, checkedAt: real, token: string, mintAt: real)
    | Persisted(req: TokenRequest, token: string, ok: bool)
  {
    predicate Holding() { Inserted? || Persisted? }
  }

  datatype PurgePhase =
    | Started(now: int, at: real)
    | CodesSwept(now: int)
    | TokensSwept
    | Snapshot(copy: TokenMap)

  datatype Sys = Sys(
    clock: real,
    codes: map<string, AuthCode>,
    tokens: TokenMap,
    store: TokenMap,
    threads: map<nat, Phase>,
    purges: map<nat, PurgePhase>,
    writer: Option<nat>)

  datatype Event =
    | Tick(dt: real)
    | Issue(areq: AuthorizeRequest, code: string, readAt: real)
    | Begin(tid: nat, req: TokenRequest)
    | Check(tid: nat)
    | Insert(tid: nat, token: string, mintAt: real)
    | Save(tid: nat, outcome: SaveOutcome)
    | Unlock(tid: nat)
    | Validate(token: string)
    | PurgeStart(pid: nat)
    | PurgeCodes(pid: nat, removed: set<string>)
    | PurgeTokens(pid: nat)
    | PurgeSnapshot(pid: nat)
    | PurgeSave(pid: nat, outcome: SaveOutcome)
    | Restart
  {
    predicate IsPurge() {
      PurgeStart? || PurgeCodes? || PurgeTokens? || PurgeSnapshot? || PurgeSave?
    }
  }

  /** What a caller of the service learns from a step. */
  datatype Observation =
    | Silent
    | IssueResult(issued: Result<string, IssueError>)
    | ExchangeResult(tid: nat, exchanged: Result<string, TokenError>)
    | ValidateResult(token: string, valid: bool)

  /** The service right after NewService loaded `store`. */
  ghost function Boot(clock: real, store: TokenMap): Sys {
    Sys(clock, map[], Live(store, Unix(clock)), store, map[], map[], None)
  }

  ghost predicate Enabled(cfg: Config, s: Sys, e: Event) {
    match e
    case Tick(dt) => dt >= 0.0
    case Issue(_, _, readAt) => readAt <= s.clock
    case Begin(tid, _) => tid !in s.threads
    case Check(tid) => tid in s.threads && s.threads[tid].Consumed?
    case Insert(tid, _, mintAt) =>
      tid in s.threads && s.threads[tid].Checked? && s.threads[tid].checkedAt <= mintAt <= s.clock && s.writer.None?
    case Save(tid, outcome) => tid in s.threads && s.threads[tid].Inserted? && Possible(cfg.kind, outcome)
    case Unlock(tid) => tid in s.threads && s.threads[tid].Persisted?
    case Validate(_) => s.writer.None?
    case PurgeStart(pid) => pid !in s.purges
    case PurgeCodes(pid, removed) => pid in s.purges && s.purges[pid].Started? && SweepsCodes(s, removed,
        s.purges[pid].at)
    case PurgeTokens(pid) => pid in s.purges && s.purges[pid].CodesSwept? && s.writer.None?
    case PurgeSnapshot(pid) => pid in s.purges && s.purges[pid].TokensSwept? && s.writer.None?
    case PurgeSave(pid, outcome) => pid in s.purges && s.purges[pid].Snapshot? && Possible(cfg.kind, outcome)
    case Restart => true
  }

  /**
   The code sweep reads the clock once per code, so a code that expires during the sweep may or may
   not go; one that had expired when the purge began must.
   */
  ghost predicate SweepsCodes(s: Sys, removed: set<string>, began: real) {
    && removed <= s.codes.Keys
    && (forall c | c in removed :: s.codes[c].expiresAt < s.clock)
    && (forall c | c in s.codes :: s.codes[c].expiresAt < began ==> c in removed)
  }

  function SweepTokens(m: TokenMap, now: int): TokenMap {
    map h | h in m && !(m[h] <= now as real) :: m[h]
  }

  function StoreAfter(kind: StoreKind, store: TokenMap, saved: TokenMap, now: int, outcome: SaveOutcome): TokenMap {
    if outcome == NotWritten then store else Persist(kind, saved, now)
  }

  ghost function Next(cfg: Config, s: Sys, e: Event): Sys
    requires Enabled(cfg, s, e)
  {
    match e
    case Tick(dt) => s.(clock := s.clock + dt)
    case Issue(areq, code, readAt) => AfterIssue(cfg, s, areq, code, readAt)
    case Begin(tid, req) => AfterBegin(cfg, s, tid, req)
    case Check(tid) => AfterCheck(cfg, s, tid)
    case Insert(tid, token, mintAt) => AfterInsert(cfg, s, tid, token, mintAt)
    case Save(tid, outcome) => AfterSave(cfg, s, tid, outcome)
    case Unlock(tid) => AfterUnlock(cfg, s, tid)
    case Validate(_) => s
    case PurgeStart(pid) => s.(purges := s.purges[pid := Started(Unix(s.clock), s.clock)])
    case PurgeCodes(pid, removed) =>
      s.(codes := s.codes - removed, purges := s.purges[pid := CodesSwept(s.purges[pid].now)])
    case PurgeTokens(pid) => AfterPurgeTokens(s, pid)
    case PurgeSnapshot(pid) => s.(purges := s.purges[pid := Snapshot(s.tokens)])
    case PurgeSave(pid, outcome) => AfterPurgeSave(cfg, s, pid, outcome)
    case Restart => Boot(s.clock, s.store)
  }

  ghost function AfterIssue(cfg: Config, s: Sys, areq: AuthorizeRequest, code: string, readAt: real): Sys {
    if IssueRefusal(cfg, areq).Some? then s
    else s.(codes := s.codes[code := CodeFor(cfg, areq, readAt)])
  }

  ghost function AfterBegin(cfg: Config, s: Sys, tid: nat, req: TokenRequest): Sys {
    if RequestRefusal(cfg, req).Some? then s
    else if req.code in s.codes then
      s.(codes := s.codes - {req.code}, threads := s.threads[tid := Consumed(req, Some(s.codes[req.code]))])
    else
      s.(threads := s.threads[tid := Consumed(req, None)])
  }

  ghost function AfterCheck(cfg: Config, s: Sys, tid: nat): Sys
    requires tid in s.threads && s.threads[tid].Consumed?
  {
    var p := s.threads[tid];
    if CodeRefusal(cfg, p.req, p.found, s.clock).Some? then s.(threads := s.threads - {tid})
    else s.(threads := s.threads[tid := Checked(p.req, p.found.value, s.clock)])
  }

  ghost function AfterInsert(cfg: Config, s: Sys, tid: nat, token: string, mintAt: real): Sys
    requires tid in s.threads && s.threads[tid].Checked?
  {
    var p := s.threads[tid];
    s.(tokens := s.tokens[cfg.hashToken(token) := TokenExpiry(cfg, mintAt)],
       threads := s.threads[tid := Inserted(p.req, p.data, p.checkedAt, token, mintAt)],
       writer := Some(tid))
  }

  ghost function AfterSave(cfg: Config, s: Sys, tid: nat, outcome: SaveOutcome): Sys
    requires tid in s.threads && s.threads[tid].Inserted?
  {
    var p := s.threads[tid];
    s.(store := StoreAfter(cfg.kind, s.store, s.tokens, Unix(s.clock), outcome),
       threads := s.threads[tid := Persisted(p.req, p.token, outcome == Saved)])
  }

  ghost function AfterUnlock(cfg: Config, s: Sys, tid: nat): Sys
    requires tid in s.threads && s.threads[tid].Persisted?
  {
    var p := s.threads[tid];
    s.(tokens := if p.ok then s.tokens else s.tokens - {cfg.hashToken(p.token)},
       threads := s.threads - {tid},
       writer := None)
  }

  ghost function AfterPurgeTokens(s: Sys, pid: nat): Sys
    requires pid in s.purges && s.purges[pid].CodesSwept?
  {
    var swept := SweepTokens(s.tokens, s.purges[pid].now);
    s.(tokens := swept, purges := if swept == s.tokens then s.purges - {pid} else s.purges[pid := TokensSwept])
  }

  ghost function AfterPurgeSave(cfg: Config, s: Sys, pid: nat, outcome: SaveOutcome): Sys
    requires pid in s.purges && s.purges[pid].Snapshot?
  {
    s.(store := StoreAfter(cfg.kind, s.store, s.purges[pid].copy, Unix(s.clock), outcome), purges := s.purges - {pid})
  }

  ghost predicate Valid(cfg: Config, s: Sys, token: string) {
    cfg.hashToken(token) in s.tokens && s.tokens[cfg.hashToken(token)] > Unix(s.clock) as real
  }

  ghost function Observe(cfg: Config, s: Sys, e: Event): Observation
    requires Enabled(cfg, s, e)
  {
    match e
    case Issue(areq, code, _) =>
      IssueResult(match IssueRefusal(cfg, areq) case Some(err) => Err(err) case None => Ok(code))
    case Begin(tid, req) =>
      (match RequestRefusal(cfg, req) case Some(err) => ExchangeResult(tid, Err(err)) case None => Silent)
    case Check(tid) =>
      var p := s.threads[tid];
      (match CodeRefusal(cfg, p.req, p.found, s.clock) case Some(err) => ExchangeResult(tid,
          Err(err)) case None => Silent)
    case Unlock(tid) =>
      var p := s.threads[tid];
      ExchangeResult(tid, if p.ok then Ok(p.token) else Err(ServerError))
    case Validate(token) => ValidateResult(token, Valid(cfg, s, token))
    case _ => Silent
  }

  // ----- Runs -----

  /** The state after `es`, when every event of `es` is enabled in turn. */
  ghost function Run(cfg: Config, s: Sys, es: seq<Event>): Option<Sys> {
    if |es| == 0 then Some(s)
    else
      match Run(cfg, s, es[..|es| - 1])
      case None => None
      case Some(t) => if Enabled(cfg, t, es[|es| - 1]) then Some(Next(cfg, t, es[|es| - 1])) else None
  }

  lemma RunSnoc(cfg: Config, s: Sys, es: seq<Event>, e: Event)
    requires Run(cfg, s, es).Some? && Enabled(cfg, Run(cfg, s, es).value, e)
    ensures Run(cfg, s, es + [e]) == Some(Next(cfg, Run(cfg, s, es).value, e))
  {
    assert (es + [e])[..|es|] == es;
  }

  /** The purges that have copied the tokens and not yet saved their copy. */
  function OpenCopies(es: seq<Event>): set<nat> {
    if |es| == 0 then {}
    else
      var before, e := OpenCopies(es[..|es| - 1]), es[|es| - 1];
      match e
      case PurgeSnapshot(pid) => before + {pid}
      case PurgeSave(pid, _) => before - {pid}
      case Restart => {}
      case _ => before
  }

  /** No Save of an exchange succeeds between a purge's copy and the Save of that copy. */
  predicate PurgesUninterrupted(es: seq<Event>) {
    |es| > 0 ==>
      var before, e := es[..|es| - 1], es[|es| - 1];
      PurgesUninterrupted(before) && (e.Save? && e.outcome == Saved ==> OpenCopies(before) == {})
  }

  /** A run that can be followed by another: no copy is left open. */
  predicate Sequential(es: seq<Event>) {
    PurgesUninterrupted(es) && OpenCopies(es) == {}
  }

  lemma {:induction false} SequentialConcat(es: seq<Event>, fs: seq<Event>)
    requires Sequential(es) && PurgesUninterrupted(fs)
    ensures PurgesUninterrupted(es + fs) && OpenCopies(es + fs) == OpenCopies(fs)
    decreases |fs|
  {
    if |fs| == 0 {
      assert es + fs == es;
    } else {
      SequentialConcat(es, fs[..|fs| - 1]);
      assert (es + fs)[..|es + fs| - 1] == es + fs[..|fs| - 1];
    }
  }

  lemma {:induction false} NoPurgeNoCopies(es: seq<Event>)
    requires forall i | 0 <= i < |es| :: !es[i].PurgeSnapshot?
    ensures Sequential(es)
  {
    if |es| > 0 {
      NoPurgeNoCopies(es[..|es| - 1]);
    }
  }
}
