/**
 Runs of the service with their history: which codes were issued and what became of them, where
 every token came from, and which tokens the store has not seen. `Inv` holds in every reachable
 world; what it means for callers is in ServiceTheorems.
 */
module ServiceHistory {
  import opened Wrappers
  import opened TokenMaps
  import opened Grant
  import opened ServiceMachine

  datatype IssueRecord = IssueRecord(areq: AuthorizeRequest, at: real)

  /** One minting of a token: the exchange, the code data it consumed, and the two clock readings. */
  datatype GrantRecord = GrantRecord(req: TokenRequest, data: AuthCode, checkedAt: real, mintAt: real)

  /**
   `init` is the store content before the first start. A code that is issued ends up in one of
   `consumed`, `purged` and `lost` (by a restart). `log` lists the tokens whose issuance was
   confirmed since the last start; what the store holds was copied when `storeStamp` of them
   existed, and the copy of purge p when `stamps[p]` of them did. `failed` and `torn` are the
   tokens whose Save failed without and with effect; `orphan` is the token of a torn Save that is
   in the store now.
   */
  datatype Hist = Hist(
    init: TokenMap,
    issued: map<string, IssueRecord>,
    consumed: set<string>,
    purged: set<string>,
    lost: set<string>,
    grants: map<Hash, GrantRecord>,
    log: seq<Hash>,
    storeStamp: nat,
    stamps: map<nat, nat>,
    orphan: TokenMap,
    failed: set<Hash>,
    torn: set<Hash>)

  datatype World = World(sys: Sys, hist: Hist)

  ghost function Start(clock: real, store: TokenMap): World {
    World(Boot(clock, store), Hist(store, map[], {}, {}, {}, map[], [], 0, map[], map[], {}, {}))
  }

  /** Enabled, and generated codes and tokens have not been seen before. */
  ghost predicate Allowed(cfg: Config, w: World, e: Event) {
    && Enabled(cfg, w.sys, e)
    && (e.Issue? ==> e.code !in w.hist.issued)
    && (e.Insert? ==> cfg.hashToken(e.token) !in w.hist.grants && cfg.hashToken(e.token) !in w.hist.init)
  }

  ghost function NextHist(cfg: Config, w: World, e: Event): Hist
    requires Allowed(cfg, w, e)
  {
    var s, h := w.sys, w.hist;
    match e
    case Issue(areq, code, readAt) =>
      if IssueRefusal(cfg, areq).Some? then h else h.(issued := h.issued[code := IssueRecord(areq, readAt)])
    case Begin(_, req) =>
      if RequestRefusal(cfg, req).None? && req.code in s.codes then h.(consumed := h.consumed + {req.code}) else h
    case Insert(tid, token, mintAt) =>
      var p := s.threads[tid];
      h.(grants := h.grants[cfg.hashToken(token) := GrantRecord(p.req, p.data, p.checkedAt, mintAt)])
    case Save(tid, outcome) => HistAfterSave(cfg, s, h, tid, outcome)
    case PurgeCodes(_, removed) => h.(purged := h.purged + removed)
    case PurgeSnapshot(pid) => h.(stamps := h.stamps[pid := |h.log|])
    case PurgeSave(pid, outcome) =>
      if outcome == NotWritten || pid !in h.stamps then h else h.(storeStamp := h.stamps[pid], orphan := map[])
    case Restart =>
      h.(lost := h.lost + s.codes.Keys, log := [], storeStamp := 0, stamps := map[], orphan := map[], torn := {})
    case _ => h
  }

  ghost function HistAfterSave(cfg: Config, s: Sys, h: Hist, tid: nat, outcome: SaveOutcome): Hist
    requires tid in s.threads && s.threads[tid].Inserted?
  {
    var hash := cfg.hashToken(s.threads[tid].token);
    match outcome
    case Saved => h.(log := h.log + [hash], storeStamp := |h.log| + 1, orphan := map[])
    case NotWritten => h.(failed := h.failed + {hash})
    case WrittenButFailed =>
      h.(torn := h.torn + {hash}, storeStamp := |h.log|,
         orphan := if hash in s.tokens then map[hash := s.tokens[hash]] else map[])
  }

  ghost function Step(cfg: Config, w: World, e: Event): World
    requires Allowed(cfg, w, e)
  {
    World(Next(cfg, w.sys, e), NextHist(cfg, w, e))
  }

  /** The world after `es`, when every event of `es` is allowed in turn. */
  ghost function Exec(cfg: Config, w: World, es: seq<Event>): Option<World> {
    if |es| == 0 then Some(w)
    else
      match Exec(cfg, w, es[..|es| - 1])
      case None => None
      case Some(v) => if Allowed(cfg, v, es[|es| - 1]) then Some(Step(cfg, v, es[|es| - 1])) else None
  }

  lemma ExecSnoc(cfg: Config, w: World, es: seq<Event>, e: Event)
    requires Exec(cfg, w, es).Some? && Allowed(cfg, Exec(cfg, w, es).value, e)
    ensures Exec(cfg, w, es + [e]) == Some(Step(cfg, Exec(cfg, w, es).value, e))
  {
    hide Allowed, Step;
    assert (es + [e])[..|es|] == es;
  }

  lemma LastStep(cfg: Config, w: World, es: seq<Event>)
    requires |es| > 0 && Exec(cfg, w, es).Some?
    ensures
      var before, e := es[..|es| - 1], es[|es| - 1];
      && Exec(cfg, w, before).Some? && Allowed(cfg, Exec(cfg, w, before).value, e)
      && Exec(cfg, w, es) == Some(Step(cfg, Exec(cfg, w, before).value, e))
  {
  }

  /** SQLite rows are integers, so a SQLite store starts with whole-second expiries. */
  ghost predicate Startable(cfg: Config, store: TokenMap) {
    cfg.kind == Sqlite ==> Integral(store)
  }

  /** `w` can be reached from a start on some store content by some run. */
  ghost predicate Reachable(cfg: Config, w: World) {
    exists clock: real, store: TokenMap, es: seq<Event> ::
      Startable(cfg, store) && Exec(cfg, Start(clock, store), es) == Some(w)
  }
}
