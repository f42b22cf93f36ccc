/**
 Runs that show where stronger claims about the service fail. Each exists for every configuration
 that can issue codes at all.
 */
module ServiceExamples {
  import opened Wrappers
  import opened TokenMaps
  import opened Pkce
  import opened Grant
  import opened ServiceMachine
  import opened ServiceHistory
  import opened ServiceInvariants
  import opened ServiceTheorems

  /** A client that follows the protocol, with verifier "v" and redirect URI `uri`. */
  function GoodAuthorize(cfg: Config, uri: string): AuthorizeRequest {
    AuthorizeRequest("code", cfg.clientID, uri, "state", S256(cfg.sha256, "v"), "S256")
  }

  function GoodExchange(cfg: Config, uri: string): TokenRequest {
    TokenRequest("authorization_code", cfg.clientID, "", uri, "c", "v")
  }

  lemma GoodRequestsAccepted(cfg: Config, uri: string, at: real, now: real)
    requires cfg.redirectAllowed(uri) && uri != ""
    ensures IssueRefusal(cfg, GoodAuthorize(cfg, uri)).None?
    ensures RequestRefusal(cfg, GoodExchange(cfg, uri)).None? && GoodExchange(cfg, uri).code == "c"
    ensures now <= at + cfg.authCodeTTL as real ==>
              CodeRefusal(cfg, GoodExchange(cfg, uri), Some(CodeFor(cfg, GoodAuthorize(cfg, uri), at)), now).None?
  {
    MatchedChallengeIsADigest(cfg.sha256, S256(cfg.sha256, "v"), "v");
    hide S256;
  }

  lemma Then(cfg: Config, clock: real, initial: TokenMap, es: seq<Event>, w: World, e: Event)
    requires IsRun(cfg, clock, initial, es, w) && Allowed(cfg, w, e)
    ensures IsRun(cfg, clock, initial, es + [e], Step(cfg, w, e))
  {
    hide Step, Allowed;
    ExecSnoc(cfg, Start(clock, initial), es, e);
  }

  // ----- The steps of the one exchange these runs contain -----

  lemma TickStep(cfg: Config, w: World, dt: real)
    requires dt >= 0.0
    ensures Allowed(cfg, w, Tick(dt)) && Step(cfg, w, Tick(dt)) == w.(sys := w.sys.(clock := w.sys.clock + dt))
  {
  }

  lemma IssueStep(cfg: Config, w: World, areq: AuthorizeRequest)
    requires w.sys.codes == map[] && "c" !in w.hist.issued && IssueRefusal(cfg, areq).None?
    ensures
      var e, at := Issue(areq, "c", w.sys.clock), w.sys.clock;
      && Allowed(cfg, w, e)
      && Step(cfg, w, e) == World(w.sys.(codes := map["c" := CodeFor(cfg, areq, at)]),
                                  w.hist.(issued := w.hist.issued["c" := IssueRecord(areq, at)]))
  {
    hide IssueRefusal, CodeFor;
  }

  lemma BeginStep(cfg: Config, w: World, req: TokenRequest, data: AuthCode)
    requires w.sys.codes == map["c" := data] && w.sys.threads == map[] && req.code == "c"
    requires RequestRefusal(cfg, req).None?
    ensures Allowed(cfg, w, Begin(0, req))
    ensures
      Step(cfg, w, Begin(0, req)) ==
      World(w.sys.(codes := map[], threads := map[0 := Consumed(req, Some(data))]),
            w.hist.(consumed := w.hist.consumed + {"c"}))
  {
    hide RequestRefusal;
    assert w.sys.codes - {"c"} == map[];
  }

  lemma CheckStep(cfg: Config, w: World, req: TokenRequest, data: AuthCode)
    requires w.sys.threads == map[0 := Consumed(req, Some(data))]
    requires CodeRefusal(cfg, req, Some(data), w.sys.clock).None?
    ensures Allowed(cfg, w, Check(0))
    ensures Step(cfg, w, Check(0)) == w.(sys := w.sys.(threads := map[0 := Checked(req, data, w.sys.clock)]))
  {
    hide CodeRefusal;
    assert w.sys.threads[0 := Checked(req, data, w.sys.clock)] == map[0 := Checked(req, data, w.sys.clock)];
  }

  lemma InsertStep(cfg: Config, w: World, req: TokenRequest, data: AuthCode, at: real, token: string)
    requires w.sys.threads == map[0 := Checked(req, data, at)] && w.sys.writer.None? && at <= w.sys.clock
    requires cfg.hashToken(token) !in w.hist.grants && cfg.hashToken(token) !in w.hist.init
    ensures
      var k, mintAt := cfg.hashToken(token), w.sys.clock;
      && Allowed(cfg, w, Insert(0, token, mintAt))
      && Step(cfg, w, Insert(0, token, mintAt)) ==
         World(w.sys.(writer := Some(0), tokens := w.sys.tokens[k := TokenExpiry(cfg, mintAt)],
                      threads := map[0 := Inserted(req, data, at, token, mintAt)]),
               w.hist.(grants := w.hist.grants[k := GrantRecord(req, data, at, mintAt)]))
  {
    hide TokenExpiry;
    var p := Inserted(req, data, at, token, w.sys.clock);
    assert w.sys.threads[0 := p] == map[0 := p];
  }

  lemma SaveStep(cfg: Config, w: World, p: Phase, outcome: SaveOutcome)
    requires w.sys.threads == map[0 := p] && p.Inserted? && Possible(cfg.kind, outcome)
    ensures Allowed(cfg, w, Save(0, outcome))
    ensures
      Step(cfg, w, Save(0, outcome)).sys ==
      w.sys.(store := StoreAfter(cfg.kind, w.sys.store, w.sys.tokens, Unix(w.sys.clock), outcome),
             threads := map[0 := Persisted(p.req, p.token, outcome == Saved)])
  {
    hide StoreAfter, HistAfterSave;
    var q := Persisted(p.req, p.token, outcome == Saved);
    assert w.sys.threads[0 := q] == map[0 := q];
  }

  lemma UnlockStep(cfg: Config, w: World, p: Phase)
    requires w.sys.threads == map[0 := p] && p.Persisted?
    ensures Allowed(cfg, w, Unlock(0))
    ensures
      Step(cfg, w, Unlock(0)).sys ==
      w.sys.(tokens := if p.ok then w.sys.tokens else w.sys.tokens - {cfg.hashToken(p.token)}, threads := map[],
          writer := None)
  {
    assert w.sys.threads - {0} == map[];
  }

  /** From a world without codes and exchanges, the client gets a code and has it checked `early` seconds later. */
  lemma CodeChecked(cfg: Config, clock: real, initial: TokenMap, es: seq<Event>, w: World, uri: string, early: real)
      returns (fs: seq<Event>, v: World)
    requires cfg.redirectAllowed(uri) && uri != "" && 0.0 <= early <= cfg.authCodeTTL as real
    requires IsRun(cfg, clock, initial, es, w)
    requires w.sys.threads == map[] && w.sys.codes == map[] && "c" !in w.hist.issued
    ensures IsRun(cfg, clock, initial, es + fs, v) && forall i | 0 <= i < |fs| :: !fs[i].Save?
    ensures
      var areq, req, at := GoodAuthorize(cfg, uri), GoodExchange(cfg, uri), w.sys.clock;
      && v.sys == w.sys.(clock := at + early, threads := map[0 := Checked(req, CodeFor(cfg, areq, at), at + early)])
      && v.hist == w.hist.(issued := w.hist.issued["c" := IssueRecord(areq, at)], consumed := w.hist.consumed + {"c"})
  {
    hide IsRun, Step, Allowed, IssueRefusal, RequestRefusal, CodeRefusal, CodeFor, GoodAuthorize, GoodExchange;
    var areq, req, at := GoodAuthorize(cfg, uri), GoodExchange(cfg, uri), w.sys.clock;
    var data := CodeFor(cfg, areq, at);
    GoodRequestsAccepted(cfg, uri, at, at + early);
    var e1, e2, e3, e4 := Issue(areq, "c", at), Begin(0, req), Tick(early), Check(0);
    IssueStep(cfg, w, areq);
    Then(cfg, clock, initial, es, w, e1);
    var w1, es1 := Step(cfg, w, e1), es + [e1];
    BeginStep(cfg, w1, req, data);
    Then(cfg, clock, initial, es1, w1, e2);
    var w2, es2 := Step(cfg, w1, e2), es1 + [e2];
    TickStep(cfg, w2, early);
    Then(cfg, clock, initial, es2, w2, e3);
    var w3, es3 := Step(cfg, w2, e3), es2 + [e3];
    CheckStep(cfg, w3, req, data);
    Then(cfg, clock, initial, es3, w3, e4);
    v := Step(cfg, w3, e4);
    fs := [e1, e2, e3, e4];
    assert es3 + [e4] == es + fs;
  }

  /** The same, and a token is inserted another `late` seconds later. */
  lemma TokenInserted(cfg: Config, clock: real, initial: TokenMap, es: seq<Event>, w: World, uri: string,
                      token: string, early: real, late: real)
      returns (fs: seq<Event>, v: World)
    requires cfg.redirectAllowed(uri) && uri != "" && 0.0 <= early <= cfg.authCodeTTL as real && 0.0 <= late
    requires IsRun(cfg, clock, initial, es, w)
    requires w.sys.threads == map[] && w.sys.codes == map[] && w.sys.writer.None? && "c" !in w.hist.issued
    requires cfg.hashToken(token) !in w.hist.grants && cfg.hashToken(token) !in w.hist.init
    ensures IsRun(cfg, clock, initial, es + fs, v) && forall i | 0 <= i < |fs| :: !fs[i].Save?
    ensures
      var areq, req, at := GoodAuthorize(cfg, uri), GoodExchange(cfg, uri), w.sys.clock;
      var k, data, checked := cfg.hashToken(token), CodeFor(cfg, areq, at), at + early;
      && v.sys == w.sys.(clock := checked + late, writer := Some(0), tokens := w.sys.tokens[k := TokenExpiry(cfg,
          checked + late)],
                         threads := map[0 := Inserted(req, data, checked, token, checked + late)])
      && k in v.hist.grants && v.hist.grants[k] == GrantRecord(req, data, checked, checked + late)
      && "c" in v.hist.issued && v.hist.issued["c"] == IssueRecord(areq, at)
  {
    hide IsRun, Step, Allowed, CodeFor, GoodAuthorize, GoodExchange, TokenExpiry;
    var areq, req, at := GoodAuthorize(cfg, uri), GoodExchange(cfg, uri), w.sys.clock;
    var fs1, w1 := CodeChecked(cfg, clock, initial, es, w, uri, early);
    var e1, e2, es1 := Tick(late), Insert(0, token, at + early + late), es + fs1;
    TickStep(cfg, w1, late);
    Then(cfg, clock, initial, es1, w1, e1);
    var w2 := Step(cfg, w1, e1);
    InsertStep(cfg, w2, req, CodeFor(cfg, areq, at), at + early, token);
    Then(cfg, clock, initial, es1 + [e1], w2, e2);
    v := Step(cfg, w2, e2);
    fs := fs1 + [e1, e2];
    assert es1 + [e1] + [e2] == es + fs;
  }

  /**
   A token can outlive its code by more than the two lifetimes together: the code is checked in its
   last moment, and the token is minted a second later.
   */
  lemma LateMintOutlivesCode(cfg: Config, uri: string, token: string)
    requires cfg.redirectAllowed(uri) && uri != "" && cfg.authCodeTTL >= 0
    ensures exists es, w, k ::
      && IsRun(cfg, 0.0, map[], es, w) && k in w.sys.tokens && k in w.hist.grants
      && w.hist.grants[k].req.code in w.hist.issued
      && TokenExpiry(cfg, w.hist.grants[k].mintAt) >
         w.hist.issued[w.hist.grants[k].req.code].at + cfg.authCodeTTL as real + cfg.accessTokenTTL as real
  {
    var w, ttl, k := Start(0.0, map[]), cfg.authCodeTTL as real, cfg.hashToken(token);
    assert IsRun(cfg, 0.0, map[], [], w);
    hide IsRun;
    var fs, v := TokenInserted(cfg, 0.0, map[], [], w, uri, token, ttl, 1.0);
    assert [] + fs == fs;
    TokenLifetime(cfg, ttl + 1.0, 0.0);
    FloorShift(0.0, cfg.authCodeTTL + 1);
    hide TokenExpiry;
    assert IsRun(cfg, 0.0, map[], fs, v) && k in v.sys.tokens && k in v.hist.grants;
  }

  // ----- Saves that go wrong -----

  /** From a world without codes and exchanges, the client gets a token that is saved with `outcome`. */
  lemma TokenSaved(cfg: Config, clock: real, initial: TokenMap, es: seq<Event>, w: World, uri: string, token: string,
                   outcome: SaveOutcome)
      returns (fs: seq<Event>, v: World)
    requires cfg.redirectAllowed(uri) && uri != "" && cfg.authCodeTTL >= 0 && Possible(cfg.kind, outcome)
    requires IsRun(cfg, clock, initial, es, w)
    requires w.sys.threads == map[] && w.sys.codes == map[] && w.sys.writer.None? && "c" !in w.hist.issued
    requires cfg.hashToken(token) !in w.hist.grants && cfg.hashToken(token) !in w.hist.init
    ensures IsRun(cfg, clock, initial, es + fs, v)
    ensures forall i | 0 <= i < |fs| :: fs[i].Save? ==> fs[i].outcome == outcome
    ensures
      var tokens := w.sys.tokens[cfg.hashToken(token) := TokenExpiry(cfg, w.sys.clock)];
      v.sys == w.sys.(tokens := if outcome == Saved then tokens else tokens - {cfg.hashToken(token)},
                      store := StoreAfter(cfg.kind, w.sys.store, tokens, Unix(w.sys.clock), outcome))
  {
    hide IsRun, Step, Allowed, StoreAfter, TokenExpiry, GoodAuthorize, GoodExchange, CodeFor;
    var fs1, w1 := TokenInserted(cfg, clock, initial, es, w, uri, token, 0.0, 0.0);
    var e1, e2, es1 := Save(0, outcome), Unlock(0), es + fs1;
    SaveStep(cfg, w1, w1.sys.threads[0], outcome);
    Then(cfg, clock, initial, es1, w1, e1);
    var w2 := Step(cfg, w1, e1);
    UnlockStep(cfg, w2, w2.sys.threads[0]);
    Then(cfg, clock, initial, es1 + [e1], w2, e2);
    v := Step(cfg, w2, e2);
    fs := fs1 + [e1, e2];
    assert es1 + [e1] + [e2] == es + fs;
  }

  /** The first steps of a purge, up to its sweep of the tokens. */
  lemma PurgeReadsClock(cfg: Config, w: World)
    requires w.sys.purges == map[] && w.sys.codes == map[]
    ensures
      var now := Unix(w.sys.clock);
      && Allowed(cfg, w, PurgeStart(0))
      && Step(cfg, w, PurgeStart(0)) == w.(sys := w.sys.(purges := map[0 := Started(now, w.sys.clock)]))
  {
  }

  lemma PurgeSweepsCodes(cfg: Config, w: World, now: int, at: real)
    requires w.sys.purges == map[0 := Started(now, at)] && w.sys.codes == map[]
    ensures Allowed(cfg, w, PurgeCodes(0, {}))
    ensures Step(cfg, w, PurgeCodes(0, {})) == w.(sys := w.sys.(purges := map[0 := CodesSwept(now)]))
  {
    assert w.sys.codes - {} == w.sys.codes && w.hist.purged + {} == w.hist.purged;
    assert w.sys.purges[0 := CodesSwept(now)] == map[0 := CodesSwept(now)];
  }

  lemma PurgeSweepsTokens(cfg: Config, w: World, now: int, stale: Hash)
    requires w.sys.purges == map[0 := CodesSwept(now)] && w.sys.writer.None?
    requires w.sys.tokens == map[stale := now as real]
    ensures Allowed(cfg, w, PurgeTokens(0))
    ensures Step(cfg, w, PurgeTokens(0)) == w.(sys := w.sys.(tokens := map[], purges := map[0 := TokensSwept]))
  {
    assert SweepTokens(w.sys.tokens, now) == map[];
    assert stale in w.sys.tokens;
    assert w.sys.purges[0 := TokensSwept] == map[0 := TokensSwept];
  }

  lemma PurgeCopies(cfg: Config, w: World)
    requires w.sys.purges == map[0 := TokensSwept] && w.sys.writer.None?
    ensures Allowed(cfg, w, PurgeSnapshot(0))
    ensures Step(cfg, w, PurgeSnapshot(0)).sys == w.sys.(purges := map[0 := Snapshot(w.sys.tokens)])
    ensures
      var n := Step(cfg, w, PurgeSnapshot(0)).hist;
      n == w.hist.(stamps := n.stamps)
  {
    assert w.sys.purges[0 := Snapshot(w.sys.tokens)] == map[0 := Snapshot(w.sys.tokens)];
  }

  /** A purge that finds one expired token is about to sweep it. */
  lemma StaleTokenFound(cfg: Config, stale: Hash) returns (es: seq<Event>, w: World)
    ensures IsRun(cfg, 0.0, map[stale := 1.0], es, w)
    ensures forall i | 0 <= i < |es| :: !es[i].Save?
    ensures w.sys == Sys(1.0, map[], map[stale := 1.0], map[stale := 1.0], map[], map[0 := CodesSwept(1)], None)
    ensures w.hist == Start(0.0, map[stale := 1.0]).hist
  {
    var init, w0 := map[stale := 1.0], Start(0.0, map[stale := 1.0]);
    var e1, e2, e3 := Tick(1.0), PurgeStart(0), PurgeCodes(0, {});
    assert w0.sys == Sys(0.0, map[], init, init, map[], map[], None);
    assert IsRun(cfg, 0.0, init, [], w0);
    hide IsRun, Step, Allowed, Start;
    TickStep(cfg, w0, 1.0);
    Then(cfg, 0.0, init, [], w0, e1);
    var w1, es1 := Step(cfg, w0, e1), [] + [e1];
    PurgeReadsClock(cfg, w1);
    Then(cfg, 0.0, init, es1, w1, e2);
    var w2, es2 := Step(cfg, w1, e2), es1 + [e2];
    PurgeSweepsCodes(cfg, w2, 1, 1.0);
    Then(cfg, 0.0, init, es2, w2, e3);
    w, es := Step(cfg, w2, e3), es2 + [e3];
  }

  /** The purge gets as far as its copy of the remaining tokens. */
  lemma StaleCopyTaken(cfg: Config, stale: Hash) returns (es: seq<Event>, w: World)
    ensures IsRun(cfg, 0.0, map[stale := 1.0], es, w)
    ensures forall i | 0 <= i < |es| :: !es[i].Save?
    ensures w.sys == Sys(1.0, map[], map[], map[stale := 1.0], map[], map[0 := Snapshot(map[])], None)
    ensures w.hist.issued == map[] && w.hist.grants == map[] && w.hist.init == map[stale := 1.0]
  {
    var init := map[stale := 1.0];
    var e4, e5 := PurgeTokens(0), PurgeSnapshot(0);
    var es3, w3 := StaleTokenFound(cfg, stale);
    hide IsRun, Step, Allowed;
    PurgeSweepsTokens(cfg, w3, 1, stale);
    Then(cfg, 0.0, init, es3, w3, e4);
    var w4, es4 := Step(cfg, w3, e4), es3 + [e4];
    PurgeCopies(cfg, w4);
    Then(cfg, 0.0, init, es4, w4, e5);
    w, es := Step(cfg, w4, e5), es4 + [e5];
  }

  lemma EmptyCopySaved(cfg: Config, w: World)
    requires w.sys.purges == map[0 := Snapshot(map[])]
    ensures Allowed(cfg, w, PurgeSave(0, Saved))
    ensures
      var s := Step(cfg, w, PurgeSave(0, Saved)).sys;
      s.store == map[] && s.tokens == w.sys.tokens && s.clock == w.sys.clock
  {
  }

  /**
   Memory and store need not agree even when no Save ever fails: a purge that saves a copy taken
   before a token was issued drops that token from the store, and a restart then forgets it.
   */
  lemma StaleCopyLosesToken(cfg: Config, uri: string, token: string, stale: Hash)
    requires cfg.redirectAllowed(uri) && uri != "" && cfg.authCodeTTL >= 0 && cfg.accessTokenTTL > 0
    requires cfg.hashToken(token) != stale
    ensures exists es, w ::
      && IsRun(cfg, 0.0, map[stale := 1.0], es, w) && NoTornSave(es)
      && Valid(cfg, w.sys, token) && !Valid(cfg, Next(cfg, w.sys, Restart), token)
  {
    hide IsRun, Step, Allowed, TokenExpiry, StoreAfter;
    var init := map[stale := 1.0];
    var es, w := StaleCopyTaken(cfg, stale);
    var fs, v := TokenSaved(cfg, 0.0, init, es, w, uri, token, Saved);
    var e := PurgeSave(0, Saved);
    EmptyCopySaved(cfg, v);
    Then(cfg, 0.0, init, es + fs, v, e);
    var u, all := Step(cfg, v, e), es + fs + [e];
    TokenLifetime(cfg, 1.0, 1.0);
    assert Valid(cfg, u.sys, token) && !Valid(cfg, Next(cfg, u.sys, Restart), token);
    assert NoTornSave(all);
  }

  /** A Save that fails after its rename: the client gets a server error, yet a restart makes the token valid. */
  lemma TornSaveRevivedByRestart(cfg: Config, uri: string, token: string)
    requires cfg.kind == JsonFile
    requires cfg.redirectAllowed(uri) && uri != "" && cfg.authCodeTTL >= 0 && cfg.accessTokenTTL > 0
    ensures exists es, w ::
      IsRun(cfg, 0.0, map[], es, w) && !Valid(cfg, w.sys, token) && Valid(cfg, Next(cfg, w.sys, Restart), token)
  {
    var w, k := Start(0.0, map[]), cfg.hashToken(token);
    assert IsRun(cfg, 0.0, map[], [], w);
    assert w.sys.tokens == map[];
    hide IsRun;
    var fs, v := TokenSaved(cfg, 0.0, map[], [], w, uri, token, WrittenButFailed);
    TokenLifetime(cfg, 0.0, 0.0);
    var tokens := map[k := TokenExpiry(cfg, 0.0)];
    assert w.sys.tokens[k := TokenExpiry(cfg, 0.0)] == tokens;
    PersistIntegral(cfg.kind, tokens, 0);
    hide TokenExpiry, Persist;
    assert [] + fs == fs;
    assert k in v.sys.store && v.sys.store[k] > 0.0;
    assert IsRun(cfg, 0.0, map[], fs, v) && !Valid(cfg, v.sys, token) && Valid(cfg, Next(cfg, v.sys, Restart), token);
  }
}
