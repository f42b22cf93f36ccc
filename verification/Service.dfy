/**
 The service as the source writes it: an object whose maps are updated in place. Every operation
 reports, as ghost output, the machine events it performs, and its contract says that exactly these
 events lead from the old state to the new one; so all that is proved of interleavings of machine
 events is about this code. What two operations do between each other's lock regions is the
 machine's business.
 */
module Service {
  import opened Wrappers
  import opened TokenMaps
  import opened Grant
  import opened ServiceMachine
  import opened SequentialRuns
  import Base64Url

  /** time.Now(): some time no earlier than any reading before. */
  class Clock {
    var now: real

    constructor (start: real)
      ensures now == start
    {
      now := start;
    }

    method Read() returns (t: real)
      modifies this
      ensures t == now >= old(now)
    {
      var d: real := *;
      if d >= 0.0 {
        now := now + d;
      }
      t := now;
    }
  }

  /** The storage.Store interface: what the JSON file and the SQLite database both provide. */
  class Store {
    const kind: StoreKind
    var rows: TokenMap

    constructor (kind: StoreKind, rows: TokenMap)
      ensures this.kind == kind && this.rows == rows
    {
      this.kind := kind;
      this.rows := rows;
    }

    /** `ok` tells whether the rows can be read. */
    method Load(clock: Clock, ok: bool) returns (r: Option<TokenMap>)
      modifies clock
      ensures clock.now >= old(clock.now)
      ensures r == if ok then Some(Live(rows, Unix(clock.now))) else None
    {
      var t := clock.Read();
      r := if ok then Some(Live(rows, Unix(t))) else None;
    }

    /** A failing Save of a transaction leaves no trace; one of the JSON file may have taken effect. */
    method Save(tokens: TokenMap, clock: Clock) returns (outcome: SaveOutcome)
      modifies this, clock
      ensures clock.now >= old(clock.now)
      ensures rows == StoreAfter(kind, old(rows), tokens, Unix(clock.now), outcome)
      ensures Possible(kind, outcome)
    {
      var t := clock.Read();
      var failed: bool, renamed: bool := *, *;
      outcome := if !failed then Saved else if renamed && kind == JsonFile then WrittenButFailed else NotWritten;
      if outcome != NotWritten {
        rows := Persist(kind, tokens, Unix(t));
      }
    }
  }

  class TokenService {
    const cfg: Config
    const clock: Clock
    const store: Store
    var authCodes: map<string, AuthCode>
    var accessTokens: TokenMap

    /** The machine state while no operation is running. */
    ghost function Abs(): Sys
      reads this, clock, store
    {
      Sys(clock.now, authCodes, accessTokens, store.rows, map[], map[], None)
    }

    /** The events lead from `s` to the present state and end with the answer that the caller gets. */
    ghost predicate Performed(s: Sys, evs: seq<Event>, answer: Observation)
      reads this, clock, store
    {
      Performs(cfg, s, evs, Abs(), answer)
    }

    constructor (cfg: Config, store: Store, clock: Clock, tokens: TokenMap)
      requires store.kind == cfg.kind
      ensures this.cfg == cfg && this.store == store && this.clock == clock
      ensures authCodes == map[] && accessTokens == tokens
    {
      this.cfg := cfg;
      this.store := store;
      this.clock := clock;
      authCodes := map[];
      accessTokens := tokens;
    }

    /**
     NewService: fails when the store cannot be loaded or the backend URL does not parse, and otherwise
     starts with the store's unexpired tokens.
     */
    static method NewService(cfg: Config, store: Store, clock: Clock, loads: bool, backendURL: string,
                             parses: string -> bool)
      returns (r: Option<TokenService>)
      requires store.kind == cfg.kind
      modifies clock
      ensures clock.now >= old(clock.now)
      ensures r.Some? <==> loads && (backendURL == "" || parses(backendURL))
      ensures r.Some? ==>
                && fresh(r.value) && r.value.cfg == cfg && r.value.store == store && r.value.clock == clock
                && r.value.Abs() == Boot(clock.now, store.rows)
                && r.value.authCodes == map[]
                && r.value.accessTokens ==
                   map h | h in store.rows && store.rows[h] > clock.now.Floor as real :: store.rows[h]
    {
      var tokens := store.Load(clock, loads);
      if tokens.None? {
        return None;
      }
      if backendURL != "" && !parses(backendURL) {
        return None;
      }
      var s := new TokenService(cfg, store, clock, tokens.value);
      r := Some(s);
    }

    method AddAuthCode(code: string, data: AuthCode)
      modifies this`authCodes
      ensures authCodes == old(authCodes)[code := data]
    {
      authCodes := authCodes[code := data];
    }

    /** Looks the code up and deletes it in one lock region. */
    method ConsumeAuthCode(code: string) returns (found: Option<AuthCode>)
      modifies this`authCodes
      ensures found == if code in old(authCodes) then Some(old(authCodes)[code]) else None
      ensures authCodes == old(authCodes) - {code}
    {
      if code in authCodes {
        found := Some(authCodes[code]);
        authCodes := map c | c in authCodes && c != code :: authCodes[c];
        assert authCodes == old(authCodes) - {code};
      } else {
        found := None;
        assert authCodes == authCodes - {code};
      }
    }

    method CopyTokens() returns (copy: TokenMap)
      ensures copy == accessTokens
    {
      copy := map[];
      var todo := accessTokens.Keys;
      while todo != {}
        invariant todo <= accessTokens.Keys
        invariant copy == map k | k in accessTokens && k !in todo :: accessTokens[k]
      {
        var k :| k in todo;
        copy := copy[k := accessTokens[k]];
        todo := todo - {k};
      }
    }

    /** Inserts, saves a copy, and rolls the insertion back when the Save fails. */
    method AddAccessToken(token: string, expiresAt: real) returns (outcome: SaveOutcome)
      requires store.kind == cfg.kind
      modifies this`accessTokens, clock, store
      ensures Possible(cfg.kind, outcome)
      ensures clock.now >= old(clock.now)
      ensures
        var inserted := old(accessTokens)[cfg.hashToken(token) := Unix(expiresAt) as real];
        && store.rows == StoreAfter(cfg.kind, old(store.rows), inserted, Unix(clock.now), outcome)
        && accessTokens == if outcome == Saved then inserted else inserted - {cfg.hashToken(token)}
    {
      var hash := cfg.hashToken(token);
      accessTokens := accessTokens[hash := Unix(expiresAt) as real];
      var snapshot := CopyTokens();
      outcome := store.Save(snapshot, clock);
      if outcome != Saved {
        accessTokens := map k | k in accessTokens && k != hash :: accessTokens[k];
        assert accessTokens == snapshot - {hash};
      }
    }

    method ValidateAccessToken(token: string) returns (valid: bool, ghost evs: seq<Event>)
      modifies clock
      ensures Performed(old(Abs()), evs, ValidateResult(token, valid))
      ensures |evs| == 2 && evs[0].Tick? && evs[1] == Validate(token)
      ensures valid <==>
              cfg.hashToken(token) in accessTokens && accessTokens[cfg.hashToken(token)] > Unix(clock.now) as real
    {
      hide Performs;
      ghost var s := Abs();
      var hash := cfg.hashToken(token);
      var t := clock.Read();
      valid := hash in accessTokens && accessTokens[hash] > Unix(t) as real;
      evs := [Tick(t - s.clock), Validate(token)];
      TwoPerform(cfg, s, evs[0], evs[1]);
    }

    /** `generated` is the output of GenerateRandomString. */
    method IssueAuthCode(req: AuthorizeRequest, generated: string) returns (r: Result<string, IssueError>,
                         ghost evs: seq<Event>)
      modifies this`authCodes, clock
      ensures Performed(old(Abs()), evs, IssueResult(r))
      ensures r == match IssueRefusal(cfg, req) case Some(e) => Err(e) case None => Ok(generated)
      ensures r ==
              if req.responseType != "code" then Err(UnsupportedResponseType)
              else if req.clientID != cfg.clientID then Err(UnauthorizedClient)
              else if !cfg.redirectAllowed(req.redirectURI) then Err(InvalidRedirect)
              else if |req.state| == 0 then Err(MissingState)
              else if |req.codeChallenge| == 0 then (if cfg.mandatoryPKCE then Err(PkceMandatory) else Ok(generated))
              else if req.codeChallengeMethod != "S256" then Err(UnsupportedChallengeMethod)
              else if |req.codeChallenge| < 43 || 128 < |req.codeChallenge| then Err(ChallengeLength)
              else Ok(generated)
      ensures
        var expiresAt := clock.now + cfg.authCodeTTL as real;
        authCodes ==
        if r.Err? then old(authCodes)
        else old(authCodes)[generated :=
                              AuthCode(req.redirectURI, expiresAt, req.codeChallenge, req.codeChallengeMethod)]
    {
      hide Performs;
      ghost var s := Abs();
      if req.responseType != "code" {
        r := Err(UnsupportedResponseType);
      } else if req.clientID != cfg.clientID {
        r := Err(UnauthorizedClient);
      } else if !cfg.redirectAllowed(req.redirectURI) {
        r := Err(InvalidRedirect);
      } else if req.state == "" {
        r := Err(MissingState);
      } else if req.codeChallenge == "" && cfg.mandatoryPKCE {
        r := Err(PkceMandatory);
      } else if req.codeChallenge != "" && req.codeChallengeMethod != "S256" {
        r := Err(UnsupportedChallengeMethod);
      } else if req.codeChallenge != "" && (|req.codeChallenge| < 43 || |req.codeChallenge| > 128) {
        r := Err(ChallengeLength);
      } else {
        var t := clock.Read();
        AddAuthCode(generated, AuthCode(req.redirectURI, t + cfg.authCodeTTL as real, req.codeChallenge,
            req.codeChallengeMethod));
        r := Ok(generated);
      }
      assert r == match IssueRefusal(cfg, req) case Some(e) => Err(e) case None => Ok(generated);
      hide IssueRefusal;
      evs := [Tick(clock.now - s.clock), Issue(req, generated, clock.now)];
      IssuePerforms(cfg, s, req, generated, clock.now);
    }

    /**
     `generated` is the output of GenerateRandomString, `checkedAt` the time at which the code was checked,
     `outcome` how the Save went. The answer is spelled out, condition by condition.
     */
    method ExchangeToken(req: TokenRequest, generated: string)
      returns (r: Result<string, TokenError>, ghost evs: seq<Event>, ghost checkedAt: real, ghost outcome: SaveOutcome)
      requires store.kind == cfg.kind
      modifies this`authCodes, this`accessTokens, clock, store
      ensures Performed(old(Abs()), evs, ExchangeResult(0, r)) && ExchangeRun(old(Abs()), req, generated, evs,
              clock.now)
      ensures old(clock.now) <= checkedAt <= clock.now
      ensures r ==
              if req.grantType != "authorization_code" then Err(UnsupportedGrantType)
              else if req.clientID != cfg.clientID then Err(InvalidClient)
              else if |req.clientSecret| > 0 && (|cfg.clientSecret| == 0 || req.clientSecret != cfg.clientSecret) then
                Err(InvalidClient)
              else if req.code !in old(authCodes) || old(authCodes)[req.code].expiresAt < checkedAt then
                Err(InvalidOrExpiredCode)
              else if |req.redirectURI| == 0 || req.redirectURI != old(authCodes)[req.code].redirectURI then
                Err(RedirectMismatch)
              else if |old(authCodes)[req.code].codeChallenge| > 0 &&
                      Base64Url.Decode(old(authCodes)[req.code].codeChallenge) !=
                      Some(cfg.sha256(req.codeVerifier)) then
                Err(PkceFailed)
              else if outcome != Saved then Err(ServerError)
              else Ok(generated)
      ensures authCodes ==
              if r.Err? && r.error in {UnsupportedGrantType, InvalidClient} then old(authCodes)
              else old(authCodes) - {req.code}
      ensures r.Ok? ==> r.value == generated && cfg.hashToken(generated) in accessTokens && req.code in old(authCodes)
      ensures r.Err? && r.error != ServerError ==> accessTokens == old(accessTokens) && store.rows == old(store.rows)
    {
      hide Performs, ExchangeRun, StoreAfter, CheckEvents, ExchangeEvents, TokenExpiry, Base64Url.Decode, Pkce.S256;
      ghost var s := Abs();
      checkedAt, outcome := clock.now, NotWritten;
      RequestJudged(cfg, req);
      if req.grantType != "authorization_code" {
        evs := [Begin(0, req)];
        RefusedRequestPerforms(cfg, s, req, generated);
        return Err(UnsupportedGrantType), evs, checkedAt, outcome;
      }
      if !AuthenticateClient(cfg, req.clientID, req.clientSecret) {
        evs := [Begin(0, req)];
        RefusedRequestPerforms(cfg, s, req, generated);
        return Err(InvalidClient), evs, checkedAt, outcome;
      }
      assert RequestRefusal(cfg, req).None?;
      hide RequestRefusal, AuthenticateClient;
      var found := ConsumeAuthCode(req.code);
      var t1 := clock.Read();
      checkedAt := t1;
      CodeJudged(cfg, req, found, t1);
      evs := CheckEvents(s, req, t1);
      if CodeRefusal(cfg, req, found, t1).Some? {
        RefusedCodePerforms(cfg, s, req, generated, found, t1);
      }
      if found.None? || found.value.expiresAt < t1 {
        return Err(InvalidOrExpiredCode), evs, checkedAt, outcome;
      }
      var data := found.value;
      if req.redirectURI == "" || req.redirectURI != data.redirectURI {
        return Err(RedirectMismatch), evs, checkedAt, outcome;
      }
      if data.codeChallenge != "" {
        if !Pkce.ValidatePKCE(cfg.sha256, data.codeChallenge, req.codeVerifier) {
          return Err(PkceFailed), evs, checkedAt, outcome;
        }
      }
      assert CodeRefusal(cfg, req, found, t1).None?;
      hide CodeRefusal;
      var t2 := clock.Read();
      assert Unix(t2 + cfg.accessTokenTTL as real) as real == TokenExpiry(cfg, t2) by { ExpiryOf(cfg, t2); }
      var saved := AddAccessToken(generated, t2 + cfg.accessTokenTTL as real);
      outcome := saved;
      evs := ExchangeEvents(s, req, generated, t1, t2, clock.now, saved);
      ExchangePerforms(cfg, s, req, data, generated, t1, t2, clock.now, saved);
      r := if saved == Saved then Ok(generated) else Err(ServerError);
    }

    static lemma ExpiryOf(cfg: Config, t: real)
      ensures TokenExpiry(cfg, t) == Unix(t + cfg.accessTokenTTL as real) as real
    {
    }

    /** Removes the codes that have expired, reading the clock for each. `began` is an earlier reading. */
    method SweepCodes(ghost began: real) returns (ghost removed: set<string>)
      requires began <= clock.now
      modifies this`authCodes, clock
      ensures clock.now >= old(clock.now) && authCodes == old(authCodes) - removed
      ensures SweepsCodes(old(Abs()).(clock := clock.now), removed, began)
    {
      removed := {};
      var todo := authCodes.Keys;
      while todo != {}
        invariant clock.now >= old(clock.now)
        invariant todo <= old(authCodes).Keys && removed <= old(authCodes).Keys && removed * todo == {}
        invariant authCodes == old(authCodes) - removed
        invariant forall c | c in removed :: old(authCodes)[c].expiresAt < clock.now
        invariant forall c | c in old(authCodes) && c !in todo && c !in removed :: old(authCodes)[c].expiresAt >= began
      {
        var code :| code in todo;
        todo := todo - {code};
        var t := clock.Read();
        if authCodes[code].expiresAt < t {
          authCodes := map c | c in authCodes && c != code :: authCodes[c];
          removed := removed + {code};
        }
      }
    }

    /** Removes the tokens that had expired by clock second `now`. */
    method SweepAccessTokens(now: int) returns (changed: bool)
      modifies this`accessTokens
      ensures accessTokens == SweepTokens(old(accessTokens), now)
      ensures changed <==> accessTokens != old(accessTokens)
    {
      changed := false;
      var todo := accessTokens.Keys;
      while todo != {}
        invariant todo <= accessTokens.Keys
        invariant accessTokens == map k | k in old(accessTokens)
                  && (k in todo || !(old(accessTokens)[k] <= now as real)) :: old(accessTokens)[k]
        invariant changed <==> accessTokens != old(accessTokens)
      {
        var hash :| hash in todo;
        todo := todo - {hash};
        if accessTokens[hash] <= now as real {
          accessTokens := map k | k in accessTokens && k != hash :: accessTokens[k];
          changed := true;
          assert hash in old(accessTokens) && hash !in accessTokens;
        }
      }
    }

    /** syncTokens: saves a copy of the tokens; a failure is only logged. */
    method SyncTokens() returns (ghost outcome: SaveOutcome)
      requires store.kind == cfg.kind
      modifies clock, store
      ensures Possible(cfg.kind, outcome)
      ensures clock.now >= old(clock.now)
      ensures store.rows == StoreAfter(cfg.kind, old(store.rows), accessTokens, Unix(clock.now), outcome)
    {
      var snapshot := CopyTokens();
      outcome := store.Save(snapshot, clock);
    }

    method PurgeExpired() returns (ghost evs: seq<Event>)
      requires store.kind == cfg.kind
      modifies this`authCodes, this`accessTokens, clock, store
      ensures PurgePerforms(cfg, old(Abs()), evs, Abs())
      ensures Live(accessTokens, Unix(clock.now)) == Live(old(accessTokens), Unix(clock.now))
      ensures forall k | k in accessTokens :: accessTokens[k] > Unix(old(clock.now)) as real
      ensures forall c | c in old(authCodes) && c !in authCodes :: old(authCodes)[c].expiresAt < clock.now
      ensures forall c | c in authCodes :: authCodes[c].expiresAt >= old(clock.now)
      ensures
        || store.rows == old(store.rows)
        || (accessTokens != old(accessTokens) && store.rows == Persist(cfg.kind, accessTokens, Unix(clock.now)))
    {
      hide PurgePerforms, SweepTokens, StoreAfter;
      ghost var s := Abs();
      var t0 := clock.Read();
      var now := Unix(t0);
      ghost var removed := SweepCodes(t0);
      ghost var t1 := clock.now;
      var changed := SweepAccessTokens(now);
      evs := SweepEvents(s, t0, t1, removed);
      if changed {
        ghost var outcome := SyncTokens();
        evs := evs + SyncEvents(t1, clock.now, outcome);
        PurgeAndSyncPerform(cfg, s, t0, t1, clock.now, removed, outcome);
        SyncStores(cfg.kind, s.store, accessTokens, Unix(clock.now), outcome);
      } else {
        SweepsPerform(cfg, s, t0, t1, removed);
      }
      SweepKeepsLive(s.tokens, now, Unix(clock.now));
    }
  }

  lemma SyncStores(kind: StoreKind, store: TokenMap, tokens: TokenMap, now: int, outcome: SaveOutcome)
    ensures StoreAfter(kind, store, tokens, now, outcome) == store || StoreAfter(kind, store, tokens, now,
            outcome) == Persist(kind, tokens, now)
  {
  }
}
