/**
 The decisions of the authorization-code grant (section 4.1 of RFC 6749 with sections 4.2 to 4.6 of
 RFC 7636): what a code may be issued for, which client may exchange, and when a code earns a token.
 The configuration carries the parts this model takes as given: which redirect URIs are allowed,
 SHA-256, and the hash under which tokens are stored.
 */
module Grant {
  import opened Wrappers
  import opened TokenMaps
  import opened Pkce
  import Base64Url

  datatype Config = Config(
    clientID: string,
    clientSecret: string,
    mandatoryPKCE: bool,
    authCodeTTL: int,
    accessTokenTTL: int,
    redirectAllowed: string -> bool,
    sha256: string -> Digest,
    hashToken: string -> Hash,
    kind: StoreKind)

  datatype AuthCode = AuthCode(
    redirectURI: string,
    expiresAt: real,
    codeChallenge: string,
    codeChallengeMethod: string)

  datatype AuthorizeRequest = AuthorizeRequest(
    responseType: string,
    clientID: string,
    redirectURI: string,
    state: string,
    codeChallenge: string,
    codeChallengeMethod: string)

  datatype TokenRequest = TokenRequest(
    grantType: string,
    clientID: string,
    clientSecret: string,
    redirectURI: string,
    code: string,
    codeVerifier: string)

  datatype IssueError =
    | UnsupportedResponseType
    | UnauthorizedClient
    | InvalidRedirect
    | MissingState
    | PkceMandatory
    | UnsupportedChallengeMethod
    | ChallengeLength

  datatype TokenError =
    | UnsupportedGrantType
    | InvalidClient
    | InvalidOrExpiredCode
    | RedirectMismatch
    | PkceFailed
    | ServerError

  /** The first check of an authorization request that fails, if any. */
  function IssueRefusal(cfg: Config, req: AuthorizeRequest): Option<IssueError> {
    if req.responseType != "code" then Some(UnsupportedResponseType)
    else if req.clientID != cfg.clientID then Some(UnauthorizedClient)
    else if !cfg.redirectAllowed(req.redirectURI) then Some(InvalidRedirect)
    else if req.state == "" then Some(MissingState)
    else if req.codeChallenge == "" && cfg.mandatoryPKCE then Some(PkceMandatory)
    else if req.codeChallenge != "" && req.codeChallengeMethod != "S256" then Some(UnsupportedChallengeMethod)
    else if req.codeChallenge != "" && !(43 <= |req.codeChallenge| <= 128) then Some(ChallengeLength)
    else None
  }

  /** The code stored for a request accepted at time `at`. */
  function CodeFor(cfg: Config, req: AuthorizeRequest, at: real): AuthCode {
    AuthCode(req.redirectURI, at + cfg.authCodeTTL as real, req.codeChallenge, req.codeChallengeMethod)
  }

  predicate AuthenticateClient(cfg: Config, clientID: string, clientSecret: string) {
    && clientID == cfg.clientID
    && (clientSecret == "" || (cfg.clientSecret != "" && clientSecret == cfg.clientSecret))
  }

  /** The checks an exchange makes before it touches its code. */
  function RequestRefusal(cfg: Config, req: TokenRequest): Option<TokenError> {
    if req.grantType != "authorization_code" then Some(UnsupportedGrantType)
    else if !AuthenticateClient(cfg, req.clientID, req.clientSecret) then Some(InvalidClient)
    else None
  }

  /** The checks an exchange makes on the code it has consumed; `found` is None for an unknown code. */
  function CodeRefusal(cfg: Config, req: TokenRequest, found: Option<AuthCode>, now: real): Option<TokenError> {
    match found
    case None => Some(InvalidOrExpiredCode)
    case Some(data) =>
      if data.expiresAt < now then Some(InvalidOrExpiredCode)
      else if req.redirectURI == "" || req.redirectURI != data.redirectURI then Some(RedirectMismatch)
      else if data.codeChallenge != "" && !ValidatePKCE(cfg.sha256, data.codeChallenge, req.codeVerifier) then
        Some(PkceFailed)
      else None
  }

  /** The whole second at which a token minted at time `mintAt` stops being valid. */
  function TokenExpiry(cfg: Config, mintAt: real): real {
    Unix(mintAt + cfg.accessTokenTTL as real) as real
  }

  /**
   A token minted at `mintAt` is valid at a later time exactly while fewer than floor(mintAt) + TTL
   seconds have begun, so it lives more than TTL - 1 and at most TTL seconds.
   */
  lemma TokenLifetime(cfg: Config, mintAt: real, t: real)
    ensures TokenExpiry(cfg, mintAt) > Unix(t) as real <==> t < TokenExpiry(cfg, mintAt)
    ensures cfg.accessTokenTTL as real - 1.0 < TokenExpiry(cfg, mintAt) - mintAt <= cfg.accessTokenTTL as real
    ensures TokenExpiry(cfg, mintAt) == (Unix(mintAt) + cfg.accessTokenTTL) as real
  {
    FloorShift(mintAt, cfg.accessTokenTTL);
    FloorBelow(t, Unix(mintAt) + cfg.accessTokenTTL);
  }

  // ----- The decisions, spelled out -----

  /** What issuance asks for, in the order in which it asks, and the error for each. */
  lemma IssueJudged(cfg: Config, req: AuthorizeRequest)
    ensures IssueRefusal(cfg, req) ==
            if req.responseType != "code" then Some(UnsupportedResponseType)
            else if req.clientID != cfg.clientID then Some(UnauthorizedClient)
            else if !cfg.redirectAllowed(req.redirectURI) then Some(InvalidRedirect)
            else if |req.state| == 0 then Some(MissingState)
            else if |req.codeChallenge| == 0 then (if cfg.mandatoryPKCE then Some(PkceMandatory) else None)
            else if req.codeChallengeMethod != "S256" then Some(UnsupportedChallengeMethod)
            else if |req.codeChallenge| < 43 || 128 < |req.codeChallenge| then Some(ChallengeLength)
            else None
  {
  }

  /** What an exchange asks of its request before it touches a code. */
  lemma RequestJudged(cfg: Config, req: TokenRequest)
    ensures RequestRefusal(cfg, req) ==
            if req.grantType != "authorization_code" then Some(UnsupportedGrantType)
            else if req.clientID != cfg.clientID then Some(InvalidClient)
            else if |req.clientSecret| > 0 && (|cfg.clientSecret| == 0 || req.clientSecret != cfg.clientSecret) then
              Some(InvalidClient)
            else None
  {
  }

  /** What an exchange asks of the code it has consumed. A code without a challenge needs no verifier. */
  lemma CodeJudged(cfg: Config, req: TokenRequest, found: Option<AuthCode>, now: real)
    ensures CodeRefusal(cfg, req, found, now) ==
            if found.None? || found.value.expiresAt < now then Some(InvalidOrExpiredCode)
            else if |req.redirectURI| == 0 || req.redirectURI != found.value.redirectURI then Some(RedirectMismatch)
            else if |found.value.codeChallenge| > 0 &&
                    Base64Url.Decode(found.value.codeChallenge) != Some(cfg.sha256(req.codeVerifier)) then
              Some(PkceFailed)
            else None
  {
    if found.Some? {
      MatchedChallengeIsADigest(cfg.sha256, found.value.codeChallenge, req.codeVerifier);
    }
  }
}
