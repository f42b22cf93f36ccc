/**
 The proxy in front of the service: with the service's own token validation, what a request with a
 header must carry to be forwarded, in every run.
 */
module ProxyAccess {
  import opened Wrappers
  import opened TokenMaps
  import opened Grant
  import opened ServiceMachine
  import opened ServiceHistory
  import opened ServiceTheorems
  import ServiceLifetimes
  import Proxy

  /** The proxy asks the service about tokens. */
  ghost predicate Validates(env: Proxy.Environment, cfg: Config, s: Sys) {
    forall token :: env.validToken(token) <==> Valid(cfg, s, token)
  }

  /**
   In every run, a request with a header is forwarded only if the header is `Bearer` and a token that
   was in the first store or was earned by a code exchange, and that has not expired.
   */
  lemma ForwardedTokenWasEarned(cfg: Config, clock: real, initial: TokenMap, es: seq<Event>, w: World,
                                proxy: Proxy.Config, env: Proxy.Environment, r: Proxy.Request) returns (x: string)
    requires IsRun(cfg, clock, initial, es, w) && Validates(env, cfg, w.sys)
    requires |r.authorization| > 0 && Proxy.Answer(proxy, env, r).Forwarded?
    ensures r.authorization == "Bearer " + x
    ensures
      var k := cfg.hashToken(env.trimSpace(x));
      && (Earned(cfg, w.hist, k) || (k !in w.hist.grants && k in initial))
      && w.sys.clock.Floor as real <
         if k in w.hist.grants then TokenExpiry(cfg, w.hist.grants[k].mintAt)
         else if k in initial then initial[k] else 0.0
  {
    Proxy.BearerOnly(proxy, env, r);
    hide Proxy.Answer, IsRun, TokenExpiry;
    x :| r.authorization == "Bearer " + x && env.validToken(env.trimSpace(x));
    assert Valid(cfg, w.sys, env.trimSpace(x));
    TokenProvenance(cfg, clock, initial, es, w, w.sys.tokens, cfg.hashToken(env.trimSpace(x)));
  }

  /**
   In every run, a client that presents a confirmed token as `Bearer` is answered by what its path is,
   until the token expires, and with 401 from then on.
   */
  lemma ConfirmedTokenIsLetIn(cfg: Config, clock: real, initial: TokenMap, es: seq<Event>, w: World,
                              proxy: Proxy.Config, env: Proxy.Environment, r: Proxy.Request, x: string)
    requires IsRun(cfg, clock, initial, es, w) && w.sys.writer.None? && Validates(env, cfg, w.sys)
    requires r.authorization == "Bearer " + x && cfg.hashToken(env.trimSpace(x)) in w.hist.log
    ensures cfg.hashToken(env.trimSpace(x)) in w.hist.grants
    ensures
      var mintAt := w.hist.grants[cfg.hashToken(env.trimSpace(x))].mintAt;
      Proxy.Answer(proxy, env, r) ==
      if w.sys.clock < (mintAt.Floor + cfg.accessTokenTTL) as real then
        Proxy.PathAnswer(proxy, r.path, Proxy.Malformed(r), false)
      else Proxy.Rejected(401, "Invalid or expired token")
  {
    var token := env.trimSpace(x);
    ServiceLifetimes.ConfirmedAcceptedIff(cfg, clock, initial, es, w, token);
    TokenLifetime(cfg, w.hist.grants[cfg.hashToken(token)].mintAt, w.sys.clock);
    assert Valid(cfg, w.sys, token) <==> env.validToken(token);
    hide IsRun, TokenExpiry, Valid, Validates;
    Proxy.AnswerSpelledOut(proxy, env, r);
    assert r.authorization[7..] == x && "Bearer " <= r.authorization;
    hide Proxy.Answer, Proxy.PathAnswer, Proxy.Malformed;
  }
}
