/**
 The proxy handler: who may send a request, which paths are forwarded, where to on the backend, and
 which responses are filtered. Header handling and the transport are not part of this model.
 */
module Proxy {
  import opened Wrappers
  import opened McpAcl
  import opened PathClean
  import opened Splitting
  import opened Texts
  import Json
  import SseFilter

  const INSPECTION_LIMIT := 0x10_0000
  const MCP: string := "/mcp"

  /** `body` is None when it cannot be read. */
  datatype Request = Request(authorization: string, method_: string, path: Path, rawPath: string, body: Option<Bytes>)

  /** `backend` is the path of the backend URL, None when no backend is configured. */
  datatype Config = Config(anonymousEnabled: bool, policy: AnonymousMCPPolicy, backend: Option<Path>)

  /** Token validation, white-space trimming and the request decoders. */
  datatype Environment = Environment(validToken: string -> bool, trimSpace: string -> string, decoders: Decoders)

  datatype Outcome = Rejected(status: nat, reason: string) | Forwarded(path: Path, filtered: bool)

  predicate HasPrefix(s: string, prefix: string) {
    prefix <= s
  }

  function TrimPrefix(s: string, prefix: string): string {
    if HasPrefix(s, prefix) then s[|prefix|..] else s
  }

  function TrimSlash(s: string): string {
    if |s| > 0 && s[|s| - 1] == '/' then s[..|s| - 1] else s
  }

  predicate Malformed(r: Request) {
    Contains(r.path, "@") || Contains(r.rawPath, "%2e") || Contains(r.rawPath, "%2E")
  }

  /** The request comes with a header that holds a valid token. */
  predicate Authenticated(env: Environment, r: Request) {
    HasPrefix(r.authorization, "Bearer ") && env.validToken(env.trimSpace(r.authorization[7..]))
  }

  /** The request comes without a header, and the anonymous policy admits it. */
  predicate AdmittedAnonymously(cfg: Config, env: Environment, r: Request) {
    && r.authorization == "" && cfg.anonymousEnabled && r.method_ == "POST"
    && r.body.Some? && |r.body.value| <= INSPECTION_LIMIT
    && Admits(cfg.policy, env.decoders, r.body.value)
  }

  /** The place a path names is the MCP endpoint or below it. */
  predicate UnderMcp(p: Path) {
    Rooted(p) && |Place(p)| > 0 && Place(p)[0] == "mcp"
  }

  /** The rest of the way below the MCP endpoint. */
  function Below(p: Path): seq<string>
    requires UnderMcp(p)
  {
    Place(p)[1..]
  }

  /** The refusal of an anonymous request that is not admitted. */
  function AnonymousRefusal(r: Request): Outcome {
    if r.method_ != "POST" then Rejected(405, "anonymous MCP requires POST")
    else if r.body.None? || |r.body.value| > INSPECTION_LIMIT then Rejected(400, "invalid anonymous MCP request")
    else Rejected(403, "anonymous MCP request is not allowed")
  }

  /** The answer to a request that may use the proxy. */
  function PathAnswer(cfg: Config, path: Path, malformed: bool, filtered: bool): Outcome {
    if malformed then Rejected(400, "malformed path")
    else if !UnderMcp(path) then Rejected(404, "invalid proxy path")
    else match cfg.backend
      case None => Rejected(503, "backend not configured")
      case Some(base) => Forwarded(TrimSlash(base) + SubPath(Below(path)), filtered)
  }

  /** The answer to every request, in terms of who sends it and which place its path names. */
  function Answer(cfg: Config, env: Environment, r: Request): Outcome {
    if Authenticated(env, r) then PathAnswer(cfg, r.path, Malformed(r), false)
    else if AdmittedAnonymously(cfg, env, r) then
      PathAnswer(cfg, r.path, Malformed(r), AsksForTools(cfg.policy, env.decoders, r.body.value))
    else if HasPrefix(r.authorization, "Bearer ") then Rejected(401, "Invalid or expired token")
    else if r.authorization != "" || !cfg.anonymousEnabled then Rejected(401, "Bearer token required")
    else AnonymousRefusal(r)
  }

  method Allow(cfg: Config, env: Environment, r: Request) returns (rejected: Option<Outcome>, toolsList: bool)
    requires r.authorization == "" && cfg.anonymousEnabled
    ensures rejected == if AdmittedAnonymously(cfg, env, r) then None else Some(AnonymousRefusal(r))
    ensures toolsList <==> AdmittedAnonymously(cfg, env, r) && AsksForTools(cfg.policy, env.decoders, r.body.value)
  {
    if r.method_ != "POST" {
      return Some(Rejected(405, "anonymous MCP requires POST")), false;
    }
    if r.body.None? || |r.body.value| > INSPECTION_LIMIT {
      return Some(Rejected(400, "invalid anonymous MCP request")), false;
    }
    var d := PayloadAllowed(cfg.policy, env.decoders, r.body.value);
    if !d.allowed {
      return Some(Rejected(403, "anonymous MCP request is not allowed")), false;
    }
    return None, d.toolsList;
  }

  /**
   A request is forwarded exactly when it is authenticated or admitted anonymously, its path is not
   malformed and names a place under the MCP endpoint, and there is a backend. Its response is
   filtered exactly when it is anonymous and asks for the tools.
   */
  method HandleProxy(cfg: Config, env: Environment, r: Request) returns (o: Outcome)
    ensures o == Answer(cfg, env, r)
    ensures |r.authorization| > 0 && o.Forwarded? ==>
              exists x :: r.authorization == "Bearer " + x && env.validToken(env.trimSpace(x))
    ensures |r.authorization| > 0 && (forall token :: !env.validToken(token)) ==> o.Rejected? && o.status == 401
    ensures o.Forwarded? <==>
              && (Authenticated(env, r) || AdmittedAnonymously(cfg, env, r))
              && !Malformed(r) && UnderMcp(r.path) && cfg.backend.Some?
    ensures o.Forwarded? ==>
              && o.path == TrimSlash(cfg.backend.value) + SubPath(Below(r.path))
              && (o.filtered <==> r.authorization == "" && AsksForTools(cfg.policy, env.decoders, r.body.value))
    ensures o.Rejected? ==> o.status in [400, 401, 403, 404, 405, 503]
    ensures o.Rejected? && (Authenticated(env, r) || AdmittedAnonymously(cfg, env, r)) ==>
              o.status == if Malformed(r) then 400 else if !UnderMcp(r.path) then 404 else 503
    ensures o == Rejected(401, "Bearer token required") || o == Rejected(401, "Invalid or expired token") <==>
              !Authenticated(env, r) && (r.authorization != "" || !cfg.anonymousEnabled)
  {
    var filtered := false;
    var auth := r.authorization;
    BearerOnly(cfg, env, r);
    if auth != "" {
      if !HasPrefix(auth, "Bearer ") {
        return Rejected(401, "Bearer token required");
      }
      var token := env.trimSpace(TrimPrefix(auth, "Bearer "));
      if !env.validToken(token) {
        return Rejected(401, "Invalid or expired token");
      }
    } else if !cfg.anonymousEnabled {
      return Rejected(401, "Bearer token required");
    } else {
      var rejected, toolsList := Allow(cfg, env, r);
      if rejected.Some? {
        return rejected.value;
      }
      filtered := toolsList;
    }

    var cleanPath := CleanPath(r.path);
    if Malformed(r) {
      return Rejected(400, "malformed path");
    }
    BoundaryIff(r.path);
    if cleanPath != MCP && !HasPrefix(cleanPath, MCP + "/") {
      return Rejected(404, "invalid proxy path");
    }
    if cfg.backend.None? {
      return Rejected(503, "backend not configured");
    }
    var subPath := TrimPrefix(cleanPath, MCP);
    SubPathOfClean(r.path);
    return Forwarded(TrimSlash(cfg.backend.value) + subPath, filtered);
  }

  /** The response of a filtered request; None is the error that the client sees as a bad gateway. */
  method FilterResponse(cfg: Config, codec: Json.Codec, body: Option<Bytes>, filtered: bool) returns (r: Option<Bytes>)
    ensures !filtered ==> r == body
    ensures filtered ==> (r.Some? <==> body.Some? && |body.value| <= 1048576)
    ensures filtered && r.Some? ==> r.value == SseFilter.FilterBody(codec, cfg.policy, body.value)
  {
    if !filtered {
      return body;
    }
    if body.None? || |body.value| > INSPECTION_LIMIT {
      return None;
    }
    var text := SseFilter.FilterToolsListBody(codec, cfg.policy, body.value);
    return Some(text);
  }

  // ----- The answers, spelled out -----

  /** With a header, a request gets through only as `Bearer` with a valid token, and such a one always does. */
  lemma BearerOnly(cfg: Config, env: Environment, r: Request)
    ensures |r.authorization| > 0 && Answer(cfg, env, r).Forwarded? ==>
              exists x :: r.authorization == "Bearer " + x && env.validToken(env.trimSpace(x))
    ensures |r.authorization| > 0 && (forall token :: !env.validToken(token)) ==>
              Answer(cfg, env, r).Rejected? && Answer(cfg, env, r).status == 401
    ensures forall x | r.authorization == "Bearer " + x && env.validToken(env.trimSpace(x)) ::
              Answer(cfg, env, r) == PathAnswer(cfg, r.path, Malformed(r), false)
  {
    hide PathAnswer, Malformed, Admits, AsksForTools;
    var auth := r.authorization;
    if HasPrefix(auth, "Bearer ") {
      assert auth == "Bearer " + auth[7..];
    }
    forall x | auth == "Bearer " + x
      ensures x == auth[7..]
    {
    }
  }

  /** Which paths are malformed. The raw path is searched for an encoded dot in either case. */
  lemma MalformedIff(r: Request)
    ensures Malformed(r) <==>
              || (exists a, b :: r.path == a + "@" + b)
              || (exists a, b :: r.rawPath == a + "%2e" + b)
              || (exists a, b :: r.rawPath == a + "%2E" + b)
  {
    hide Contains;
    ContainsIff(r.path, "@");
    ContainsIff(r.rawPath, "%2e");
    ContainsIff(r.rawPath, "%2E");
  }

  /** The answer to a request that may use the proxy, by the text of its cleaned path and of the backend's. */
  lemma PathAnswerSpelledOut(cfg: Config, path: Path, malformed: bool, filtered: bool)
    ensures PathAnswer(cfg, path, malformed, filtered) ==
            if malformed then Rejected(400, "malformed path")
            else if Clean(path) != "/mcp" && !("/mcp/" <= Clean(path)) then Rejected(404, "invalid proxy path")
            else if cfg.backend.None? then Rejected(503, "backend not configured")
            else
              var base := cfg.backend.value;
              var trimmed := if |base| > 0 && base[|base| - 1] == '/' then base[..|base| - 1] else base;
              Forwarded(trimmed + Clean(path)[4..], filtered)
  {
    BoundaryIff(path);
    SubPathOfClean(path);
    assert MCP + "/" == "/mcp/";
    assert "/mcp/"[..4] == "/mcp";
    hide UnderMcp, SubPath, Clean;
  }

  /** Who may use the proxy, and what everybody else is told. */
  lemma AnswerSpelledOut(cfg: Config, env: Environment, r: Request)
    ensures Answer(cfg, env, r) ==
            if |r.authorization| > 0 then
              if !("Bearer " <= r.authorization) then Rejected(401, "Bearer token required")
              else if !env.validToken(env.trimSpace(r.authorization[7..])) then
                Rejected(401, "Invalid or expired token")
              else PathAnswer(cfg, r.path, Malformed(r), false)
            else if !cfg.anonymousEnabled then Rejected(401, "Bearer token required")
            else if r.method_ != "POST" then Rejected(405, "anonymous MCP requires POST")
            else if r.body.None? || |r.body.value| > 1048576 then Rejected(400, "invalid anonymous MCP request")
            else if !Admits(cfg.policy, env.decoders, r.body.value) then
              Rejected(403, "anonymous MCP request is not allowed")
            else PathAnswer(cfg, r.path, Malformed(r), AsksForTools(cfg.policy, env.decoders, r.body.value))
  {
    hide PathAnswer, Malformed, Admits, AsksForTools;
  }

  // ----- The boundary -----

  /** A slash before each segment. */
  function SubPath(segs: seq<string>): string {
    if |segs| == 0 then "" else "/" + Join(segs, '/')
  }

  lemma Assoc(a: string, b: string, c: string)
    ensures a + (b + c) == (a + b) + c
  {
  }

  lemma CleanUnderMcp(p: Path)
    requires UnderMcp(p)
    ensures Clean(p) == MCP + SubPath(Below(p))
  {
    CleanRootedSegments(p);
    var stack := Place(p);
    var rest := stack[1..];
    assert [stack[0]] + rest == stack;
    hide Place, Clean;
    JoinCons(stack[0], rest, '/');
    Assoc("/", "mcp", SubPath(rest));
    assert "/" + "mcp" == MCP;
    if |rest| == 0 {
      assert "mcp" + "" == "mcp";
    }
  }

  /** The textual boundary test on the cleaned path says exactly that the place is under the endpoint. */
  lemma BoundaryIff(p: Path)
    ensures Clean(p) == MCP || HasPrefix(Clean(p), MCP + "/") <==> UnderMcp(p)
  {
    CleanIdempotent(p);
    if UnderMcp(p) {
      CleanUnderMcp(p);
    } else if Rooted(p) {
      CleanRootedSegments(p);
      var text := Join(Place(p), '/');
      AfterSlash(text);
      if |Place(p)| > 0 {
        FirstSegment(Place(p), if |text| >= 4 then text[4..] else "");
      }
    }
  }

  /** A text of segments that is `mcp`, or goes on with a slash after it, has the first segment `mcp`. */
  lemma FirstSegment(stack: seq<string>, more: string)
    requires |stack| > 0 && Free(stack, '/')
    ensures Join(stack, '/') == "mcp" ==> stack[0] == "mcp"
    ensures Join(stack, '/') == "mcp" + ['/'] + more ==> stack[0] == "mcp"
  {
    SplitOfJoin(stack, '/');
    SplitFirst("mcp", more, '/');
  }

  lemma AfterSlash(text: string)
    ensures "/" + text == MCP ==> text == "mcp"
    ensures HasPrefix("/" + text, MCP + "/") ==> |text| >= 4 && text == "mcp" + ['/'] + text[4..]
  {
    var whole := "/" + text;
    assert whole[1..] == text;
    assert MCP[1..] == "mcp";
    if HasPrefix(whole, MCP + "/") {
      assert whole[..5] == MCP + "/";
      assert text[..4] == whole[1..5] == "mcp" + ['/'];
      assert text == text[..4] + text[4..];
    }
  }

  lemma SubPathOfClean(p: Path)
    ensures UnderMcp(p) ==> TrimPrefix(Clean(p), MCP) == SubPath(Below(p))
  {
    if UnderMcp(p) {
      CleanUnderMcp(p);
    }
  }

  // ----- Where requests go on the backend -----

  lemma {:induction false} FoldOfPlain(stack: seq<string>, segs: seq<string>)
    requires forall s | s in segs :: Plain(s) && s != ".."
    ensures FoldFrom(true, stack, segs) == stack + segs
    decreases |segs|
  {
    if |segs| > 0 {
      assert segs[0] in segs;
      assert forall s | s in segs[1..] :: s in segs;
      FoldOfPlain(stack + [segs[0]], segs[1..]);
      assert stack + [segs[0]] + segs[1..] == stack + segs;
    } else {
      assert stack + segs == stack;
    }
  }

  /** Going below a rooted path by plain segments. */
  lemma PlaceBelow(base: Path, segs: seq<string>)
    requires Rooted(base) && |segs| > 0 && forall s | s in segs :: Plain(s) && s != ".."
    ensures Rooted(base + SubPath(segs)) && Place(base + SubPath(segs)) == Place(base) + segs
  {
    var text := Join(segs, '/');
    assert base + SubPath(segs) == base + ['/'] + text;
    SplitConcat(base, text, '/');
    SplitOfJoin(segs, '/');
    FoldFromIsFold(true, Split(base, '/'), segs);
    FoldOfPlain(Place(base), segs);
  }

  /** A slash at the end names the same place. */
  lemma PlaceOfTrimmed(base: Path)
    requires Rooted(base)
    ensures TrimSlash(base) == "" ==> Place(base) == []
    ensures TrimSlash(base) != "" ==> Rooted(TrimSlash(base)) && Place(TrimSlash(base)) == Place(base)
  {
    var trimmed := TrimSlash(base);
    if trimmed != base {
      assert base == trimmed + ['/'] + "";
      SplitConcat(trimmed, "", '/');
      assert Split("", '/') == [""];
      FoldFromIsFold(true, Split(trimmed, '/'), [""]);
      var st := Fold(true, Split(trimmed, '/'));
      assert FoldFrom(true, st, [""]) == FoldFrom(true, Push(true, st, ""), [""][1..]);
      if trimmed == "" {
        assert Fold(true, [""]) == Push(true, Fold(true, [""][..0]), "");
      }
    }
  }

  /**
   Whatever path a client sends, a forwarded request goes to the backend's own base path or to a place
   strictly below it, by segments none of which is empty, `.` or `..`.
   */
  lemma ForwardedUnderBase(base: Path, p: Path)
    requires base == "" || Rooted(base)
    requires UnderMcp(p)
    ensures var target := TrimSlash(base) + SubPath(Below(p));
            && Place(target) == Place(base) + Below(p)
            && (target == "" || Rooted(target))
    ensures forall s | s in Below(p) :: s != "" && s != "." && s != ".." && '/' !in s
  {
    CleanRootedSegments(p);
    var segs := Below(p);
    assert forall s | s in segs :: s in Place(p);
    assert Split("", '/') == [""];
    assert Fold(false, [""]) == Push(false, Fold(false, [""][..0]), "");
    if base != "" {
      PlaceOfTrimmed(base);
    }
    var trimmed := TrimSlash(base);
    if |segs| == 0 {
      assert trimmed + "" == trimmed;
      assert Place(base) + segs == Place(base);
    } else if trimmed == "" {
      RootedJoin(segs);
      assert "" + SubPath(segs) == SubPath(segs);
      assert [] + segs == segs;
    } else {
      PlaceBelow(trimmed, segs);
    }
  }

  lemma RootedJoin(segs: seq<string>)
    requires |segs| > 0 && forall s | s in segs :: Plain(s) && s != ".."
    ensures Rooted(SubPath(segs)) && Place(SubPath(segs)) == segs
  {
    assert forall i | 0 <= i < |segs| :: segs[i] in segs;
    PlaceOfRender(true, segs);
  }

  /** Paths that clean alike are on the same side of the boundary, and lead to the same target. */
  lemma SamePlaceSameTarget(cfg: Config, p: Path, q: Path, filtered: bool)
    requires Clean(p) == Clean(q)
    ensures PathAnswer(cfg, p, false, filtered) == PathAnswer(cfg, q, false, filtered)
  {
    CleanEqualIff(p, q);
  }

  /**
   When the spelling of a path matters: two requests that differ in nothing but how they spell one
   place get the same answer exactly when both spellings are malformed or neither is, or when the
   sender is refused before the path is looked at.
   */
  lemma SpellingMattersIff(cfg: Config, env: Environment, r: Request, path: Path, rawPath: string)
    requires Clean(path) == Clean(r.path)
    ensures
      var q := r.(path := path, rawPath := rawPath);
      Answer(cfg, env, q) == Answer(cfg, env, r) <==>
        (Malformed(q) <==> Malformed(r)) || !(Authenticated(env, r) || AdmittedAnonymously(cfg, env, r))
  {
    hide Malformed, UnderMcp, SubPath, TrimSlash, Clean, Place, HasPrefix;
    SamePlaceSameTarget(cfg, path, r.path, true);
    SamePlaceSameTarget(cfg, path, r.path, false);
  }

  /** Two forwarded requests meet at the same backend path exactly when their paths name the same place. */
  lemma TargetsInjective(base: Path, p: Path, q: Path)
    requires base == "" || Rooted(base)
    requires UnderMcp(p) && UnderMcp(q)
    ensures TrimSlash(base) + SubPath(Below(p)) == TrimSlash(base) + SubPath(Below(q)) <==> Clean(p) == Clean(q)
  {
    ForwardedUnderBase(base, p);
    ForwardedUnderBase(base, q);
    CleanEqualIff(p, q);
    PlaceUnderMcp(p);
    PlaceUnderMcp(q);
    hide Place, Clean, TrimSlash, SubPath, UnderMcp, Rooted;
    Cancel(Place(base), Below(p), Below(q));
  }

  lemma PlaceUnderMcp(p: Path)
    requires UnderMcp(p)
    ensures Rooted(p) && Place(p) == ["mcp"] + Below(p)
  {
    assert Place(p) == [Place(p)[0]] + Below(p);
  }

  lemma Cancel(a: seq<string>, b: seq<string>, c: seq<string>)
    ensures a + b == a + c ==> b == c
  {
    assert (a + b)[|a|..] == b && (a + c)[|a|..] == c;
  }

  /**
   For a backend path that is clean itself the target is clean text: no doubled slash, and nothing that
   cleaning would change. Only the bare root of a backend without a path gives the empty target.
   */
  lemma TargetIsClean(base: Path, p: Path)
    requires base == "" || (Rooted(base) && Clean(base) == base)
    requires UnderMcp(p)
    ensures
      var target := TrimSlash(base) + SubPath(Below(p));
      if target == "" then (base == "" || base == "/") && Below(p) == [] else Clean(target) == target
  {
    ForwardedUnderBase(base, p);
    var below := Below(p);
    var target := TrimSlash(base) + SubPath(below);
    var stack := Place(base) + below;
    TrimmedText(base);
    hide Clean, Place, UnderMcp, TrimSlash;
    SubPathConcat(Place(base), below);
    assert TrimSlash(base) == SubPath(Place(base));
    assert target == SubPath(stack);
    if target != "" {
      CleanOfSubPath(target, stack);
    }
  }

  lemma CleanOfSubPath(target: Path, stack: seq<string>)
    requires target == SubPath(stack) && |stack| > 0 && Rooted(target) && Place(target) == stack
    ensures Clean(target) == target
  {
  }

  /** A clean backend path without its trailing slash is a slash before each of its segments. */
  lemma TrimmedText(base: Path)
    requires base == "" || (Rooted(base) && Clean(base) == base)
    ensures TrimSlash(base) == SubPath(Place(base))
    ensures TrimSlash(base) == "" ==> (base == "" || base == "/")
  {
    if base == "" {
      assert Split("", '/') == [""];
      assert Fold(false, [""]) == Push(false, Fold(false, [""][..0]), "");
    } else {
      CleanRootedSegments(base);
      var stack := Place(base);
      if |stack| > 0 {
        LastOfJoin(stack);
        assert base == "/" + Join(stack, '/');
      } else {
        assert base == "/" + "";
      }
    }
  }

  lemma {:induction false} LastOfJoin(stack: seq<string>)
    requires |stack| > 0 && forall s | s in stack :: |s| > 0 && '/' !in s
    ensures |Join(stack, '/')| > 0 && Join(stack, '/')[|Join(stack, '/')| - 1] != '/'
    decreases |stack|
  {
    if |stack| == 1 {
      assert stack[0] in stack && stack[0][|stack[0]| - 1] in stack[0];
    } else {
      assert forall s | s in stack[1..] :: s in stack;
      LastOfJoin(stack[1..]);
    }
  }

  lemma {:induction false} SubPathConcat(a: seq<string>, b: seq<string>)
    ensures SubPath(a + b) == SubPath(a) + SubPath(b)
    decreases |b|
  {
    if |b| == 0 {
      assert a + b == a && SubPath(a) + "" == SubPath(a);
    } else if |a| == 0 {
      assert a + b == b && "" + SubPath(b) == SubPath(b);
    } else {
      var front, last := b[..|b| - 1], b[|b| - 1];
      SubPathConcat(a, front);
      assert a + b == (a + front) + [last] && b == front + [last];
      SubPathSnoc(a + front, last);
      SubPathSnoc(front, last);
      Assoc(SubPath(a), SubPath(front), "/" + last);
    }
  }

  lemma SubPathSnoc(front: seq<string>, last: string)
    ensures SubPath(front + [last]) == SubPath(front) + ("/" + last)
  {
    if |front| == 0 {
      assert front + [last] == [last];
      assert "" + ("/" + last) == "/" + last;
    } else {
      JoinSnoc(front, last, '/');
      SlashBetween(Join(front, '/'), last);
    }
  }

  lemma SlashBetween(text: string, last: string)
    ensures "/" + (text + ['/'] + last) == ("/" + text) + ("/" + last)
  {
  }
}
