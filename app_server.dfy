/**
 * The handler app/main.go serves: createStack(logging, CORSMiddleware) around a router
 * that sends /auth/ to the login routes and /api/, through authenticateUser, to the API
 * routes, each with its prefix stripped.
 */
module AppServer {
  import opened Wrappers
  import opened Http
  import opened Strings
  import opened Auth
  import opened Bearer
  import opened Stack
  import opened AppMiddlewares

  /** http.NotFound: http.Error(w, "404 page not found", 404). */
  const NotFound: seq<Action> :=
    [SetHeader("Content-Type", "text/plain; charset=utf-8"), SetHeader("X-Content-Type-Options", "nosniff"),
     WriteHeader(StatusNotFound), Write(Str("404 page not found\n"))]

  /** The not-found reply is a 404 carrying its one line of text. */
  lemma NotFoundResponse()
    ensures Status(Run(NotFound, Blank)) == StatusNotFound
    ensures Run(NotFound, Blank).body == [Str("404 page not found\n")]
    ensures Get(Run(NotFound, Blank).header, "X-Content-Type-Options") == "nosniff"
  {
    var hs := NotFound;
    assert Run(hs[..1], Blank) == Step(Blank, hs[0]) by { assert hs[..1][..0] == []; }
    assert Run(hs[..2], Blank) == Step(Run(hs[..1], Blank), hs[1]) by { assert hs[..2][..1] == hs[..1]; }
    assert Run(hs[..3], Blank) == Step(Run(hs[..2], Blank), hs[2]) by { assert hs[..3][..2] == hs[..2]; }
    assert Run(hs, Blank) == Step(Run(hs[..3], Blank), hs[3]);
    assert |"X-Content-Type-Options"| != |"Content-Type"|;
  }

  /** http.StripPrefix(prefix, h): an empty prefix gives h itself; otherwise h serves
      the paths that start with the prefix, and the rest get http.NotFound. */
  function StripPrefix(prefix: string, h: Handler): Handler
  {
    if prefix == "" then h
    else (r: Request) => if HasPrefix(r.path, prefix) then h(r.(path := r.path[|prefix|..])) else NotFound
  }

  /** What StripPrefix does for one request: with a non-empty prefix, h receives the
      request unchanged but for a path that the prefix completes to the original one,
      and a path without the prefix is answered 404 without reaching h. */
  lemma StripPrefixServes(prefix: string, h: Handler, r: Request, mark: string)
    ensures prefix == "" ==> StripPrefix(prefix, h)(r) == h(r)
    ensures prefix != "" && HasPrefix(r.path, prefix) ==>
      exists rest :: prefix + rest == r.path
        && StripPrefix(prefix, h)(r) == h(r.(path := rest))
    ensures prefix != "" && !HasPrefix(r.path, prefix) ==>
      Status(Run(StripPrefix(prefix, h)(r), Blank)) == StatusNotFound
      && Visits(StripPrefix(prefix, Probe(mark))(r), mark) == 0
  {
    if prefix != "" {
      if HasPrefix(r.path, prefix) {
        var rest := r.path[|prefix|..];
        assert prefix + rest == r.path;
      } else {
        NotFoundResponse();
        NoVisits(NotFound, mark);
      }
    }
  }

  /** No path starts with both "/api/" and "/auth/". */
  lemma ApiIsNotAuth()
    ensures forall p :: HasPrefix(p, "/api/") ==> !HasPrefix(p, "/auth/")
  {
    forall p | HasPrefix(p, "/api/")
      ensures !HasPrefix(p, "/auth/")
    {
      assert p[2] == "/api/"[2] == 'p' && "/auth/"[2] == 'u';
    }
  }

  /** StripPrefix("/auth", login) on a /auth/ path. */
  lemma LoginRoute(login: Handler)
    ensures forall r: Request :: HasPrefix(r.path, "/auth/") ==>
      StripPrefix("/auth", login)(r) == login(r.(path := r.path[5..]))
  {
    forall r: Request | HasPrefix(r.path, "/auth/")
      ensures StripPrefix("/auth", login)(r) == login(r.(path := r.path[5..]))
    {
      assert HasPrefix(r.path, "/auth");
    }
  }

  /** StripPrefix("/api", authenticateUser(api)) on an /api/ path. */
  lemma ApiRoute(env: Env, api: Handler)
    ensures forall r: Request :: HasPrefix(r.path, "/api/") ==>
      StripPrefix("/api", AuthenticateUser(env)(api))(r) == Authenticate(env, api, r.(path := r.path[4..]))
  {
    forall r: Request | HasPrefix(r.path, "/api/")
      ensures StripPrefix("/api", AuthenticateUser(env)(api))(r) == Authenticate(env, api, r.(path := r.path[4..]))
    {
      assert HasPrefix(r.path, "/api");
      assert AuthenticateUser(env)(api)(r.(path := r.path[4..])) == Authenticate(env, api, r.(path := r.path[4..]));
    }
  }

  /** The top-level ServeMux; `other` stands for the mux's answer to any other path.
      /auth/ goes to the login routes with /auth stripped, /api/ to authentication and
      then the API routes with /api stripped. */
  function Router(env: Env, api: Handler, login: Handler, other: Handler): (rt: Handler)
    ensures forall r: Request :: HasPrefix(r.path, "/auth/") ==> rt(r) == login(r.(path := r.path[5..]))
    ensures forall r: Request :: HasPrefix(r.path, "/api/") ==> rt(r) == Authenticate(env, api, r.(path := r.path[4..]))
    ensures forall r: Request :: !HasPrefix(r.path, "/auth/") && !HasPrefix(r.path, "/api/") ==> rt(r) == other(r)
  {
    ApiIsNotAuth();
    LoginRoute(login);
    ApiRoute(env, api);
    var toLogin := StripPrefix("/auth", login);
    var toApi := StripPrefix("/api", AuthenticateUser(env)(api));
    (r: Request) =>
      if HasPrefix(r.path, "/auth/") then toLogin(r)
      else if HasPrefix(r.path, "/api/") then toApi(r)
      else other(r)
  }

  /** `stack(router)`. */
  function Server(env: Env, api: Handler, login: Handler, other: Handler): Handler
  {
    CreateStack([Logging, CORSMiddleware])(Router(env, api, login, other))
  }

  /** The server is logging around CORS around the router. */
  lemma ServerLayers(env: Env, api: Handler, login: Handler, other: Handler, r: Request)
    ensures Server(env, api, login, other)(r) == Cors(Router(env, api, login, other), r)
  {
    var h := Router(env, api, login, other);
    var xs: seq<Middleware> := [Logging, CORSMiddleware];
    assert xs[1..] == [CORSMiddleware] && xs[1..][1..] == [];
    assert Nest(xs[1..], h) == CORSMiddleware(h);
    assert Nest(xs, h) == Logging(CORSMiddleware(h));
    assert Logging(CORSMiddleware(h))(r) == CORSMiddleware(h)(r);
  }

  /** A request from a foreign origin is refused with 403 before routing: neither the
      API, nor the login routes, nor authentication are reached, on any path. */
  lemma ForeignOriginRefused(env: Env, api: Handler, login: Handler, other: Handler, r: Request)
    requires !IsAllowedOrigin(Get(r.header, "Origin"))
    ensures Server(env, api, login, other)(r) == Forbidden
    ensures Status(Run(Server(env, api, login, other)(r), Blank)) == StatusForbidden
  {
    ServerLayers(env, api, login, other, r);
    ForbiddenOrigin(Router(env, api, login, other), r, "");
  }

  /** A preflight from an allowed origin gets only the CORS headers: the client sees 200
      while the log line reports 202. */
  lemma PreflightAnswered(env: Env, api: Handler, login: Handler, other: Handler, r: Request)
    requires IsAllowedOrigin(Get(r.header, "Origin")) && r.verb == MethodOptions
    ensures Server(env, api, login, other)(r) == CorsHeaders(Get(r.header, "Origin"))
    ensures Status(Run(Server(env, api, login, other)(r), Blank)) == StatusOK
    ensures LoggedStatus(Server(env, api, login, other)(r)) == StatusAccepted
  {
    var acts := Cors(Router(env, api, login, other), r);
    ServerLayers(env, api, login, other, r);
    assert acts == acts[..4];
    HeadersOnly(Get(r.header, "Origin"));
  }

  /** The CORS headers alone: no code is sent, so the client sees 200 and the log 202. */
  lemma HeadersOnly(origin: string)
    ensures Status(Run(CorsHeaders(origin), Blank)) == StatusOK
    ensures LoggedStatus(CorsHeaders(origin)) == StatusAccepted
  {
    NoWriteHeader(CorsHeaders(origin));
  }

  /** The API is reached only with an admitted token, then once, with the /api prefix
      stripped and the user in the context. */
  lemma ApiNeedsToken(env: Env, api: Handler, login: Handler, other: Handler, r: Request)
    requires IsAllowedOrigin(Get(r.header, "Origin")) && r.verb != MethodOptions
    requires HasPrefix(r.path, "/api/")
    ensures Check(env, Get(r.header, Authorization)).Admit? ==>
      Server(env, api, login, other)(r)
      == CorsHeaders(Get(r.header, "Origin"))
         + api(WithUser(r.(path := r.path[4..]), Check(env, Get(r.header, Authorization)).user))
    ensures !Check(env, Get(r.header, Authorization)).Admit? ==>
      Server(env, api, login, other)(r)
      == CorsHeaders(Get(r.header, "Origin")) + Authenticate(env, Probe("api"), r.(path := r.path[4..]))
  {
    var rt := Router(env, api, login, other);
    ServerLayers(env, api, login, other, r);
    AllowedPassesThrough(rt, r, "");
    var stripped := r.(path := r.path[4..]);
    assert rt(r) == Authenticate(env, api, stripped);
    if !Check(env, Get(stripped.header, Authorization)).Admit? {
      RejectedIgnoresNext(env, api, Probe("api"), stripped, "api");
    }
  }

  /** The login routes are reached without authentication, once, with /auth stripped. */
  lemma LoginSkipsAuthentication(env: Env, api: Handler, login: Handler, other: Handler, r: Request)
    requires IsAllowedOrigin(Get(r.header, "Origin")) && r.verb != MethodOptions
    requires HasPrefix(r.path, "/auth/")
    ensures Server(env, api, login, other)(r) == CorsHeaders(Get(r.header, "Origin")) + login(r.(path := r.path[5..]))
  {
    var rt := Router(env, api, login, other);
    ServerLayers(env, api, login, other, r);
    AllowedPassesThrough(rt, r, "");
    assert rt(r) == login(r.(path := r.path[5..]));
  }
}
