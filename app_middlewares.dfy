/**
 * app/middlewares.go: authenticateUser with a redirect for expired tokens, and
 * CORSMiddleware with a prefix allow-list of local origins.
 */
module AppMiddlewares {
  import opened Wrappers
  import opened Http
  import opened Strings
  import opened Helpers
  import opened Auth
  import opened Bearer
  import opened Strconv

  const LoginPage: string := "/auth/login/"

  /** http.Redirect(w, r, url, code): the Location header, then the code. */
  function Redirect(url: string, code: int): (acts: seq<Action>)
    ensures Status(Run(acts, Blank)) == code && Run(acts, Blank).body == []
    ensures Get(Run(acts, Blank).header, "Location") == url
    ensures forall i :: 0 <= i < |acts| ==> !acts[i].Trace?
  {
    var acts := [SetHeader("Location", url), WriteHeader(code)];
    assert acts[..1] == [SetHeader("Location", url)];
    RunOne(SetHeader("Location", url), Blank);
    acts
  }

  /** `writeJSON(w, code, M{"error": msg})`. */
  function JsonError(code: int, msg: string): (acts: seq<Action>)
    ensures Status(Run(acts, Blank)) == code && Run(acts, Blank).body == [Single("error", Str(msg))]
    ensures forall i :: 0 <= i < |acts| ==> !acts[i].Trace?
  {
    EncodableSingle("error", Str(msg));
    WriteJSONSteps(code, Single("error", Str(msg)));
    WriteJSONResponse(code, Single("error", Str(msg)), Blank);
    WriteJSON(code, Single("error", Str(msg)))
  }

  /** The response of authenticateUser(next) for request r: 401 without reaching next,
      or exactly next's response to the request carrying the admitted user. */
  function Authenticate(env: Env, next: Handler, r: Request): (acts: seq<Action>)
    ensures Check(env, Get(r.header, Authorization)).Admit? ==>
      acts == next(WithUser(r, Check(env, Get(r.header, Authorization)).user))
    ensures !Check(env, Get(r.header, Authorization)).Admit? ==>
      Status(Run(acts, Blank)) == StatusUnauthorized && forall i :: 0 <= i < |acts| ==> !acts[i].Trace?
  {
    match Check(env, Get(r.header, Authorization))
    case Expired => Redirect(LoginPage, StatusUnauthorized)
    case Admit(u) => next(WithUser(r, u))
    case v => JsonError(StatusUnauthorized, Message(v))
  }

  /** The middleware authenticateUser. */
  function AuthenticateUser(env: Env): Middleware
  {
    (next: Handler) => ((r: Request) => Authenticate(env, next, r))
  }

  /** The 401 JSON response: Content-Type, the code, and `{"error": msg}`. */
  lemma JsonErrorResponse(code: int, msg: string)
    ensures Run(JsonError(code, msg), Blank)
      == Response(map[ContentType := [ApplicationJson]], [code], [Single("error", Str(msg))], Some(code))
  {
    EncodableSingle("error", Str(msg));
    WriteJSONResponse(code, Single("error", Str(msg)), Blank);
  }

  /** Every failed check answers 401 with the message of the check that failed, except an
      expired token, which is redirected to the login page with 401; next is not called. */
  lemma RejectedResponse(env: Env, next: Handler, r: Request)
    requires !Check(env, Get(r.header, Authorization)).Admit?
    ensures Check(env, Get(r.header, Authorization)).Expired? ==>
      Run(Authenticate(env, next, r), Blank) == Response(map["Location" := [LoginPage]], [StatusUnauthorized], [], Some(StatusUnauthorized))
    ensures !Check(env, Get(r.header, Authorization)).Expired? ==>
      Run(Authenticate(env, next, r), Blank)
      == Response(map[ContentType := [ApplicationJson]], [StatusUnauthorized],
                  [Single("error", Str(Message(Check(env, Get(r.header, Authorization)))))], Some(StatusUnauthorized))
    ensures Status(Run(Authenticate(env, next, r), Blank)) == StatusUnauthorized
  {
    var v := Check(env, Get(r.header, Authorization));
    if v.Expired? {
      var acts := Redirect(LoginPage, StatusUnauthorized);
      assert acts[..1] == [SetHeader("Location", LoginPage)];
      RunOne(SetHeader("Location", LoginPage), Blank);
    } else {
      JsonErrorResponse(StatusUnauthorized, Message(v));
    }
  }

  /** A token that decrypts, has not expired and names a numeric id the store does not
      hold is answered 401 `{"error": "User Not Found"}`. */
  lemma UserNotFound(env: Env, next: Handler, r: Request)
    requires Decrypted(env, Get(r.header, Authorization))
    requires var c := env.decrypt(BearerToken(Get(r.header, Authorization)).value).value;
      !(c.expiration < env.now) && Atoi(c.subject).Success? && env.getUser(Atoi(c.subject).value).None?
    ensures Run(Authenticate(env, next, r), Blank)
      == Response(map[ContentType := [ApplicationJson]], [StatusUnauthorized],
                  [Single("error", Str("User Not Found"))], Some(StatusUnauthorized))
  {
    RejectedResponse(env, next, r);
  }

  /** A rejected request never reaches next: the response is the same whatever next is. */
  lemma RejectedIgnoresNext(env: Env, next: Handler, other: Handler, r: Request, mark: string)
    requires !Check(env, Get(r.header, Authorization)).Admit?
    ensures Authenticate(env, next, r) == Authenticate(env, other, r)
    ensures Visits(Authenticate(env, Probe(mark), r), mark) == 0
  {
    var v := Check(env, Get(r.header, Authorization));
    if !v.Expired? {
      EncodableSingle("error", Str(Message(v)));
      WriteJSONSteps(StatusUnauthorized, Single("error", Str(Message(v))));
    }
    NoVisits(Authenticate(env, Probe(mark), r), mark);
  }

  /** An admitted request is passed to next exactly once, with the user in its context. */
  lemma AdmittedCallsNextOnce(env: Env, next: Handler, r: Request, u: User, mark: string)
    requires Check(env, Get(r.header, Authorization)) == Admit(u)
    ensures Authenticate(env, next, r) == next(WithUser(r, u))
    ensures GetUserFromContext(WithUser(r, u).ctx) == Some(u)
    ensures Visits(Authenticate(env, Probe(mark), r), mark) == 1
  {
    assert [Trace(mark)][..0] == [];
  }

  /** An absent or empty Authorization header answers 401 "Authorization header missing",
      without reaching next. */
  lemma MissingHeaderResponse(env: Env, next: Handler, r: Request, mark: string)
    requires Get(r.header, Authorization) == ""
    ensures Authenticate(env, next, r) == JsonError(StatusUnauthorized, "Authorization header missing")
    ensures Visits(Authenticate(env, Probe(mark), r), mark) == 0
  {
    NoVisits(Authenticate(env, Probe(mark), r), mark);
  }

  /** `allowedOrigins`. */
  const AllowedOrigins: seq<string> := ["http://localhost", "http://127.0.0.1", "https://localhost", "https://127.0.0.1"]

  /** An origin is allowed when one of the allowed origins is a prefix of it; such an
      origin starts with "http" and is at least as long as the shortest entry. */
  predicate IsAllowedOrigin(origin: string)
    ensures IsAllowedOrigin(origin) ==> |origin| >= 16 && HasPrefix(origin, "http")
  {
    var ok := exists i :: 0 <= i < |AllowedOrigins| && HasPrefix(origin, AllowedOrigins[i]);
    assert ok ==> |origin| >= 16 && HasPrefix(origin, "http") by {
      if ok {
        var i :| 0 <= i < |AllowedOrigins| && HasPrefix(origin, AllowedOrigins[i]);
        var a := AllowedOrigins[i];
        assert |a| >= 16 && a[..4] == "http";
        assert origin[..4] == origin[..|a|][..4];
      }
    }
    ok
  }

  /** The allow-list loop of CORSMiddleware: stop at the first listed origin that is a prefix. */
  method OriginAllowed(origin: string) returns (allowed: bool)
    ensures allowed <==> IsAllowedOrigin(origin)
  {
    allowed := false;
    var i := 0;
    while i < |AllowedOrigins|
      invariant 0 <= i <= |AllowedOrigins|
      invariant !allowed
      invariant forall j :: 0 <= j < i ==> !HasPrefix(origin, AllowedOrigins[j])
    {
      if HasPrefix(origin, AllowedOrigins[i]) {
        allowed := true;
        break;
      }
      i := i + 1;
    }
  }

  const AllowOrigin: string := "Access-Control-Allow-Origin"
  const AllowMethods: string := "Access-Control-Allow-Methods"
  const AllowHeaders: string := "Access-Control-Allow-Headers"
  const AllowCredentials: string := "Access-Control-Allow-Credentials"
  const Methods: string := "GET, POST, PUT, PATCH, DELETE, OPTIONS"
  const Headers: string := "Content-Type, Authorization"

  function CorsHeaders(origin: string): seq<Action>
  {
    [SetHeader(AllowOrigin, origin), SetHeader(AllowMethods, Methods),
     SetHeader(AllowHeaders, Headers), SetHeader(AllowCredentials, "true")]
  }

  const Forbidden: seq<Action> := JsonError(StatusForbidden, "Cross Origin Forbidden")

  /** The response of CORSMiddleware(next) for request r: a 403 that does not reach
      next, or the four headers before anything else. */
  function Cors(next: Handler, r: Request): (acts: seq<Action>)
    ensures !IsAllowedOrigin(Get(r.header, "Origin")) ==>
      Status(Run(acts, Blank)) == StatusForbidden && forall i :: 0 <= i < |acts| ==> !acts[i].Trace?
    ensures IsAllowedOrigin(Get(r.header, "Origin")) ==>
      |acts| >= 4 && acts[..4] == CorsHeaders(Get(r.header, "Origin"))
    ensures IsAllowedOrigin(Get(r.header, "Origin")) && r.verb == MethodOptions ==> |acts| == 4
  {
    var origin := Get(r.header, "Origin");
    if !IsAllowedOrigin(origin) then Forbidden
    else CorsHeaders(origin) + (if r.verb == MethodOptions then [] else next(r))
  }

  function CORSMiddleware(next: Handler): Handler
  {
    r => Cors(next, r)
  }

  /** Which origins pass: the check is a plain prefix test, so a port or any further
      text after an allowed origin passes too, and an absent Origin does not. */
  lemma OriginExamples()
    ensures !IsAllowedOrigin("")
    ensures IsAllowedOrigin("http://localhost:3000")
    ensures IsAllowedOrigin("http://localhost.evil.com")
    ensures !IsAllowedOrigin("https://example.com")
  {
    assert HasPrefix("http://localhost:3000", AllowedOrigins[0]);
    assert HasPrefix("http://localhost.evil.com", AllowedOrigins[0]);
    var other := "https://example.com";
    DiffersAt(other, AllowedOrigins[0], 4);
    DiffersAt(other, AllowedOrigins[1], 4);
    DiffersAt(other, AllowedOrigins[2], 8);
    DiffersAt(other, AllowedOrigins[3], 8);
  }

  lemma DiffersAt(s: string, p: string, k: nat)
    requires k < |s| && k < |p| && s[k] != p[k]
    ensures !HasPrefix(s, p)
  {
  }

  /** A disallowed origin gets the fixed 403, with no Access-Control header and without
      reaching next, whatever the method (OPTIONS included). */
  lemma ForbiddenOrigin(next: Handler, r: Request, mark: string)
    requires !IsAllowedOrigin(Get(r.header, "Origin"))
    ensures Run(Cors(next, r), Blank)
      == Response(map[ContentType := [ApplicationJson]], [StatusForbidden], [Single("error", Str("Cross Origin Forbidden"))], Some(StatusForbidden))
    ensures AllowOrigin !in Run(Cors(next, r), Blank).header
    ensures Cors(next, r) == Cors(Probe(mark), r) && Visits(Cors(Probe(mark), r), mark) == 0
  {
    JsonErrorResponse(StatusForbidden, "Cross Origin Forbidden");
    EncodableSingle("error", Str("Cross Origin Forbidden"));
    WriteJSONSteps(StatusForbidden, Single("error", Str("Cross Origin Forbidden")));
    NoVisits(Forbidden, mark);
  }

  /** The headers an allowed origin receives: its own origin echoed, the methods, the
      headers and credentials. */
  lemma {:induction false} CorsHeadersResponse(origin: string, w: Response)
    ensures Run(CorsHeaders(origin), w)
      == w.(header := w.header[AllowOrigin := [origin]][AllowMethods := [Methods]][AllowHeaders := [Headers]][AllowCredentials := ["true"]])
  {
    var hs := CorsHeaders(origin);
    assert hs[..3] == hs[..3][..2] + [hs[2]];
    assert hs[..3][..2] == [hs[0]] + [hs[1]];
    RunOne(hs[0], w);
    RunAppend([hs[0]], [hs[1]], w);
    RunOne(hs[1], Run([hs[0]], w));
    RunAppend(hs[..3][..2], [hs[2]], w);
    RunOne(hs[2], Run(hs[..3][..2], w));
  }

  /** An allowed preflight request gets the headers only: no status code, no body, no next. */
  lemma AllowedPreflight(next: Handler, r: Request, mark: string)
    requires IsAllowedOrigin(Get(r.header, "Origin")) && r.verb == MethodOptions
    ensures Run(Cors(next, r), Blank) == Run(CorsHeaders(Get(r.header, "Origin")), Blank)
    ensures Status(Run(Cors(next, r), Blank)) == StatusOK
    ensures Get(Run(Cors(next, r), Blank).header, AllowOrigin) == Get(r.header, "Origin")
    ensures Get(Run(Cors(next, r), Blank).header, AllowCredentials) == "true"
    ensures Visits(Cors(Probe(mark), r), mark) == 0
  {
    var origin := Get(r.header, "Origin");
    assert Cors(next, r) == CorsHeaders(origin);
    CorsHeadersResponse(origin, Blank);
    assert AllowCredentials != AllowOrigin && AllowCredentials != AllowMethods && AllowCredentials != AllowHeaders by {
      assert |AllowCredentials| != |AllowOrigin| && |AllowCredentials| != |AllowMethods| && |AllowCredentials| != |AllowHeaders|;
    }
    assert AllowOrigin != AllowMethods && AllowOrigin != AllowHeaders by {
      assert AllowOrigin[22] != AllowMethods[22] && AllowOrigin[22] != AllowHeaders[22];
    }
    NoVisits(CorsHeaders(origin), mark);
  }

  /** Any other method from an allowed origin gets the headers and then next, called once. */
  lemma AllowedPassesThrough(next: Handler, r: Request, mark: string)
    requires IsAllowedOrigin(Get(r.header, "Origin")) && r.verb != MethodOptions
    ensures Cors(next, r) == CorsHeaders(Get(r.header, "Origin")) + next(r)
    ensures Run(Cors(next, r), Blank) == Run(next(r), Run(CorsHeaders(Get(r.header, "Origin")), Blank))
    ensures Visits(Cors(Probe(mark), r), mark) == 1
  {
    var origin := Get(r.header, "Origin");
    RunAppend(CorsHeaders(origin), next(r), Blank);
    VisitsAppend(CorsHeaders(origin), [Trace(mark)], mark);
    NoVisits(CorsHeaders(origin), mark);
    assert Visits([Trace(mark)], mark) == 1 by {
      assert [Trace(mark)][..0] == [];
    }
  }
}
