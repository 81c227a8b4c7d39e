/**
 * http_with_ent/middlewares.go: authenticateUser answering expired tokens with a JSON
 * 401, and a CORSMiddleware that allows every origin.
 */
module EntMiddlewares {
  import opened Wrappers
  import opened Http
  import opened Helpers
  import opened Auth
  import opened Bearer
  import App = AppMiddlewares

  /** The response of authenticateUser(next) for request r: a 401 that does not reach
      next, or exactly next's response to the request carrying the admitted user. The
      debug query of all users at http_with_ent/middlewares.go:93 has no effect on it:
      its error is overwritten before it is read. */
  function Authenticate(env: Env, next: Handler, r: Request): (acts: seq<Action>)
    ensures Check(env, Get(r.header, Authorization)).Admit? ==>
      acts == next(WithUser(r, Check(env, Get(r.header, Authorization)).user))
    ensures !Check(env, Get(r.header, Authorization)).Admit? ==>
      Status(Run(acts, Blank)) == StatusUnauthorized && forall i :: 0 <= i < |acts| ==> !acts[i].Trace?
  {
    match Check(env, Get(r.header, Authorization))
    case Admit(u) => next(WithUser(r, u))
    case v => App.JsonError(StatusUnauthorized, Message(v))
  }

  /** The middleware authenticateUser. */
  function AuthenticateUser(env: Env): Middleware
  {
    (next: Handler) => ((r: Request) => Authenticate(env, next, r))
  }

  /** An expired token is a JSON 401 `{"error": "Token Expired"}`, with no Location header. */
  lemma ExpiredIsJson(env: Env, next: Handler, r: Request)
    requires Check(env, Get(r.header, Authorization)) == Expired
    ensures Run(Authenticate(env, next, r), Blank)
      == Response(map[ContentType := [ApplicationJson]], [StatusUnauthorized], [Single("error", Str("Token Expired"))], Some(StatusUnauthorized))
    ensures "Location" !in Run(Authenticate(env, next, r), Blank).header
  {
    App.JsonErrorResponse(StatusUnauthorized, "Token Expired");
  }

  /** The two authenticators agree on every verdict but an expired token. */
  lemma SameAsAppUnlessExpired(env: Env, next: Handler, r: Request)
    requires !Check(env, Get(r.header, Authorization)).Expired?
    ensures Authenticate(env, next, r) == App.Authenticate(env, next, r)
  {
  }

  /** Every rejection answers 401 with the failing check's message and does not reach next. */
  lemma RejectedResponse(env: Env, next: Handler, r: Request, mark: string)
    requires !Check(env, Get(r.header, Authorization)).Admit?
    ensures Run(Authenticate(env, next, r), Blank)
      == Response(map[ContentType := [ApplicationJson]], [StatusUnauthorized],
                  [Single("error", Str(Message(Check(env, Get(r.header, Authorization)))))], Some(StatusUnauthorized))
    ensures Authenticate(env, next, r) == Authenticate(env, Probe(mark), r)
    ensures Visits(Authenticate(env, Probe(mark), r), mark) == 0
  {
    var msg := Message(Check(env, Get(r.header, Authorization)));
    App.JsonErrorResponse(StatusUnauthorized, msg);
    EncodableSingle("error", Str(msg));
    WriteJSONSteps(StatusUnauthorized, Single("error", Str(msg)));
    NoVisits(Authenticate(env, Probe(mark), r), mark);
  }

  /** An admitted request reaches next exactly once, with the user under userContextKey. */
  lemma AdmittedCallsNextOnce(env: Env, next: Handler, r: Request, u: User, mark: string)
    requires Check(env, Get(r.header, Authorization)) == Admit(u)
    ensures Authenticate(env, next, r) == next(WithUser(r, u))
    ensures GetUserFromContext(WithUser(r, u).ctx) == Some(u)
    ensures Visits(Authenticate(env, Probe(mark), r), mark) == 1
  {
    assert [Trace(mark)][..0] == [];
  }

  /** The headers set for every request, whatever its origin. */
  const CorsHeaders: seq<Action> :=
    [SetHeader(App.AllowOrigin, "*"), SetHeader(App.AllowMethods, App.Methods), SetHeader(App.AllowHeaders, App.Headers)]

  /** The response of CORSMiddleware(next) for request r: the three headers, then
      nothing for a preflight and next's response otherwise. No origin is refused. */
  function Cors(next: Handler, r: Request): (acts: seq<Action>)
    ensures |acts| >= 3 && acts[..3] == CorsHeaders
    ensures r.verb == MethodOptions ==> |acts| == 3
    ensures r.verb != MethodOptions ==> acts[3..] == next(r)
  {
    CorsHeaders + (if r.verb == MethodOptions then [] else next(r))
  }

  function CORSMiddleware(next: Handler): Handler
  {
    r => Cors(next, r)
  }

  lemma {:induction false} CorsHeadersResponse(w: Response)
    ensures Run(CorsHeaders, w)
      == w.(header := w.header[App.AllowOrigin := ["*"]][App.AllowMethods := [App.Methods]][App.AllowHeaders := [App.Headers]])
  {
    var hs := CorsHeaders;
    assert hs[..2] == [hs[0]] + [hs[1]];
    RunOne(hs[0], w);
    RunAppend([hs[0]], [hs[1]], w);
    RunOne(hs[1], Run([hs[0]], w));
  }

  /** CORS here never rejects: it adds no status code and no body of its own, sets the
      origin to "*", and sets no credentials header. */
  lemma NeverRejects(next: Handler, r: Request, w: Response)
    ensures Run(Cors(next, r), w).codes == Run(if r.verb == MethodOptions then [] else next(r), w).codes
    ensures r.verb == MethodOptions ==> Run(Cors(next, r), w).codes == w.codes && Run(Cors(next, r), w).body == w.body
    ensures Get(Run(CorsHeaders, w).header, App.AllowOrigin) == "*"
    ensures App.AllowCredentials !in w.header ==> App.AllowCredentials !in Run(CorsHeaders, w).header
  {
    var tail := if r.verb == MethodOptions then [] else next(r);
    RunAppend(CorsHeaders, tail, w);
    CorsHeadersResponse(w);
    SameCodes(tail, w, Run(CorsHeaders, w));
    assert App.AllowOrigin != App.AllowMethods && App.AllowOrigin != App.AllowHeaders by {
      assert App.AllowOrigin[22] != App.AllowMethods[22] && App.AllowOrigin[22] != App.AllowHeaders[22];
    }
    assert App.AllowCredentials != App.AllowOrigin && App.AllowCredentials != App.AllowMethods && App.AllowCredentials != App.AllowHeaders by {
      assert |App.AllowCredentials| != |App.AllowOrigin| && |App.AllowCredentials| != |App.AllowMethods| && |App.AllowCredentials| != |App.AllowHeaders|;
    }
  }

  /** The codes a handler adds do not depend on the writer's header. */
  lemma {:induction false} SameCodes(acts: seq<Action>, v: Response, w: Response)
    requires v.codes == w.codes
    ensures Run(acts, v).codes == Run(acts, w).codes
    decreases |acts|
  {
    if acts != [] {
      SameCodes(acts[..|acts| - 1], v, w);
    }
  }

  /** OPTIONS never reaches next; every other method reaches it exactly once, after the headers. */
  lemma NextCalls(next: Handler, r: Request, mark: string)
    ensures r.verb == MethodOptions ==> Cors(next, r) == CorsHeaders && Visits(Cors(Probe(mark), r), mark) == 0
    ensures r.verb != MethodOptions ==> Cors(next, r) == CorsHeaders + next(r) && Visits(Cors(Probe(mark), r), mark) == 1
  {
    NoVisits(CorsHeaders, mark);
    VisitsAppend(CorsHeaders, [Trace(mark)], mark);
    assert [Trace(mark)][..0] == [];
    assert CorsHeaders + [] == CorsHeaders;
  }

  /** For an origin the app accepts, the two CORS middlewares differ only in the origin
      they grant and in the app's credentials header. */
  lemma ComparedWithApp(next: Handler, r: Request)
    requires App.IsAllowedOrigin(Get(r.header, "Origin"))
    ensures App.Cors(next, r)[1..3] == Cors(next, r)[1..3]
    ensures App.Cors(next, r)[0] == SetHeader(App.AllowOrigin, Get(r.header, "Origin")) && Cors(next, r)[0] == SetHeader(App.AllowOrigin, "*")
    ensures App.Cors(next, r)[3] == SetHeader(App.AllowCredentials, "true")
    ensures App.Cors(next, r)[4..] == Cors(next, r)[3..]
  {
  }
}
