# Request pipeline of the Go-Djan blog servers, in Dafny

This project models the hand-written core of the two Go HTTP servers of the
repository (`app/` and `http_with_ent/`). It covers:
- the middleware pipeline: `createStack`, the status-capturing `WrappedWriter`
  and `logging`, the two `authenticateUser` variants and the two
  `CORSMiddleware` variants;
- the JSON helpers `writeJSON`, `errorResponse` and `readJSON`, with the
  `malformedRequest` error;
- the context key and PASETO key handling of `http_with_ent/auth.go`;
- the column validation of the generated `user` package.

It also models how `app/main.go` stacks these pieces around its router.

A handler is modelled by what it does to its `http.ResponseWriter`: the ordered
list of writer operations (`Http.Action`: set a header, call `WriteHeader`,
write a body) it performs for a request. A middleware maps a handler to a
handler. Replaying the operations into a writer (`Http.Run`) gives:
- the header map;
- every code passed to `WriteHeader`;
- every body written.

The client sees the committed status line (`Http.Status`): the code of the first
`WriteHeader`, or 200 when a body is written before any `WriteHeader`, or 200
when the handler does neither. A
downstream handler that only marks that it was reached (`Http.Probe`) lets the
lemmas count how often a middleware calls `next` (`Http.Visits`).

The modules follow the source:

| module | file | models |
|---|---|---|
| `Http` | — | the net/http and context values the middlewares touch |
| `Strings`, `Strconv`, `Hex` | — | the Go standard-library functions the core calls (`strings.TrimSpace`, `strings.ToLower`, `strings.Split`, `strconv.Atoi`/`Itoa`, `encoding/hex`) |
| `Helpers` | `app/helpers.go` | writeJSON, errorResponse, readJSON, malformedRequest |
| `Auth` | `http_with_ent/auth.go` | userContextKey, getPasetoKey, GetUserFromContext |
| `Bearer` | both `middlewares.go` | the token-check chain both authenticators share |
| `Stack` | both `middlewares.go` | createStack, WrappedWriter, logging (identical in both files) |
| `AppMiddlewares` | `app/middlewares.go` | authenticateUser (expired → redirect), allowedOrigins, CORSMiddleware (allow-list) |
| `EntMiddlewares` | `http_with_ent/middlewares.go` | authenticateUser (expired → JSON 401), CORSMiddleware (allow all) |
| `AppServer` | `app/main.go` | `createStack(logging, CORSMiddleware)` around the `/auth/` and `/api/` routes |
| `UserColumns` | `app/ent/user/user.go` | Columns, ValidColumn |

The source's loops and field updates are written imperatively:
- `createStack`'s reverse loop is `Stack.ApplyStack`, proved equal to the nested
  composition `Stack.Nest`.
- `WrappedWriter` is a class whose `WriteHeader` updates `statusCode`. Its writer
  is a `Recorder` object.
- `logging` replays the handler's operations through a fresh wrapper in
  `Stack.ServeLogged`.
- The allow-list loop with `break` is `AppMiddlewares.OriginAllowed`.
- The json.Decoder that `readJSON` reads twice is a `Helpers.Decoder` object.
- `ValidColumn` is a `while` loop with an early return.

Decryption, the clock and the user store are parameters of the authenticator
(`Bearer.Env`):
- PASETO `Decrypt` is a function from the token to `Option<Claims>`;
- "now" is an integer instant in seconds on the same clock as the claims;
- `client.User.Get` is a function from the id to `Option<User>`.

## Model

| member | source | states |
|---|---|---|
| `Helpers.MalformedRequest.Error` | app/helpers.go:20-22 | the error text is exactly the message |
| `Helpers.WriteJSONWith` | app/helpers.go:26-43 | with k failing writes, writeJSON performs 2k+3 steps, starting with the JSON content type and ending with a body write; an encodable value sends the caller's code first |
| `Helpers.ErrorResponseWith` | app/helpers.go:44-46 | the same shape for errorResponse: 2k+3 steps, the JSON content type first, a body write last, the caller's code first when the errors encode |
| `Helpers.WriteJSONSteps` | app/helpers.go:26-37 | an encodable value gives Content-Type application/json, then the code, then the body, in that order; an unencodable one gives the same three steps with 500 and `{"errors": "internal error"}` |
| `Helpers.WriteJSONResponse` | app/helpers.go:26-43 | replaying writeJSON into any writer adds exactly the JSON content type, one status code and one body, and changes nothing else |
| `Helpers.FailedWritesResponse` | app/helpers.go:37-42 | when the first k writes fail, the writer receives the caller's code followed by k codes 500, and the only body delivered is the internal-error envelope |
| `Helpers.ClientSeesCallerCode` | app/helpers.go:35-42 | for an encodable value the client sees the caller's code however many writes fail: the codes 500 sent by the errorResponse calls after a failed write do not change the committed status |
| `Helpers.ErrorResponseEnvelope` | app/helpers.go:44-46 | errorResponse is writeJSON of the `{"errors": errs}` envelope |
| `Helpers.MediaType` | app/helpers.go:51 | the media type is never longer than the Content-Type it comes from |
| `Helpers.MediaTypeShape` | app/helpers.go:51 | the media type holds no ';', no ASCII capital, and no white space at either end |
| `Helpers.MediaTypeIgnoresParameters` | app/helpers.go:51 | whatever follows the first ';' does not change the media type |
| `Helpers.MediaTypeOfParts` | app/helpers.go:51 | a type with white space before and after it, followed by `;` and parameters, reads as that type in lower case |
| `Helpers.MediaTypeUnchanged` | app/helpers.go:51 | a bare, trimmed, lower-case type is its own media type |
| `Helpers.JsonWithParametersAccepted` | app/helpers.go:51-52 | application/json in any capitalisation, with white space before and after it and then `;` and any parameters, is accepted |
| `Helpers.MediaTypeExample` | app/helpers.go:51-52 | ` Application/JSON ; charset=utf-8` (leading space included) is accepted |
| `Helpers.Decoder.Decode` | app/helpers.go:61 | each Decode call yields the next outcome of the body, io.EOF once it is exhausted |
| `Helpers.ReadError` | app/helpers.go:48-73 | every error readJSON returns is a 400 or a 415, and it returns nil exactly when the type is acceptable, the first Decode yields a value and the second yields io.EOF |
| `Helpers.ReadJSON` | app/helpers.go:48-73 | the returned error, the decoded value and the number of Decode calls are those of the readJSON specification |
| `Helpers.UnsupportedMediaType` | app/helpers.go:50-55 | the 415 error occurs exactly when a non-empty Content-Type has another media type; then no Decode is made |
| `Helpers.EmptyContentTypeSkipsCheck` | app/helpers.go:49-50 | an empty Content-Type is treated as application/json |
| `Helpers.ReadSucceedsIff` | app/helpers.go:48-73 | in terms of the body's decode outcomes: readJSON returns nil exactly when the Content-Type is empty or its media type is application/json, the first outcome is a value, and nothing or io.EOF follows it; a success makes exactly two Decode calls |
| `Helpers.BadBodyIs400` | app/helpers.go:61-70 | a failed first Decode gives 400 with the decoder's message; any second outcome except io.EOF gives 400 "Request body must only contain a single JSON object"; every body error is a 400 |
| `Helpers.EmptyBody` | app/helpers.go:61-64 | an empty body gives 400 with the message "EOF" |
| `Strings.TrimSpaceShape` | app/helpers.go:51 | TrimSpace(s) is the slice `s[a..b]` with only white space before `a` and after `b`, and it neither starts nor ends with white space |
| `Strings.TrimmedBeforeFirst` | app/helpers.go:51 | trimming the text before the first separator gives back the core, whatever white space is on either side of it |
| `Strings.BeforeFirstAppend` | app/helpers.go:51 | `Split(s, sep)[0]` stops at the first separator |
| `Strconv.Atoi` | app/middlewares.go:81 | a parsed subject always lies in the 64-bit int range |
| `Strconv.AtoiSucceedsIff` | app/middlewares.go:81-85 | Atoi succeeds exactly on an optionally signed run of digits that fits in an int64, and then returns the value of those digits |
| `Strconv.AtoiItoa` | http_with_ent/handlers.go:162 | a subject written with Itoa, as the login handler writes it, parses back to the same id |
| `Strconv.AtoiEmpty` | app/middlewares.go:81-85 | an empty subject is a syntax error |
| `Hex.DecodeString` | http_with_ent/auth.go:20 | a successful decoding is half as long as its input |
| `Hex.DecodeEncode` | http_with_ent/auth.go:20 | decoding undoes hex encoding |
| `Hex.DecodeSucceedsIff` | http_with_ent/auth.go:20-23 | decoding succeeds exactly on even-length strings of hex digits |
| `Hex.DecodedByte` | http_with_ent/auth.go:20 | byte i comes from characters 2i and 2i+1, high nibble first |
| `Hex.FirstInvalidReported` | http_with_ent/auth.go:20-23 | the first non-hex character is the one reported |
| `Hex.OddLengthReported` | http_with_ent/auth.go:20-23 | an odd number of hex digits is a length error |
| `Auth.GetPasetoKey` | http_with_ent/auth.go:18-25 | returns a key exactly when PASETO_KEY is even-length hex; the key is half as long; otherwise it panics with the decoding error |
| `Auth.PasetoKeyRoundTrip` | http_with_ent/auth.go:18-25 | a key configured by its hex encoding is read back as itself |
| `Auth.PasetoKeyBytes` | http_with_ent/auth.go:20 | each key byte is the hex pair at its position |
| `Auth.UnsetKeyIsEmpty` | http_with_ent/auth.go:19-20 | an unset key decodes to an empty key without panicking |
| `Auth.GetUserFromContext` | http_with_ent/auth.go:28-33 | returns a user exactly when the value under userContextKey is a user, and then returns that value |
| `Auth.StoredUserFound` | http_with_ent/auth.go:28-33 | a user attached under userContextKey is what is read back |
| `Auth.OtherKeysTransparent` | http_with_ent/auth.go:28-33 | a layer under any other key does not change the result |
| `Auth.StringKeyDiffers` | http_with_ent/auth.go:12-14 | the plain string key "user" neither finds nor hides the user |
| `Auth.WrongTypeIsNil` | http_with_ent/auth.go:29-32 | a non-user value under the key gives nil and hides an outer user |
| `Auth.BackgroundHasNoUser` | http_with_ent/auth.go:28-33 | an empty context has no user |
| `Bearer.BearerToken` | app/middlewares.go:58-64 | a token is extracted exactly when the header is longer than "Bearer " and starts with it; the token is the rest, and it is non-empty |
| `Bearer.WithUser` | app/middlewares.go:95-99 | the request passed on differs only in its context, and that context yields the user |
| `Bearer.Check` | app/middlewares.go:51-93 | the checks run in the source's order (the same order as http_with_ent/middlewares.go:52-100): only an empty header is Missing; Invalid exactly when the header is non-empty and the prefix or the decryption fails; any later verdict means the token was extracted and decrypted, and it is Expired exactly when the expiration is before now; BadSubject exactly when the token decrypts, has not expired and its subject fails Atoi; UnknownUser exactly when the subject parses but the store holds no user for it |
| `Bearer.AdmitIff` | app/middlewares.go:51-99 | a user is admitted exactly when decryption succeeds, the token has not expired, the subject is numeric and the store returns that user for it |
| `Bearer.MissingHeader` | app/middlewares.go:51-55 | an absent header is the missing-header case |
| `Bearer.PrefixExamples` | app/middlewares.go:58-64 | `Bearer ` alone and `bearer x` are both invalid |
| `Bearer.TokenAfterPrefix` | app/middlewares.go:59-60 | the decrypter is given exactly what follows "Bearer " |
| `Bearer.WrongSchemeInvalid` | app/middlewares.go:58-64 | a header without the exact prefix is invalid whatever the later checks would say |
| `Bearer.ExpiredBeforeSubject` | app/middlewares.go:76-79 | a decrypted and expired token is Expired, whatever its subject and whatever the store holds |
| `Bearer.ExpiryIsStrict` | app/middlewares.go:76 | a token whose expiry is the current instant is still accepted |
| `Bearer.BadSubjectText` | app/middlewares.go:80-85 | a non-numeric subject reports strconv's error text |
| `Bearer.EmptySubject` | app/middlewares.go:80-85 | an empty subject reports `strconv.Atoi: parsing "": invalid syntax` |
| `Bearer.StoreConsultedLast` | app/middlewares.go:86-93 | the store matters only once every earlier check has passed |
| `Bearer.IssuedTokenAdmits` | http_with_ent/handlers.go:161-165 | a token issued at login admits its user for 24 hours and is Expired after that |
| `AppMiddlewares.Redirect` | app/middlewares.go:77 | the redirect replies with the given code, the Location header set to the target and no body, and does not reach next |
| `AppMiddlewares.JsonError` | app/middlewares.go:53 | the client sees the given code and the single `{"error": msg}` body; next is not reached |
| `AppMiddlewares.Authenticate` | app/middlewares.go:49-100 | an admitted request gets exactly next's response to the request carrying the user; every other verdict is answered with status 401 without reaching next |
| `AppMiddlewares.AuthenticateUser` | app/middlewares.go:49-50 | the middleware applying AppMiddlewares.Authenticate to each request; its behaviour is stated by AppMiddlewares.Authenticate, AppMiddlewares.RejectedResponse and AppMiddlewares.AdmittedCallsNextOnce |
| `AppMiddlewares.JsonErrorResponse` | app/middlewares.go:53 | `writeJSON(w, code, M{"error": msg})` leaves only the JSON content type, the code and the error body |
| `AppMiddlewares.RejectedResponse` | app/middlewares.go:49-93 | each failed check answers 401 `{"error": msg}` with the message of that check; an expired token is instead redirected to /auth/login/ with 401 |
| `AppMiddlewares.UserNotFound` | app/middlewares.go:86-93 | a valid, unexpired token whose numeric subject the store does not hold gets 401 `{"error": "User Not Found"}` |
| `AppMiddlewares.RejectedIgnoresNext` | app/middlewares.go:49-93 | a rejected request never reaches next: the response does not depend on next, and next is visited zero times |
| `AppMiddlewares.AdmittedCallsNextOnce` | app/middlewares.go:95-99 | an admitted request is exactly next applied to the request carrying the user; next is visited once |
| `AppMiddlewares.MissingHeaderResponse` | app/middlewares.go:51-55 | an absent or empty Authorization header gives 401 "Authorization header missing", and next is visited zero times |
| `AppMiddlewares.IsAllowedOrigin` | app/middlewares.go:103-124 | an allowed origin starts with one of the four listed origins, so it starts with "http" and has at least 16 characters; an empty Origin is never allowed |
| `AppMiddlewares.OriginAllowed` | app/middlewares.go:115-124 | the loop with break returns true exactly when some allowed origin is a prefix of Origin |
| `AppMiddlewares.OriginExamples` | app/middlewares.go:103-124 | an empty origin and `https://example.com` are refused; `http://localhost:3000` and `http://localhost.evil.com` are allowed |
| `AppMiddlewares.Cors` | app/middlewares.go:112-144 | a disallowed origin is answered 403 without reaching next; an allowed one gets the four CORS headers before anything else, and only them for OPTIONS |
| `AppMiddlewares.CORSMiddleware` | app/middlewares.go:112-113 | the middleware applying AppMiddlewares.Cors to each request; its behaviour is stated by AppMiddlewares.Cors, AppMiddlewares.ForbiddenOrigin, AppMiddlewares.AllowedPreflight and AppMiddlewares.AllowedPassesThrough |
| `AppMiddlewares.ForbiddenOrigin` | app/middlewares.go:126-132 | a disallowed origin gets exactly the 403 `{"error": "Cross Origin Forbidden"}` with no Access-Control header, for every method, and next is not reached |
| `AppMiddlewares.CorsHeadersResponse` | app/middlewares.go:127-135 | an allowed origin gets its own origin echoed, plus the methods, headers and credentials values |
| `AppMiddlewares.AllowedPreflight` | app/middlewares.go:133-140 | a preflight from an allowed origin gets only the headers (client status 200) and next is not reached |
| `AppMiddlewares.AllowedPassesThrough` | app/middlewares.go:133-142 | any other method gets the headers, then next, called once |
| `EntMiddlewares.Authenticate` | http_with_ent/middlewares.go:50-108 | an admitted request gets exactly next's response to the request carrying the user; every other verdict, an expired token included, is answered with status 401 without reaching next |
| `EntMiddlewares.AuthenticateUser` | http_with_ent/middlewares.go:50-51 | the middleware applying EntMiddlewares.Authenticate to each request; its behaviour is stated by EntMiddlewares.Authenticate, EntMiddlewares.RejectedResponse and EntMiddlewares.AdmittedCallsNextOnce |
| `EntMiddlewares.Cors` | http_with_ent/middlewares.go:111-126 | every request gets the three CORS headers first; OPTIONS gets nothing else, and any other method gets next's response after them |
| `EntMiddlewares.CORSMiddleware` | http_with_ent/middlewares.go:111-112 | the middleware applying EntMiddlewares.Cors to each request; its behaviour is stated by EntMiddlewares.Cors, EntMiddlewares.CorsHeadersResponse, EntMiddlewares.NeverRejects and EntMiddlewares.NextCalls |
| `EntMiddlewares.ExpiredIsJson` | http_with_ent/middlewares.go:79-82 | an expired token gives a JSON 401 "Token Expired" with no Location header |
| `EntMiddlewares.SameAsAppUnlessExpired` | http_with_ent/middlewares.go:50-108 | the two authenticators agree on every other outcome |
| `EntMiddlewares.RejectedResponse` | http_with_ent/middlewares.go:52-100 | every rejection is a 401 with the failing check's message, and next is not reached |
| `EntMiddlewares.AdmittedCallsNextOnce` | http_with_ent/middlewares.go:102-106 | an admitted request reaches next once, with the user under userContextKey |
| `EntMiddlewares.CorsHeadersResponse` | http_with_ent/middlewares.go:115-117 | the origin is set to `*`, and the methods and headers values are set |
| `EntMiddlewares.NeverRejects` | http_with_ent/middlewares.go:111-125 | CORS here adds no status code and no body, always grants `*`, and sets no credentials header |
| `EntMiddlewares.NextCalls` | http_with_ent/middlewares.go:120-124 | OPTIONS never reaches next; every other method reaches it once, after the headers |
| `EntMiddlewares.ComparedWithApp` | http_with_ent/middlewares.go:115-117 | for an origin the app accepts, the two CORS variants differ only in the granted origin and in the app's credentials header |
| `Stack.ApplyStack` | app/middlewares.go:16-24 | the reverse loop builds `xs[0](xs[1](… xs[n-1](next)))` |
| `Stack.NestAppend` | http_with_ent/middlewares.go:17-25 | stacking a concatenation is stacking one list around the other |
| `Stack.EmptyStack` | app/middlewares.go:16-24 | an empty stack is the identity |
| `Stack.Nest` | app/middlewares.go:16-24 | the composition `xs[0](xs[1](… xs[n-1](h)))` that createStack builds; its properties are stated by Stack.ApplyStack, Stack.NestAppend and Stack.StackOrder |
| `Stack.CreateStack` | app/middlewares.go:16-17 | the middleware createStack returns, applying Nest of its list to next; stated by Stack.EmptyStack and Stack.StackOrder |
| `Stack.StackOrder` | app/middlewares.go:16-24 | for middlewares that mark their entry and exit around next, a stack runs the entries in the order listed, then the handler, then the exits in reverse order |
| `Stack.TwoLayerTrace` | app/middlewares.go:16-24 | `createStack(M1, M2)` around a handler H gives enter M1, enter M2, H, exit M2, exit M1 |
| `Stack.Logging` | app/middlewares.go:36-47 | the handler logging returns, answering with what next produces; what it records for the log line is stated by Stack.ServeLogged |
| `Stack.LoggedStatus` | app/middlewares.go:31-45 | the logged code is either 202 or a code the handler passed to WriteHeader |
| `Http.HeaderFirst` | app/helpers.go:35-36 | on a fresh writer, when only header changes come before the first WriteHeader(c), the client sees c whatever follows, further codes and bodies included |
| `Http.CommittedStays` | app/helpers.go:36-41 | a committed status line is never changed by later steps |
| `Http.WriteBeforeHeader` | app/middlewares.go:31-34 | a body written before WriteHeader(c) commits 200, although c still reaches the writer |
| `Stack.BodyFirstLogged` | app/middlewares.go:31-45 | a handler that writes its body before WriteHeader(c) is logged with c while the client was sent 200 |
| `Stack.LoggedIsLastCode` | http_with_ent/middlewares.go:32-47 | the logged code is the last code the handler passed to WriteHeader, or 202 if it passed none |
| `Stack.NoWriteHeader` | app/middlewares.go:40-45 | a handler that never calls WriteHeader is logged as 202 while the client sees 200 |
| `Stack.WrappedWriter.constructor` | app/middlewares.go:40-43 | the wrapper starts at http.StatusAccepted around the given writer |
| `Stack.WrappedWriter.WriteHeader` | app/middlewares.go:31-34 | forwards the code to the wrapped writer and records it |
| `Stack.WrappedWriter.Perform` | app/middlewares.go:26-34 | every other operation reaches the wrapped writer unchanged and leaves the recorded code alone |
| `Stack.ServeLogged` | app/middlewares.go:36-47 | the writer ends with exactly what next produced, and the code returned for the log line is the logged status |
| `AppServer.StripPrefix` | app/main.go:71-72 | http.StripPrefix: an empty prefix returns the handler; otherwise the handler serves the paths with the prefix removed and http.NotFound answers the rest; stated by AppServer.StripPrefixServes and AppServer.Router |
| `AppServer.StripPrefixServes` | app/main.go:71-72 | for one request: an empty prefix leaves the handler's answer unchanged; with a non-empty prefix the handler gets the request with a path that the prefix completes to the original; a path without the prefix gets 404 and the handler is not reached |
| `AppServer.NotFoundResponse` | app/main.go:71-72 | the not-found reply has status 404, the nosniff header and the body `404 page not found` |
| `AppServer.Router` | app/main.go:70-72 | /auth/ goes to the login routes with /auth stripped; /api/ goes through the authenticator to the API routes with /api stripped; any other path gets the mux's other answer |
| `AppServer.Server` | app/main.go:74-81 | `stack(router)`; stated by AppServer.ServerLayers and the lemmas after it |
| `AppServer.ServerLayers` | app/main.go:74-81 | the server is logging around CORS around the router |
| `AppServer.ForeignOriginRefused` | app/main.go:71-81 | a foreign origin gets 403 on every path, before routing and authentication |
| `AppServer.PreflightAnswered` | app/main.go:74-81 | an allowed preflight gets only the CORS headers; the client sees 200 and the log line says 202 |
| `AppServer.ApiNeedsToken` | app/main.go:72 | /api/ routes are reached only with an admitted token, then once, with /api stripped and the user attached; otherwise the authenticator's own response is sent |
| `AppServer.LoginSkipsAuthentication` | app/main.go:71 | /auth/ routes are reached without authentication, once, with /auth stripped |
| `UserColumns.ValidColumn` | app/ent/user/user.go:61-68 | true exactly when the name is one of Columns; a match is the first equal entry |
| `UserColumns.ColumnsDistinct` | app/ent/user/user.go:45-52 | there are six columns and no duplicates |
| `UserColumns.NonColumns` | app/ent/user/user.go:27-41 | the edge names, the blogs foreign key and the friends join keys are not columns |

## Left out

- PASETO v2 encryption and decryption, and bcrypt. Decryption is an uninterpreted parameter returning the claims or nothing.
- The wall clock. "Now" is a parameter, and times are integers on one clock. Measuring elapsed time and the log line itself are not modelled. The code the log line would print is modelled.
- The json.Marshal and json.Decoder internals, including DisallowUnknownFields. Marshalling succeeds exactly on a value with no unencodable part. Decoding is given as the sequence of outcomes of successive Decode calls.
- http.Redirect: only the Location header and the 401 code are modelled. It also sets a text/html content type for GET and HEAD requests, and writes a short link body for GET only; both are left out.
- The `Location` value is `/auth/login/` as written. Go's path cleaning and escaping of the redirect target change nothing for this literal.
- Canonicalisation of header keys by Header.Get and Header.Set. Keys are compared as written.
- Strings.ToLower maps only ASCII capitals and the two non-ASCII letters whose lower case is ASCII. These are the only mappings that can make a result equal `application/json`.
- Strconv.ErrorText quotes the subject escaping only `"` and `\`. strconv.Quote also escapes control and non-printable characters.
- Hex.DecodeString reports the offending character. Go reports the offending byte of the UTF-8 encoding, formatted by fmt. The panic message itself is not built: `Auth.Panic` holds its prefix and the decoding error.
- A writer on which every write fails: writeJSON would then recurse forever through errorResponse. The model takes a bound on the number of failing writes (`Helpers.WriteJSONWith`). The middlewares and the server use writers that accept every write.
- The route handlers behind `/api/` and `/auth/` (create, read, update and delete for users, blogs, friends and tags, plus login, signup and signout). They are parameters of the server model. The login handler's token issuing appears only as the claims it writes.
- ServeMux matching details: the redirect from `/auth` to `/auth/`, path cleaning, method patterns and the mux's own 404 page. The answer for any other path is a parameter. The 404 that http.StripPrefix sends is modelled.
- AppServer.StripPrefix: the raw (escaped) path is not modelled, so only the decoded path decides whether the prefix matches.
- WriteHeader codes are taken to be final status codes. net/http does not commit the status line for an informational 1xx code other than 101, and it panics on a code outside 100–999; neither behaviour is modelled, so `Http.Status`, `Http.HeaderFirst` and `Helpers.ClientSeesCallerCode` treat every code as final. No handler in the modelled core sends such a code.
- Headers set after the status line is committed are still recorded in the modelled header map, though net/http no longer sends them. The only header set after a write in the model is the Content-Type that errorResponse sets again after a failed write, with the same value.
- The TLS server, signal handling and graceful shutdown in app/main.go, the database client singleton, and LoadEnv's configuration file I/O.
- The generated ent code other than Columns and ValidColumn.
- http_with_ent's own helpers file is not part of this model. The source's ent authenticator calls the writeJSON of its own package; the model's ent authenticator uses app/helpers.go's writeJSON in its place, assumed to behave the same.
- app's definition of userContextKey is not part of this model. It is taken to be `contextKey("user")`, as in http_with_ent/auth.go.
- The debug query of all users at http_with_ent/middlewares.go:93 and the logging of the key and token. They do not affect the response.
