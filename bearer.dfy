/**
 * The token check that both authenticateUser middlewares run, as a chain of early
 * returns: header present, "Bearer " prefix, PASETO decryption, expiry, numeric
 * subject, user lookup. Decryption, the clock and the user store are parameters.
 */
module Bearer {
  import opened Wrappers
  import opened Http
  import opened Strings
  import opened Strconv
  import opened Auth

  const Authorization: string := "Authorization"
  const Prefix: string := "Bearer "

  /** The claims of a PASETO JSONToken that the middleware reads; times are instants on
      one integer clock (seconds). */
  datatype Claims = Claims(subject: string, issuedAt: int, expiration: int)

  /** What the middleware depends on besides the request: `Decrypt` with the configured
      key (None when it returns an error), the current time, and `client.User.Get`
      (None when it returns an error). */
  datatype Env = Env(decrypt: string -> Option<Claims>, now: int, getUser: int -> Option<User>)

  /** The token after the prefix, when the header is longer than "Bearer " and starts
      with it, case-sensitively. */
  function BearerToken(h: string): (t: Option<string>)
    ensures t.Some? <==> |h| > |Prefix| && HasPrefix(h, Prefix)
    ensures t.Some? ==> Prefix + t.value == h && t.value != ""
  {
    if |h| > |Prefix| && HasPrefix(h, Prefix) then Some(h[|Prefix|..]) else None
  }

  /** Where the chain stops. */
  datatype Verdict =
    | Missing
    | Invalid
    | Expired
    | BadSubject(msg: string)
    | UnknownUser
    | Admit(user: User)

  /** The header carries a Bearer token that decrypts. */
  predicate Decrypted(env: Env, h: string)
  {
    BearerToken(h).Some? && env.decrypt(BearerToken(h).value).Some?
  }

  /** The outcome of the checks for the Authorization header value h, taken in order:
      only an empty value is Missing, and a verdict past the token stage means the
      token was extracted and decrypted, with Expired exactly when it is past its
      expiration. */
  function Check(env: Env, h: string): (v: Verdict)
    ensures v == Missing <==> h == ""
    ensures v.Invalid? <==> h != "" && (BearerToken(h).None? || env.decrypt(BearerToken(h).value).None?)
    ensures !v.Missing? && !v.Invalid? ==>
      BearerToken(h).Some? && env.decrypt(BearerToken(h).value).Some?
      && (v.Expired? <==> env.decrypt(BearerToken(h).value).value.expiration < env.now)
    ensures v.BadSubject? <==>
      Decrypted(env, h) && var c := env.decrypt(BearerToken(h).value).value;
      !(c.expiration < env.now) && Atoi(c.subject).Failure?
    ensures v == UnknownUser <==>
      Decrypted(env, h) && var c := env.decrypt(BearerToken(h).value).value;
      !(c.expiration < env.now) && Atoi(c.subject).Success? && env.getUser(Atoi(c.subject).value).None?
  {
    if h == "" then Missing
    else match BearerToken(h)
      case None => Invalid
      case Some(t) =>
        match env.decrypt(t)
        case None => Invalid
        case Some(c) =>
          if c.expiration < env.now then Expired
          else match Atoi(c.subject)
            case Failure(e) => BadSubject(ErrorText(c.subject, e))
            case Success(id) =>
              match env.getUser(id)
              case None => UnknownUser
              case Some(u) => Admit(u)
  }

  /** The request next receives: the same request, its context extended with the user
      under userContextKey. */
  function WithUser(r: Request, u: User): (r': Request)
    ensures r'.verb == r.verb && r'.path == r.path && r'.header == r.header
    ensures GetUserFromContext(r'.ctx) == Some(u)
  {
    StoredUserFound(r.ctx, u);
    WithContext(r, WithValue(r.ctx, UserContextKey, UserValue(u)))
  }

  /** The error text of the JSON 401 responses; the expired case differs between the
      two servers and is handled by each. */
  function Message(v: Verdict): string
  {
    match v
    case Missing => "Authorization header missing"
    case Invalid => "Invalid token"
    case Expired => "Token Expired"
    case BadSubject(msg) => msg
    case UnknownUser => "User Not Found"
    case Admit(_) => ""
  }

  /** The user is admitted exactly when every check passes, and is the one the store returns. */
  lemma AdmitIff(env: Env, h: string, u: User)
    ensures Check(env, h) == Admit(u) <==>
      (BearerToken(h).Some?
       && env.decrypt(BearerToken(h).value).Some?
       && var c := env.decrypt(BearerToken(h).value).value;
          !(c.expiration < env.now)
          && Atoi(c.subject).Success?
          && env.getUser(Atoi(c.subject).value) == Some(u))
  {
  }

  /** An absent header (Header.Get gives "") is Missing. */
  lemma MissingHeader(env: Env)
    ensures Check(env, "") == Missing
  {
  }

  /** The bare prefix and a lower-case scheme are both invalid; the decrypter is never asked. */
  lemma PrefixExamples(env: Env)
    ensures Check(env, "Bearer ") == Invalid
    ensures Check(env, "bearer x") == Invalid
  {
    assert !HasPrefix("bearer x", Prefix) by {
      assert "bearer x"[0] != Prefix[0];
    }
  }

  /** The token handed to the decrypter is what follows "Bearer ". */
  lemma TokenAfterPrefix(t: string)
    requires t != ""
    ensures BearerToken(Prefix + t) == Some(t)
  {
    assert (Prefix + t)[..|Prefix|] == Prefix;
    assert (Prefix + t)[|Prefix|..] == t;
  }

  /** A header that does not start with the exact prefix is invalid whatever the other checks say. */
  lemma WrongSchemeInvalid(env: Env, h: string)
    requires h != "" && !HasPrefix(h, Prefix)
    ensures Check(env, h) == Invalid
  {
  }

  /** Expiry is checked before the subject and the store: an expired token is Expired
      whatever its subject and whatever the store holds. */
  lemma ExpiredBeforeSubject(env: Env, t: string, c: Claims)
    requires t != "" && env.decrypt(t) == Some(c) && c.expiration < env.now
    ensures Check(env, Prefix + t) == Expired
  {
    TokenAfterPrefix(t);
  }

  /** `Before` is strict: a token whose expiration is the current instant is still valid. */
  lemma ExpiryIsStrict(env: Env, t: string, c: Claims)
    requires t != "" && env.decrypt(t) == Some(c) && c.expiration == env.now
    ensures Check(env, Prefix + t) != Expired && Check(env, Prefix + t) != Invalid
  {
    TokenAfterPrefix(t);
  }

  /** A non-numeric subject reports strconv's error text. */
  lemma BadSubjectText(env: Env, t: string, c: Claims)
    requires t != "" && env.decrypt(t) == Some(c) && !(c.expiration < env.now) && Atoi(c.subject).Failure?
    ensures Check(env, Prefix + t) == BadSubject(ErrorText(c.subject, Atoi(c.subject).error))
  {
    TokenAfterPrefix(t);
  }

  /** An empty subject is a syntax error, not the user with id 0. */
  lemma EmptySubject(env: Env, t: string, c: Claims)
    requires t != "" && env.decrypt(t) == Some(c) && !(c.expiration < env.now) && c.subject == ""
    ensures Check(env, Prefix + t) == BadSubject("strconv.Atoi: parsing \"\": invalid syntax")
  {
    TokenAfterPrefix(t);
    AtoiEmpty();
    assert Escape("") == "";
  }

  /** The user store is consulted only once every earlier check has passed. */
  lemma StoreConsultedLast(env: Env, g: int -> Option<User>, h: string)
    requires !Check(env, h).Admit? && !Check(env, h).UnknownUser?
    ensures Check(env.(getUser := g), h) == Check(env, h)
  {
  }

  /** The lifetime the login handler gives a token. */
  const Day: int := 24 * 60 * 60

  /** A token as the login handler issues it (subject Itoa(id), expiring a day after it
      was issued) admits the user while the day has not passed, and is Expired after. */
  lemma IssuedTokenAdmits(env: Env, t: string, user: User, issued: int)
    requires t != "" && MinInt64 <= user.id <= MaxInt64
    requires env.decrypt(t) == Some(Claims(Itoa(user.id), issued, issued + Day))
    requires env.getUser(user.id) == Some(user)
    ensures env.now <= issued + Day ==> Check(env, Prefix + t) == Admit(user)
    ensures env.now > issued + Day ==> Check(env, Prefix + t) == Expired
  {
    TokenAfterPrefix(t);
    AtoiItoa(user.id);
  }
}
