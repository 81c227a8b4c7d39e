/**
 * http_with_ent/auth.go: the private context key under which the authenticated user
 * travels, reading the PASETO key from configuration, and fetching the user back out
 * of a request context.
 */
module Auth {
  import opened Wrappers
  import opened Http
  import opened Hex

  /** `const userContextKey = contextKey("user")`, a value of the private type contextKey. */
  const UserContextKey: Key := ContextKey("user")

  /** What log.Panic carries when the configured key is not valid hex. */
  datatype Panic = Panic(prefix: string, cause: HexError)

  const PanicPrefix: string := "failed to generate PASETO key: "

  /** getPasetoKey, given the PASETO_KEY configuration value: the decoded bytes, or a panic. */
  function GetPasetoKey(config: string): (r: Result<seq<byte>, Panic>)
    ensures r.Success? <==> |config| % 2 == 0 && forall i :: 0 <= i < |config| ==> IsHexDigit(config[i])
    ensures r.Success? ==> 2 * |r.value| == |config|
    ensures r.Failure? ==> r.error.prefix == PanicPrefix && Failure(r.error.cause) == DecodeString(config)
  {
    DecodeSucceedsIff(config);
    match DecodeString(config)
    case Success(key) => Success(key)
    case Failure(e) => Failure(Panic(PanicPrefix, e))
  }

  /** A key configured by its hex encoding is read back as itself. */
  lemma PasetoKeyRoundTrip(key: seq<byte>)
    ensures GetPasetoKey(EncodeToString(key)) == Success(key)
  {
    DecodeEncode(key);
  }

  /** Each byte of the key is the pair of hex digits at its position, high digit first. */
  lemma PasetoKeyBytes(config: string, i: nat)
    requires GetPasetoKey(config).Success? && i < |GetPasetoKey(config).value|
    ensures GetPasetoKey(config).value[i] as int == HexValue(config[2 * i]) * 16 + HexValue(config[2 * i + 1])
  {
    DecodedByte(config, i);
  }

  /** An unset PASETO_KEY reads as the empty string, which decodes to an empty key without panicking. */
  lemma UnsetKeyIsEmpty()
    ensures GetPasetoKey("") == Success([])
  {
  }

  /** GetUserFromContext: the *ent.User stored under userContextKey, or nil (None) when
      the key is absent or holds a value of another type. */
  function GetUserFromContext(ctx: Context): (u: Option<User>)
    ensures u.Some? <==> Lookup(ctx, UserContextKey).Some? && Lookup(ctx, UserContextKey).value.UserValue?
    ensures u.Some? ==> Lookup(ctx, UserContextKey) == Some(UserValue(u.value))
  {
    match Lookup(ctx, UserContextKey)
    case Some(UserValue(user)) => Some(user)
    case _ => None
  }

  /** A user attached with context.WithValue under userContextKey is what handlers read back. */
  lemma StoredUserFound(ctx: Context, user: User)
    ensures GetUserFromContext(WithValue(ctx, UserContextKey, UserValue(user))) == Some(user)
  {
  }

  /** A layer under any other key, including the plain string "user", changes nothing. */
  lemma OtherKeysTransparent(ctx: Context, k: Key, v: Value)
    requires k != UserContextKey
    ensures GetUserFromContext(WithValue(ctx, k, v)) == GetUserFromContext(ctx)
  {
  }

  /** The plain string key "user" neither finds nor hides the user. */
  lemma StringKeyDiffers(ctx: Context, user: User)
    ensures GetUserFromContext(WithValue(Background, StringKey("user"), UserValue(user))) == None
    ensures GetUserFromContext(WithValue(WithValue(ctx, UserContextKey, UserValue(user)), StringKey("user"), StringValue("x")))
            == Some(user)
  {
    assert StringKey("user") != UserContextKey;
    OtherKeysTransparent(Background, StringKey("user"), UserValue(user));
    OtherKeysTransparent(WithValue(ctx, UserContextKey, UserValue(user)), StringKey("user"), StringValue("x"));
    StoredUserFound(ctx, user);
  }

  /** A value of another type under userContextKey gives nil, and hides an outer user. */
  lemma WrongTypeIsNil(ctx: Context, v: Value)
    requires !v.UserValue?
    ensures GetUserFromContext(WithValue(ctx, UserContextKey, v)) == None
  {
  }

  /** A request that went through no authentication carries no user. */
  lemma BackgroundHasNoUser()
    ensures GetUserFromContext(Background) == None
  {
  }
}
