/** src/services/token.rs with the DTOs of src/dto/token.rs: issuing a JWT for
    a user and reading the claims back. The `jsonwebtoken` codec is a parameter
    whose assumed behaviour is stated by `Sound`; the clock is a parameter. */
module Tokens {
  import opened Wrappers
  import opened Entities
  import opened TokenErrors

  /** `TokenClaimsDto`: the registered claims `sub`, `iat` and `exp` of
      section 4.1 of RFC 7519, plus the user's email. */
  datatype TokenClaimsDto = TokenClaimsDto(sub: i32, email: string, iat: int, exp: int)

  /** `TokenReadDto`: the signed token and its validity window. */
  datatype TokenReadDto = TokenReadDto(token: string, iat: int, exp: int)

  /** One reading of `Utc::now()`, in nanoseconds since the Unix epoch. */
  datatype Instant = Instant(nanos: int)

  const NANOS_PER_SECOND := 1_000_000_000

  /** `DateTime::timestamp`: whole seconds since the epoch, rounded down. */
  function Seconds(t: Instant): int
  {
    t.nanos / NANOS_PER_SECOND
  }

  /** `checked_add_signed(Duration::minutes(minutes))`. */
  function PlusMinutes(t: Instant, minutes: int): Instant
  {
    Instant(t.nanos + minutes * 60 * NANOS_PER_SECOND)
  }

  /** `TOKEN_EXPIRATION`: a token lives for 30 minutes. */
  const TOKEN_EXPIRATION := 30

  /** The two `jsonwebtoken::errors::ErrorKind`s the middleware tells apart. */
  datatype DecodeError = ExpiredSignature | OtherKind(kind: string)

  /** `jsonwebtoken::encode` and `decode` with the default header and the
      default validation: `encode(secret, claims)` signs, `decode(secret, token,
      now)` checks the signature and the expiry at `now` (seconds). */
  datatype Codec = Codec(
    encode: (string, TokenClaimsDto) -> Result<string, string>,
    decode: (string, string, int) -> Result<TokenClaimsDto, DecodeError>)

  /** The leeway, in seconds, of `Validation::default()`. */
  const LEEWAY := 60

  /** What the model assumes of `jsonwebtoken`: a token signed with a secret
      decodes under that secret to its own claims until `exp` plus the leeway
      has passed, and as `ExpiredSignature` afterwards. */
  ghost predicate Sound(codec: Codec)
  {
    forall secret, claims, now ::
      codec.encode(secret, claims).Ok? ==>
        codec.decode(secret, codec.encode(secret, claims).value, now)
          == if now <= claims.exp + LEEWAY then Ok(claims) else Err(ExpiredSignature)
  }

  /** `TokenService`: holds the process-wide signing secret, read-only. */
  datatype TokenService = TokenService(secret: string)

  /** The claims issued to `user` from one clock reading `now`: subject and
      email are the user's, and the token expires exactly 30 minutes after it
      was issued. */
  function IssuedClaims(user: User, now: Instant): (claims: TokenClaimsDto)
    ensures claims.sub == user.id && claims.email == user.email
    ensures claims.iat == Seconds(now)
    ensures claims.exp == claims.iat + TOKEN_EXPIRATION * 60
  {
    TokenClaimsDto(user.id, user.email, Seconds(now), Seconds(PlusMinutes(now, TOKEN_EXPIRATION)))
  }

  /** `generate_token`, with a single clock reading. On success the returned
      DTO carries the signed token and the very `iat` and `exp` that were
      signed; if signing fails the result is `TokenCreationError` with the
      encoder's text and no token. */
  function GenerateToken(svc: TokenService, codec: Codec, user: User, now: Instant): (r: Result<TokenReadDto, TokenError>)
    ensures var claims := IssuedClaims(user, now);
      var signed := codec.encode(svc.secret, claims);
      && (r.Ok? <==> signed.Ok?)
      && (r.Ok? ==> r.value.token == signed.value && r.value.iat == claims.iat && r.value.exp == claims.exp)
      && (r.Err? ==> r.error == TokenCreationError(signed.error))
  {
    var claims := IssuedClaims(user, now);
    var token :- codec.encode(svc.secret, claims).MapErr((e: string) => TokenCreationError(e));
    Ok(TokenReadDto(token, claims.iat, claims.exp))
  }

  /** `retrieve_token_claims`: decode with the service's own secret, the one
      `generate_token` signs with. So, for a sound codec, a token this service
      signed reads back as the claims it signed, or as expired once `exp` and
      the leeway have passed. */
  function RetrieveTokenClaims(svc: TokenService, codec: Codec, token: string, now: int)
    : (r: Result<TokenClaimsDto, DecodeError>)
    ensures Sound(codec) ==>
      forall claims :: codec.encode(svc.secret, claims) == Ok(token) ==>
        r == if now <= claims.exp + LEEWAY then Ok(claims) else Err(ExpiredSignature)
  {
    codec.decode(svc.secret, token, now)
  }

  /** Issue and verify round-trip: a freshly issued token decodes to claims
      naming the user it was issued to, with the window it was issued with,
      until the window and the leeway have passed; after that it is expired. */
  lemma IssuedTokenVerifies(svc: TokenService, codec: Codec, user: User, issuedAt: Instant, now: int)
    requires Sound(codec)
    requires GenerateToken(svc, codec, user, issuedAt).Ok?
    ensures var t := GenerateToken(svc, codec, user, issuedAt).value;
      && (now <= t.exp + LEEWAY ==>
            RetrieveTokenClaims(svc, codec, t.token, now) == Ok(TokenClaimsDto(user.id, user.email, t.iat, t.exp)))
      && (now > t.exp + LEEWAY ==> RetrieveTokenClaims(svc, codec, t.token, now) == Err(ExpiredSignature))
  {
    var claims := IssuedClaims(user, issuedAt);
    assert codec.encode(svc.secret, claims).Ok?;
    var d := codec.decode(svc.secret, codec.encode(svc.secret, claims).value, now);
    assert d == if now <= claims.exp + LEEWAY then Ok(claims) else Err(ExpiredSignature);
  }

  // ---- generate_token as written: two clock readings ----

  /** The claims of `generate_token` as written: `iat` and `exp` come from two
      separate calls to `Utc::now()`. */
  function ClaimsAsWritten(user: User, iatReading: Instant, expReading: Instant): (claims: TokenClaimsDto)
    ensures claims.sub == user.id && claims.email == user.email
    ensures claims.iat == Seconds(iatReading)
    ensures claims.exp == Seconds(expReading) + TOKEN_EXPIRATION * 60
  {
    TokenClaimsDto(user.id, user.email, Seconds(iatReading), Seconds(PlusMinutes(expReading, TOKEN_EXPIRATION)))
  }

  /** `generate_token` exactly as written, with its two clock readings. */
  function GenerateTokenAsWritten(svc: TokenService, codec: Codec, user: User,
                                  iatReading: Instant, expReading: Instant): (r: Result<TokenReadDto, TokenError>)
    ensures r.Ok? ==> r.value.exp - r.value.iat == TOKEN_EXPIRATION * 60 + Seconds(expReading) - Seconds(iatReading)
    ensures iatReading == expReading ==> r == GenerateToken(svc, codec, user, iatReading)
  {
    var claims := ClaimsAsWritten(user, iatReading, expReading);
    var token :- codec.encode(svc.secret, claims).MapErr((e: string) => TokenCreationError(e));
    Ok(TokenReadDto(token, claims.iat, claims.exp))
  }

  /** When a second boundary falls between the two readings, the token lives
      1801 seconds instead of 1800. */
  lemma AsWrittenLifetimeDrifts(user: User)
    ensures var claims := ClaimsAsWritten(user, Instant(999_999_999_999), Instant(1_000_000_000_000));
      claims.iat == 999 && claims.exp == 2800 && claims.exp - claims.iat == 1801
  {
  }
}
