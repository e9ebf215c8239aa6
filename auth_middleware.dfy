/** src/middleware/auth.rs: the guard of protected routes. It takes the bearer
    token from the `Authorization` header, decodes its claims, resolves the
    user by the claims' email and only then runs the downstream handler, with
    the user attached to the request. Any failure short-circuits. */
module AuthMiddleware {
  import opened Wrappers
  import opened Http
  import opened Entities
  import opened Tokens
  import opened TokenErrors
  import opened UserErrors
  import opened ApiErrors
  import opened UserRepository

  /** A request header; the `http` crate stores names in lower case. */
  datatype Header = Header(name: string, value: string)

  const AUTHORIZATION := "authorization"

  /** The `filter_map` over the request's headers: the values of the
      `authorization` headers, in order. The first of them is the value of
      the first `authorization` header. */
  function AuthorizationValues(headers: seq<Header>): (values: seq<string>)
    ensures values == [] <==> forall i :: 0 <= i < |headers| ==> headers[i].name != AUTHORIZATION
    ensures values != [] ==>
      exists i :: 0 <= i < |headers| && headers[i].name == AUTHORIZATION && headers[i].value == values[0]
        && forall j :: 0 <= j < i ==> headers[j].name != AUTHORIZATION
  {
    if headers == [] then []
    else
      var rest := AuthorizationValues(headers[1..]);
      assert forall i :: 1 <= i < |headers| ==> headers[i] == headers[1..][i - 1];
      if headers[0].name == AUTHORIZATION then [headers[0].value] + rest else rest
  }

  function AsciiLower(c: char): char
  {
    if 'A' <= c <= 'Z' then (c as int + 32) as char else c
  }

  /** `eq_ignore_ascii_case`. */
  predicate EqIgnoreAsciiCase(a: string, b: string)
  {
    |a| == |b| && forall i :: 0 <= i < |a| ==> AsciiLower(a[i]) == AsciiLower(b[i])
  }

  /** `HeaderValue::to_str` succeeds: only visible ASCII, space and tab. */
  predicate IsHeaderText(s: string)
  {
    forall i :: 0 <= i < |s| ==> s[i] == '\t' || ' ' <= s[i] <= '~'
  }

  const SCHEME := "Bearer"

  /** The whitespace `str::trim_start` removes from header text. */
  predicate IsSpace(c: char)
  {
    c == ' ' || c == '\t'
  }

  /** `str::trim_start` on header text: drops the leading spaces and tabs. */
  function TrimStart(s: string): (r: string)
    ensures |r| <= |s|
    ensures r == [] || !IsSpace(r[0])
    ensures forall i :: 0 <= i < |s| - |r| ==> IsSpace(s[i])
  {
    if s != [] && IsSpace(s[0]) then TrimStart(s[1..]) else s
  }

  /** What `trim_start` keeps is a suffix of its input. */
  lemma {:induction false} TrimStartKeepsSuffix(s: string)
    ensures TrimStart(s) == s[|s| - |TrimStart(s)|..]
  {
    if s != [] && IsSpace(s[0]) {
      TrimStartKeepsSuffix(s[1..]);
      assert s[1..][|s[1..]| - |TrimStart(s[1..])|..] == s[|s| - |TrimStart(s)|..];
    }
  }

  /** The characters of a `b64token` (section 2.1 of RFC 6750), which are
      all a JWT in compact serialisation uses. */
  predicate IsTokenText(s: string)
  {
    forall i :: 0 <= i < |s| ==>
      || 'A' <= s[i] <= 'Z' || 'a' <= s[i] <= 'z' || '0' <= s[i] <= '9'
      || s[i] == '-' || s[i] == '.' || s[i] == '_' || s[i] == '~' || s[i] == '+' || s[i] == '/' || s[i] == '='
  }

  /** Token text is header text and has nothing for `trim_start` to drop. */
  lemma TokenTextIsUntrimmed(s: string)
    requires IsTokenText(s)
    ensures IsHeaderText(s) && TrimStart(s) == s
  {
    if s != [] {
      assert !IsSpace(s[0]);
    }
  }

  /** `Authorization::<Bearer>::decode` followed by `token()`, in the form of
      section 2.1 of RFC 6750. Only the FIRST `authorization` value is read:
      it must be header text, the scheme `Bearer` in any letter case, and one
      space; the token is the rest with leading whitespace trimmed. Anything
      else, including a missing header, is no token. */
  function BearerToken(headers: seq<Header>): (token: Option<string>)
    ensures var vs := AuthorizationValues(headers);
      && (token.Some? <==>
            && vs != [] && |vs[0]| > |SCHEME| && vs[0][|SCHEME|] == ' '
            && EqIgnoreAsciiCase(vs[0][..|SCHEME|], SCHEME) && IsHeaderText(vs[0]))
      && (token.Some? ==> token.value == TrimStart(vs[0][|SCHEME| + 1..]))
  {
    var values := AuthorizationValues(headers);
    if values == [] then None
    else
      var v := values[0];
      if |v| > |SCHEME| && v[|SCHEME|] == ' ' && EqIgnoreAsciiCase(v[..|SCHEME|], SCHEME) && IsHeaderText(v)
      then Some(TrimStart(v[|SCHEME| + 1..]))
      else None
  }

  /** In terms of the request's headers: a token comes from the first
      `authorization` header, which starts with the scheme and one space. */
  lemma TokenFromFirstAuthorizationHeader(headers: seq<Header>)
    requires BearerToken(headers).Some?
    ensures exists i ::
      && 0 <= i < |headers| && headers[i].name == AUTHORIZATION
      && (forall j :: 0 <= j < i ==> headers[j].name != AUTHORIZATION)
      && |headers[i].value| > 6
      && EqIgnoreAsciiCase(headers[i].value[..6], SCHEME) && headers[i].value[6] == ' '
      && BearerToken(headers).value == TrimStart(headers[i].value[7..])
  {
    var values := AuthorizationValues(headers);
    var i :| 0 <= i < |headers| && headers[i].name == AUTHORIZATION && headers[i].value == values[0]
             && forall j :: 0 <= j < i ==> headers[j].name != AUTHORIZATION;
  }

  /** A well-formed `Authorization: Bearer <token>` header yields the token,
      whatever the letter case of the scheme. */
  lemma BearerHeaderYieldsToken(scheme: string, token: string, others: seq<Header>)
    requires EqIgnoreAsciiCase(scheme, SCHEME) && IsHeaderText(scheme) && IsTokenText(token)
    requires forall i :: 0 <= i < |others| ==> others[i].name != AUTHORIZATION
    ensures BearerToken(others + [Header(AUTHORIZATION, scheme + " " + token)]) == Some(token)
  {
    TokenTextIsUntrimmed(token);
    var headers := others + [Header(AUTHORIZATION, scheme + " " + token)];
    var v := scheme + " " + token;
    var values := AuthorizationValues(headers);
    var i :| 0 <= i < |headers| && headers[i].name == AUTHORIZATION && headers[i].value == values[0]
             && forall j :: 0 <= j < i ==> headers[j].name != AUTHORIZATION;
    assert i == |others|;
    assert v[..6] == scheme && v[7..] == token;
  }

  /** Only the first `authorization` header is read: a `Basic` header in
      front of a well-formed bearer header hides it. */
  lemma OnlyFirstAuthorizationHeaderCounts()
    ensures BearerToken([Header(AUTHORIZATION, "Basic x"), Header(AUTHORIZATION, "Bearer y")]) == None
  {
    var headers := [Header(AUTHORIZATION, "Basic x"), Header(AUTHORIZATION, "Bearer y")];
    assert AuthorizationValues(headers)[0] == "Basic x";
  }

  /** Extra spaces after the scheme are not part of the token:
      `Bearer  <token>` yields `<token>`. */
  lemma ExtraSpacesTrimmed(token: string)
    requires IsTokenText(token)
    ensures BearerToken([Header(AUTHORIZATION, "Bearer  " + token)]) == Some(token)
  {
    TokenTextIsUntrimmed(token);
    var v := "Bearer  " + token;
    assert AuthorizationValues([Header(AUTHORIZATION, v)]) == [v];
    assert v[..6] == SCHEME && v[6] == ' ';
    assert forall i :: 0 <= i < |v| ==> v[i] == if i < 8 then "Bearer  "[i] else token[i - 8];
    assert IsHeaderText(v);
    assert v[7..] == " " + token && (" " + token)[1..] == token;
  }

  /** What the middleware concludes about a request. */
  datatype AuthDecision = Authorized(user: User) | Rejected(error: ApiError)

  /** `TokenState`: the token service and the user table it resolves against. */
  datatype TokenState = TokenState(tokens: TokenService, users: map<string, User>)

  /** The steps after the token has been extracted: map a decoding failure to
      its token error, otherwise resolve the user by the claims' email. */
  function Resolve(token: string, decoded: Result<TokenClaimsDto, DecodeError>, users: map<string, User>,
                   lookup: QueryOutcome): (d: AuthDecision)
    ensures decoded == Err(ExpiredSignature) ==> d == Rejected(ApiErrors.TokenError(TokenExpired))
    ensures decoded.Err? && decoded.error != ExpiredSignature ==> d == Rejected(ApiErrors.TokenError(InvalidToken(token)))
    ensures d.Authorized? <==> decoded.Ok? && lookup.Answered? && decoded.value.email in users
    ensures d.Authorized? ==> d.user == users[decoded.value.email]
    ensures decoded.Ok? && !d.Authorized? ==> d == Rejected(ApiErrors.UserError(UserNotFound))
  {
    match decoded
    case Ok(claims) =>
      (match FindByEmail(users, claims.email, lookup)
       case Some(user) => Authorized(user)
       case None => Rejected(ApiErrors.UserError(UserNotFound)))
    case Err(kind) =>
      if kind == ExpiredSignature then Rejected(ApiErrors.TokenError(TokenExpired))
      else Rejected(ApiErrors.TokenError(InvalidToken(token)))
  }

  /** The user is resolved by the claims' email alone: the subject id in the
      token plays no part. */
  lemma ResolvedByEmailNotSubject(token: string, claims: TokenClaimsDto, sub: i32, users: map<string, User>,
                                  lookup: QueryOutcome)
    ensures Resolve(token, Ok(claims), users, lookup) == Resolve(token, Ok(claims.(sub := sub)), users, lookup)
  {
  }

  /** The middleware's decision for a request with these headers at time
      `now`: a missing or malformed header is `MissingToken` before anything
      else is looked at; the request is authorized exactly when all three
      steps succeed; every rejection is one of the four reasons, each of which
      is a 4xx response. */
  function Decide(headers: seq<Header>, state: TokenState, codec: Codec, now: int, lookup: QueryOutcome): (d: AuthDecision)
    ensures BearerToken(headers).None? ==> d == Rejected(ApiErrors.TokenError(MissingToken))
    ensures d.Authorized? <==>
      && BearerToken(headers).Some?
      && RetrieveTokenClaims(state.tokens, codec, BearerToken(headers).value, now).Ok?
      && lookup.Answered?
      && RetrieveTokenClaims(state.tokens, codec, BearerToken(headers).value, now).value.email in state.users
    ensures d.Rejected? ==>
      || d.error == ApiErrors.TokenError(MissingToken)
      || d.error == ApiErrors.TokenError(TokenExpired)
      || (d.error.TokenError? && d.error.token.InvalidToken?)
      || d.error == ApiErrors.UserError(UserNotFound)
    ensures d.Rejected? ==> IsClientError(ApiErrors.ToResponse(d.error).status)
  {
    match BearerToken(headers)
    case None => Rejected(ApiErrors.TokenError(MissingToken))
    case Some(token) => Resolve(token, RetrieveTokenClaims(state.tokens, codec, token, now), state.users, lookup)
  }

  /** An authorized request is authorized as the user stored under the email
      its token was issued for. */
  lemma AuthorizedUserMatchesClaims(headers: seq<Header>, state: TokenState, codec: Codec, now: int, lookup: QueryOutcome)
    requires KeyedByEmail(state.users)
    requires Decide(headers, state, codec, now, lookup).Authorized?
    ensures var claims := RetrieveTokenClaims(state.tokens, codec, BearerToken(headers).value, now).value;
      Decide(headers, state, codec, now, lookup).user.email == claims.email
  {
  }

  /** A token issued to a stored user and presented before it expires lets
      the request through as that user. */
  lemma IssuedTokenAuthorizes(state: TokenState, codec: Codec, user: User, issuedAt: Instant,
                              now: int, token: TokenReadDto)
    requires Sound(codec)
    requires GenerateToken(state.tokens, codec, user, issuedAt) == Ok(token)
    requires IsTokenText(token.token)
    requires now <= token.exp + LEEWAY
    requires user.email in state.users
    ensures Decide([Header(AUTHORIZATION, "Bearer " + token.token)], state, codec, now, Answered)
            == Authorized(state.users[user.email])
  {
    var headers := [Header(AUTHORIZATION, "Bearer " + token.token)];
    assert IsHeaderText(SCHEME);
    assert SCHEME + " " == "Bearer ";
    BearerHeaderYieldsToken(SCHEME, token.token, []);
    assert [] + headers == headers;
    IssuedTokenVerifies(state.tokens, codec, user, issuedAt, now);
  }

  /** A token presented after its window and the leeway is rejected as
      expired, never as invalid. */
  lemma ExpiredTokenRejected(state: TokenState, codec: Codec, user: User, issuedAt: Instant,
                             now: int, token: TokenReadDto)
    requires Sound(codec)
    requires GenerateToken(state.tokens, codec, user, issuedAt) == Ok(token)
    requires IsTokenText(token.token)
    requires now > token.exp + LEEWAY
    ensures Decide([Header(AUTHORIZATION, "Bearer " + token.token)], state, codec, now, Answered)
            == Rejected(ApiErrors.TokenError(TokenExpired))
  {
    var headers := [Header(AUTHORIZATION, "Bearer " + token.token)];
    assert IsHeaderText(SCHEME);
    assert SCHEME + " " == "Bearer ";
    BearerHeaderYieldsToken(SCHEME, token.token, []);
    assert [] + headers == headers;
    IssuedTokenVerifies(state.tokens, codec, user, issuedAt, now);
  }

  /** The request as the downstream handler sees it: its headers and the
      `User` extension, if one was inserted. */
  datatype RequestView = RequestView(headers: seq<Header>, currentUser: Option<User>)

  /** The middleware as a continuation: on `Authorized(user)` the handler
      `next` runs on the request with the user attached and its response is
      returned unchanged; on `Rejected(e)` the result is `e`. */
  function Run(req: RequestView, state: TokenState, codec: Codec, now: int, lookup: QueryOutcome,
               next: RequestView -> HttpResponse): (r: Result<HttpResponse, ApiError>)
    ensures var d := Decide(req.headers, state, codec, now, lookup);
      && (r.Ok? <==> d.Authorized?)
      && (r.Ok? ==> r.value == next(req.(currentUser := Some(d.user))))
      && (r.Err? ==> r.error == d.error)
  {
    match Decide(req.headers, state, codec, now, lookup)
    case Authorized(user) => Ok(next(req.(currentUser := Some(user))))
    case Rejected(e) => Err(e)
  }

  /** A rejected request never reaches the handler: its outcome is the same
      whatever the handler would have done. */
  lemma HandlerRunsOnlyWhenAuthorized(req: RequestView, state: TokenState, codec: Codec, now: int,
                                      lookup: QueryOutcome, next1: RequestView -> HttpResponse,
                                      next2: RequestView -> HttpResponse)
    requires Decide(req.headers, state, codec, now, lookup).Rejected?
    ensures Run(req, state, codec, now, lookup, next1) == Run(req, state, codec, now, lookup, next2)
  {
  }

  /** An incoming request; the `User` entry of its extensions is the only
      part the middleware writes. */
  class Request {
    var headers: seq<Header>
    var currentUser: Option<User>

    constructor (headers: seq<Header>)
      ensures this.headers == headers && currentUser == None
    {
      this.headers := headers;
      currentUser := None;
    }

    function View(): RequestView
      reads this
    {
      RequestView(headers, currentUser)
    }
  }

  /** `auth`: runs the decision steps in order; on success inserts the user
      into the request and then runs `next` on it. On rejection the request is
      left as it was. */
  method Auth(req: Request, state: TokenState, codec: Codec, now: int, lookup: QueryOutcome,
              next: RequestView -> HttpResponse) returns (r: Result<HttpResponse, ApiError>)
    modifies req
    ensures req.headers == old(req.headers)
    ensures r == Run(old(req.View()), state, codec, now, lookup, next)
    ensures match Decide(req.headers, state, codec, now, lookup)
      case Authorized(user) => req.currentUser == Some(user)
      case Rejected(_) => req.currentUser == old(req.currentUser)
  {
    var headers := req.headers;
    var bearer := BearerToken(headers);
    if bearer.None? {
      return Err(ApiErrors.TokenError(MissingToken));
    }
    var token := bearer.value;
    var decoded := RetrieveTokenClaims(state.tokens, codec, token, now);
    assert Decide(headers, state, codec, now, lookup) == Resolve(token, decoded, state.users, lookup);
    match decoded {
      case Ok(claims) =>
        match FindByEmail(state.users, claims.email, lookup) {
          case Some(user) =>
            req.currentUser := Some(user);
            r := Ok(next(req.View()));
          case None =>
            r := Err(ApiErrors.UserError(UserNotFound));
        }
      case Err(kind) =>
        if kind == ExpiredSignature {
          r := Err(ApiErrors.TokenError(TokenExpired));
        } else {
          r := Err(ApiErrors.TokenError(InvalidToken(token)));
        }
    }
  }
}
