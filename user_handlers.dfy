/** src/handlers/user.rs: the login (`auth`), profile and registration
    handlers, and the three endpoints they serve once the validated-request
    extractor or the auth middleware has run in front of them. */
module UserHandlers {
  import opened Wrappers
  import opened Http
  import opened ApiResponse
  import opened Entities
  import opened Validation
  import opened RequestErrors
  import opened UserDto
  import opened Tokens
  import opened TokenErrors
  import opened UserErrors
  import opened DbErrors
  import opened ApiErrors
  import opened UserRepository
  import opened UserServices
  import opened AuthMiddleware

  /** `AuthState`: the token service, the user table behind `user_repo`, and
      the bcrypt functions behind `user_service`. */
  datatype AuthState = AuthState(tokens: TokenService, users: map<string, User>, hasher: Hasher)

  /** `auth` (login): an unknown email is `UserNotFound` and the password is
      not checked; a password bcrypt does not confirm is `InvalidPassword`;
      otherwise the result is the token issued to the stored user, or the
      token service's error. Login succeeds exactly when all three steps do. */
  function Login(state: AuthState, codec: Codec, payload: UserLoginDto, lookup: QueryOutcome, now: Instant)
    : (r: Result<TokenReadDto, ApiError>)
    ensures FindByEmail(state.users, payload.email, lookup).None? ==> r == Err(ApiErrors.UserError(UserNotFound))
    ensures var found := FindByEmail(state.users, payload.email, lookup);
      found.Some? && !VerifyPassword(state.hasher, found.value, payload.password) ==>
        r == Err(ApiErrors.UserError(InvalidPassword))
    ensures var found := FindByEmail(state.users, payload.email, lookup);
      found.Some? && VerifyPassword(state.hasher, found.value, payload.password) ==>
        var issued := GenerateToken(state.tokens, codec, found.value, now);
        && (r.Ok? <==> issued.Ok?)
        && (r.Ok? ==> r.value == issued.value)
        && (r.Err? ==> r.error == ApiErrors.TokenError(issued.error))
    ensures r.Ok? ==>
      && lookup.Answered? && payload.email in state.users
      && state.hasher.verify(payload.password, state.users[payload.email].password) == Ok(true)
  {
    var user :- FindByEmail(state.users, payload.email, lookup).OkOr(ApiErrors.UserError(UserNotFound));
    if VerifyPassword(state.hasher, user, payload.password) then
      var token :- GenerateToken(state.tokens, codec, user, now).MapErr((e: TokenError) => ApiErrors.TokenError(e));
      Ok(token)
    else
      Err(ApiErrors.UserError(InvalidPassword))
  }

  /** With an unknown email, login never consults bcrypt: any two password
      checkers give the same result. */
  lemma UnknownEmailSkipsPasswordCheck(state: AuthState, codec: Codec, payload: UserLoginDto, lookup: QueryOutcome,
                                       now: Instant, other: Hasher)
    requires FindByEmail(state.users, payload.email, lookup).None?
    ensures Login(state, codec, payload, lookup, now) == Login(state.(hasher := other), codec, payload, lookup, now)
  {
  }

  /** `get_profile`: the read view of the user the middleware attached. */
  function GetProfile(currentUser: User): (r: ApiSuccessResponse<UserReadDto>)
    ensures r.data == ReadDtoFrom(currentUser)
    ensures r.data.email == currentUser.email && r.data.id == currentUser.id
  {
    SendSuccess(ReadDtoFrom(currentUser))
  }

  /** `register_user`: `create_user`'s user wrapped as `data`, or its error
      unchanged; the table changes as `create_user` changes it. */
  method RegisterUser(service: UserService, payload: UserRegisterDto, h: Hasher, salt: string, lookup: QueryOutcome,
                      outcome: InsertOutcome) returns (r: Result<ApiSuccessResponse<UserReadDto>, ApiError>)
    requires service.Valid()
    modifies service
    ensures service.Valid()
    ensures var (created, after) := CreateUserSpec(old(service.users), payload, h, salt, lookup, outcome);
      && service.users == after
      && (r.Ok? <==> created.Ok?)
      && (r.Ok? ==> r.value.data == created.value)
      && (r.Err? ==> r.error == created.error)
  {
    var created := service.CreateUser(payload, h, salt, lookup, outcome);
    match created
    case Ok(user) => r := Ok(SendSuccess(user));
    case Err(e) => r := Err(e);
  }

  // ---- the endpoints ----

  /** `Json<TokenReadDto>` as serde writes it. */
  function TokenJson(t: TokenReadDto): Json
  {
    JObject([("token", JString(t.token)), ("iat", JNumber(t.iat)), ("exp", JNumber(t.exp))])
  }

  /** The `Validate` impl of `UserLoginDto`, as the extractor calls it. */
  function LoginRules(isEmail: string -> bool): UserLoginDto -> seq<FieldError>
  {
    (d: UserLoginDto) => ValidateLogin(d, isEmail)
  }

  /** `POST /auth`: the validated-request extractor for `UserLoginDto`, then
      `auth`. An extractor rejection is the response as it is; a token is
      returned bare with 200, not inside `data`; a login error is its own
      response. The answer is 200 exactly when the payload passes and login
      succeeds. */
  function LoginEndpoint(body: Decoded<UserLoginDto>, isEmail: string -> bool, render: seq<FieldError> -> string,
                         state: AuthState, codec: Codec, lookup: QueryOutcome, now: Instant): (resp: HttpResponse)
    ensures var v := FromRequest(body, LoginRules(isEmail), render);
      && (v.Err? ==> resp == v.error)
      && (v.Ok? && Login(state, codec, v.value, lookup, now).Ok? ==>
            resp == HttpResponse(OK, TokenJson(Login(state, codec, v.value, lookup, now).value)))
      && (v.Ok? && Login(state, codec, v.value, lookup, now).Err? ==>
            resp == ApiErrors.ToResponse(Login(state, codec, v.value, lookup, now).error))
      && (resp.status == OK <==> v.Ok? && Login(state, codec, v.value, lookup, now).Ok?)
  {
    match FromRequest(body, LoginRules(isEmail), render)
    case Err(rejection) => rejection
    case Ok(payload) =>
      match Login(state, codec, payload, lookup, now)
      case Ok(token) => HttpResponse(OK, TokenJson(token))
      case Err(e) => ApiErrors.ToResponse(e)
  }

  /** Login with a well-formed payload for an unknown email answers 404 with
      the body `{"message": "User not found", "code": 404}`. */
  lemma LoginUnknownEmail(payload: UserLoginDto, isEmail: string -> bool, render: seq<FieldError> -> string,
                          state: AuthState, codec: Codec, now: Instant)
    requires isEmail(payload.email) && LengthWithin(payload.password, 8, 20)
    requires payload.email !in state.users
    ensures var resp := LoginEndpoint(Decoded(payload), isEmail, render, state, codec, Answered, now);
      resp.status == 404 && ParseErrorJson(resp.body) == Some(ApiErrorResponse(Some("User not found"), 404))
  {
  }

  /** Login with a known email and a password bcrypt rejects answers 400 with
      the message "Invalid password". */
  lemma LoginWrongPassword(payload: UserLoginDto, isEmail: string -> bool, render: seq<FieldError> -> string,
                           state: AuthState, codec: Codec, now: Instant)
    requires isEmail(payload.email) && LengthWithin(payload.password, 8, 20)
    requires payload.email in state.users
    requires state.hasher.verify(payload.password, state.users[payload.email].password) != Ok(true)
    ensures var resp := LoginEndpoint(Decoded(payload), isEmail, render, state, codec, Answered, now);
      resp.status == 400 && ParseErrorJson(resp.body) == Some(ApiErrorResponse(Some("Invalid password"), 400))
  {
  }

  /** Login with a password that breaks its length rule never reaches the
      handler: the answer is a 422 naming the password rule in the rendered
      errors, whatever the table holds. */
  lemma LoginInvalidPayload(payload: UserLoginDto, isEmail: string -> bool, render: seq<FieldError> -> string,
                            state: AuthState, codec: Codec, lookup: QueryOutcome, now: Instant)
    requires isEmail(payload.email) && !LengthWithin(payload.password, 8, 20)
    ensures var resp := LoginEndpoint(Decoded(payload), isEmail, render, state, codec, lookup, now);
      && resp.status == 422
      && ParseErrorJson(resp.body) == Some(ApiErrorResponse(Some(VALIDATION_PREFIX + render([PASSWORD_ERROR])), 422))
  {
    var errors := ValidateLogin(payload, isEmail);
    assert forall e :: e in errors ==> e == PASSWORD_ERROR;
    assert PASSWORD_ERROR in errors;
    assert |errors| <= 2;
    assert errors == [PASSWORD_ERROR];
  }

  /** The handler that `GET /profile` runs behind the middleware. If no user
      were attached, axum's missing-extension rejection (a 500 whose text is
      not modelled) would answer. */
  function ProfileNext(encode: UserReadDto -> Json): RequestView -> HttpResponse
  {
    (view: RequestView) =>
      match view.currentUser
      case Some(user) => HttpResponse(OK, SuccessJson(GetProfile(user), encode))
      case None => HttpResponse(INTERNAL_SERVER_ERROR, JNull)
  }

  /** `GET /profile`: the auth middleware, then `get_profile`. */
  function ProfileEndpoint(headers: seq<Header>, state: TokenState, codec: Codec, now: int, lookup: QueryOutcome,
                           encode: UserReadDto -> Json): (resp: HttpResponse)
    ensures Decide(headers, state, codec, now, lookup).Authorized? ==>
      resp == HttpResponse(OK, SuccessJson(SendSuccess(ReadDtoFrom(Decide(headers, state, codec, now, lookup).user)), encode))
    ensures Decide(headers, state, codec, now, lookup).Rejected? ==>
      resp == ApiErrors.ToResponse(Decide(headers, state, codec, now, lookup).error) && IsClientError(resp.status)
  {
    match Run(RequestView(headers, None), state, codec, now, lookup, ProfileNext(encode))
    case Ok(resp) => resp
    case Err(e) => ApiErrors.ToResponse(e)
  }

  /** `GET /profile` with a token past its window answers 401 with the
      expired-token message, and the handler never runs. */
  lemma ProfileWithExpiredToken(state: TokenState, codec: Codec, user: User, issuedAt: Instant, now: int,
                                token: TokenReadDto, encode: UserReadDto -> Json)
    requires Sound(codec)
    requires GenerateToken(state.tokens, codec, user, issuedAt) == Ok(token)
    requires IsTokenText(token.token)
    requires now > token.exp + LEEWAY
    ensures var resp := ProfileEndpoint([Header(AUTHORIZATION, "Bearer " + token.token)], state, codec, now, Answered, encode);
      resp.status == 401 && ParseErrorJson(resp.body) == Some(ApiErrorResponse(Some("Token has expired"), 401))
  {
    ExpiredTokenRejected(state, codec, user, issuedAt, now, token);
  }

  /** `GET /profile` without an `Authorization` header answers 401 with the
      missing-token message. */
  lemma ProfileWithoutToken(headers: seq<Header>, state: TokenState, codec: Codec, now: int, lookup: QueryOutcome,
                            encode: UserReadDto -> Json)
    requires forall i :: 0 <= i < |headers| ==> headers[i].name != AUTHORIZATION
    ensures var resp := ProfileEndpoint(headers, state, codec, now, lookup, encode);
      resp.status == 401 && ParseErrorJson(resp.body) == Some(ApiErrorResponse(Some("Missing Bearer token"), 401))
  {
  }

  /** Registering an email that is already taken answers 400 "User already
      exists" when the pre-check sees it. When the pre-check's query failed,
      it answers 409 "Duplicate entry exists" if the insert reaches the
      table, and whatever the insert's own failure maps to if it does not. */
  lemma DuplicateRegistration(users: map<string, User>, payload: UserRegisterDto, h: Hasher, salt: string,
                              outcome: InsertOutcome, reason: string)
    requires payload.email in users
    ensures var r := CreateUserSpec(users, payload, h, salt, Answered, outcome).0;
      r.Err? && ParseErrorJson(ApiErrors.ToResponse(r.error).body) == Some(ApiErrorResponse(Some("User already exists"), 400))
    ensures outcome.Committed? ==>
      var r := CreateUserSpec(users, payload, h, salt, QueryFailed(reason), outcome).0;
      r.Err? && ParseErrorJson(ApiErrors.ToResponse(r.error).body) == Some(ApiErrorResponse(Some("Duplicate entry exists"), 409))
    ensures outcome.Refused? ==>
      CreateUserSpec(users, payload, h, salt, QueryFailed(reason), outcome).0
        == Err(ApiErrors.DbError(Classify(outcome.error)))
  {
  }

  /** A taken email whose pre-check and insert both lose the connection pool
      answers 500 with the driver's text, not 409. */
  lemma DuplicateRegistrationPoolTimeout(users: map<string, User>, payload: UserRegisterDto, h: Hasher, salt: string)
    requires payload.email in users
    ensures var r := CreateUserSpec(users, payload, h, salt, QueryFailed("pool timed out"),
                                    Refused(Other("pool timed out"))).0;
      && r.Err?
      && ApiErrors.ToResponse(r.error).status == 500
      && ParseErrorJson(ApiErrors.ToResponse(r.error).body) == Some(ApiErrorResponse(Some("pool timed out"), 500))
  {
  }

  /** Register, then log in with the same credentials: with a consistent
      bcrypt and a token encoder that succeeds, login returns a token whose
      claims, read back before expiry, name the new user. */
  lemma RegisteredUserCanLogIn(users: map<string, User>, payload: UserRegisterDto, salt: string,
                                                  lookup: QueryOutcome, outcome: InsertOutcome, tokens: TokenService,
                                                  codec: Codec, hasher: Hasher, now: Instant, later: int)
    requires KeyedByEmail(users) && Consistent(hasher) && Sound(codec)
    requires CreateUserSpec(users, payload, hasher, salt, lookup, outcome).0.Ok?
    requires var after := CreateUserSpec(users, payload, hasher, salt, lookup, outcome).1;
      GenerateToken(tokens, codec, after[payload.email], now).Ok?
    ensures var after := CreateUserSpec(users, payload, hasher, salt, lookup, outcome).1;
      var r := Login(AuthState(tokens, after, hasher), codec, UserLoginDto(payload.email, payload.password), Answered, now);
      && r.Ok?
      && (later <= r.value.exp + LEEWAY ==>
            RetrieveTokenClaims(tokens, codec, r.value.token, later)
              == Ok(TokenClaimsDto(after[payload.email].id, payload.email, r.value.iat, r.value.exp)))
  {
    RegistrationOutcome(users, payload, hasher, salt, lookup, outcome);
    var after := CreateUserSpec(users, payload, hasher, salt, lookup, outcome).1;
    var row := after[payload.email];
    assert row.password == hasher.hash(payload.password, BCRYPT_COST, salt);
    assert hasher.verify(payload.password, row.password) == Ok(true);
    IssuedTokenVerifies(tokens, codec, row, now, later);
  }
}
