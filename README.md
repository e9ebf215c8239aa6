# Authentication and request-validation core of an axum task API

This project models the decision and mapping logic of a small Rust REST
service (axum, sqlx on PostgreSQL, jsonwebtoken, bcrypt), and proves
properties of that model:

- the error taxonomy: `TokenError`, `UserError`, `DbError`, `TaskError`,
  `RequestError` and the umbrella `ApiError`. Each maps to an HTTP status and
  a `{"message", "code"}` envelope. `ApiErrorResponse::into_response` falls
  back to status 500 for a code that is not a valid status;
- the `ValidatedRequest<T>` extractor. It decodes the JSON body (400 on
  failure), then validates it (422 on failure), then hands the value on
  unchanged. The field rules of the login, registration and task DTOs are
  included;
- token issuance and reading (`generate_token`, `retrieve_token_claims`).
  The JWT codec is an abstract parameter with a stated contract;
- the auth middleware: bearer header, then claims, then user lookup by the
  claims' email, then the downstream handler with the user attached;
- registration (`create_user`, `add_user`, `verify_password`) over an
  in-memory user table held by a `UserService` class;
- the login (`auth`), `get_profile` and `register_user` handlers, and the
  `/auth` and `/profile` endpoints.

One module per source file: `ApiResponse`, `TokenErrors`, `UserErrors`,
`DbErrors`, `TaskErrors`, `ApiErrors`, `RequestErrors`, `UserDto`, `TaskDto`,
`Tokens`, `UserRepository`, `UserServices`, `AuthMiddleware` and
`UserHandlers`. Shared modules: `Wrappers` (Option and Result), `Http` (u16,
status codes, a JSON value, a response), `Entities` (the user row) and
`Validation` (what `#[derive(Validate)]` does with a struct's rules).

Collaborators that cannot be seen are function-valued parameters:

- JSON decoding is the `Decoded<T>` outcome;
- the `validator` crate's email grammar is `isEmail`;
- the `Display` of `ValidationErrors` is `render`;
- serde's encoding of `UserReadDto` is `encode`;
- `jsonwebtoken` is `Tokens.Codec`, and `Tokens.Sound` states what is
  assumed of it;
- bcrypt is `UserServices.Hasher`. `Consistent` and `BcryptShaped` state
  what is assumed of it;
- the outcome of a database query or insert is `QueryOutcome` or
  `InsertOutcome`;
- the clock is an `Instant` or a number of seconds.

## Model

| member | source | states |
|---|---|---|
| Http.FromU16 | src/response/api_response.rs:56 | `StatusCode::from_u16` accepts exactly 100..=999 and keeps the number |
| ApiResponse.SendSuccess | src/response/api_response.rs:34-36 | the payload is wrapped as `data` unchanged |
| ApiResponse.SuccessJsonShape | src/response/api_response.rs:11-14 | the success body has the single member `data`, holding the payload |
| ApiResponse.ErrorJsonRoundTrip | src/response/api_response.rs:22-27 | the error body has exactly the members `message` and `code` (no `status`), and a client reads back the envelope that was sent |
| ApiResponse.IntoResponse | src/response/api_response.rs:54-60 | the status line equals the envelope's status iff it is within 100..=999, otherwise 500; the body is the envelope |
| ApiResponse.Send | src/response/api_response.rs:45-47 | the body carries exactly the given message and code; status line as for `IntoResponse` |
| ApiResponse.FallbackKeepsBodyCode | src/response/api_response.rs:55-58 | on the 500 fallback the body still carries the original code |
| TokenErrors.ToResponse | src/errors/token.rs:36-47 | 401 iff the error is not `TokenCreationError`, 500 iff it is; the body always has the message, with the status as its code |
| TokenErrors.Messages | src/errors/token.rs:20-25 | the expired, missing-token and creation messages are exactly as declared; a creation message starts with "Token error: " |
| TokenErrors.InvalidTokenNotEchoed | src/errors/token.rs:18-19 | the invalid-token message is "Invalid token" and the response is the same whatever the token was |
| UserErrors.ToResponse | src/errors/user.rs:32-42 | 404 iff `UserNotFound`, 400 iff `UserAlreadyExists` or `InvalidPassword`; the body has the message and the status as code |
| UserErrors.MessagesDistinguishErrors | src/errors/user.rs:16-23 | the three messages are exactly as declared and pairwise distinct |
| DbErrors.ToResponse | src/errors/db.rs:26-35 | 409 iff `UniqueConstraintViolation`, 500 iff `SomethingWentWrong`; the body has the message and the status as code |
| DbErrors.WhatTheClientSees | src/errors/db.rs:15-20 | the catch-all message is the database text verbatim; a duplicate's message is the constant "Duplicate entry exists" and its text never shows |
| TaskErrors.ToResponse | src/errors/task.rs:30-40 | 404, 400 and 403, each iff its own variant; the body has the message and the status as code |
| TaskErrors.MessagesDistinguishErrors | src/errors/task.rs:16-23 | the three messages are exactly as declared and pairwise distinct |
| ApiErrors.ToResponse | src/errors/api.rs:25-33 | 5xx iff the error is a token-signing or catch-all database failure, 4xx otherwise; the body has the inner error's message |
| ApiErrors.Transparent | src/errors/api.rs:13-20 | wrapping changes neither the response nor the message of any of the three inner errors |
| Validation.Collect | src/errors/request.rs:57 | `validate()` reports no errors iff every rule holds; every failing rule is reported and nothing else |
| Validation.ReportedIffFails | src/errors/request.rs:57 | with distinct rule errors, a rule's error is reported iff that rule fails |
| RequestErrors.FromRequest | src/errors/request.rs:50-62 | succeeds iff the body decodes and validates, with the value unchanged; a decode failure is 400 "Invalid JSON: …"; a validation failure is 422 "Validation error: …"; nothing else |
| RequestErrors.RejectedBodyIsNotValidated | src/errors/request.rs:52-54 | a body that does not decode is rejected without consulting validation |
| RequestErrors.ToResponse | src/errors/request.rs:69-80 | 422 iff `ValidationError`, 400 iff `JsonParseError`, with the extractor's message texts |
| RequestErrors.ExtractorAgreesWithRequestError | src/errors/request.rs:52-59 | each extractor rejection equals the response of the matching `RequestError` |
| RequestErrors.ResponseTextVersusDisplay | src/errors/request.rs:19-23 | the 422 text is the `Display` of the error; the 400 text differs from the `Display` ("payload") |
| UserDto.ValidateLogin | src/dto/user.rs:8-18 | no errors iff the email passes and the password has 8..20 characters; each rule's error is reported iff it fails |
| UserDto.ValidateRegister | src/dto/user.rs:21-39 | as for login, plus `user_name` within 8..20 characters; each rule's error is reported iff it fails |
| UserDto.OptionalNamesUnconstrained | src/dto/user.rs:31-32 | first and last names never affect validation |
| UserDto.ReadDtoFrom | src/dto/user.rs:56-67 | every field of the read view is copied from the row |
| UserDto.ReadDtoDropsPassword | src/dto/user.rs:42-52 | the read view does not depend on the stored password |
| UserDto.DebugLogin | src/dto/user.rs:71-77 | the `Debug` output is named `UserLoginDto` and shows only `email` |
| UserDto.DebugRegister | src/dto/user.rs:80-88 | the `Debug` output is named `UserRegisterDto` and shows the names, user name and email, in that order |
| UserDto.DebugHidesPassword | src/dto/user.rs:70-89 | neither `Debug` output depends on or names the password |
| TaskDto.ValidateTask | src/dto/task.rs:10-23 | no errors iff the title has 3..100 characters and any description has at most 500; each rule's error is reported iff it fails |
| TaskDto.BothViolationsReported | src/dto/task.rs:12-22 | a short title and a long description are both reported, in declaration order |
| Tokens.IssuedClaims | src/services/token.rs:70-81 | `sub` and `email` are the user's; `iat` is the reading in seconds; `exp` is `iat` plus 30 minutes |
| Tokens.GenerateToken | src/services/token.rs:69-91 | succeeds iff signing succeeds; the DTO carries the signed token and the signed `iat`/`exp`; on failure `TokenCreationError` with the encoder's text |
| Tokens.RetrieveTokenClaims | src/services/token.rs:57-66 | decodes with the service's own signing secret: for a sound codec, a token the service signed reads back as its claims until `exp` plus the leeway, and as expired after |
| Tokens.IssuedTokenVerifies | src/services/token.rs:57-66 | an issued token read back with the same secret gives the user's claims until `exp` plus the leeway, and `ExpiredSignature` after |
| Tokens.ClaimsAsWritten | src/services/token.rs:70-81 | `sub` and `email` are the user's; with two clock readings, `iat` comes from the first and `exp` from the second plus 30 minutes |
| Tokens.GenerateTokenAsWritten | src/services/token.rs:69-91 | the lifetime is 1800 seconds plus the whole seconds between the two readings; with equal readings it is `GenerateToken` |
| Tokens.AsWrittenLifetimeDrifts | src/services/token.rs:70-74 | two readings across a second boundary give a 1801-second token |
| UserRepository.FindByEmail | src/repositories/user.rs:50-59 | a user is found iff the query is answered and the email is stored, and it is the stored row |
| UserServices.VerifyPassword | src/services/user.rs:99-101 | true iff bcrypt positively confirms the password; a verification error is false |
| UserServices.NewRow | src/services/user.rs:74-87 | the inserted row has the payload's names and email, the hash as password and `is_active` 1 |
| UserServices.Classify | src/services/user.rs:51-59 | a duplicate iff a database error with SQLSTATE 23505; the error's text is kept either way |
| UserServices.ExistingEmailRejected | src/services/user.rs:44-45 | a stored email gives `UserAlreadyExists` and leaves the table unchanged |
| UserServices.RegistrationOutcome | src/services/user.rs:43-63 | registration succeeds iff the email is free and the insert commits; then the table gains exactly the row `NewRow` builds from the payload, the hash and the database's columns, and the caller gets its read view; otherwise the table is unchanged |
| UserServices.InsertFailureClassified | src/services/user.rs:49-59 | after a pre-check miss, a stored email whose insert reaches the table is `UniqueConstraintViolation`; any refused insert, stored email or not, is classified by its own error, so a non-23505 or non-database failure is `SomethingWentWrong` with the driver's text |
| UserServices.StoredPasswordIsNotPlainText | src/services/user.rs:72 | a successfully registered row never stores the plain password |
| UserServices.UserService.constructor | src/services/user.rs:28-33 | the service works on the table the database already holds, unchanged and keyed by email |
| UserServices.UserService.AddUser | src/services/user.rs:71-92 | a refused insert returns its own error; an insert reaching the table adds the row for a free email and is refused with 23505 for a stored one; the table changes only on success |
| UserServices.UserService.CreateUser | src/services/user.rs:43-63 | result and new table are those of `CreateUserSpec`, and the table stays keyed by email |
| AuthMiddleware.AuthorizationValues | src/middleware/auth.rs:34-43 | the values of the `authorization` headers; the first is that of the first such header |
| AuthMiddleware.BearerToken | src/middleware/auth.rs:46-49 | a token is found iff the FIRST `authorization` value is header text, "Bearer" in any letter case and one space; the token is the rest with leading whitespace trimmed |
| AuthMiddleware.TrimStart | src/middleware/auth.rs:49 | `token()`'s `trim_start`: drops only spaces and tabs, and the result does not start with one |
| AuthMiddleware.TrimStartKeepsSuffix | src/middleware/auth.rs:49 | what `trim_start` keeps is a suffix of its input |
| AuthMiddleware.TokenTextIsUntrimmed | src/middleware/auth.rs:49 | a token made of `b64token` characters is header text and loses nothing to the trim |
| AuthMiddleware.BearerHeaderYieldsToken | src/middleware/auth.rs:46-49 | a well-formed `Bearer` header yields exactly its token, whatever the scheme's letter case |
| AuthMiddleware.TokenFromFirstAuthorizationHeader | src/middleware/auth.rs:34-49 | a token comes from the first `authorization` header of the request, which starts with the scheme and one space |
| AuthMiddleware.OnlyFirstAuthorizationHeaderCounts | src/middleware/auth.rs:46-47 | a `Basic` header in front of a bearer header means no token |
| AuthMiddleware.ExtraSpacesTrimmed | src/middleware/auth.rs:49 | `Bearer  <token>` (two spaces) yields `<token>` without the extra space |
| AuthMiddleware.Resolve | src/middleware/auth.rs:52-69 | `ExpiredSignature` gives `TokenExpired`, any other decode failure `InvalidToken`; authorized iff decoded and the claims' email is found; otherwise `UserNotFound` |
| AuthMiddleware.ResolvedByEmailNotSubject | src/middleware/auth.rs:55 | the subject id plays no part in resolving the user |
| AuthMiddleware.Decide | src/middleware/auth.rs:29-70 | no usable header gives `MissingToken` first; authorized iff all three steps succeed; every rejection is one of four reasons, each a 4xx |
| AuthMiddleware.AuthorizedUserMatchesClaims | src/middleware/auth.rs:55-59 | an authorized request carries the user stored under its token's email |
| AuthMiddleware.IssuedTokenAuthorizes | src/middleware/auth.rs:46-60 | a token issued to a stored user and presented in time authorizes the request as that user |
| AuthMiddleware.ExpiredTokenRejected | src/middleware/auth.rs:65-66 | an issued token presented after its window and the leeway is rejected as expired |
| AuthMiddleware.Run | src/middleware/auth.rs:57-63 | the handler runs iff authorized, on the request with the user attached, and its response is returned unchanged; otherwise the rejection is the result |
| AuthMiddleware.HandlerRunsOnlyWhenAuthorized | src/middleware/auth.rs:57-68 | a rejected request's outcome does not depend on the handler |
| AuthMiddleware.Request.constructor | src/middleware/auth.rs:31 | a request arrives with its headers and no user attached |
| AuthMiddleware.Auth | src/middleware/auth.rs:29-70 | the outcome is `Run` on the incoming request; the user is inserted into the request exactly when authorized, and the headers are untouched |
| UserHandlers.Login | src/handlers/user.rs:22-42 | unknown email gives `UserNotFound`; a password bcrypt does not confirm gives `InvalidPassword`; otherwise the `generate_token` result for the stored user, its error wrapped; success only with a confirmed password |
| UserHandlers.UnknownEmailSkipsPasswordCheck | src/handlers/user.rs:27-31 | with an unknown email the password checker is never consulted |
| UserHandlers.GetProfile | src/handlers/user.rs:62-66 | the profile is the read view of the attached user, wrapped as `data` |
| UserHandlers.RegisterUser | src/handlers/user.rs:78-84 | `create_user`'s user wrapped as `data`, or its error unchanged; the table changes as `create_user` changes it |
| UserHandlers.LoginEndpoint | src/handlers/user.rs:22-42 | `POST /auth`: an extractor rejection is the response; a login error is its own response; a token is a bare 200 body; 200 iff the payload passes and login succeeds |
| UserHandlers.LoginUnknownEmail | src/handlers/user.rs:27-31 | a valid login for an unknown email answers 404 `{"User not found", 404}` |
| UserHandlers.LoginWrongPassword | src/handlers/user.rs:34-40 | a valid login with a rejected password answers 400 `{"Invalid password", 400}` |
| UserHandlers.LoginInvalidPayload | src/handlers/user.rs:24 | a password of bad length is a 422 naming only the password rule, before any lookup |
| UserHandlers.ProfileEndpoint | src/routes/root.rs:38-42 | `/profile` answers 200 with the resolved user's read view when authorized, and the rejection's 4xx response otherwise |
| UserHandlers.ProfileWithExpiredToken | src/middleware/auth.rs:65-66 | `/profile` with an expired issued token answers 401 `{"Token has expired", 401}` |
| UserHandlers.ProfileWithoutToken | src/middleware/auth.rs:46-47 | `/profile` without an `Authorization` header answers 401 `{"Missing Bearer token", 401}` |
| UserHandlers.DuplicateRegistration | src/services/user.rs:44-58 | a taken email answers 400 "User already exists" when the pre-check sees it; when the pre-check's query failed, 409 "Duplicate entry exists" if the insert reaches the table, and the insert's own classified failure if it is refused |
| UserHandlers.DuplicateRegistrationPoolTimeout | src/services/user.rs:44-58 | a taken email whose pre-check and insert both time out answers 500 with the driver's text, not 409 |
| UserHandlers.RegisteredUserCanLogIn | src/handlers/user.rs:22-42 | after a successful registration, logging in with the same credentials returns a token whose claims name the new user |

## Left out

- JSON parsing of request bodies. The outcome of `Json::<T>::from_request`
  is an input: the decoded value or the rejection's text.
- The `validator` crate's email grammar is a parameter. So is the `Display`
  text of `ValidationErrors`, whose entries come from a `HashMap` in no fixed
  order. `Validation.Collect` lists errors in declaration order.
- String lengths are counted in characters, as `validator` counts them.
  Strings are sequences of characters, with no byte encoding.
- JWT cryptography (HMAC signing, `Validation::default()`) is not modelled.
  `Tokens.Sound` assumes that a token decodes under its own secret to its own
  claims until `exp` plus 60 seconds, and is `ExpiredSignature` afterwards.
  That 60-second leeway is the library's default, so a token is still
  accepted for up to a minute after its `exp`; the model keeps it.
- UserHandlers.Login: issues tokens through the single-reading
  `Tokens.GenerateToken`, the corrected member of the finding below. With
  the code's two clock readings a token may live 1801 seconds; the handler
  model does not return such a token. The same holds for the lemmas built on
  `GenerateToken` (`RegisteredUserCanLogIn`, `IssuedTokenAuthorizes`,
  `ExpiredTokenRejected`, `ProfileWithExpiredToken`).
- Tokens.IssuedTokenVerifies: holds only for codecs that satisfy `Sound`.
  Rejection of forged or tampered tokens is not stated, because the abstract
  codec says nothing about tokens it did not sign.
- bcrypt is `UserServices.Hasher`. Its random salt is a parameter. The
  `unwrap()` panic of `bcrypt::hash` is not modelled.
- UserServices.StoredPasswordIsNotPlainText: proved only for hashers that
  satisfy `BcryptShaped` (60-character hashes) and passwords of at most 20
  characters. It is not a one-way property.
- Timestamps and the clock. `Utc::now()` is a parameter (nanoseconds, or
  seconds for decoding). `timestamp()` rounds down to seconds. The
  `checked_add_signed(..).unwrap()` panic and the `i64` range of timestamps
  are not modelled; the integers are unbounded. Row timestamps are opaque.
- SQL and connection pooling. The table is a map from email to row. An email
  query either answers or fails, as `QueryOutcome`. `find_by_email` turns a
  failed query into "not found", so a database outage during login answers
  404 `UserNotFound`, not a 5xx. `UserRepository::find` (lookup by id) is
  never called by the core and is not part of this model.
- Concurrency. A concurrent registration of the same email shows only as the
  insert outcome `Refused(Database(Some("23505"), …))`. The unique index on
  `users.email` is `UserServices.DUPLICATE_EMAIL`; the schema that declares
  it is not part of this model.
- The `user_name` column is described as unique in src/entities/user.rs:11,
  but the table is keyed by email only. A taken `user_name` shows only as an
  insert outcome `Refused(Database(Some("23505"), …))`.
- The login success body is the bare `TokenReadDto`, not wrapped in `data`.
  The model keeps it so (`UserHandlers.TokenJson`).
- The response text of a JSON parse failure is "Invalid JSON: …". The
  `Display` of `RequestError::JsonParseError` says "Invalid JSON payload: …".
  Both are modelled as written.
- `DbError::SomethingWentWrong` forwards the database driver's text to the
  client verbatim. The model keeps this.
- Without the middleware, axum answers a missing `Extension<User>` with its
  own 500 rejection. Its text is not modelled (`UserHandlers.ProfileNext`).
- The source does not compile exactly as written. Some files import
  `crate::response::api`, but the module file is `response/api_response.rs`.
  `User.is_active` is `i32` while `UserReadDto.is_active` is `i8`. The row's
  `NaiveDateTime` is copied into `DateTime<Utc>` fields. The model treats
  these as the evident intent: one envelope module, `is_active` an integer,
  timestamps opaque values copied as they are.
- `Authorization` header values are treated as character strings. Bytes
  outside visible ASCII make `to_str` fail, which is modelled as "no token".
  Only the first `authorization` header is read, as the `headers` crate does.
  `Bearer::token()` is modelled as the `headers` crate's releases define it,
  with `trim_start` after the scheme; the crate's version is not pinned in
  the repository files modelled here, and a release without the trim would
  keep leading spaces in the token.
- AuthMiddleware.IssuedTokenAuthorizes: assumes the issued token is made of
  `b64token` characters, as a JWT in compact serialisation is; the abstract
  encoder does not promise it.
- The task entity and `TaskReadDto` have no behaviour and are not modelled.
  Task errors and the task DTO's validation rules are.
- Server start-up, settings, tracing, `/health` and router wiring. The
  `/auth` and `/profile` endpoints are composed as the router composes them
  (`UserHandlers.LoginEndpoint`, `UserHandlers.ProfileEndpoint`).

## Findings

| source | as written | input that shows it | evidently intended | confidence | as-written member | corrected member |
|---|---|---|---|---|---|---|
| src/services/token.rs:70-74 | `iat` and `exp` come from two separate `Utc::now()` readings | readings 999.999999999 s and 1000.000000000 s after the epoch give `iat` 999 and `exp` 2800, a 1801-second token | one reading, so that `exp` is exactly `iat` plus 1800 seconds | medium; not executed | Tokens.AsWrittenLifetimeDrifts | Tokens.GenerateToken |
