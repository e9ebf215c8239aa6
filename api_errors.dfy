/** `ApiError` of src/errors/api.rs: the umbrella over token, user and database
    errors that handlers and the middleware return. Task and request errors are
    not part of it. */
module ApiErrors {
  import opened Wrappers
  import opened Http
  import opened ApiResponse
  import TokenErrors
  import UserErrors
  import DbErrors

  /** Each case is the `#[from]` conversion of its inner error. */
  datatype ApiError =
    | TokenError(token: TokenErrors.TokenError)
    | UserError(user: UserErrors.UserError)
    | DbError(db: DbErrors.DbError)

  /** `#[error(transparent)]`: the inner error's text. */
  function Message(e: ApiError): string
  {
    match e
    case TokenError(inner) => TokenErrors.Message(inner)
    case UserError(inner) => UserErrors.Message(inner)
    case DbError(inner) => DbErrors.Message(inner)
  }

  /** Failures of the server's own machinery rather than of the request: a
      token that could not be signed, a database failure other than a duplicate. */
  predicate IsInfrastructureFailure(e: ApiError)
  {
    || (e.TokenError? && e.token.TokenCreationError?)
    || (e.DbError? && e.db.SomethingWentWrong?)
  }

  /** `IntoResponse for ApiError`: delegates to the inner error. Infrastructure
      failures, and only they, are 5xx; everything else is a 4xx the client can
      act on; the body carries the transparent message and the status line never
      falls back, so the code in the body equals the status line. */
  function ToResponse(e: ApiError): (r: HttpResponse)
    ensures IsServerError(r.status) <==> IsInfrastructureFailure(e)
    ensures IsClientError(r.status) <==> !IsInfrastructureFailure(e)
    ensures ParseErrorJson(r.body) == Some(ApiErrorResponse(Some(Message(e)), r.status))
  {
    match e
    case TokenError(inner) => TokenErrors.ToResponse(inner)
    case UserError(inner) => UserErrors.ToResponse(inner)
    case DbError(inner) => DbErrors.ToResponse(inner)
  }

  /** Wrapping an error changes neither its response nor its message. */
  lemma Transparent(t: TokenErrors.TokenError, u: UserErrors.UserError, d: DbErrors.DbError)
    ensures ToResponse(TokenError(t)) == TokenErrors.ToResponse(t)
    ensures ToResponse(UserError(u)) == UserErrors.ToResponse(u)
    ensures ToResponse(DbError(d)) == DbErrors.ToResponse(d)
    ensures Message(TokenError(t)) == TokenErrors.Message(t)
    ensures Message(UserError(u)) == UserErrors.Message(u)
    ensures Message(DbError(d)) == DbErrors.Message(d)
  {
  }
}
