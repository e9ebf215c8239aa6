/** `TokenError` of src/errors/token.rs: failures of issuing or checking a JWT. */
module TokenErrors {
  import opened Wrappers
  import opened Http
  import opened ApiResponse

  datatype TokenError =
    | InvalidToken(token: string)
    | TokenExpired
    | MissingToken
    | TokenCreationError(reason: string)

  /** The `Display` text that `thiserror` derives from the `#[error]` attributes. */
  function Message(e: TokenError): string
  {
    match e
    case InvalidToken(_) => "Invalid token"
    case TokenExpired => "Token has expired"
    case MissingToken => "Missing Bearer token"
    case TokenCreationError(reason) => "Token error: " + reason
  }

  /** `IntoResponse for TokenError`: every failure to present a usable token is
      401, a failure to create one is 500, and the body always carries the
      message with the status as its code. */
  function ToResponse(e: TokenError): (r: HttpResponse)
    ensures r.status == UNAUTHORIZED <==> !e.TokenCreationError?
    ensures r.status == INTERNAL_SERVER_ERROR <==> e.TokenCreationError?
    ensures ParseErrorJson(r.body) == Some(ApiErrorResponse(Some(Message(e)), r.status))
  {
    var status := match e
      case InvalidToken(_) => UNAUTHORIZED
      case TokenExpired => UNAUTHORIZED
      case MissingToken => UNAUTHORIZED
      case TokenCreationError(_) => INTERNAL_SERVER_ERROR;
    Send(status, Some(Message(e)))
  }

  /** The exact texts; only a creation error passes its cause on. */
  lemma Messages(reason: string)
    ensures Message(TokenExpired) == "Token has expired"
    ensures Message(MissingToken) == "Missing Bearer token"
    ensures Message(TokenCreationError(reason)) == "Token error: " + reason
    ensures Message(TokenCreationError(reason))[..13] == "Token error: "
  {
  }

  /** The raw token carried by `InvalidToken` never reaches the client: the
      response is the same whatever token was rejected. */
  lemma InvalidTokenNotEchoed(token: string, other: string)
    ensures Message(InvalidToken(token)) == "Invalid token"
    ensures ToResponse(InvalidToken(token)) == ToResponse(InvalidToken(other))
  {
  }
}
