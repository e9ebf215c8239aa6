/** `UserError` of src/errors/user.rs: failures of login, registration and
    identity resolution. */
module UserErrors {
  import opened Wrappers
  import opened Http
  import opened ApiResponse

  datatype UserError = UserNotFound | UserAlreadyExists | InvalidPassword

  function Message(e: UserError): string
  {
    match e
    case UserNotFound => "User not found"
    case UserAlreadyExists => "User already exists"
    case InvalidPassword => "Invalid password"
  }

  /** `IntoResponse for UserError`: an unknown user is 404, the two client
      mistakes are 400, and the body always carries the message with the status
      as its code. */
  function ToResponse(e: UserError): (r: HttpResponse)
    ensures r.status == NOT_FOUND <==> e.UserNotFound?
    ensures r.status == BAD_REQUEST <==> (e.UserAlreadyExists? || e.InvalidPassword?)
    ensures ParseErrorJson(r.body) == Some(ApiErrorResponse(Some(Message(e)), r.status))
  {
    var status := match e
      case UserNotFound => NOT_FOUND
      case UserAlreadyExists => BAD_REQUEST
      case InvalidPassword => BAD_REQUEST;
    Send(status, Some(Message(e)))
  }

  /** The three messages, which are distinct, so a client can tell the two
      400s apart by the message alone. */
  lemma MessagesDistinguishErrors(e1: UserError, e2: UserError)
    ensures Message(UserNotFound) == "User not found"
    ensures Message(UserAlreadyExists) == "User already exists"
    ensures Message(InvalidPassword) == "Invalid password"
    ensures Message(e1) == Message(e2) <==> e1 == e2
  {
  }
}
