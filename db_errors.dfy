/** `DbError` of src/errors/db.rs: failures reported by the database. */
module DbErrors {
  import opened Wrappers
  import opened Http
  import opened ApiResponse

  datatype DbError = SomethingWentWrong(text: string) | UniqueConstraintViolation(text: string)

  /** `Display`: the catch-all forwards its text; a duplicate hides it. */
  function Message(e: DbError): string
  {
    match e
    case SomethingWentWrong(text) => text
    case UniqueConstraintViolation(_) => "Duplicate entry exists"
  }

  /** `IntoResponse for DbError`: a duplicate is 409, anything else 500, and the
      body always carries the message with the status as its code. */
  function ToResponse(e: DbError): (r: HttpResponse)
    ensures r.status == CONFLICT <==> e.UniqueConstraintViolation?
    ensures r.status == INTERNAL_SERVER_ERROR <==> e.SomethingWentWrong?
    ensures ParseErrorJson(r.body) == Some(ApiErrorResponse(Some(Message(e)), r.status))
  {
    var status := match e
      case SomethingWentWrong(_) => INTERNAL_SERVER_ERROR
      case UniqueConstraintViolation(_) => CONFLICT;
    Send(status, Some(Message(e)))
  }

  /** The catch-all text reaches the client verbatim, while the text of a
      duplicate never does. */
  lemma WhatTheClientSees(text: string, other: string)
    ensures Message(SomethingWentWrong(text)) == text
    ensures ToResponse(UniqueConstraintViolation(text)) == ToResponse(UniqueConstraintViolation(other))
    ensures Message(UniqueConstraintViolation(text)) == "Duplicate entry exists"
  {
  }
}
