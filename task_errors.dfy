/** `TaskError` of src/errors/task.rs: failures of task operations. */
module TaskErrors {
  import opened Wrappers
  import opened Http
  import opened ApiResponse

  datatype TaskError = TaskNotFound | TaskAlreadyExists | ForbiddenTaskAccess

  function Message(e: TaskError): string
  {
    match e
    case TaskNotFound => "Task not found"
    case TaskAlreadyExists => "Task already exists"
    case ForbiddenTaskAccess => "Access to this task is forbidden"
  }

  /** `IntoResponse for TaskError`: 404, 400 and 403, one per error, and the body
      always carries the message with the status as its code. */
  function ToResponse(e: TaskError): (r: HttpResponse)
    ensures r.status == NOT_FOUND <==> e.TaskNotFound?
    ensures r.status == BAD_REQUEST <==> e.TaskAlreadyExists?
    ensures r.status == FORBIDDEN <==> e.ForbiddenTaskAccess?
    ensures ParseErrorJson(r.body) == Some(ApiErrorResponse(Some(Message(e)), r.status))
  {
    var status := match e
      case TaskNotFound => NOT_FOUND
      case TaskAlreadyExists => BAD_REQUEST
      case ForbiddenTaskAccess => FORBIDDEN;
    Send(status, Some(Message(e)))
  }

  /** The three messages; each task error has its own. */
  lemma MessagesDistinguishErrors(e1: TaskError, e2: TaskError)
    ensures Message(TaskNotFound) == "Task not found"
    ensures Message(TaskAlreadyExists) == "Task already exists"
    ensures Message(ForbiddenTaskAccess) == "Access to this task is forbidden"
    ensures Message(e1) == Message(e2) <==> e1 == e2
  {
  }
}
