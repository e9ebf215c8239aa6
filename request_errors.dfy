/** src/errors/request.rs: the `ValidatedRequest<T>` extractor, which decodes a
    JSON body and validates it before any handler sees it, and `RequestError`. */
module RequestErrors {
  import opened Wrappers
  import opened Http
  import opened ApiResponse
  import opened Validation

  /** The outcome of `Json::<T>::from_request`: the decoded value, or the
      rejection's `Display` text. JSON decoding itself is not modelled. */
  datatype Decoded<T> = Decoded(value: T) | Rejected(rejection: string)

  const JSON_PREFIX := "Invalid JSON: "
  const VALIDATION_PREFIX := "Validation error: "

  /** `ValidatedRequest::from_request`. `validate` is the payload type's
      `Validate` impl (no errors means valid) and `render` the `Display` of
      `ValidationErrors`. A body that does not decode is 400 and validation is
      not consulted; a decoded value that fails validation is 422; otherwise the
      decoded value is handed on unchanged. No other outcome is possible. */
  function FromRequest<T>(body: Decoded<T>, validate: T -> seq<FieldError>,
                          render: seq<FieldError> -> string): (r: Result<T, HttpResponse>)
    ensures r.Ok? <==> body.Decoded? && validate(body.value) == []
    ensures r.Ok? ==> r.value == body.value
    ensures body.Rejected? ==>
      r.Err? && r.error.status == BAD_REQUEST &&
      ParseErrorJson(r.error.body) == Some(ApiErrorResponse(Some(JSON_PREFIX + body.rejection), 400))
    ensures body.Decoded? && validate(body.value) != [] ==>
      r.Err? && r.error.status == UNPROCESSABLE_ENTITY &&
      ParseErrorJson(r.error.body) == Some(ApiErrorResponse(Some(VALIDATION_PREFIX + render(validate(body.value))), 422))
    ensures r.Err? ==> r.error.status == BAD_REQUEST || r.error.status == UNPROCESSABLE_ENTITY
  {
    match body
    case Rejected(rejection) => Err(Send(400, Some(JSON_PREFIX + rejection)))
    case Decoded(value) =>
      var errors := validate(value);
      if errors != [] then Err(Send(422, Some(VALIDATION_PREFIX + render(errors))))
      else Ok(value)
  }

  /** A body that does not decode is rejected without validation: any two
      validators give the same result. */
  lemma RejectedBodyIsNotValidated<T>(rejection: string, v1: T -> seq<FieldError>, v2: T -> seq<FieldError>,
                                      render: seq<FieldError> -> string)
    ensures FromRequest(Rejected(rejection), v1, render) == FromRequest(Rejected(rejection), v2, render)
  {
  }

  datatype RequestError = ValidationError(errors: seq<FieldError>) | JsonParseError(rejection: string)

  /** `Display` (thiserror): note the parse error reads "Invalid JSON payload: ". */
  function Message(e: RequestError, render: seq<FieldError> -> string): string
  {
    match e
    case ValidationError(errors) => VALIDATION_PREFIX + render(errors)
    case JsonParseError(rejection) => "Invalid JSON payload: " + rejection
  }

  /** `IntoResponse for RequestError`: validation failures are 422 and parse
      failures 400, with the same texts the extractor sends. */
  function ToResponse(e: RequestError, render: seq<FieldError> -> string): (r: HttpResponse)
    ensures r.status == UNPROCESSABLE_ENTITY <==> e.ValidationError?
    ensures r.status == BAD_REQUEST <==> e.JsonParseError?
    ensures e.ValidationError? ==>
      ParseErrorJson(r.body) == Some(ApiErrorResponse(Some(VALIDATION_PREFIX + render(e.errors)), 422))
    ensures e.JsonParseError? ==>
      ParseErrorJson(r.body) == Some(ApiErrorResponse(Some(JSON_PREFIX + e.rejection), 400))
  {
    match e
    case ValidationError(errors) => Send(422, Some(VALIDATION_PREFIX + render(errors)))
    case JsonParseError(rejection) => Send(400, Some(JSON_PREFIX + rejection))
  }

  /** The extractor's rejection is exactly the response of the matching
      `RequestError`. */
  lemma ExtractorAgreesWithRequestError<T>(body: Decoded<T>, validate: T -> seq<FieldError>,
                                           render: seq<FieldError> -> string)
    ensures body.Rejected? ==>
      FromRequest(body, validate, render) == Err(ToResponse(JsonParseError(body.rejection), render))
    ensures body.Decoded? && validate(body.value) != [] ==>
      FromRequest(body, validate, render) == Err(ToResponse(ValidationError(validate(body.value)), render))
  {
  }

  /** The response text of a validation error is its `Display`; that of a parse
      error is not (the `Display` says "payload"). */
  lemma ResponseTextVersusDisplay(errors: seq<FieldError>, rejection: string, render: seq<FieldError> -> string)
    ensures ParseErrorJson(ToResponse(ValidationError(errors), render).body).value.message
            == Some(Message(ValidationError(errors), render))
    ensures ParseErrorJson(ToResponse(JsonParseError(rejection), render).body).value.message
            != Some(Message(JsonParseError(rejection), render))
  {
    var shown := JSON_PREFIX + rejection;
    var display := "Invalid JSON payload: " + rejection;
    assert shown[12] == ':' && display[12] == ' ';
  }
}
