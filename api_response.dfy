/** The two wire envelopes of src/response/api_response.rs: `{"data": ...}` for
    success and `{"message": ..., "code": ...}` for failure. */
module ApiResponse {
  import opened Wrappers
  import opened Http

  /** `ApiSuccessResponse<T>`. */
  datatype ApiSuccessResponse<T> = ApiSuccessResponse(data: T)

  /** `ApiErrorResponse`; the Rust field `status` is serialised as `code`. */
  datatype ApiErrorResponse = ApiErrorResponse(message: Option<string>, status: u16)

  /** `ApiSuccessResponse::send`: wraps the payload as it is. */
  function SendSuccess<T>(data: T): (r: ApiSuccessResponse<T>)
    ensures r.data == data
  {
    ApiSuccessResponse(data)
  }

  /** The serde form of a success envelope, given the serde form of its payload. */
  function SuccessJson<T>(r: ApiSuccessResponse<T>, encode: T -> Json): Json
  {
    JObject([("data", encode(r.data))])
  }

  /** The serde form of an error envelope: fields in declaration order,
      `status` renamed to `code`. */
  function ErrorJson(e: ApiErrorResponse): Json
  {
    JObject([("message", OptionalString(e.message)), ("code", JNumber(e.status))])
  }

  /** How a client reads an error body back: `message` and `code` members, the
      code a `u16`. */
  function ParseErrorJson(j: Json): Option<ApiErrorResponse>
  {
    match (Member(j, "message"), Member(j, "code"))
    case (Some(JNull), Some(JNumber(c))) =>
      if 0 <= c < 0x1_0000 then Some(ApiErrorResponse(None, c)) else None
    case (Some(JString(m)), Some(JNumber(c))) =>
      if 0 <= c < 0x1_0000 then Some(ApiErrorResponse(Some(m), c)) else None
    case _ => None
  }

  /** The error body carries the message and the status under the wire names
      `message` and `code`, and nothing else; a client reads back exactly the
      envelope that was sent. */
  lemma ErrorJsonRoundTrip(e: ApiErrorResponse)
    ensures Keys(ErrorJson(e)) == ["message", "code"]
    ensures Member(ErrorJson(e), "code") == Some(JNumber(e.status))
    ensures Member(ErrorJson(e), "status") == None
    ensures ParseErrorJson(ErrorJson(e)) == Some(e)
  {
    var j := ErrorJson(e);
    assert Lookup(j.members[1..], "code") == Some(JNumber(e.status));
    assert j.members[1..][1..] == [];
    assert Lookup(j.members[1..], "status") == None;
  }

  /** The success body has the single member `data`, holding the payload as it is. */
  lemma SuccessJsonShape<T>(data: T, encode: T -> Json)
    ensures Keys(SuccessJson(SendSuccess(data), encode)) == ["data"]
    ensures Member(SuccessJson(SendSuccess(data), encode), "data") == Some(encode(data))
  {
  }

  /** `IntoResponse for ApiErrorResponse`: the status line is the envelope's
      status when that is a valid status code and 500 otherwise; the JSON body is
      the envelope itself, so on the fallback it still carries the original code. */
  function IntoResponse(e: ApiErrorResponse): (r: HttpResponse)
    ensures r.status == e.status <==> 100 <= e.status <= 999
    ensures r.status != e.status ==> r.status == INTERNAL_SERVER_ERROR
    ensures ParseErrorJson(r.body) == Some(e)
  {
    ErrorJsonRoundTrip(e);
    var line := match FromU16(e.status) case Some(s) => s case None => INTERNAL_SERVER_ERROR;
    HttpResponse(line, ErrorJson(e))
  }

  /** `ApiErrorResponse::send(status, message)`: the body carries exactly the
      given message and code. */
  function Send(status: u16, message: Option<string>): (r: HttpResponse)
    ensures ParseErrorJson(r.body) == Some(ApiErrorResponse(message, status))
    ensures 100 <= status <= 999 ==> r.status == status
    ensures !(100 <= status <= 999) ==> r.status == INTERNAL_SERVER_ERROR
  {
    IntoResponse(ApiErrorResponse(message, status))
  }

  /** On the fallback the status line and the body disagree: the line says 500,
      the body keeps the code it was given. */
  lemma FallbackKeepsBodyCode(status: u16, message: Option<string>)
    requires status < 100 || status > 999
    ensures Send(status, message).status == 500
    ensures Member(Send(status, message).body, "code") == Some(JNumber(status))
  {
    ErrorJsonRoundTrip(ApiErrorResponse(message, status));
  }
}
