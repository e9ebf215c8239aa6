/** The slice of HTTP the error envelope needs: the status codes of section 15
    of RFC 9110 as the `http` crate accepts them, a JSON value as serde emits it,
    and a response as a status line plus a JSON body. */
module Http {
  import opened Wrappers

  /** Rust's `u16`. */
  type u16 = n: int | 0 <= n < 0x1_0000

  /** An `http::StatusCode`: the crate accepts exactly the three-digit codes. */
  type StatusCode = n: int | 100 <= n <= 999 witness 500

  const OK: StatusCode := 200
  const BAD_REQUEST: StatusCode := 400
  const UNAUTHORIZED: StatusCode := 401
  const FORBIDDEN: StatusCode := 403
  const NOT_FOUND: StatusCode := 404
  const CONFLICT: StatusCode := 409
  const UNPROCESSABLE_ENTITY: StatusCode := 422
  const INTERNAL_SERVER_ERROR: StatusCode := 500

  /** The 4xx class of section 15.5 of RFC 9110. */
  predicate IsClientError(code: int)
  {
    400 <= code <= 499
  }

  /** The 5xx class of section 15.6 of RFC 9110. */
  predicate IsServerError(code: int)
  {
    500 <= code <= 599
  }

  /** `StatusCode::from_u16`: a code outside 100..=999 is an `InvalidStatusCode`. */
  function FromU16(n: u16): (r: Option<StatusCode>)
    ensures r.Some? <==> 100 <= n <= 999
    ensures r.Some? ==> r.value == n
  {
    if 100 <= n <= 999 then Some(n) else None
  }

  /** A JSON value; an object keeps its members in the order serde writes them. */
  datatype Json =
    | JNull
    | JNumber(n: int)
    | JString(s: string)
    | JObject(members: seq<(string, Json)>)

  /** The value of the first member named `key` of an object. */
  function Member(j: Json, key: string): Option<Json>
  {
    if !j.JObject? then None else Lookup(j.members, key)
  }

  function Lookup(members: seq<(string, Json)>, key: string): Option<Json>
  {
    if members == [] then None
    else if members[0].0 == key then Some(members[0].1)
    else Lookup(members[1..], key)
  }

  /** The member names of an object, in order. */
  function Keys(j: Json): seq<string>
  {
    if !j.JObject? then [] else seq(|j.members|, i requires 0 <= i < |j.members| => j.members[i].0)
  }

  /** `Option<String>` as serde writes it. */
  function OptionalString(s: Option<string>): Json
  {
    match s
    case Some(v) => JString(v)
    case None => JNull
  }

  /** A response as it leaves the server: the status line and the JSON body. */
  datatype HttpResponse = HttpResponse(status: StatusCode, body: Json)
}
