/**
 * What a route handler sees of HTTP: the reply of its one upstream
 * request, and the response it builds with `new Response(JSON.stringify(body), { status })`.
 */
module Http {
  import opened Wrappers
  import opened Js

  /** A status a `fetch` reply carries: informational statuses never reach the caller. */
  type UpstreamStatus = s: int | 200 <= s <= 999 witness 200

  /** `response.ok`. */
  predicate IsOk(status: int) { 200 <= status <= 299 }

  /**
   * The upstream request's outcome: it rejects (network failure, bad URL),
   * or it replies with a status, a body as text, and that body parsed as
   * JSON when it parses. A route reads the body once, as text or as JSON.
   */
  datatype Upstream =
    | NetworkError
    | Reply(status: UpstreamStatus, text: string, json: Option<Json>)

  /** A route's response: its status and JSON body. */
  datatype Response = Response(status: int, body: Json)

  /** What a route does: the response it returns and the URLs it requested, in order. */
  datatype Exchange = Exchange(response: Response, fetched: seq<string>)

  /** `{ error: message }` */
  function ErrorBody(message: Json): Json
  {
    Obj(map["error" := message])
  }

  /** The response for an error message. */
  function Failure(status: int, message: string): Response
  {
    Response(status, ErrorBody(Str(message)))
  }

  /**
   * Whether the Fetch standard's `Response` constructor accepts a status
   * together with a body: it must lie in 200..599 (else RangeError) and not
   * be a null-body status, 204, 205 or 304 (else TypeError).
   */
  predicate Constructible(status: int)
  {
    200 <= status <= 599 && status != 204 && status != 205 && status != 304
  }

  /** `new Response(JSON.stringify(body), { status })`. */
  function NewResponse(status: int, body: Json): (r: Completion<Response>)
    ensures r.Normal? <==> Constructible(status)
    ensures r.Normal? ==> r.value == Response(status, body)
  {
    if Constructible(status) then Normal(Response(status, body))
    else Throw("Response constructor: Invalid response status code " + NumberText(status))
  }

  /** A route's `try { ... } catch { return 500 }`. */
  function Caught(c: Completion<Response>, message: string): (r: Response)
    ensures c.Normal? ==> r == c.value
    ensures c.Throw? ==> r == Failure(500, message)
  {
    match c
    case Normal(response) => response
    case Throw(_) => Failure(500, message)
  }

  /** `await apiResponse.json()`: throws when the body is not JSON. */
  function ParsedJson(u: Upstream): Completion<Json>
    requires u.Reply?
  {
    match u.json
    case Some(v) => Normal(v)
    case None => Throw("Unexpected token in JSON")
  }

  /** `await apiResponse.json().catch(() => fallback)`. */
  function JsonOr(u: Upstream, fallback: Json): Json
    requires u.Reply?
  {
    u.json.GetOr(fallback)
  }

  /** The failure messages the routes share. */
  const InternalError: string := "An internal server error occurred."
  const ServiceFailed: string := "The external service failed to process the request."
  const InvalidResponse: string := "The external service returned an invalid response."

  /**
   * The non-2xx branch of the JSON-reading routes:
   * `errorData = await apiResponse.json().catch(() => ({ [key]: invalid }))`,
   * then a response with the upstream status and `{ error: errorData[key] || fallback }`.
   * It throws when the body is the JSON `null` (reading a property of null)
   * and when the upstream status cannot be given to a `Response`.
   */
  function UpstreamError(u: Upstream, key: string, invalid: string, fallback: string): (r: Completion<Response>)
    requires u.Reply? && key != "length" && invalid != ""
    ensures !Constructible(u.status) ==> r.Throw?
    ensures u.json == Some(Null) ==> r.Throw?
    ensures Constructible(u.status) && u.json.None? ==> r == Normal(Failure(u.status, invalid))
    ensures Constructible(u.status) && u.json.Some? && !u.json.value.Null? ==>
              r == Normal(Response(u.status, ErrorBody(Or(Field(u.json.value, key), Str(fallback)))))
  {
    var errorData := JsonOr(u, Obj(map[key := Str(invalid)]));
    match Read(Def(errorData), key)
    case Throw(m) => Throw(m)
    case Normal(v) => NewResponse(u.status, ErrorBody(Or(v, Str(fallback))))
  }

  /** The upstream replied with a non-2xx status. */
  predicate Rejected(u: Upstream)
  {
    u.Reply? && !IsOk(u.status)
  }

  /** The upstream replied 2xx with a JSON body other than `null`. */
  predicate Delivered(u: Upstream)
  {
    u.Reply? && IsOk(u.status) && u.json.Some? && !u.json.value.Null?
  }

  /**
   * The outcome the routes promise for a non-2xx reply: the upstream status
   * with `{ error: errorData[key] || fallback }`, where an unreadable body
   * stands for `{ [key]: invalid }`; a 500 with the internal message when the
   * body is `null` or the status cannot be given to a `Response`.
   */
  predicate PassedThrough(u: Upstream, r: Response, key: string, invalid: string, fallback: string, internal: string)
    requires u.Reply?
  {
    if !Constructible(u.status) || u.json == Some(Null) then r == Failure(500, internal)
    else if u.json.None? then r == Failure(u.status, invalid)
    else r == Response(u.status, ErrorBody(Or(Field(u.json.value, key), Str(fallback))))
  }
}
