/**
 * `GET /api/ifsc-osint?ifsc=...` (src/app/api/ifsc-osint/route.ts): checks
 * the bank branch code in upper case, asks the upstream IFSC directory with
 * the code as given, and returns its JSON.
 */
module IfscRoute {
  import opened Wrappers
  import opened Js
  import opened Http
  import opened Validation
  import Regex

  const IfscRequired: string := "IFSC code is required"
  const InvalidIfsc: string := "Invalid IFSC code format."
  const NoData: string := "No data found for this IFSC code."

  function Endpoint(ifsc: string): string
  {
    "https://ifsc.razorpay.com/" + ifsc
  }

  /**
   * The `try` block, for a code that passed the checks. A 404 has its own
   * message; other failures carry the body text, unread as JSON.
   */
  function Proxy(upstream: Upstream): (r: Response)
    ensures upstream.NetworkError? ==> r == Failure(500, InternalError)
    ensures upstream.Reply? && upstream.status == 404 ==> r == Failure(404, NoData)
    ensures Rejected(upstream) && upstream.status != 404 ==>
              r == if !Constructible(upstream.status) then Failure(500, InternalError)
                   else if upstream.text == "" then Failure(upstream.status, ServiceFailed)
                   else Failure(upstream.status, upstream.text)
    ensures upstream.Reply? && IsOk(upstream.status) && upstream.json.None? ==> r == Failure(500, InternalError)
    ensures r.status == 200 <==> upstream.Reply? && IsOk(upstream.status) && upstream.json.Some?
    ensures r.status == 200 ==> r.body == upstream.json.value
  {
    match upstream
    case NetworkError => Failure(500, InternalError)
    case Reply(status, text, _) =>
      if !IsOk(status) then
        if status == 404 then Failure(404, NoData)
        else
          var message := if text == "" then ServiceFailed else text;
          Caught(NewResponse(status, ErrorBody(Str(message))), InternalError)
      else
        match ParsedJson(upstream)
        case Throw(_) => Failure(500, InternalError)
        case Normal(data) => Response(200, data)
  }

  /** The handler: the check is on the upper-cased code; the request uses the code as given. */
  function Get(ifsc: Option<string>, upstream: Upstream): (x: Exchange)
    ensures !Present(ifsc) ==> x == Exchange(Failure(400, IfscRequired), [])
    ensures Present(ifsc) && !Regex.Matches(Regex.Ifsc, ToUpperCase(ifsc.value)) ==>
              x == Exchange(Failure(400, InvalidIfsc), [])
    ensures x.fetched != [] <==> Present(ifsc) && Regex.Matches(Regex.Ifsc, ToUpperCase(ifsc.value))
    ensures x.fetched != [] ==> x == Exchange(Proxy(upstream), [Endpoint(ifsc.value)])
  {
    IfscPattern(ifsc.GetOr(""));
    if !Present(ifsc) then Exchange(Failure(400, IfscRequired), [])
    else if !IsIfsc(ifsc.value) then Exchange(Failure(400, InvalidIfsc), [])
    else Exchange(Proxy(upstream), [Endpoint(ifsc.value)])
  }
}
