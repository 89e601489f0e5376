/**
 * `GET /api/aadhaar-osint?aadhaar=...` (src/app/api/aadhaar-osint/route.ts):
 * checks the twelve-digit number, asks the upstream family-details
 * service, and treats a body-level `message` as a not-found error.
 */
module AadhaarRoute {
  import opened Wrappers
  import opened Js
  import opened Http
  import opened Validation
  import Regex

  const AadhaarRequired: string := "Aadhaar number is required"
  const InvalidAadhaar: string := "Invalid Aadhaar number format. Please provide a 12-digit number."

  function Endpoint(aadhaar: string): string
  {
    "https://addartofamily.vercel.app/fetch?aadhaar=" + aadhaar + "&key=fxt"
  }

  /** The `try` block, for a number that passed the checks. */
  function Proxy(upstream: Upstream): (r: Response)
    ensures upstream.NetworkError? ==> r == Failure(500, InternalError)
    ensures Rejected(upstream) ==> PassedThrough(upstream, r, "message", InvalidResponse, ServiceFailed, InternalError)
    ensures upstream.Reply? && IsOk(upstream.status) && !Delivered(upstream) ==> r == Failure(500, InternalError)
    ensures Delivered(upstream) && Truthy(Field(upstream.json.value, "message")) ==>
              r == Response(404, ErrorBody(Field(upstream.json.value, "message").json))
    ensures r.status == 200 <==> Delivered(upstream) && !Truthy(Field(upstream.json.value, "message"))
    ensures r.status == 200 ==> r.body == upstream.json.value
  {
    match upstream
    case NetworkError => Failure(500, InternalError)
    case Reply(status, _, _) =>
      if !IsOk(status) then
        Caught(UpstreamError(upstream, "message", InvalidResponse, ServiceFailed), InternalError)
      else
        match ParsedJson(upstream)
        case Throw(_) => Failure(500, InternalError)
        case Normal(data) =>
          match Read(Def(data), "message")
          case Throw(_) => Failure(500, InternalError)
          case Normal(message) =>
            if Truthy(message) then Response(404, ErrorBody(message.json)) else Response(200, data)
  }

  /** The handler: only twelve digits reach the upstream. */
  function Get(aadhaar: Option<string>, upstream: Upstream): (x: Exchange)
    ensures !Present(aadhaar) ==> x == Exchange(Failure(400, AadhaarRequired), [])
    ensures Present(aadhaar) && !Regex.Matches(Regex.TwelveDigits, aadhaar.value) ==>
              x == Exchange(Failure(400, InvalidAadhaar), [])
    ensures x.fetched != [] <==> Present(aadhaar) && Regex.Matches(Regex.TwelveDigits, aadhaar.value)
    ensures x.fetched != [] ==> x == Exchange(Proxy(upstream), [Endpoint(aadhaar.value)])
  {
    TwelveDigitsPattern(aadhaar.GetOr(""));
    if !Present(aadhaar) then Exchange(Failure(400, AadhaarRequired), [])
    else if !DigitsBetween(aadhaar.value, 12, 12) then Exchange(Failure(400, InvalidAadhaar), [])
    else Exchange(Proxy(upstream), [Endpoint(aadhaar.value)])
  }
}
