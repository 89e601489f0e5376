/**
 * `GET /api/bin-osint?bin=...` (src/app/api/bin-osint/route.ts): checks the
 * card BIN, asks the upstream BIN database, and returns its JSON when it
 * names a card scheme.
 */
module BinRoute {
  import opened Wrappers
  import opened Js
  import opened Http
  import opened Validation
  import Regex

  const BinRequired: string := "BIN is required"
  const InvalidBin: string := "Invalid BIN format. Please provide a 6 to 8-digit number."
  const NoData: string := "No data found for this BIN."

  function Endpoint(bin: string): string
  {
    "https://data.handyapi.com/bin/" + bin
  }

  /** The `try` block, for a BIN that passed the checks. */
  function Proxy(upstream: Upstream): (r: Response)
    ensures upstream.NetworkError? ==> r == Failure(500, InternalError)
    ensures Rejected(upstream) ==> PassedThrough(upstream, r, "message", InvalidResponse, ServiceFailed, InternalError)
    ensures upstream.Reply? && IsOk(upstream.status) && !Delivered(upstream) ==> r == Failure(500, InternalError)
    ensures Delivered(upstream) && !Truthy(Field(upstream.json.value, "Scheme")) ==> r == Failure(404, NoData)
    ensures r.status == 200 <==> Delivered(upstream) && Truthy(Field(upstream.json.value, "Scheme"))
    ensures r.status == 200 ==> r.body == upstream.json.value
  {
    match upstream
    case NetworkError => Failure(500, InternalError)
    case Reply(status, _, _) =>
      if !IsOk(status) then
        Caught(UpstreamError(upstream, "message", InvalidResponse, ServiceFailed), InternalError)
      else
        match ParsedJson(upstream)
        case Throw(_) => Failure(500, InternalError)
        case Normal(data) =>
          match Read(Def(data), "Scheme")
          case Throw(_) => Failure(500, InternalError)
          case Normal(scheme) =>
            if !Truthy(scheme) then Failure(404, NoData) else Response(200, data)
  }

  /** The handler: only six to eight digits reach the upstream. */
  function Get(bin: Option<string>, upstream: Upstream): (x: Exchange)
    ensures !Present(bin) ==> x == Exchange(Failure(400, BinRequired), [])
    ensures Present(bin) && !Regex.Matches(Regex.SixToEightDigits, bin.value) ==>
              x == Exchange(Failure(400, InvalidBin), [])
    ensures x.fetched != [] <==> Present(bin) && Regex.Matches(Regex.SixToEightDigits, bin.value)
    ensures x.fetched != [] ==> x == Exchange(Proxy(upstream), [Endpoint(bin.value)])
  {
    SixToEightDigitsPattern(bin.GetOr(""));
    if !Present(bin) then Exchange(Failure(400, BinRequired), [])
    else if !DigitsBetween(bin.value, 6, 8) then Exchange(Failure(400, InvalidBin), [])
    else Exchange(Proxy(upstream), [Endpoint(bin.value)])
  }
}
