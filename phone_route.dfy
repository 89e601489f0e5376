/**
 * `GET /api/phone-osint?number=...` (src/app/api/phone-osint/route.ts):
 * checks the number, asks the upstream lookup service, and returns its
 * JSON without the `credit` and `developer` fields.
 */
module PhoneRoute {
  import opened Wrappers
  import opened Js
  import opened Http
  import opened Validation
  import Regex

  const NumberRequired: string := "Phone number is required"
  const InvalidNumber: string := "Invalid phone number format. Please provide a 10-digit number."

  function Endpoint(number: string): string
  {
    "https://innocent-lost.vercel.app/api/nex?number=" + number
  }

  /** `delete data.credit; delete data.developer;` */
  function StripCredits(data: Json): (r: Completion<Json>)
    ensures r.Throw? <==> data.Null?
    ensures data.Obj? ==> r.Normal? && Stripped(data, r.value)
    ensures r.Normal? && !data.Obj? ==> r.value == data
  {
    match data
    case Null => Throw("Cannot convert undefined or null to object")
    case Obj(m) => Normal(Obj(m - {"credit", "developer"}))
    case _ => Normal(data)
  }

  /** `after` is the object `before` without `credit` and `developer`, and otherwise the same. */
  predicate Stripped(before: Json, after: Json)
    requires before.Obj?
  {
    && after.Obj?
    && after.fields.Keys == before.fields.Keys - {"credit", "developer"}
    && forall k | k in after.fields :: after.fields[k] == before.fields[k]
  }

  /** Stripping a stripped body changes nothing. */
  lemma StripIdempotent(data: Json)
    requires StripCredits(data).Normal?
    ensures StripCredits(StripCredits(data).value) == StripCredits(data)
  {
    if data.Obj? {
      var m := data.fields - {"credit", "developer"};
      assert m - {"credit", "developer"} == m;
    }
  }

  /** The `try` block, for a number that passed the checks. */
  function Proxy(upstream: Upstream): (r: Response)
    ensures upstream.NetworkError? ==> r == Failure(500, InternalError)
    ensures upstream.Reply? && !IsOk(upstream.status) ==>
              r == if Constructible(upstream.status) then Failure(upstream.status, ServiceFailed)
                   else Failure(500, InternalError)
    ensures upstream.Reply? && IsOk(upstream.status) && (upstream.json.None? || upstream.json == Some(Null)) ==>
              r == Failure(500, InternalError)
    ensures r.status == 200 <==>
              upstream.Reply? && IsOk(upstream.status) && upstream.json.Some? && !upstream.json.value.Null?
    ensures r.status == 200 && upstream.json.value.Obj? ==> Stripped(upstream.json.value, r.body)
    ensures r.status == 200 && !upstream.json.value.Obj? ==> r.body == upstream.json.value
  {
    match upstream
    case NetworkError => Failure(500, InternalError)
    case Reply(status, _, _) =>
      if !IsOk(status) then
        Caught(NewResponse(status, ErrorBody(Str(ServiceFailed))), InternalError)
      else
        match ParsedJson(upstream)
        case Throw(_) => Failure(500, InternalError)
        case Normal(data) =>
          match StripCredits(data)
          case Throw(_) => Failure(500, InternalError)
          case Normal(stripped) => Response(200, stripped)
  }

  /** The handler: a missing or malformed number is refused before any request. */
  function Get(number: Option<string>, upstream: Upstream): (x: Exchange)
    ensures !Present(number) ==> x == Exchange(Failure(400, NumberRequired), [])
    ensures Present(number) && !Regex.Matches(Regex.TenDigits, number.value) ==>
              x == Exchange(Failure(400, InvalidNumber), [])
    ensures x.fetched != [] <==> Present(number) && Regex.Matches(Regex.TenDigits, number.value)
    ensures x.fetched != [] ==> x == Exchange(Proxy(upstream), [Endpoint(number.value)])
  {
    TenDigitsPattern(number.GetOr(""));
    if !Present(number) then Exchange(Failure(400, NumberRequired), [])
    else if !DigitsBetween(number.value, 10, 10) then Exchange(Failure(400, InvalidNumber), [])
    else Exchange(Proxy(upstream), [Endpoint(number.value)])
  }
}
