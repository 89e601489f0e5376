/**
 * `GET /api/truecaller-osint?number=...` (src/app/api/truecaller-osint/route.ts):
 * checks the international number, asks the upstream caller-ID proxy, and
 * inlines the profile image at `data.image` as a data URI.
 */
module TruecallerRoute {
  import opened Wrappers
  import opened Js
  import opened Http
  import opened Validation
  import opened Images
  import Regex

  const NumberRequired: string := "Phone number is required"
  const InvalidNumber: string := "Invalid phone number format."

  function Endpoint(number: string): string
  {
    "https://truecaller-api.onrender.com/search?phone=" + number
  }

  /**
   * The `try` block, for a number that passed the checks; the image URLs it
   * requests are in the trace.
   */
  function Proxy(upstream: Upstream, image: string -> ImageFetch): (x: Exchange)
    ensures upstream.NetworkError? ==> x == Exchange(Failure(500, InternalError), [])
    ensures Rejected(upstream) ==>
              x.fetched == [] && PassedThrough(upstream, x.response, "message", InvalidResponse, ServiceFailed, InternalError)
    ensures upstream.Reply? && IsOk(upstream.status) && !Delivered(upstream) ==>
              x == Exchange(Failure(500, InternalError), [])
    ensures Delivered(upstream) && !Truthy(Field(upstream.json.value, "data")) ==>
              x == Exchange(Response(200, upstream.json.value), [])
    ensures Delivered(upstream) && Truthy(Field(upstream.json.value, "data")) ==>
              var data := upstream.json.value;
              var inner := Rewrite(data.fields["data"], "image", image);
              x == Exchange(Response(200, Obj(data.fields["data" := inner.0])), inner.1)
  {
    match upstream
    case NetworkError => Exchange(Failure(500, InternalError), [])
    case Reply(status, _, _) =>
      if !IsOk(status) then
        Exchange(Caught(UpstreamError(upstream, "message", InvalidResponse, ServiceFailed), InternalError), [])
      else
        match ParsedJson(upstream)
        case Throw(_) => Exchange(Failure(500, InternalError), [])
        case Normal(data) =>
          match Read(Def(data), "data")
          case Throw(_) => Exchange(Failure(500, InternalError), [])
          case Normal(inner) =>
            if !Truthy(inner) then Exchange(Response(200, data), [])
            else
              var rewritten := Rewrite(inner.json, "image", image);
              Exchange(Response(200, Obj(data.fields["data" := rewritten.0])), rewritten.1)
  }

  /** A 2xx reply is returned with status 200 whatever the image fetch gives, and no field but `data.image` changes. */
  lemma OnlyImageChanges(upstream: Upstream, image: string -> ImageFetch)
    requires Delivered(upstream)
    ensures var x := Proxy(upstream, image);
            var data := upstream.json.value;
            && x.response.status == 200
            && (x.fetched != [] ==> Truthy(Field(data, "data")) && Truthy(Field(data.fields["data"], "image")))
            && (x.response.body != data ==>
                  && data.Obj? && x.response.body.Obj?
                  && x.response.body.fields.Keys == data.fields.Keys
                  && (forall k | k in data.fields && k != "data" :: x.response.body.fields[k] == data.fields[k])
                  && var before, after := data.fields["data"], x.response.body.fields["data"];
                     && before.Obj? && after.Obj? && after.fields.Keys == before.fields.Keys
                     && (forall k | k in before.fields && k != "image" :: after.fields[k] == before.fields[k]))
  {
    var data := upstream.json.value;
    if Truthy(Field(data, "data")) {
      RewriteOnlyTouchesKey(data.fields["data"], "image", image);
    }
  }

  /** The handler: only an optional '+' and 10 to 15 digits reach the upstream. */
  function Get(number: Option<string>, upstream: Upstream, image: string -> ImageFetch): (x: Exchange)
    ensures !Present(number) ==> x == Exchange(Failure(400, NumberRequired), [])
    ensures Present(number) && !Regex.Matches(Regex.IntlPhone, number.value) ==>
              x == Exchange(Failure(400, InvalidNumber), [])
    ensures x.fetched != [] <==> Present(number) && Regex.Matches(Regex.IntlPhone, number.value)
    ensures x.fetched != [] ==>
              var proxied := Proxy(upstream, image);
              x == Exchange(proxied.response, [Endpoint(number.value)] + proxied.fetched)
  {
    IntlPhonePattern(number.GetOr(""));
    if !Present(number) then Exchange(Failure(400, NumberRequired), [])
    else if !IsIntlPhone(number.value) then Exchange(Failure(400, InvalidNumber), [])
    else
      var proxied := Proxy(upstream, image);
      Exchange(proxied.response, [Endpoint(number.value)] + proxied.fetched)
  }
}
