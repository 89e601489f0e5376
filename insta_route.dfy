/**
 * `GET /api/insta-osint?username=...` (src/app/api/insta-osint/route.ts):
 * asks the upstream profile service for the username as given and inlines
 * `profile_pic` as a data URI.
 */
module InstaRoute {
  import opened Wrappers
  import opened Js
  import opened Http
  import opened Validation
  import opened Images

  const UsernameRequired: string := "Instagram username is required"

  function Endpoint(username: string): string
  {
    "https://anmolinstainfo.worldgreeker.workers.dev/user?username=" + username
  }

  /** The `try` block; the image URL it requests is in the trace. */
  function Proxy(upstream: Upstream, image: string -> ImageFetch): (x: Exchange)
    ensures upstream.NetworkError? ==> x == Exchange(Failure(500, InternalError), [])
    ensures Rejected(upstream) ==>
              x.fetched == [] && PassedThrough(upstream, x.response, "error", InvalidResponse, ServiceFailed, InternalError)
    ensures upstream.Reply? && IsOk(upstream.status) && !Delivered(upstream) ==>
              x == Exchange(Failure(500, InternalError), [])
    ensures Delivered(upstream) ==>
              var rewritten := Rewrite(upstream.json.value, "profile_pic", image);
              x == Exchange(Response(200, rewritten.0), rewritten.1)
  {
    match upstream
    case NetworkError => Exchange(Failure(500, InternalError), [])
    case Reply(status, _, _) =>
      if !IsOk(status) then
        Exchange(Caught(UpstreamError(upstream, "error", InvalidResponse, ServiceFailed), InternalError), [])
      else
        match ParsedJson(upstream)
        case Throw(_) => Exchange(Failure(500, InternalError), [])
        case Normal(data) =>
          if data.Null? then Exchange(Failure(500, InternalError), [])
          else
            var rewritten := Rewrite(data, "profile_pic", image);
            Exchange(Response(200, rewritten.0), rewritten.1)
  }

  /** A profile is returned with 200 whatever its picture fetch gives; a failed fetch keeps the URL. */
  lemma PictureNeverFails(upstream: Upstream, image: string -> ImageFetch)
    requires Delivered(upstream)
    ensures Proxy(upstream, image).response.status == 200
    ensures (forall url :: !image(url).Blob?) ==> Proxy(upstream, image).response.body == upstream.json.value
  {
    if forall url :: !image(url).Blob? {
      FailedFetchKeepsUrl(upstream.json.value, "profile_pic", image);
    }
  }

  /** The handler: any non-empty username is sent on, an '@' included. */
  function Get(username: Option<string>, upstream: Upstream, image: string -> ImageFetch): (x: Exchange)
    ensures !Present(username) ==> x == Exchange(Failure(400, UsernameRequired), [])
    ensures Present(username) ==>
              var proxied := Proxy(upstream, image);
              x == Exchange(proxied.response, [Endpoint(username.value)] + proxied.fetched)
  {
    if !Present(username) then Exchange(Failure(400, UsernameRequired), [])
    else
      var proxied := Proxy(upstream, image);
      Exchange(proxied.response, [Endpoint(username.value)] + proxied.fetched)
  }
}
