/**
 * `GET /api/insta-posts?username=...` (src/app/api/insta-posts/route.ts):
 * asks the upstream posts service and inlines every post's
 * `thumbnail_url` as a data URI, leaving `image_url` as a link.
 */
module InstaPostsRoute {
  import opened Wrappers
  import opened Js
  import opened Http
  import opened Validation
  import opened Images

  const UsernameRequired: string := "Instagram username is required"
  const PostsInvalid: string := "The external posts service returned an invalid response."
  const PostsFailed: string := "The external posts service failed."
  const PostsInternalError: string := "An internal server error occurred while fetching posts."

  function Endpoint(username: string): string
  {
    "https://anmolinstainfo.worldgreeker.workers.dev/posts?username=" + username
  }

  /** Reading `thumbnail_url` of a `null` post throws. */
  predicate Throws(post: Json) { post.Null? }

  /** One post after its callback: any post but `null` goes through the rewrite. */
  function Processed(post: Json, image: string -> ImageFetch): (r: (Json, seq<string>))
  {
    if post.Null? then (post, []) else Rewrite(post, "thumbnail_url", image)
  }

  /** The URLs the callbacks request, in the order of the posts. */
  function Requested(posts: seq<Json>, image: string -> ImageFetch): seq<string>
  {
    if posts == [] then [] else Requested(posts[..|posts| - 1], image) + Processed(posts[|posts| - 1], image).1
  }

  /**
   * `await Promise.all(data.posts.map(async post => ...))`, one post at a
   * time: every callback runs (each starts its fetch before any
   * completes), so all requests are made even when one post throws.
   */
  method ProcessPosts(posts: seq<Json>, image: string -> ImageFetch) returns (out: seq<Json>, fetched: seq<string>, threw: bool)
    ensures threw <==> exists i | 0 <= i < |posts| :: Throws(posts[i])
    ensures |out| == |posts|
    ensures forall i | 0 <= i < |posts| :: out[i] == Processed(posts[i], image).0
    ensures fetched == Requested(posts, image)
  {
    out, fetched, threw := [], [], false;
    var i := 0;
    while i < |posts|
      invariant 0 <= i <= |posts|
      invariant threw <==> exists j | 0 <= j < i :: Throws(posts[j])
      invariant |out| == i
      invariant forall j | 0 <= j < i :: out[j] == Processed(posts[j], image).0
      invariant fetched == Requested(posts[..i], image)
    {
      var post := posts[i];
      Step(posts, i, image, out, threw);
      if Throws(post) {
        threw := true;
      }
      var processed := Processed(post, image);
      out := out + [processed.0];
      fetched := fetched + processed.1;
      i := i + 1;
    }
    assert posts[..i] == posts;
  }

  /** What one more callback adds to the results of the earlier ones. */
  lemma Step(posts: seq<Json>, i: nat, image: string -> ImageFetch, out: seq<Json>, threw: bool)
    requires i < |posts| && |out| == i
    requires forall j | 0 <= j < i :: out[j] == Processed(posts[j], image).0
    requires threw <==> exists j | 0 <= j < i :: Throws(posts[j])
    ensures Requested(posts[..i + 1], image) == Requested(posts[..i], image) + Processed(posts[i], image).1
    ensures forall j | 0 <= j < i + 1 :: (out + [Processed(posts[i], image).0])[j] == Processed(posts[j], image).0
    ensures (threw || Throws(posts[i])) <==> exists j | 0 <= j < i + 1 :: Throws(posts[j])
  {
    assert posts[..i + 1][..i] == posts[..i];
    if Throws(posts[i]) {
      assert exists j | 0 <= j < i + 1 :: Throws(posts[j]);
    }
  }

  /** Each post changes at most in `thumbnail_url`, whatever the other posts are. */
  lemma PostOnlyThumbnailChanges(post: Json, image: string -> ImageFetch)
    requires !Throws(post)
    ensures var after := Processed(post, image).0;
            && (post.Obj? <==> after.Obj?)
            && (!post.Obj? ==> after == post)
            && (post.Obj? ==>
                  && after.fields.Keys == post.fields.Keys
                  && forall k | k in post.fields && k != "thumbnail_url" :: after.fields[k] == post.fields[k])
  {
    RewriteOnlyTouchesKey(post, "thumbnail_url", image);
  }

  /** The handler. */
  method Get(username: Option<string>, upstream: Upstream, image: string -> ImageFetch) returns (x: Exchange)
    ensures !Present(username) ==> x == Exchange(Failure(400, UsernameRequired), [])
    ensures Present(username) ==> |x.fetched| >= 1 && x.fetched[0] == Endpoint(username.value)
    ensures Present(username) && upstream.NetworkError? ==> x.response == Failure(500, PostsInternalError)
    ensures Present(username) && Rejected(upstream) ==>
              && x.fetched == [Endpoint(username.value)]
              && x.response == RejectedResponse(upstream)
    ensures Present(username) && upstream.Reply? && IsOk(upstream.status) && !Delivered(upstream) ==>
              x == Exchange(Failure(500, PostsInternalError), [Endpoint(username.value)])
    ensures Present(username) && Delivered(upstream) && !HasPosts(upstream.json.value) ==>
              x == Exchange(Response(200, upstream.json.value), [Endpoint(username.value)])
    ensures Present(username) && Delivered(upstream) && HasPosts(upstream.json.value) ==>
              var data := upstream.json.value;
              var posts := data.fields["posts"].items;
              && x.fetched == [Endpoint(username.value)] + Requested(posts, image)
              && ((exists i | 0 <= i < |posts| :: Throws(posts[i])) ==> x.response == Failure(500, PostsInternalError))
              && ((forall i | 0 <= i < |posts| :: !Throws(posts[i])) ==>
                    && x.response.status == 200
                    && x.response.body.Obj? && x.response.body.fields.Keys == data.fields.Keys
                    && (forall k | k in data.fields && k != "posts" :: x.response.body.fields[k] == data.fields[k])
                    && x.response.body.fields["posts"].Arr?
                    && |x.response.body.fields["posts"].items| == |posts|
                    && forall i | 0 <= i < |posts| :: x.response.body.fields["posts"].items[i] == Processed(posts[i], image).0)
  {
    if !Present(username) {
      return Exchange(Failure(400, UsernameRequired), []);
    }
    var url := Endpoint(username.value);
    match upstream
    case NetworkError =>
      x := Exchange(Failure(500, PostsInternalError), [url]);
    case Reply(status, _, json) =>
      if !IsOk(status) {
        x := Exchange(RejectedResponse(upstream), [url]);
      } else {
        match json
        case None =>
          x := Exchange(Failure(500, PostsInternalError), [url]);
        case Some(data) =>
          if data.Null? {
            x := Exchange(Failure(500, PostsInternalError), [url]);
          } else if !HasPosts(data) {
            x := Exchange(Response(200, data), [url]);
          } else {
            var out, fetched, threw := ProcessPosts(data.fields["posts"].items, image);
            if threw {
              x := Exchange(Failure(500, PostsInternalError), [url] + fetched);
            } else {
              x := Exchange(Response(200, Obj(data.fields["posts" := Arr(out)])), [url] + fetched);
            }
          }
      }
  }

  /** `data.posts && Array.isArray(data.posts)`. */
  predicate HasPosts(data: Json)
  {
    data.Obj? && "posts" in data.fields && data.fields["posts"].Arr?
  }

  /**
   * The non-2xx branch: the upstream status with
   * `{ error: errorData.message || errorData.error || 'The external posts service failed.' }`.
   */
  function RejectedResponse(upstream: Upstream): (r: Response)
    requires Rejected(upstream)
    ensures !Constructible(upstream.status) || upstream.json == Some(Null) ==> r == Failure(500, PostsInternalError)
    ensures Constructible(upstream.status) && upstream.json.None? ==> r == Failure(upstream.status, PostsInvalid)
    ensures Constructible(upstream.status) && upstream.json.Some? && !upstream.json.value.Null? ==>
              var data := upstream.json.value;
              r.status == upstream.status
              && r.body == ErrorBody(
                   if Truthy(Field(data, "message")) then Field(data, "message").json
                   else if Truthy(Field(data, "error")) then Field(data, "error").json
                   else Str(PostsFailed))
  {
    var errorData := JsonOr(upstream, Obj(map["error" := Str(PostsInvalid)]));
    match Read(Def(errorData), "message")
    case Throw(_) => Failure(500, PostsInternalError)
    case Normal(message) =>
      var error := Or(message, Or(Field(errorData, "error"), Str(PostsFailed)));
      Caught(NewResponse(upstream.status, ErrorBody(error)), PostsInternalError)
  }
}
