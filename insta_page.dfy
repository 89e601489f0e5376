/**
 * The Instagram lookup page (src/app/insta-osint/page.tsx): a scan asks
 * the profile route and, once a profile is shown, the posts route; a
 * posts failure signalled by the reply leaves the profile in place.
 */
module InstaPage {
  import opened Wrappers
  import opened Js
  import opened Client
  import Http

  const EmptyUsername: string := "Please enter an Instagram username."
  const ProfileFallback: string := "Failed to fetch profile data."
  /** Only logged, never shown. */
  const PostsFallback: string := "Failed to fetch posts data."

  function ProfileUrl(username: string): string
  {
    "/api/insta-osint?username=" + username
  }

  function PostsUrl(username: string): string
  {
    "/api/insta-posts?username=" + username
  }

  /** The fields a scan leaves behind; `null` stands for "not set". */
  datatype Settled = Settled(error: Option<string>, result: Json, posts: Json, raw: Json, rawPosts: Json)

  /** What the posts request adds to a scan whose profile was shown. */
  function AfterProfile(profile: Json, reply: ServerReply): (s: Settled)
    requires profile != Null
    ensures s.result == profile && s.raw == profile
    ensures s.error.Some? ==> s.error.value != "" && s.posts == Null
    ensures s.posts != Null ==>
              && s.posts == s.rawPosts
              && reply.Received? && Http.IsOk(reply.status) && reply.body == Parsed(s.posts)
              && !Truthy(Field(s.posts, "error"))
    ensures reply.Received? && reply.body.Parsed? ==>
              var data := reply.body.json;
              && s.rawPosts == data
              && (s.error.Some? <==> data.Null?)
              && (data.Null? ==> s.error == Some(ReadError("null", "error")))
              && (!data.Null? ==> s.posts == if Rejection(Http.IsOk(reply.status), data, PostsFallback).None? then data else Null)
  {
    match reply
    case FetchFailed(m) => Settled(Some(Shown(m)), profile, Null, profile, Null)
    case Received(_, Malformed(m)) => Settled(Some(Shown(m)), profile, Null, profile, Null)
    case Received(status, Parsed(data)) =>
      match Rejection(Http.IsOk(status), data, PostsFallback)
      case Some(m) =>
        if data.Null? then Settled(Some(Shown(m)), profile, Null, profile, data)
        else Settled(None, profile, Null, profile, data)
      case None => Settled(None, profile, data, profile, data)
  }

  /** What a scan of the input ends with, given the replies to its requests. */
  function Outcome(input: string, server: string -> ServerReply): (s: Settled)
    ensures Username(input) == "" ==> s == Settled(Some(EmptyUsername), Null, Null, Null, Null)
    ensures s.error.Some? ==> s.error.value != ""
    ensures s.result == Null ==> s.error.Some? && s.posts == Null && s.rawPosts == Null
    ensures s.result != Null ==>
              && s.result == s.raw
              && s == AfterProfile(s.result, server(PostsUrl(Username(input))))
              && server(ProfileUrl(Username(input))).Received?
              && Http.IsOk(server(ProfileUrl(Username(input))).status)
              && server(ProfileUrl(Username(input))).body == Parsed(s.result)
              && !Truthy(Field(s.result, "error"))
    ensures Username(input) != "" && server(ProfileUrl(Username(input))).Received?
            && server(ProfileUrl(Username(input))).body.Parsed? ==>
              var status, data := server(ProfileUrl(Username(input))).status, server(ProfileUrl(Username(input))).body.json;
              && s.raw == data
              && match Rejection(Http.IsOk(status), data, ProfileFallback)
                 case Some(m) => s.error == Some(Shown(m)) && s.result == Null
                 case None => s.result == data
  {
    var username := Username(input);
    if username == "" then Settled(Some(EmptyUsername), Null, Null, Null, Null)
    else
      match server(ProfileUrl(username))
      case FetchFailed(m) => Settled(Some(Shown(m)), Null, Null, Null, Null)
      case Received(_, Malformed(m)) => Settled(Some(Shown(m)), Null, Null, Null, Null)
      case Received(status, Parsed(data)) =>
        match Rejection(Http.IsOk(status), data, ProfileFallback)
        case Some(m) => Settled(Some(Shown(m)), Null, Null, data, Null)
        case None => AfterProfile(data, server(PostsUrl(username)))
  }

  /** The page's state. */
  class Page {
    var instaInput: string
    var instaResult: Json
    var instaPostsResult: Json
    var rawInstaResult: Json
    var rawInstaPostsResult: Json
    var instaLoading: bool
    var instaError: Option<string>
    /** The state shown while each request is awaited. */
    ghost var waiting: seq<(bool, Settled)>

    constructor ()
      ensures instaInput == "" && instaResult == Null && instaPostsResult == Null
      ensures rawInstaResult == Null && rawInstaPostsResult == Null
      ensures !instaLoading && instaError == None && waiting == []
    {
      instaInput := "";
      instaResult := Null;
      instaPostsResult := Null;
      rawInstaResult := Null;
      rawInstaPostsResult := Null;
      instaLoading := false;
      instaError := None;
      waiting := [];
    }

    method SetInput(text: string)
      modifies this`instaInput
      ensures instaInput == text
    {
      instaInput := text;
    }

    /** `handleInstaScan`; returns the URLs it requested. */
    method HandleScan(server: string -> ServerReply) returns (requested: seq<string>)
      modifies this`instaResult, this`instaPostsResult, this`rawInstaResult, this`rawInstaPostsResult
      modifies this`instaLoading, this`instaError, this`waiting
      ensures Settled(instaError, instaResult, instaPostsResult, rawInstaResult, rawInstaPostsResult)
              == Outcome(instaInput, server)
      ensures !instaLoading
      ensures var username := Username(instaInput);
              requested == if username == "" then []
                           else [ProfileUrl(username)] + if instaResult == Null then [] else [PostsUrl(username)]
      ensures waiting == old(waiting)
                         + (if requested == [] then [] else [(true, Settled(None, Null, Null, Null, Null))])
                         + (if |requested| < 2 then [] else [(true, Settled(None, instaResult, Null, instaResult, Null))])
    {
      instaLoading := true;
      instaError := None;
      instaResult := Null;
      instaPostsResult := Null;
      rawInstaResult := Null;
      rawInstaPostsResult := Null;

      var username := Username(instaInput);
      if username == "" {
        instaError := Some(EmptyUsername);
        instaLoading := false;
        return [];
      }

      waiting := waiting + [(instaLoading, Settled(instaError, instaResult, instaPostsResult, rawInstaResult, rawInstaPostsResult))];
      requested := [ProfileUrl(username)];
      match server(ProfileUrl(username)) {
        case FetchFailed(m) =>
          instaError := Some(Shown(m));
        case Received(_, Malformed(m)) =>
          instaError := Some(Shown(m));
        case Received(status, Parsed(profileData)) =>
          rawInstaResult := profileData;
          match Rejection(Http.IsOk(status), profileData, ProfileFallback) {
            case Some(m) =>
              instaError := Some(Shown(m));
            case None =>
              instaResult := profileData;
              waiting := waiting + [(instaLoading, Settled(instaError, instaResult, instaPostsResult, rawInstaResult, rawInstaPostsResult))];
              requested := requested + [PostsUrl(username)];
              match server(PostsUrl(username)) {
                case FetchFailed(m) =>
                  instaError := Some(Shown(m));
                case Received(_, Malformed(m)) =>
                  instaError := Some(Shown(m));
                case Received(postsStatus, Parsed(postsData)) =>
                  rawInstaPostsResult := postsData;
                  match Rejection(Http.IsOk(postsStatus), postsData, PostsFallback) {
                    case Some(m) =>
                      // Reading `postsData.error` throws only on null; any other rejection is logged.
                      if postsData.Null? {
                        instaError := Some(Shown(m));
                      }
                    case None =>
                      instaPostsResult := postsData;
                  }
              }
          }
      }
      instaLoading := false;
    }
  }
}
