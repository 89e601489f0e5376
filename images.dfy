/**
 * The `imageToDataUri` helper that three routes carry a copy of, and the
 * rewrite they apply with it: a field holding an image URL is replaced by
 * a `data:` URI of the image when the image can be fetched.
 */
module Images {
  import opened Wrappers
  import opened Js
  import Utf8
  import Base64

  /** What fetching an image URL gives: a non-2xx reply, a thrown error, or the body with its MIME type. */
  datatype ImageFetch = NotOk | Failed | Blob(mime: string, bytes: seq<Utf8.Byte>)

  function DataUriPrefix(mime: string): string
  {
    "data:" + mime + ";base64,"
  }

  /** `imageToDataUri`: `data:<type>;base64,<payload>`, or `undefined` when the fetch fails. */
  function DataUri(f: ImageFetch): (r: Option<string>)
    ensures r.Some? <==> f.Blob?
    ensures r.Some? ==> |r.value| == |DataUriPrefix(f.mime)| + 4 * ((|f.bytes| + 2) / 3)
    ensures r.Some? ==> r.value[..|DataUriPrefix(f.mime)|] == DataUriPrefix(f.mime)
  {
    match f
    case Blob(mime, bytes) => Some(DataUriPrefix(mime) + Base64.Encode(bytes))
    case _ => None
  }

  /** The payload of a data URI decodes back to the image's bytes. */
  lemma DataUriPayload(f: ImageFetch)
    requires f.Blob?
    ensures Base64.Decode(DataUri(f).value[|DataUriPrefix(f.mime)|..]) == Some(f.bytes)
  {
    var p := DataUriPrefix(f.mime);
    assert DataUri(f).value[|p|..] == Base64.Encode(f.bytes);
    Base64.DecodeEncode(f.bytes);
  }

  /**
   * `if (holder[key]) { const uri = await imageToDataUri(holder[key]); if (uri) holder[key] = uri; }`.
   * `fetch` converts the value it is given to a string, and a conversion
   * that throws rejects the fetch, which the helper turns into `undefined`.
   * Returns the holder afterwards and the URLs requested.
   */
  function Rewrite(holder: Json, key: string, image: string -> ImageFetch): (r: (Json, seq<string>))
    requires key != "length"
    ensures !Truthy(Field(holder, key)) ==> r == (holder, [])
    ensures Truthy(Field(holder, key)) ==>
              var url := ToText(Field(holder, key).json);
              && r.1 == (if url.Normal? then [url.value] else [])
              && r.0 == if url.Normal? && image(url.value).Blob?
                        then Obj(holder.fields[key := Str(DataUri(image(url.value)).value)])
                        else holder
  {
    match Field(holder, key)
    case Undefined => (holder, [])
    case Def(v) =>
      if !Truthy(Def(v)) then (holder, [])
      else
        match ToText(v)
        case Throw(_) => (holder, [])
        case Normal(url) =>
          match DataUri(image(url))
          case None => (holder, [url])
          case Some(uri) => (Obj(holder.fields[key := Str(uri)]), [url])
  }

  /** The rewrite requests at most one URL, and changes nothing but `key`. */
  lemma RewriteOnlyTouchesKey(holder: Json, key: string, image: string -> ImageFetch)
    requires key != "length"
    ensures |Rewrite(holder, key, image).1| <= 1
    ensures holder.Obj? <==> Rewrite(holder, key, image).0.Obj?
    ensures !holder.Obj? ==> Rewrite(holder, key, image).0 == holder
    ensures holder.Obj? ==>
              var after := Rewrite(holder, key, image).0;
              && after.fields.Keys == holder.fields.Keys
              && forall k | k in holder.fields && k != key :: after.fields[k] == holder.fields[k]
  {
  }

  /** A failed image fetch leaves the holder as it was. */
  lemma FailedFetchKeepsUrl(holder: Json, key: string, image: string -> ImageFetch)
    requires key != "length"
    requires forall url :: !image(url).Blob?
    ensures Rewrite(holder, key, image).0 == holder
  {
  }
}
