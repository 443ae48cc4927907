/**
 * The photo-feed client: request construction, validation of the upstream
 * payload, the profanity filter and the per-photo transformation, as values.
 *
 * The two third-party heuristics are parameters and stay uninterpreted:
 * `isProfane` stands for the bad-words filter and `stripTags` for the
 * striptags package. The HTTP round trip is the parameter `transport`.
 */
module FlickrApi {
  import opened Wrappers

  /** Endpoint of the upstream REST API. */
  const ApiUrl := "https://api.flickr.com/services/rest/"

  /** Upstream method used when the caller gives tags. */
  const SearchMethod := "flickr.photos.search"

  /** Upstream method used when there are no tags (search needs a parameter). */
  const GetRecentMethod := "flickr.photos.getRecent"

  /** Message of the error raised for a failed or malformed upstream payload. */
  const RequestFailed := "Flickr request failed."

  /** A query-parameter value: a string, a number, or `undefined` (an unset API key). */
  datatype ParamValue = Str(s: string) | Num(n: int) | Undefined

  /** The query parameters of the GET request, by name. */
  type Params = map<string, ParamValue>

  /**
   * One photo object of the upstream list. `descriptionContent` is the
   * nested `description._content`; `photoURL` and `authorURL` are absent
   * upstream and attached by the transformation.
   */
  datatype Photo = Photo(
    id: string,
    owner: string,
    farm: string,
    server: string,
    secret: string,
    title: string,
    descriptionContent: string,
    photoURL: Option<string>,
    authorURL: Option<string>)

  /** The `photos` member of the payload; its `photo` list may be missing. */
  datatype PhotoPage<P> = PhotoPage(photo: Option<seq<P>>)

  /** The JSON body of the upstream response; `photos` may be missing. */
  datatype Payload<P> = Payload(stat: string, photos: Option<PhotoPage<P>>)

  /** What the HTTP layer hands back: the decoded body, or a transport failure. */
  datatype Delivery = Delivered(data: Payload<Photo>) | Failed(cause: string)

  /** The two ways `fetchPhotos` can reject. */
  datatype FetchError = TransportError(cause: string) | UpstreamFailure(message: string)

  // ---------------------------------------------------------------- URLs

  /** Image URL on the CDN, from the photo's farm, server, id and secret. */
  function PhotoURL(farm: string, server: string, id: string, secret: string): (r: string)
    ensures "https://farm" + farm + ".staticflickr.com/" + server + "/" <= r
    ensures |r| == |farm| + |server| + |id| + |secret| + 36
    ensures r[|r| - 4..] == ".jpg"
  {
    "https://farm" + farm + ".staticflickr.com/" + server + "/" + id + "_" + secret + ".jpg"
  }

  /** Profile page of the photo's owner. */
  function AuthorURL(owner: string): (r: string)
    ensures "https://www.flickr.com/people/" <= r
    ensures |r| == |owner| + 31 && r[|r| - 1] == '/'
  {
    "https://www.flickr.com/people/" + owner + "/"
  }

  // ------------------------------------------------------------- request

  /** The `tags` argument after JavaScript's default `tags = ''` is applied. */
  function EffectiveTags(tagsArg: Option<string>): (tags: string)
    ensures tagsArg.None? ==> tags == ""
    ensures tagsArg.Some? ==> tags == tagsArg.value
  {
    tagsArg.GetOr("")
  }

  /** Upstream method: search when the tags string is truthy (non-empty), else recent photos. */
  function SelectMethod(tags: string): (m: string)
    ensures m == SearchMethod <==> tags != ""
    ensures m == GetRecentMethod <==> tags == ""
  {
    if |tags| > 0 then SearchMethod else GetRecentMethod
  }

  /** The fixed parameters of every request; the API key comes from the environment and may be unset. */
  function DefaultParams(apiKey: Option<string>): (r: Params)
    ensures r.Keys == {"api_key", "safe_search", "per_page", "format", "nojsoncallback", "extras"}
    ensures "method" !in r && "tags" !in r
    ensures r["safe_search"] == Num(1) && r["per_page"] == Num(20) && r["format"] == Str("json")
    ensures r["nojsoncallback"] == Num(1) && r["extras"] == Str("owner_name,description,tags")
    ensures r["api_key"] == (if apiKey.Some? then Str(apiKey.value) else Undefined)
  {
    map[
      "api_key" := (if apiKey.Some? then Str(apiKey.value) else Undefined),
      "safe_search" := Num(1),
      "per_page" := Num(20),
      "format" := Str("json"),
      "nojsoncallback" := Num(1),
      "extras" := Str("owner_name,description,tags")
    ]
  }

  /** `{...DEFAULT_PARAMS, method, tags}`: the defaults, then the chosen method and the tags. */
  function RequestParams(tags: string, apiKey: Option<string>): (r: Params)
    ensures r.Keys == {"api_key", "safe_search", "per_page", "format", "nojsoncallback", "extras", "method", "tags"}
    ensures forall k :: k in DefaultParams(apiKey) ==> k in r && r[k] == DefaultParams(apiKey)[k]
    ensures r["safe_search"] == Num(1) && r["per_page"] == Num(20) && r["format"] == Str("json")
    ensures r["nojsoncallback"] == Num(1) && r["extras"] == Str("owner_name,description,tags")
    ensures r["api_key"] == (if apiKey.Some? then Str(apiKey.value) else Undefined)
    ensures r["method"] == Str(if tags != "" then SearchMethod else GetRecentMethod)
    ensures r["tags"] == Str(tags)
  {
    DefaultParams(apiKey) + map["method" := Str(SelectMethod(tags)), "tags" := Str(tags)]
  }

  // ---------------------------------------------------------- validation

  /**
   * The guard of the response callback: a payload whose `stat` is "fail"
   * or that has no `photos` is rejected; a missing `photos.photo` list
   * reads as the empty list.
   */
  function Validate<P>(data: Payload<P>): (r: Result<seq<P>, string>)
    ensures r.Err? <==> data.stat == "fail" || data.photos.None?
    ensures r.Err? ==> r.error == RequestFailed
    ensures r.Ok? && data.photos.value.photo.None? ==> r.value == []
    ensures r.Ok? && data.photos.value.photo.Some? ==> r.value == data.photos.value.photo.value
  {
    if data.stat == "fail" || data.photos.None? then Err(RequestFailed)
    else Ok(data.photos.value.photo.GetOr([]))
  }

  // ------------------------------------------------- filter and transform

  /** `photos.filter(item => !isProfane(item.title))`. */
  function KeepClean(photos: seq<Photo>, isProfane: string -> bool): (r: seq<Photo>)
    ensures |r| <= |photos|
  {
    if photos == [] then []
    else
      var rest := KeepClean(photos[1..], isProfane);
      if isProfane(photos[0].title) then rest else [photos[0]] + rest
  }

  /**
   * The `.map` callback on one photo: the description is tag-stripped, the
   * two links are attached, and every other modelled field stays as it was.
   */
  function Decorated(p: Photo, stripTags: string -> string): (r: Photo)
    ensures r.descriptionContent == stripTags(p.descriptionContent)
    ensures r.photoURL == Some(PhotoURL(p.farm, p.server, p.id, p.secret))
    ensures r.authorURL == Some(AuthorURL(p.owner))
    ensures r.id == p.id && r.owner == p.owner && r.title == p.title
    ensures r.farm == p.farm && r.server == p.server && r.secret == p.secret
  {
    p.(descriptionContent := stripTags(p.descriptionContent),
       photoURL := Some(PhotoURL(p.farm, p.server, p.id, p.secret)),
       authorURL := Some(AuthorURL(p.owner)),
       id := p.id)
  }

  /** The `.map` over the filtered list. */
  function DecorateAll(photos: seq<Photo>, stripTags: string -> string): (r: seq<Photo>)
    ensures |r| == |photos|
    ensures forall k :: 0 <= k < |r| ==> r[k] == Decorated(photos[k], stripTags)
  {
    seq(|photos|, k requires 0 <= k < |photos| => Decorated(photos[k], stripTags))
  }

  /** The `.then` callback: validate, filter by title, transform each survivor. */
  function OnResponse(data: Payload<Photo>, isProfane: string -> bool, stripTags: string -> string)
    : (r: Result<seq<Photo>, string>)
    ensures r.Err? <==> data.stat == "fail" || data.photos.None?
    ensures r.Err? ==> r.error == RequestFailed
    ensures data.stat != "fail" && data.photos.Some? && data.photos.value.photo.None? ==> r == Ok([])
    ensures r.Ok? ==> forall q :: q in r.value ==>
      !isProfane(q.title) && q.photoURL.Some? && q.authorURL.Some?
  {
    match Validate(data)
    case Err(e) => Err(e)
    case Ok(photos) =>
      KeepCleanMembers(photos, isProfane);
      Ok(DecorateAll(KeepClean(photos, isProfane), stripTags))
  }

  /**
   * `fetchPhotos(tags)`: build the parameters, issue one GET through
   * `transport`, and either pass a transport failure through unchanged or
   * run the response callback on the delivered payload.
   */
  function FetchPhotos(
    tagsArg: Option<string>,
    apiKey: Option<string>,
    transport: (string, Params) -> Delivery,
    isProfane: string -> bool,
    stripTags: string -> string)
    : (r: Result<seq<Photo>, FetchError>)
    ensures transport(ApiUrl, RequestParams(EffectiveTags(tagsArg), apiKey)).Failed? ==>
      r == Err(TransportError(transport(ApiUrl, RequestParams(EffectiveTags(tagsArg), apiKey)).cause))
    ensures r.Err? && r.error.UpstreamFailure? <==>
      (var d := transport(ApiUrl, RequestParams(EffectiveTags(tagsArg), apiKey));
       d.Delivered? && (d.data.stat == "fail" || d.data.photos.None?))
    ensures r.Err? && r.error.UpstreamFailure? ==> r.error.message == RequestFailed
    ensures r.Ok? ==> forall q :: q in r.value ==> !isProfane(q.title)
    ensures var d := transport(ApiUrl, RequestParams(EffectiveTags(tagsArg), apiKey));
      d.Delivered? ==> r == match OnResponse(d.data, isProfane, stripTags)
        case Ok(photos) => Ok(photos)
        case Err(message) => Err(UpstreamFailure(message))
  {
    var params := RequestParams(EffectiveTags(tagsArg), apiKey);
    match transport(ApiUrl, params)
    case Failed(cause) => Err(TransportError(cause))
    case Delivered(data) =>
      match OnResponse(data, isProfane, stripTags)
      case Err(message) => Err(UpstreamFailure(message))
      case Ok(photos) => Ok(photos)
  }

  // ------------------------------------------------------------- lemmas

  /**
   * Positions in `photos[..n]` whose titles pass the filter, in increasing
   * order: the reference description of which inputs survive and in what order.
   */
  function CleanPositions(photos: seq<Photo>, isProfane: string -> bool, n: nat): (r: seq<nat>)
    requires n <= |photos|
    ensures forall k :: 0 <= k < |r| ==> r[k] < n
    ensures forall k, l :: 0 <= k < l < |r| ==> r[k] < r[l]
    ensures forall i :: 0 <= i < n ==> (i in r <==> !isProfane(photos[i].title))
    decreases n
  {
    if n == 0 then []
    else
      var r := CleanPositions(photos, isProfane, n - 1);
      if isProfane(photos[n - 1].title) then r else r + [n - 1]
  }

  /** A photo survives the filter exactly when it is in the input and its title is clean. */
  lemma {:induction false} KeepCleanMembers(photos: seq<Photo>, isProfane: string -> bool)
    ensures forall q :: q in KeepClean(photos, isProfane) <==> q in photos && !isProfane(q.title)
  {
    if photos != [] {
      KeepCleanMembers(photos[1..], isProfane);
      assert photos == [photos[0]] + photos[1..];
    }
  }

  /** When no title is profane the filter keeps every photo, in place. */
  lemma {:induction false} KeepCleanAllClean(photos: seq<Photo>, isProfane: string -> bool)
    requires forall i :: 0 <= i < |photos| ==> !isProfane(photos[i].title)
    ensures KeepClean(photos, isProfane) == photos
  {
    if photos != [] {
      KeepCleanAllClean(photos[1..], isProfane);
    }
  }

  /** Filtering distributes over concatenation. */
  lemma {:induction false} KeepCleanAppend(a: seq<Photo>, b: seq<Photo>, isProfane: string -> bool)
    ensures KeepClean(a + b, isProfane) == KeepClean(a, isProfane) + KeepClean(b, isProfane)
  {
    if a == [] {
      assert a + b == b;
    } else {
      assert (a + b)[0] == a[0];
      assert (a + b)[1..] == a[1..] + b;
      KeepCleanAppend(a[1..], b, isProfane);
    }
  }

  /** Filtering a list with one more photo at the end. */
  lemma KeepCleanSnoc(a: seq<Photo>, last: Photo, isProfane: string -> bool)
    ensures KeepClean(a + [last], isProfane)
      == KeepClean(a, isProfane) + if isProfane(last.title) then [] else [last]
  {
    KeepCleanAppend(a, [last], isProfane);
    assert [last][1..] == [];
  }

  /** The filter keeps exactly the photos at the clean positions, in order. */
  lemma {:induction false} KeepCleanAtPositions(photos: seq<Photo>, isProfane: string -> bool, n: nat)
    requires n <= |photos|
    ensures var r := KeepClean(photos[..n], isProfane);
      var pos := CleanPositions(photos, isProfane, n);
      |r| == |pos| && forall k :: 0 <= k < |r| ==> r[k] == photos[pos[k]]
  {
    if n > 0 {
      var last := photos[n - 1];
      KeepCleanAtPositions(photos, isProfane, n - 1);
      assert photos[..n] == photos[..n - 1] + [last];
      KeepCleanSnoc(photos[..n - 1], last, isProfane);
      var prev := KeepClean(photos[..n - 1], isProfane);
      var prevPos := CleanPositions(photos, isProfane, n - 1);
      var r := KeepClean(photos[..n], isProfane);
      var pos := CleanPositions(photos, isProfane, n);
      if isProfane(last.title) {
        assert r == prev && pos == prevPos;
      } else {
        assert r == prev + [last] && pos == prevPos + [n - 1];
        forall k | 0 <= k < |r| ensures r[k] == photos[pos[k]] {
          if k < |prev| {
            assert r[k] == prev[k] && pos[k] == prevPos[k];
          }
        }
      }
    }
  }

  /**
   * The successful result of the response callback is exactly the
   * transformed photos at the clean positions, in upstream order: one
   * output per clean position, the k-th from the k-th clean input.
   */
  lemma OnResponseSelectsCleanPhotos(data: Payload<Photo>, isProfane: string -> bool, stripTags: string -> string)
    requires OnResponse(data, isProfane, stripTags).Ok?
    ensures var photos := Validate(data).value;
      var pos := CleanPositions(photos, isProfane, |photos|);
      var out := OnResponse(data, isProfane, stripTags).value;
      |out| == |pos| && forall k :: 0 <= k < |out| ==> out[k] == Decorated(photos[pos[k]], stripTags)
  {
    var photos := Validate(data).value;
    assert photos[..|photos|] == photos;
    KeepCleanAtPositions(photos, isProfane, |photos|);
  }

  /** Every photo with a clean title comes out of the response callback, transformed. */
  lemma OnResponseKeepsCleanPhotos(data: Payload<Photo>, isProfane: string -> bool, stripTags: string -> string)
    requires OnResponse(data, isProfane, stripTags).Ok?
    ensures var photos := Validate(data).value;
      forall i :: 0 <= i < |photos| && !isProfane(photos[i].title) ==>
        Decorated(photos[i], stripTags) in OnResponse(data, isProfane, stripTags).value
  {
    var photos := Validate(data).value;
    var pos := CleanPositions(photos, isProfane, |photos|);
    var out := OnResponse(data, isProfane, stripTags).value;
    OnResponseSelectsCleanPhotos(data, isProfane, stripTags);
    forall i | 0 <= i < |photos| && !isProfane(photos[i].title)
      ensures Decorated(photos[i], stripTags) in out
    {
      var k :| 0 <= k < |pos| && pos[k] == i;
      assert out[k] == Decorated(photos[i], stripTags);
    }
  }
}
