/**
 * The response callback as the JavaScript runs it: the photo objects
 * decoded from the response are filtered, then each survivor is updated in
 * place, and the result is a list of those same objects.
 */
module InPlace {
  import opened Wrappers
  import opened FlickrApi

  /** A decoded upstream photo object, whose fields the callback overwrites. */
  class PhotoObject {
    var id: string
    var owner: string
    var farm: string
    var server: string
    var secret: string
    var title: string
    var descriptionContent: string
    var photoURL: Option<string>
    var authorURL: Option<string>

    /** A freshly decoded object holding the given photo. */
    constructor (p: Photo)
      ensures View() == p
    {
      id, owner, farm, server, secret := p.id, p.owner, p.farm, p.server, p.secret;
      title, descriptionContent := p.title, p.descriptionContent;
      photoURL, authorURL := p.photoURL, p.authorURL;
    }

    /** The object's fields as a value. */
    function View(): Photo
      reads this
    {
      Photo(id, owner, farm, server, secret, title, descriptionContent, photoURL, authorURL)
    }

    /**
     * The body of the `.map` callback: strip the description, attach the
     * two links, reassign the id to itself. No other modelled field changes.
     */
    method Decorate(stripTags: string -> string)
      modifies this
      ensures View() == Decorated(old(View()), stripTags)
    {
      descriptionContent := stripTags(descriptionContent);
      photoURL := Some(PhotoURL(farm, server, id, secret));
      authorURL := Some(AuthorURL(owner));
      id := id;
    }
  }

  /** The values held by a list of objects. */
  function Views(items: seq<PhotoObject>): seq<Photo>
    reads items
  {
    seq(|items|, k reads items requires 0 <= k < |items| => items[k].View())
  }

  /** No object occurs twice in the list, as in any list decoded from JSON. */
  predicate Distinct(items: seq<PhotoObject>)
  {
    forall i, j :: 0 <= i < j < |items| ==> items[i] != items[j]
  }

  /** The objects of the payload's photo list, or none when the list is missing. */
  function Listed(data: Payload<PhotoObject>): seq<PhotoObject>
  {
    if data.photos.Some? && data.photos.value.photo.Some? then data.photos.value.photo.value else []
  }

  /** The payload with each object replaced by the value it holds. */
  function ViewPayload(data: Payload<PhotoObject>): Payload<Photo>
    reads Listed(data)
  {
    match data.photos
    case None => Payload(data.stat, None)
    case Some(page) =>
      match page.photo
      case None => Payload(data.stat, Some(PhotoPage(None)))
      case Some(items) => Payload(data.stat, Some(PhotoPage(Some(Views(items)))))
  }

  /** The values held by the objects of a result. */
  function ViewResult(r: Result<seq<PhotoObject>, string>): Result<seq<Photo>, string>
    reads if r.Ok? then r.value else []
  {
    match r
    case Ok(items) => Ok(Views(items))
    case Err(e) => Err(e)
  }

  /**
   * `items.filter(item => !isProfane(item.title))` on objects: the same
   * objects, in order, whose values are the ones the value-level filter keeps.
   */
  function CleanObjects(items: seq<PhotoObject>, isProfane: string -> bool): (r: seq<PhotoObject>)
    reads items
    ensures Views(r) == KeepClean(Views(items), isProfane)
    ensures forall o :: o in r ==> o in items
    ensures Distinct(items) ==> Distinct(r)
  {
    if items == [] then []
    else
      var rest := CleanObjects(items[1..], isProfane);
      assert Views(items)[1..] == Views(items[1..]);
      assert Distinct(items) ==> Distinct(items[1..]) && items[0] !in items[1..];
      if isProfane(items[0].title) then rest else [items[0]] + rest
  }

  /**
   * The objects whose paired values have clean titles, in order: the
   * object filter with the titles read from `values` instead of the heap.
   */
  function PickClean(items: seq<PhotoObject>, values: seq<Photo>, isProfane: string -> bool): (r: seq<PhotoObject>)
    requires |values| == |items|
    ensures |r| <= |items|
  {
    if items == [] then []
    else
      var rest := PickClean(items[1..], values[1..], isProfane);
      if isProfane(values[0].title) then rest else [items[0]] + rest
  }

  /** The object filter is `PickClean` with the objects' own values. */
  lemma {:induction false} CleanObjectsPicks(items: seq<PhotoObject>, isProfane: string -> bool)
    ensures CleanObjects(items, isProfane) == PickClean(items, Views(items), isProfane)
  {
    if items != [] {
      assert Views(items)[1..] == Views(items[1..]);
      CleanObjectsPicks(items[1..], isProfane);
    }
  }

  /** Picking from a concatenation is the concatenation of the picks. */
  lemma {:induction false} PickCleanAppend(
    a: seq<PhotoObject>, va: seq<Photo>, b: seq<PhotoObject>, vb: seq<Photo>, isProfane: string -> bool)
    requires |va| == |a| && |vb| == |b|
    ensures PickClean(a + b, va + vb, isProfane) == PickClean(a, va, isProfane) + PickClean(b, vb, isProfane)
  {
    if a == [] {
      assert a + b == b && va + vb == vb;
    } else {
      assert (a + b)[0] == a[0] && (va + vb)[0] == va[0];
      assert (a + b)[1..] == a[1..] + b && (va + vb)[1..] == va[1..] + vb;
      PickCleanAppend(a[1..], va[1..], b, vb, isProfane);
    }
  }

  /** `PickClean` keeps exactly the objects at the clean positions of the values, in order. */
  lemma {:induction false} PickCleanAtPositions(
    items: seq<PhotoObject>, values: seq<Photo>, isProfane: string -> bool, n: nat)
    requires n <= |items| == |values|
    ensures var r := PickClean(items[..n], values[..n], isProfane);
      var pos := CleanPositions(values, isProfane, n);
      |r| == |pos| && forall k :: 0 <= k < |r| ==> r[k] == items[pos[k]]
  {
    if n > 0 {
      var last, lastValue := items[n - 1], values[n - 1];
      PickCleanAtPositions(items, values, isProfane, n - 1);
      assert items[..n] == items[..n - 1] + [last];
      assert values[..n] == values[..n - 1] + [lastValue];
      PickCleanAppend(items[..n - 1], values[..n - 1], [last], [lastValue], isProfane);
      assert PickClean([last], [lastValue], isProfane) == if isProfane(lastValue.title) then [] else [last] by {
        assert [last][1..] == [] && [lastValue][1..] == [];
      }
      var prev := PickClean(items[..n - 1], values[..n - 1], isProfane);
      var prevPos := CleanPositions(values, isProfane, n - 1);
      var r := PickClean(items[..n], values[..n], isProfane);
      var pos := CleanPositions(values, isProfane, n);
      if isProfane(lastValue.title) {
        assert r == prev && pos == prevPos;
      } else {
        assert r == prev + [last] && pos == prevPos + [n - 1];
        forall k | 0 <= k < |r| ensures r[k] == items[pos[k]] {
          if k < |prev| {
            assert r[k] == prev[k] && pos[k] == prevPos[k];
          }
        }
      }
    }
  }

  /**
   * The object filter keeps exactly the objects at the clean positions, in
   * order: the very objects `.filter` returns, not merely equal values.
   */
  lemma CleanObjectsAtPositions(items: seq<PhotoObject>, isProfane: string -> bool)
    ensures var r := CleanObjects(items, isProfane);
      var pos := CleanPositions(Views(items), isProfane, |items|);
      |r| == |pos| && forall k :: 0 <= k < |r| ==> r[k] == items[pos[k]]
  {
    CleanObjectsPicks(items, isProfane);
    PickCleanAtPositions(items, Views(items), isProfane, |items|);
    assert items[..|items|] == items;
    assert Views(items)[..|items|] == Views(items);
  }

  /** Validating the payload of values agrees with validating the payload of objects. */
  lemma ValidateViewPayload(data: Payload<PhotoObject>)
    ensures Validate(ViewPayload(data)).Err? == Validate(data).Err?
    ensures Validate(data).Ok? ==> Validate(data).value == Listed(data)
    ensures Validate(data).Ok? ==> Validate(ViewPayload(data)).value == Views(Listed(data))
  {
  }

  /** The `.map` over the filtered objects: each one is decorated in place, in order. */
  method DecorateEach(kept: seq<PhotoObject>, stripTags: string -> string)
    requires Distinct(kept)
    modifies set o | o in kept
    ensures Views(kept) == DecorateAll(old(Views(kept)), stripTags)
  {
    ghost var before := Views(kept);
    var i := 0;
    while i < |kept|
      invariant 0 <= i <= |kept|
      invariant forall k :: 0 <= k < i ==> kept[k].View() == Decorated(before[k], stripTags)
      invariant forall k :: i <= k < |kept| ==> kept[k].View() == before[k]
    {
      kept[i].Decorate(stripTags);
      i := i + 1;
    }
  }

  /**
   * The `.then` callback on the decoded objects: reject a failed payload,
   * otherwise filter the list and update each survivor in place. The
   * values afterwards are those of the value-level callback on the values
   * before; the result holds the very objects of the payload, and the
   * objects filtered out are left as they were.
   */
  method OnResponseInPlace(data: Payload<PhotoObject>, isProfane: string -> bool, stripTags: string -> string)
    returns (r: Result<seq<PhotoObject>, string>)
    requires Distinct(Listed(data))
    modifies set o | o in Listed(data)
    ensures r.Err? <==> data.stat == "fail" || data.photos.None?
    ensures r.Ok? ==> forall o :: o in r.value ==> o in Listed(data)
    ensures r.Ok? ==> r.value == old(CleanObjects(Listed(data), isProfane))
    ensures forall o :: o in Listed(data) && !(r.Ok? && o in r.value) ==> o.View() == old(o.View())
    ensures ViewResult(r) == OnResponse(old(ViewPayload(data)), isProfane, stripTags)
  {
    ValidateViewPayload(data);
    match Validate(data)
    case Err(e) =>
      r := Err(e);
    case Ok(photos) =>
      assert photos == Listed(data);
      var kept := CleanObjects(photos, isProfane);
      assert forall o :: o in kept ==> o in Listed(data);
      DecorateEach(kept, stripTags);
      r := Ok(kept);
  }
}
