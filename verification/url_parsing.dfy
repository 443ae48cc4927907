/**
 * Inverses of the two URL builders. Flickr's farm, server and photo ids
 * are numerals, so none of them holds the separator that follows it in a
 * photo URL; under that condition the photo URL determines its four
 * tokens, and an author URL always determines its owner.
 */
module UrlParsing {
  import opened Wrappers
  import opened FlickrApi

  /** The four CDN tokens a photo URL is built from. */
  datatype CdnTokens = CdnTokens(farm: string, server: string, id: string, secret: string)

  /** The tokens of a photo. */
  function TokensOf(p: Photo): CdnTokens
  {
    CdnTokens(p.farm, p.server, p.id, p.secret)
  }

  /** The photo URL built from some tokens. */
  function UrlOf(t: CdnTokens): string
  {
    PhotoURL(t.farm, t.server, t.id, t.secret)
  }

  /** No token contains the separator that ends it in a photo URL. */
  predicate Separable(t: CdnTokens)
  {
    '.' !in t.farm && '/' !in t.server && '_' !in t.id
  }

  /** Position of the first `c` in `s`, if any. */
  function IndexOf(s: string, c: char): (r: Option<nat>)
    ensures r.None? ==> forall i :: 0 <= i < |s| ==> s[i] != c
    ensures r.Some? ==> r.value < |s| && s[r.value] == c
    ensures r.Some? ==> forall i :: 0 <= i < r.value ==> s[i] != c
  {
    if s == [] then None
    else if s[0] == c then Some(0)
    else
      match IndexOf(s[1..], c)
      case None => None
      case Some(i) => Some(i + 1)
  }

  /** The first `c` of `a + [c] + b` is the one after `a` when `a` has none. */
  lemma IndexOfAfter(a: string, c: char, b: string)
    requires c !in a
    ensures IndexOf(a + ([c] + b), c) == Some(|a|)
  {
    var s := a + ([c] + b);
    assert s[|a|] == c;
    forall i | 0 <= i < |a| ensures s[i] != c {
      assert s[i] == a[i];
    }
  }

  /** A string is its part before `i`, the character at `i`, and its part after `i`. */
  lemma SplitAround(s: string, i: nat)
    requires i < |s|
    ensures s == s[..i] + ([s[i]] + s[i + 1..])
  {
  }

  /** The secret of a URL tail `secret.jpg`. */
  function SecretPart(s: string): (r: Option<string>)
    ensures r.Some? ==> s == r.value + ".jpg"
  {
    if |s| >= 4 && s[|s| - 4..] == ".jpg" then
      assert s == s[..|s| - 4] + s[|s| - 4..];
      Some(s[..|s| - 4])
    else None
  }

  /** The id and secret of a URL tail `id_secret.jpg`. */
  function IdPart(s: string): (r: Option<(string, string)>)
    ensures r.Some? ==> '_' !in r.value.0 && s == r.value.0 + ("_" + (r.value.1 + ".jpg"))
  {
    match IndexOf(s, '_')
    case None => None
    case Some(i) =>
      match SecretPart(s[i + 1..])
      case None => None
      case Some(secret) =>
        SplitAround(s, i);
        Some((s[..i], secret))
  }

  /** The part of a photo URL after the host: `server/id_secret.jpg`. */
  function ServerTail(t: CdnTokens): string
  {
    t.server + ("/" + (t.id + ("_" + (t.secret + ".jpg"))))
  }

  /** The CDN host name of a photo URL, after the dot that ends the farm. */
  const HostRest := "staticflickr.com/"

  /** The part of a photo URL after the scheme: `farm.staticflickr.com/` and the server tail. */
  function FarmTail(t: CdnTokens): string
  {
    t.farm + ("." + (HostRest + ServerTail(t)))
  }

  /** A photo URL is the scheme followed by the farm tail. */
  lemma UrlOfSplits(t: CdnTokens)
    ensures UrlOf(t) == "https://farm" + FarmTail(t)
  {
  }

  /** The server, id and secret of a URL tail `server/id_secret.jpg`. */
  function ServerPart(s: string): (r: Option<CdnTokens>)
    ensures r.Some? ==> r.value.farm == [] && '/' !in r.value.server && '_' !in r.value.id
    ensures r.Some? ==> s == ServerTail(r.value)
  {
    match IndexOf(s, '/')
    case None => None
    case Some(i) =>
      match IdPart(s[i + 1..])
      case None => None
      case Some((id, secret)) =>
        SplitAround(s, i);
        Some(CdnTokens([], s[..i], id, secret))
  }

  /** What follows `prefix` in `s`, if `s` starts with it. */
  function AfterPrefix(s: string, prefix: string): (r: Option<string>)
    ensures r.Some? <==> prefix <= s
    ensures r.Some? ==> s == prefix + r.value
  {
    if prefix <= s then
      assert s == prefix + s[|prefix|..];
      Some(s[|prefix|..])
    else None
  }

  /** `AfterPrefix` gives back what was appended to the prefix. */
  lemma AfterPrefixOf(prefix: string, rest: string)
    ensures AfterPrefix(prefix + rest, prefix) == Some(rest)
  {
  }

  /** The tokens of a URL tail `farm.staticflickr.com/server/id_secret.jpg`. */
  function FarmPart(s: string): (r: Option<CdnTokens>)
    ensures r.Some? ==> Separable(r.value)
    ensures r.Some? ==> s == FarmTail(r.value)
  {
    match IndexOf(s, '.')
    case None => None
    case Some(i) =>
      match AfterPrefix(s[i + 1..], HostRest)
      case None => None
      case Some(afterHost) =>
        match ServerPart(afterHost)
        case None => None
        case Some(t) =>
          SplitAround(s, i);
          Some(t.(farm := s[..i]))
  }

  /** Reads the tokens back from a photo URL; None when the text is not one. */
  function ParsePhotoURL(url: string): (r: Option<CdnTokens>)
    ensures r.Some? ==> Separable(r.value) && UrlOf(r.value) == url
  {
    match AfterPrefix(url, "https://farm")
    case None => None
    case Some(farmTail) =>
      match FarmPart(farmTail)
      case None => None
      case Some(t) =>
        UrlOfSplits(t);
        Some(t)
  }

  /** `IdPart` reads back the id and secret it is given. */
  lemma IdPartOf(id: string, secret: string)
    requires '_' !in id
    ensures IdPart(id + ("_" + (secret + ".jpg"))) == Some((id, secret))
  {
    var jpg := secret + ".jpg";
    assert jpg[..|jpg| - 4] == secret;
    assert SecretPart(jpg) == Some(secret);
    var idTail := id + ("_" + jpg);
    IndexOfAfter(id, '_', jpg);
    assert idTail[..|id|] == id && idTail[|id| + 1..] == jpg;
  }

  /** `ServerPart` reads back the server, id and secret of a server tail. */
  lemma ServerPartOf(t: CdnTokens)
    requires '/' !in t.server && '_' !in t.id
    ensures ServerPart(ServerTail(t)) == Some(t.(farm := []))
  {
    var idTail := t.id + ("_" + (t.secret + ".jpg"));
    IdPartOf(t.id, t.secret);
    var serverTail := ServerTail(t);
    IndexOfAfter(t.server, '/', idTail);
    assert serverTail[..|t.server|] == t.server && serverTail[|t.server| + 1..] == idTail;
  }

  /** `FarmPart` reads back all four tokens of a farm tail. */
  lemma FarmPartOf(t: CdnTokens)
    requires Separable(t)
    ensures FarmPart(FarmTail(t)) == Some(t)
  {
    var serverTail := ServerTail(t);
    ServerPartOf(t);
    var farmTail := FarmTail(t);
    var rest := HostRest + serverTail;
    IndexOfAfter(t.farm, '.', rest);
    assert farmTail[..|t.farm|] == t.farm && farmTail[|t.farm| + 1..] == rest;
    AfterPrefixOf(HostRest, serverTail);
  }

  /** Building a photo URL and parsing it gives back the tokens. */
  lemma PhotoURLRoundTrip(t: CdnTokens)
    requires Separable(t)
    ensures ParsePhotoURL(UrlOf(t)) == Some(t)
  {
    FarmPartOf(t);
    UrlOfSplits(t);
    AfterPrefixOf("https://farm", FarmTail(t));
  }

  /** Separable tokens never share a photo URL. */
  lemma PhotoURLInjective(t1: CdnTokens, t2: CdnTokens)
    requires Separable(t1) && Separable(t2)
    requires UrlOf(t1) == UrlOf(t2)
    ensures t1 == t2
  {
    PhotoURLRoundTrip(t1);
    PhotoURLRoundTrip(t2);
  }

  /** Reads the owner back from an author URL; None when the text is not one. */
  function ParseAuthorURL(url: string): (r: Option<string>)
    ensures r.Some? ==> AuthorURL(r.value) == url
  {
    var prefix := "https://www.flickr.com/people/";
    if prefix <= url && |url| > |prefix| && url[|url| - 1] == '/' then
      var owner := url[|prefix|..|url| - 1];
      assert url == prefix + owner + "/";
      Some(owner)
    else None
  }

  /** Building an author URL and parsing it gives back the owner, whatever it is. */
  lemma AuthorURLRoundTrip(owner: string)
    ensures ParseAuthorURL(AuthorURL(owner)) == Some(owner)
  {
  }

  /** The links attached by the transformation identify the photo and its owner. */
  lemma DecoratedLinksIdentify(p: Photo, stripTags: string -> string)
    requires Separable(TokensOf(p))
    ensures var d := Decorated(p, stripTags);
      ParsePhotoURL(d.photoURL.value) == Some(TokensOf(p)) &&
      ParseAuthorURL(d.authorURL.value) == Some(p.owner)
  {
    PhotoURLRoundTrip(TokensOf(p));
    AuthorURLRoundTrip(p.owner);
  }
}
