# Flickr photo feed — Dafny model

A model of the photo-feed client in `src/api/api.js`: `fetchPhotos(tags)`
chooses the upstream method from the tags, merges its parameters into the
fixed defaults, issues one GET, rejects a failed or malformed payload with
"Flickr request failed.", drops photos whose title the profanity filter
flags, strips HTML tags from each surviving description and attaches the
photo's CDN URL and its owner's profile URL.

Modules:

- `Wrappers` (`wrappers.dfy`): `Option` and `Result`.
- `FlickrApi` (`flickr_api.dfy`): the data model (`Photo`, `PhotoPage`,
  `Payload`, query `Params`), the URL builders, method selection, parameter
  merge, payload validation, the title filter, the per-photo transformation,
  the response callback and `FetchPhotos`, all as functions over values,
  with lemmas pinning down exactly which photos come out and in what order.
- `UrlParsing` (`url_parsing.dfy`): parsers that invert the two URL
  builders, with round-trip lemmas (the URL determines the tokens it was
  built from).
- `InPlace` (`in_place.dfy`): the callback as the JavaScript runs it, on
  heap objects: a `PhotoObject` class whose `Decorate` method overwrites the
  description, adds the two links and reassigns the id, and a method that
  filters the decoded objects and decorates the survivors in place, proved
  to agree with the value-level callback.

The profanity filter (`bad-words`' `isProfane`) and the tag stripper
(`striptags`) are function parameters `isProfane: string -> bool` and
`stripTags: string -> string`: every property holds whatever they do. The
HTTP round trip is the parameter `transport`, and the API key read from the
environment is the parameter `apiKey`; when it is unset (`None`) the key is
passed to `transport` as `Undefined`, as the JavaScript params object holds
`undefined`.

## Model

| member | source | states |
|---|---|---|
| `FlickrApi.PhotoURL` | src/api/api.js:26-35 | the image URL starts with `https://farm`, the farm, `.staticflickr.com/`, the server and `/`, ends with `.jpg`, and is 36 characters longer than its four tokens together; `UrlParsing.PhotoURLRoundTrip` shows it determines them |
| `FlickrApi.AuthorURL` | src/api/api.js:42-44 | the profile URL starts with `https://www.flickr.com/people/`, ends with `/`, and is 31 characters longer than the owner; `UrlParsing.AuthorURLRoundTrip` shows it determines the owner |
| `FlickrApi.DefaultParams` | src/api/api.js:8-15 | the defaults have exactly the keys `api_key`, `safe_search`, `per_page`, `format`, `nojsoncallback`, `extras` (neither `method` nor `tags`), with `safe_search` 1, `per_page` 20, `format` "json", `nojsoncallback` 1, `extras` "owner_name,description,tags", and `api_key` the configured key as a string, or `Undefined` when none is configured |
| `FlickrApi.EffectiveTags` | src/api/api.js:51 | an absent `tags` argument becomes the empty string; a given one is used as is |
| `FlickrApi.SelectMethod` | src/api/api.js:51-55 | the method is `flickr.photos.search` exactly when the tags are non-empty and `flickr.photos.getRecent` exactly when they are empty |
| `FlickrApi.RequestParams` | src/api/api.js:57-61 | the parameters have exactly the six default keys plus `method` and `tags`; every default keeps its value (`safe_search` 1, `per_page` 20, `format` "json", `nojsoncallback` 1, `extras` "owner_name,description,tags", the API key or undefined); `method` is the selected method and `tags` the input tags |
| `FlickrApi.Validate` | src/api/api.js:71-75 | the payload is rejected, with "Flickr request failed.", exactly when `stat` is "fail" or `photos` is missing; otherwise the list is `photos.photo`, or empty when that is missing |
| `FlickrApi.KeepClean` | src/api/api.js:80 | the filter never lengthens the list |
| `FlickrApi.KeepCleanMembers` | src/api/api.js:80 | a photo is in the filtered list exactly when it is in the input and its title is not profane |
| `FlickrApi.KeepCleanAllClean` | src/api/api.js:80 | with no profane title, the filter returns the input unchanged (N clean records give N records) |
| `FlickrApi.KeepCleanAppend` | src/api/api.js:80 | filtering a concatenation is the concatenation of the filtered parts |
| `FlickrApi.CleanPositions` | src/api/api.js:80 | reference for the filter: the positions of clean titles, strictly increasing, in range, containing a position exactly when its title is not profane |
| `FlickrApi.KeepCleanAtPositions` | src/api/api.js:79-80 | the filtered list is exactly the input at the clean positions, in order: the order-preserving subsequence of clean photos |
| `FlickrApi.Decorated` | src/api/api.js:81-87 | the description becomes `stripTags` of the old one; `photoURL` and `authorURL` are set to the built URLs; id, owner, farm, server, secret and title are unchanged |
| `FlickrApi.DecorateAll` | src/api/api.js:81-87 | the `.map` keeps the length and its k-th photo is the transformation of the k-th input photo |
| `FlickrApi.OnResponse` | src/api/api.js:65-88 | the callback fails, with "Flickr request failed.", exactly when `stat` is "fail" or `photos` is missing; a missing `photos.photo` gives the empty list; every returned photo has a clean title and both links |
| `FlickrApi.OnResponseSelectsCleanPhotos` | src/api/api.js:79-87 | a successful result has one photo per clean position, and its k-th photo is the transformed input at the k-th clean position (so upstream order is kept and the fields are as `Decorated` states) |
| `FlickrApi.OnResponseKeepsCleanPhotos` | src/api/api.js:79-87 | every input photo with a clean title is in a successful result, transformed |
| `FlickrApi.FetchPhotos` | src/api/api.js:51-88 | a transport failure of the one request (to the API URL with the merged parameters) is passed on unchanged; the upstream-failure error occurs exactly when the delivered payload fails validation, and carries "Flickr request failed."; whenever the payload is delivered, the result is exactly the response callback's result on it, its failure wrapped as the upstream-failure error; every returned photo has a clean title |
| `UrlParsing.ParsePhotoURL` | src/api/api.js:26-35 | reference inverse of `PhotoURL` (no parser exists in the source): whatever it accepts is exactly the photo URL built from the tokens it returns, and those tokens are separable |
| `UrlParsing.PhotoURLRoundTrip` | src/api/api.js:26-35 | parsing the photo URL built from separable farm, server, id and secret gives those four tokens back |
| `UrlParsing.PhotoURLInjective` | src/api/api.js:26-35 | two sets of separable tokens with the same photo URL are equal |
| `UrlParsing.ParseAuthorURL` | src/api/api.js:42-44 | reference inverse of `AuthorURL` (no parser exists in the source): whatever it accepts is exactly the author URL of the owner it returns |
| `UrlParsing.AuthorURLRoundTrip` | src/api/api.js:42-44 | parsing the author URL of any owner gives that owner back |
| `UrlParsing.DecoratedLinksIdentify` | src/api/api.js:83-84 | the links attached to a transformed photo parse back to its own farm, server, id, secret and owner |
| `InPlace.PhotoObject.Decorate` | src/api/api.js:81-86 | the object's new value is the transformation of its old value (description stripped, links attached, every other modelled field unchanged) |
| `InPlace.CleanObjects` | src/api/api.js:80 | the filter on objects returns objects of the input, distinct when the input's are, whose values are the value-level filter of the input's values |
| `InPlace.CleanObjectsAtPositions` | src/api/api.js:80 | the filter on objects returns exactly the input objects (the same references) at the positions whose titles are clean, in their original order |
| `InPlace.PickCleanAtPositions` | src/api/api.js:80 | picking objects by their paired values' titles keeps exactly the objects at the clean positions of those values, in order |
| `InPlace.CleanObjectsPicks` | src/api/api.js:80 | the filter on objects is the pick by title with the objects' own current values |
| `InPlace.DecorateEach` | src/api/api.js:81-87 | after the `.map`, each object's value is the transformation of its value before, position by position |
| `InPlace.OnResponseInPlace` | src/api/api.js:65-88 | fails exactly when `stat` is "fail" or `photos` is missing; on success returns exactly the payload's objects with clean titles, in order, as the filter selected them before the call; leaves the filtered-out objects unchanged; the values of the result equal the value-level callback applied to the payload's values before the call |

## Left out

- The `axios.get` call and the Promise chain: `FetchPhotos` takes the response as the parameter `transport` and returns a `Result` instead of a settled Promise.
- The API key's environment lookup, the missing-key warning at start-up and the development-mode logging of the response: they do not affect the result; the key is the parameter `apiKey`.
- The word list of `bad-words` and the stripping rules of `striptags`: both are uninterpreted parameters.
- JSON decoding of the body, and what happens when a photo lacks its `description` object (the JavaScript would throw a TypeError at `item.description._content`): the model gives every photo a description string.
- JavaScript's number-to-string coercion of `farm` in the template literal: farm and server are strings already.
- Photo fields the callback passes through untouched but the model does not carry (`ownername` and `tags` requested through `extras`, the rest of the `description` object, anything else upstream sends): "every other field unchanged" is stated for the modelled fields only.
- `tags` values other than a string or an absent argument (`null`, numbers): the model takes an optional string.
- `InPlace.OnResponseInPlace`: requires the listed objects to be pairwise distinct, as a list decoded from JSON always is; with one object listed twice the JavaScript would strip its description twice.
- `UrlParsing.PhotoURLRoundTrip`: holds only for tokens where the farm has no `.`, the server no `/` and the id no `_`, as Flickr's numeric farm, server and photo ids never do.
