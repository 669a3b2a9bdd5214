# Nearby repair-shop search, modelled in Dafny

This project models the search logic of the discovery screen (`src/app/page.tsx`) of a
location-based repair-shop finder. The screen looks up repair shops around the user with the
Kakao Places keyword search, in one of two ways:

- **By category.** A fixed table turns a category id into one or two search phrases. The
  screen sends one request per phrase, within 20 km of the user and sorted by distance. It
  waits for all of them with `Promise.all`, concatenates the per-phrase lists in phrase order
  and turns each raw place into a `Shop` record. It then removes duplicates by passing the
  records through a JavaScript `Map` keyed by id, and lists the map's values.
- **By keyword.** The keyword goes through a blank guard. If it passes, one request is sent
  for the keyword followed by " 수리" ("repair"). `OK` lists the found places, `ZERO_RESULT`
  lists nothing, and any other status is an error that also lists nothing.

Both handlers change the screen state `isLoading`, `selectedCategory` and `nearbyShops`.

Modules:

- `Wrappers`: `Option` and `Result`.
- `Places`: the raw place, the `Shop` record, the raw-to-`Shop` mapping, the search outcome
  (`Ok(places) | ZeroResult | Failed`) and the request.
- `Categories`: the eight categories of the grid and the category-to-phrase table.
- `JsMap`: a JavaScript `Map` as insertion-ordered keys plus a key-to-value map.
  `new Map(entries)`, `set` and `values()` are modelled. It is proved that each value comes
  from the key's last entry and that keys are ordered by their first entry.
- `Merge`: `results.flat()`, the dedupe through the `Map`, and its properties. This includes a
  theorem that the merged list is the only list with those properties.
- `Keyword`: JavaScript `trim()`, the blank guard, the phrase, and how the status settles the
  promise.
- `CategorySearch`: `Promise.all` over the per-phrase promises, and the merged list.
- `Home`: the screen as a class with the state fields. Each `async` handler is split at its
  `await` into `Begin...` (guard, state change, requests issued) and `Complete...` (what the
  service reported, catch, finally). A whole-handler method runs both steps, with the Places
  service given as a function from request to outcome.

The model follows the code as written:

- A single phrase that does not report `OK`, `ZERO_RESULT` included, rejects the whole
  `Promise.all` of a category search. The catch only logs, so `nearbyShops` keeps its previous
  value while `selectedCategory` already names the new category. See `CategorySearch.JoinAll`
  and `Home.HomeScreen.CompleteCategorySearch`.
- When geolocation fails, `userLocation` stays `null`, so both handlers return at their guard.

## Model

| member | source | states |
|---|---|---|
| `Categories.QueriesFor` | src/app/page.tsx:113-122 | every id gets at least one phrase; an id outside the table gets exactly `["수리"]`; a table id gets two phrases |
| `Categories.QueriesOfEachCategory` | src/app/page.tsx:113-121 | the exact two-phrase list of each of the eight category ids |
| `Categories.UnknownCategoryFallsBack` | src/app/page.tsx:122 | an id that is none of the grid's eight ids falls back to `["수리"]` |
| `Categories.TableCoversExactlyTheGrid` | src/app/page.tsx:24-33 | an id has a table entry exactly when it is the id of one of the grid's eight categories |
| `Places.ToShop` | src/app/page.tsx:134-148 | the id is copied; `name` comes from `place_name`, `category` from `category_name`, `lat` from `y` and `lng` from `x`; a distance is set exactly when the raw distance is defined and non-empty, and comes from that value |
| `Places.Truthy` | src/app/page.tsx:144 | the `shop.distance ?` test: an undefined or empty distance is falsy, any other string is truthy, "0" included |
| `Places.RequestFor` | src/app/page.tsx:99-106 | a request carries its phrase, the user's location as centre, a 20 000 m radius and sorting by distance |
| `Places.ToShops` | src/app/page.tsx:196-208 | the keyword results are mapped one to one, in order, by the same record mapping |
| `JsMap.Empty` | src/app/page.tsx:131 | the `Map` starts with no keys and no entries |
| `JsMap.Set` | src/app/page.tsx:131-150 | `Map.set` stores the value under the key and leaves other keys' values alone; a present key keeps its position and a new key goes last |
| `JsMap.Values` | src/app/page.tsx:130-151 | `Array.from(map.values())` lists one value per key, in key order |
| `JsMap.FromEntries` | src/app/page.tsx:131-150 | the map built from the entries keeps each key once in its order list, and only keys it stores |
| `JsMap.FirstIndex` | src/app/page.tsx:130-151 | the position of a key's first occurrence: it holds the key and no earlier position does |
| `JsMap.LastIndex` | src/app/page.tsx:131-150 | the position of a key's last occurrence: it holds the key and no later position does |
| `JsMap.FromEntriesKeys` | src/app/page.tsx:131-150 | the map's keys are exactly the keys that occur among the entries |
| `JsMap.FromEntriesLastWins` | src/app/page.tsx:131-150 | the value stored for a key is the value of its last entry |
| `JsMap.FromEntriesFirstOrder` | src/app/page.tsx:130-151 | keys are ordered by the position of their first entry |
| `JsMap.FromEntriesSize` | src/app/page.tsx:130-151 | the map has at most as many keys as entries, and exactly as many iff no key repeats |
| `Merge.Flatten` | src/app/page.tsx:132 | `results.flat()` holds exactly the places of the per-phrase lists, the first phrase's list first |
| `Merge.EntriesOf` | src/app/page.tsx:132-149 | the `[shop.id, record]` entries: keys are the places' ids in order, values their records |
| `Merge.Dedupe` | src/app/page.tsx:130-151 | `Array.from(new Map(entries).values())`: every merged shop is the record of an input place; the `Dedupe*` lemmas state which place and where, and `DedupeCharacterised` determines the result completely |
| `Merge.MergeResults` | src/app/page.tsx:125-151 | the merge of the joined per-phrase lists: every merged shop is the record of a place some phrase returned; its ids are exactly those of the phrases' places (`MergeKeepsIds`) |
| `Merge.DedupeIdsDistinct` | src/app/page.tsx:130-151 | the merged shops have pairwise-distinct ids |
| `Merge.DedupeKeepsIds` | src/app/page.tsx:130-151 | an id is in the merged list iff it is the id of some input place: nothing lost, nothing invented |
| `Merge.DedupeLastWins` | src/app/page.tsx:131-150 | each merged shop is the record built from the last input place with its id |
| `Merge.DedupeFirstOccurrenceOrder` | src/app/page.tsx:130-151 | the merged shops are ordered by the first occurrence of their ids in the flattened input |
| `Merge.DedupeLength` | src/app/page.tsx:130-151 | the merged list is no longer than the input, and as long iff the input ids are distinct |
| `Merge.MergeKeepsIds` | src/app/page.tsx:125-151 | the merged list of a category search holds exactly the ids some phrase returned |
| `Merge.DedupeCharacterised` | src/app/page.tsx:130-151 | a list has distinct ids, the input's ids, last-occurrence values and first-occurrence order iff it is the merged list |
| `Keyword.IsWhiteSpace` | src/app/page.tsx:163 | the code points `trim()` removes: within ASCII exactly tab, line feed, vertical tab, form feed, carriage return and space; the ideographic space U+3000 is one of them |
| `Keyword.TrimStart` | src/app/page.tsx:163 | only leading white space is removed, and the result does not start with white space |
| `Keyword.TrimEnd` | src/app/page.tsx:163 | only trailing white space is removed, and the result does not end with white space |
| `Keyword.Trim` | src/app/page.tsx:163 | `trim()` is no longer than the text and neither end of its result is white space |
| `Keyword.BlankIffAllWhiteSpace` | src/app/page.tsx:163 | the guard `!keyword.trim()` holds exactly when every character of the keyword is white space |
| `Keyword.KeywordPhrase` | src/app/page.tsx:174 | the phrase is the untrimmed keyword followed by " 수리" |
| `Keyword.Resolve` | src/app/page.tsx:175-182 | the promise rejects exactly on a status other than `OK` and `ZERO_RESULT`; `OK` resolves with its places and `ZERO_RESULT` with none |
| `Keyword.KeywordShops` | src/app/page.tsx:196-213 | `OK` lists the found places' records in the service's order; `ZERO_RESULT` and failure list nothing |
| `Keyword.ZeroResultIsNotFailure` | src/app/page.tsx:175-182 | `ZERO_RESULT` resolves with no places while a failure rejects, and both leave the list empty |
| `CategorySearch.JoinAll` | src/app/page.tsx:87-127 | `Promise.all` resolves iff every phrase reported `OK` (a `ZERO_RESULT` rejects), and then gives the lists in phrase order |
| `CategorySearch.CategoryShops` | src/app/page.tsx:125-153 | a list is stored iff every phrase reported `OK`; it is the merge of the joined lists and its ids are distinct |
| `Home.CategoryRequests` | src/app/page.tsx:87-127 | one request per phrase of the category, in table order, around the given centre, 20 000 m radius, sorted by distance |
| `Home.Answers` | src/app/page.tsx:125-127 | the outcomes of the requests, in the order of the requests |
| `Home.HomeScreen.constructor` | src/app/page.tsx:36-40 | initial state: no location, no category, no shops, not loading, empty search box |
| `Home.HomeScreen.LocationFound` | src/app/page.tsx:46-51 | the geolocation success callback sets the user location and nothing else |
| `Home.HomeScreen.KeywordTyped` | src/app/page.tsx:245 | the search box's change handler sets the keyword and nothing else |
| `Home.HomeScreen.BeginCategorySearch` | src/app/page.tsx:77-127 | without a location nothing changes and no request is sent; otherwise `isLoading` is true, the category is selected, the list is untouched and the phrase requests are issued |
| `Home.HomeScreen.CompleteCategorySearch` | src/app/page.tsx:125-158 | loading ends; if every phrase reported `OK` the list becomes the merge, whose ids are distinct; otherwise the list keeps its previous value; the selected category stays |
| `Home.HomeScreen.SearchNearbyShops` | src/app/page.tsx:77-159 | the whole category handler: no-op without a location; otherwise the category is selected, loading has ended, and the list is the merge or, on rejection, the previous list |
| `Home.HomeScreen.BeginKeywordSearch` | src/app/page.tsx:162-194 | without a location or with a blank keyword nothing changes; otherwise loading starts, the category is cleared and one request for `keyword + " 수리"` is issued |
| `Home.HomeScreen.CompleteKeywordSearch` | src/app/page.tsx:171-216 | loading ends; the list is the `OK` places' records, or empty for `ZERO_RESULT` and failure |
| `Home.HomeScreen.SearchByKeyword` | src/app/page.tsx:162-217 | the whole keyword handler: no-op without a location or with a blank keyword; otherwise no category, loading ended, list as the status decides |
| `Home.HomeScreen.HandleSearch` | src/app/page.tsx:220-223 | submitting the form runs the keyword handler on the search box's text |

## Left out

- `calculateDistance` (the haversine helper) is left out. It is floating-point trigonometry and nothing calls it.
- `Number(...)` parsing of coordinates and distance, and the metres-to-kilometres division, are left out because they are floating point. A coordinate is kept as the unevaluated term `NumberOf(text)`, a distance as `KmFromMetres(text)`, and a device position as a `real`.
- The Kakao SDK (`Places`, `keywordSearch`, `LatLng`, `SortBy`) is a foreign call. It becomes an abstract outcome per request. A `Places` constructor that throws reaches the same catch as a failed status, so it is covered by `Failed`.
- Concurrency is left out: the `Promise.all` fan-out, and races between overlapping searches. The joined results are a sequence in phrase order. Each handler is two atomic steps, and no interleaving of steps from different searches is analysed.
- The geolocation effect is left out: the browser API, its absence, and the error callback, which only logs. Only the success callback's state update is modelled.
- `console.error` logging is left out.
- JSX rendering is left out, including the result heading, the `Link` href built with `JSON.stringify`/`encodeURIComponent`, and the category highlighting.
- Category ids that name inherited `Object.prototype` properties (such as `"toString"`) are left out. For those the object-literal lookup finds a function instead of falling back to `["수리"]`. Only the grid's eight ids reach the handler.
- `Places.ToShop` models `address_name`, `phone` and `place_url` as the strings the service returns. A field the service omits (`undefined`) is not modelled except for `distance`.
- `Keyword.Trim`: its contract states only that the result is no longer than the input and that neither end is white space. That only white space is removed is proved for the case the guard uses, in `BlankIffAllWhiteSpace`.
- `Merge.Flatten`: its contract states which places the result holds and that the first list comes first. The full order of the concatenation is carried by its definition.
- The map screen (`src/app/map/page.tsx`), the SDK script layout (`src/app/map/layout.tsx`), the SDK loader hook (`src/app/components/use-kakao-loader.tsx`) and the shop detail screen with its reviews (`src/app/shop/[id]/page.tsx`) are not part of this model.
