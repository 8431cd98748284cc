# A verified model of the sat-api search object

This project models the `Search` object of sat-api-lib (`libs/api.js`). It is
the core of a STAC catalog search API. The model covers:

- **Request parameters and paging.** The constructor takes the request's
  parameters from the event's `query` when that is non-empty, otherwise from
  its `body`, otherwise `{}`. It keeps any `coverage` threshold aside and works
  out the page size, the offset `frm` of the first hit, and the page number it
  reports back.
- **The area-of-interest (AOI) coverage filter.** `calculateAoiCoverage` parses
  the `intersects` geometry (`intersectsToObj`). It then keeps the results whose
  `data_geometry` the AOI covers by at least the threshold percentage.
  `aoiCoveragePercentage` computes one term of that coverage, and a
  FeatureCollection AOI sums the terms of its members.
- **The query.** `buildSearch` removes `fields` from the parameters for good,
  turns it into the `_source` projection and copies `size` and `frm` into the
  request.
- **The response.** The success handler of `search` turns each index hit into a
  STAC Feature. It drops five keys from `properties`, makes `collection` links
  absolute with the API's base URL and appends one self link.
- **The two entry points.** `search` and `search_items` are modelled with the
  engine's answer given as a parameter.

## How the model is built

- `values.dfy` (module `Values`): JSON values, with `undefined` as `None`. It
  also holds the JavaScript semantics the code relies on:
  - truthiness;
  - property access, which throws a TypeError on `null`;
  - lodash `_.omit`;
  - template-literal string conversion;
  - `MapEach`, a `forEach` whose body may throw;
  - `FilterEach`, a `forEach` that pushes the elements passing a test that may
    throw.
- `numbers.dfy` (module `Numbers`): JavaScript numbers as reals extended with
  `Infinity`, `-Infinity` and `NaN`. It also holds `parseInt` and `parseFloat`
  of text and of numbers, written out character by character.
- `externals.dfy` (module `Externals`): the code the API calls but that is not
  modelled. This is `turf-area`, `turf-intersect`, `JSON.parse`, the query-DSL
  builder `queries`, number formatting and `API_URL`. Each is a field of a
  `Host` value, free to be any function.
- `coverage.dfy` (module `Coverage`): `intersectsToObj`,
  `aoiCoveragePercentage`, and the filter, as functions. It also has the loops
  of `calculateAoiCoverage` as methods proved equal to those functions.
- `response.dfy` (module `Response`): the hit-to-Feature loop and the link
  rewriting, as functions and as methods proved equal to them.
- `search.dfy` (module `Api`): the `Search` class. Its fields are `aoiCoverage`,
  `params`, `size`, `frm` and `page`. Its methods update those fields as the
  source does. Lemmas state what the constructor, the filter, the query and the
  response promise.

A thrown exception is an `Err` result. The errors are:

- `InvalidGeojson`: unparseable `intersects` text.
- `TypeError`: a property read on `null`, or `forEach` on a non-array.
- `QueryBuildFailure`: the query builder threw.
- `EngineFailure`: the engine rejected the request. The engine's answer is a
  parameter, `answer`, of the search methods. A rejection is whatever error
  that answer carries, and `search` passes it on unchanged. `EngineFailure`
  is the name for that error; the model never builds it.

### Where the model differs from a plain reading of the API

The model follows the code where it differs from what one would expect of the
API:

- `search` never calls `calculateAoiCoverage`. The coverage filter exists but
  is not applied to search results (libs/api.js:130-186).
- The self link stores its relation under the key `ref`, not `rel`
  (libs/api.js:169).
- `search_items` ignores the collections search's result and error. Whenever
  the collections callback is called, it goes on to search the items index
  (libs/api.js:123-125).
- The first `buildSearch` strips `fields` from the parameters for good. So the
  items query of `search_items` never has a projection
  (`Api.ItemsQueryHasNoProjection`).
- A `coverage` given as the number 0 is falsy and turns the filter off. The
  text `"0"` is truthy and filters at 0%.
- The page `"0"` is not rejected. It gives a negative offset.
- When the success handler throws, the source never calls the callback. The
  `then` rejection handler does not catch errors of the success handler beside
  it. The model gives `None` for the callback's argument in that case. In
  `search_items` this means the items search is never run
  (`Api.Search.SearchItems`).

## Model

| member | source | states |
|---|---|---|
| Coverage.IntersectsToObj | libs/api.js:14-24 | a non-string is returned unchanged; a string becomes what JSON parsing gives; it fails with InvalidGeojson exactly when the text does not parse |
| Coverage.AoiCoveragePercentage | libs/api.js:57-67 | 0 when the two geometries do not intersect; finite when the AOI area is non-zero; between 0 and 100 when the overlap's area is at most the AOI's |
| Coverage.Term | libs/api.js:83-88 | one coverage term throws exactly when the result is `null` (reading `r.data_geometry`) |
| Coverage.SumOverFeatures | libs/api.js:79-84 | the `gj.features.forEach` loop with its running `percentage +=` computes the left-to-right sum of the members' terms, and stops at the first error |
| Coverage.ComputeCoverage | libs/api.js:78-90 | the body of the loop over the results computes the coverage by AOI type: the sum for FeatureCollection, one term for Feature and Polygon, 0 otherwise |
| Coverage.FilterByCoverage | libs/api.js:74-96 | the loop over the results pushes exactly the results the filter function keeps, and throws the first error a result's coverage throws |
| Coverage.SumCoveragePrefixError | libs/api.js:82-84 | once a member's term has thrown, the whole sum throws that error |
| Values.FilterEachPrefixError | libs/api.js:77-94 | once the test has thrown on one result, the remaining results are never tested and the filter throws that error |
| Coverage.TermIsPart | libs/api.js:63-64 | on an object result and a non-zero AOI area, a term is `area(intersection) / aoiArea * 100` |
| Coverage.TotalPercentLast | libs/api.js:82-84 | the sum over a FeatureCollection's members equals the sum over all but the last member plus the last member's term |
| Coverage.SumCoverageIsTotal | libs/api.js:79-84 | the running sum equals the plain sum of each member's overlap area divided by the whole AOI's area, times 100 |
| Coverage.FeatureCollectionCoverage | libs/api.js:81-84 | a FeatureCollection AOI covers a result by the sum of its members' percentages, each taken against the whole AOI |
| Coverage.TwoHalvesCoverFully | libs/api.js:81-84 | two members each overlapping half of the AOI's area give 100, not 50 (a sum, not an average) |
| Coverage.FeatureCoverage | libs/api.js:85-86 | a Feature AOI gives one term computed with its `geometry` |
| Coverage.PolygonFullCoverage | libs/api.js:87-93 | a Polygon AOI whose overlap is its whole area covers 100%: threshold 100 keeps the result (inclusive `>=`) and 100.01 does not |
| Coverage.OtherTypeCoversNothing | libs/api.js:79-91 | an AOI of any other type covers 0%, and the result is kept exactly when 0 reaches the threshold |
| Coverage.TotalPercentNoOverlap | libs/api.js:57-61 | when no member intersects the scene, the sum over a FeatureCollection is 0 |
| Coverage.NoOverlapCoversNothing | libs/api.js:57-93 | a scene that overlaps no part of the AOI is covered 0%, whatever the AOI's area (0 is returned before anything is divided): threshold 0 keeps it and any positive threshold drops it |
| Coverage.SumCoverageNoOverlap | libs/api.js:57-84 | over members that all miss the scene, the running sum is 0 at any AOI area, 0 included |
| Coverage.EmptyFeatureCollection | libs/api.js:79-93 | an empty FeatureCollection covers every result 0%, so threshold 0 keeps every result |
| Coverage.ZeroAreaAoi | libs/api.js:57-93 | against a Feature or Polygon AOI of area 0 (a Feature wrapping a Point or a LineString), a result it misses is covered 0% and kept exactly when 0 reaches the threshold; a result it overlaps in an area-0 overlap gets `0 / 0 * 100` = NaN and is dropped at every threshold, 0 included |
| Coverage.TotalPercentBounds | libs/api.js:82-84 | with each area between 0 and the AOI's, the sum over n members lies between 0 and 100·n |
| Coverage.FeatureCollectionBounds | libs/api.js:81-84 | a FeatureCollection of n members covers a result between 0 and 100·n percent; the sum is not capped at 100 |
| Coverage.SumCoverageError | libs/api.js:82-83 | the sum over a FeatureCollection throws exactly when some member is `null` |
| Coverage.CoverageError | libs/api.js:78-89 | an object result's coverage throws exactly when the AOI is `null`, or is a FeatureCollection whose `features` is not an array or holds a `null` |
| Coverage.FilterPositions | libs/api.js:77-94 | the output is made of results at strictly increasing positions of the input, and a position is among them exactly when its result's coverage reaches the threshold |
| Coverage.FilterIsSubsequence | libs/api.js:74-96 | the filter's output is an order-preserving subsequence of its input |
| Coverage.FilterKeepsExactly | libs/api.js:91-93 | a result is in the output exactly when it is in the input and its coverage is at least the threshold |
| Coverage.FilterError | libs/api.js:77-94 | the filter throws exactly when some result's coverage throws |
| Coverage.FilterKeepsAll | libs/api.js:91-93 | when every result reaches the threshold, the output equals the input |
| Coverage.FilterNaNThreshold | libs/api.js:73 | a threshold that is NaN (`parseFloat` of a non-numeral) keeps nothing |
| Response.LinksOf | libs/api.js:159 | a falsy or missing `links` gives no links; an array gives its elements; any other truthy value makes the loop throw |
| Response.RewriteLink | libs/api.js:161-164 | it throws exactly on `null`; a link whose `rel` is `collection` gets `API_URL` in front of its href, keeping its other keys; any other link is unchanged |
| Response.RewriteCollectionLinks | libs/api.js:161-164 | the `links.forEach` loop rewrites every link in turn, stopping at the first error |
| Response.RewriteLinksEach | libs/api.js:161-164 | rewriting keeps the number and order of the links and rewrites each on its own; it throws exactly when some link is `null` |
| Response.CollectionLinkMadeAbsolute | libs/api.js:161-164 | a relative `collection` link gets the base URL in front of its href, and the other links around it stay as they are |
| Response.Prefix | libs/api.js:166-168 | the self-link path is `/collections` for the collections index and `/search/stac` otherwise |
| Response.SelfLinkShape | libs/api.js:169 | the self link has exactly the keys `ref` and `href`, with `ref` = `self` and `href` = API_URL + prefix + `?id=` + id; it is not itself a collection link |
| Response.AssembleHit | libs/api.js:157-178 | one pass of the hit loop builds the Feature the hit-to-Feature function gives |
| Response.FeatureContents | libs/api.js:157-178 | a hit's Feature has `properties` = `_source` without bbox/geometry/assets/links/eo:bands, copies the four fields, and has the hit's links rewritten plus one self link, so one more link than the hit; it throws exactly on unusable links |
| Response.AssembleFeaturesEach | libs/api.js:156-179 | the hit loop throws exactly when some hit does; otherwise it makes one feature per hit, in hit order |
| Response.EnvelopeContents | libs/api.js:144-181 | the response reports `found` = `hits.total`, `limit` = size and `page` = the search's page, with one feature per hit in hit order; it throws exactly when some hit has unusable links |
| Values.Prop | libs/api.js:78 | reading a key of an object is `undefined` exactly when the key is absent |
| Values.Member | libs/api.js:81-88 | reading a key of `null` throws a TypeError; an object gives its own property; any other value gives `undefined` |
| Values.Omit | libs/api.js:42 | `_.omit` keeps exactly the other keys, with their values |
| Values.MapEachPrefixError | libs/api.js:161-164 | once a `forEach` body has thrown, the remaining elements are never visited |
| Values.FilterEachError | libs/api.js:77-94 | a filtering `forEach` throws exactly when its test throws on some element |
| Values.FilterEachPositions | libs/api.js:77-94 | where it does not throw, a filtering `forEach` outputs, in input order, exactly the elements at the positions whose test passes |
| Values.FilterEachMembership | libs/api.js:91-93 | an element is in the output exactly when it is in the input and passes the test |
| Values.FilterEachKeepsAll | libs/api.js:91-93 | when every element passes the test, the output is the input |
| Values.MapEachAll | libs/api.js:156-179 | a `forEach` whose body may throw fails exactly when the body fails on some element; otherwise it yields one result per element, in order |
| Numbers.ParseIntShowInt | libs/api.js:46 | `parseInt` reads back the numeral of any integer and stops at the first non-digit after it |
| Numbers.ParseFloatShowInt | libs/api.js:73 | `parseFloat` reads back the numeral of any integer |
| Numbers.LeadingSpaceSkipped | libs/api.js:46 | white space in front of the text (the Unicode space separators, tab, vertical tab, form feed, byte-order mark and line terminators) does not change what `parseInt` or `parseFloat` reads |
| Numbers.ParseIntNumber | libs/api.js:51 | `parseInt` of a number is an integer or NaN, and is the number itself when that is already an integer |
| Api.Search.constructor | libs/api.js:27-55 | params come from `query` when it is non-empty, else from `body` when it is non-empty, else `{}`; `coverage` is moved out of params into `aoiCoverage` (null when absent) and nothing else is removed; size, frm and page are the paging of the remaining params |
| Api.Search.CalculateAoiCoverage | libs/api.js:69-100 | it returns the filtered results (the input unchanged without a truthy coverage and an `intersects`); a parsed `intersects` replaces the text in params |
| Api.Search.BuildSearch | libs/api.js:102-118 | `fields` is removed from params for good; the query has `index`, the body built from params without `fields`, `size`, `from` = frm, and `_source` = the removed `fields`; neither `coverage` nor `fields` is among the params the query body is built from |
| Api.Search.AssembleResponse | libs/api.js:144-181 | the hit loop builds exactly the response the envelope function gives |
| Api.Search.SearchIndex | libs/api.js:130-186 | the query sent is the built query; the callback gets a failed build's error, or the engine's error, or the response assembled from the hits; it is never called when assembling throws |
| Api.Search.SearchItems | libs/api.js:121-127 | when the collections callback is called, whatever it is given, the items search runs with params that no longer hold `fields` and its outcome is reported; when it is never called, neither is the items search run |
| Api.DefaultPaging | libs/api.js:46-53 | with no truthy page, limit or skip: size 1, offset 0, page 1 |
| Api.DefaultPage | libs/api.js:46-53 | without a truthy page the search reads page 1: the offset is 0 whatever numeric size `limit` gives, and page 1 is reported unless `skip` is given |
| Api.DefaultLimit | libs/api.js:51 | without a truthy limit the page size is 1, whatever page and skip are |
| Api.PagingOfText | libs/api.js:46-53 | `page=n&limit=m` gives size m and offset (n-1)·m, which is never negative from page 1 on; page "0" gives offset -m; the reported page is n without skip |
| Api.PagingOfTruthy | libs/api.js:46-53 | a truthy page and a truthy limit are read with `parseInt` as given (no default): size is the limit read, the offset is (page - 1) times it, and the reported page comes from `skip` or the page read |
| Api.IntegerOffset | libs/api.js:52 | the offset of integer page n and size m is the integer (n-1)·m, and -m for page 0 |
| Api.PageZeroNumber | libs/api.js:46 | page 0 given as a number is falsy, so it reads as page 1 and the offset is 0 |
| Api.UnreadablePage | libs/api.js:46-53 | a truthy page that does not read as an integer makes the offset NaN, and the reported page NaN when skip is falsy |
| Api.PagingIntegral | libs/api.js:46-53 | size, offset and reported page are whole numbers whenever they are not NaN |
| Api.OffsetIntegral | libs/api.js:52 | the offset of two whole numbers is a whole number, or NaN |
| Api.SkipOnlyReported | libs/api.js:51-53 | `skip` changes only the page reported back: size and offset do not depend on it |
| Api.ZeroCoverageNumber | libs/api.js:71-98 | coverage given as the number 0 turns the filter off: the results and params are returned unchanged |
| Api.CoverageOfText | libs/api.js:71-73 | coverage given as the text of an integer n, "0" included, filters at n percent |
| Api.FilterAtThreshold | libs/api.js:71-96 | with a truthy coverage and a readable `intersects`, the results are filtered at `parseFloat(coverage)` against the area of the whole AOI |
| Api.FilterInvalidGeojson | libs/api.js:71-72 | an `intersects` text that is not JSON fails with InvalidGeojson and leaves params unchanged |
| Api.FilterKeepsCovered | libs/api.js:71-96 | when the filter applies, it throws exactly when some result's coverage throws; otherwise the output is an order-preserving subsequence, and position by position a result is kept exactly when its coverage reaches the threshold |
| Api.NoDirectiveIdentity | libs/api.js:71-98 | without a truthy coverage or without an `intersects` parameter, the results and the params come back unchanged |
| Api.NoCoverageNoFilter | libs/api.js:39-98 | a request without a `coverage` parameter gets a `null` threshold, so the filter of its search returns the results and params unchanged |
| Api.FilterRepeatable | libs/api.js:71-75 | a second call gives the same results and leaves params as the first call left them, unless the parsed geometry is itself text |
| Api.FieldsOnlyProject | libs/api.js:105-117 | `fields` only sets the projection: the query body, whether building it succeeds, index, size and from do not depend on it |
| Api.ItemsQueryHasNoProjection | libs/api.js:121-127 | the items query of `search_items` has the collections query's body and never a projection |
| Api.SearchOutcomeContents | libs/api.js:134-185 | a failed build gives QueryBuildFailure and the engine is not asked; an engine error is passed on; the callback is never called exactly when the engine answers and some hit has unusable links; a success reports the engine's total, the search's size and page, and one feature per hit in hit order |

## Left out

- The engine client and its promise are not modelled. What the engine answers,
  hits or an error, is a parameter of `Api.Search.SearchIndex` and
  `Api.Search.SearchItems`. The asynchrony is not modelled: the items search
  of `search_items` is modelled as running after the collections callback,
  and an unhandled promise rejection is only the absence of a callback.
- `turf-area`, `turf-intersect`, `JSON.parse`, the `queries` builder and
  `aggregations` are foreign code. The first four are functions in
  `Externals.Host`. `aggregations` is unused by the modelled code.
- The `area` and `intersect` fields of `Externals.Host` are total functions:
  they never throw, and `area` is a finite real, never NaN. turf would throw on some
  malformed geometries. `Coverage.CoverageError` and `Coverage.FilterError`
  say the filter throws exactly on a `null`; this relies on that totality.
- `API_URL` comes from the environment. It is a string field of the `Host`.
- Number-to-string conversion is the JavaScript engine's own algorithm. It is
  the function `Host.showNumber`.
- `console.log`, `logger.error` and the unused `moment` import are output only.
  They are left out.
- Numbers are exact reals with the IEEE special values. Rounding to 64-bit
  doubles and signed zero are not modelled.
- Numbers.ParseIntNumber: a number is truncated directly. JavaScript prints the
  number first, so numbers printed in exponent form (at least 1e21, or below
  1e-6) parse differently. That printing is not modelled.
- Numbers.ParseInt: an array converts to NaN. JavaScript would parse the array
  joined into a string. The same holds for `Numbers.ParseFloat`.
- Event `query` and `body` and a hit's `_source` are modelled as objects. A
  non-object there (a string body, a `null` `_source`) is not modelled.
- The source rewrites link hrefs inside `_source.links` in place. It also
  writes the parsed geometry into the params object, which may be the event's
  own `query` or `body`. The model builds new values, so that aliasing is not
  captured.
- `Values.Member` covers the keys the code reads. It does not model properties
  that strings and arrays inherit, such as a string's `length`.
- Each `Numbers.Add` and `Numbers.Mul` result is an exact real. Overflow to
  infinity of very large sums is not modelled.
