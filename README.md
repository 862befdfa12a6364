# Clear Fashion product view: a verified model

This project models the product-view pipeline of the Clear Fashion browser client
(`client/v2/port1.js`) and proves properties of it. The client fetches a page of products
from the Clear Fashion API and keeps it as the current snapshot. It then filters the snapshot
(recent products, reasonably priced products, favorites) and sorts it by price or release date.
It also computes indicators: the count of new products, the p50/p90/p95 prices and the last
release date. Users can toggle favorites, which are kept in a persisted list of uuids.

Modules, one per part of the pipeline:

- `Sequences`: `Option`, order-preserving `Filter`, and subsequences, with their lemmas.
- `Sorting`: the stable sort, both as a specification on sequences (`SortBy`, insertion
  sort by an integer rank) and as the in-place array sort that `Array.prototype.sort` runs
  on the copy `[...products]`.
- `Catalog`: the `Product` and `Pagination` records and the length of a day in milliseconds.
- `Filters`: `filterByRecent`, `filterByReasonablePrice`, `filterByFavorites`, `applyFilters`.
- `SortEngine`: the dispatch table of `applySort` and the sort of a copy.
- `Decimal`: the decimal text of integers. The URL template uses it, and so do the keys
  of the `Percentiles` object.
- `Indicators`: `getRecentProducts`, `Percentiles`, `findLastReleasedDate`, `calculateIndicators`.
- `Favorites`: the favorites list as a class whose `seq<string>` field the click handler rewrites.
- `Fetcher`: the query URL of `fetchProducts` and what it hands back for each kind of response.
- `View`: the globals `currentProducts`/`currentPagination` as a class, `setCurrentProducts`,
  the pipeline of `main`, and the option list of `renderPagination`.

How the model represents the source's inputs:

- Dates are integer millisecond timestamps.
- The clock (`new Date()`, `Date.now()`) is a parameter `now`.
- Prices are integers.
- The checkbox states and the sort select value are parameters.
- The network response is a `Response` value: `Failed` stands for a rejected `fetch` or a
  body that is not JSON, and `Body(success, data)` for a decoded body.
- The persisted favorites list is a `seq<string>`. The value read from storage is an
  `Option`, where `None` is the missing slot that `|| []` turns into `[]`.

## Model

| member | source | states |
|---|---|---|
| Filters.FilterByRecent | client/v2/port1.js:166-170 | keeps exactly the products released at or after `now - 14 days` (inclusive), with their multiplicities, as a subsequence of the input |
| Filters.FilterByReasonablePrice | client/v2/port1.js:174-176 | keeps exactly the products with `price <= maxPrice` (boundary included), with their multiplicities, in input order |
| Filters.FilterByFavorites | client/v2/port1.js:276-279 | keeps exactly the products whose uuid is in the favorites list, with their multiplicities, in input order |
| Filters.ApplyFilters | client/v2/port1.js:179-191 | the step-by-step reassignment yields `FilterView`; both toggles off returns the input itself; a product is kept iff it passes every checked test; the result is a subsequence of the input |
| Filters.FilterViewIsOneFilter | client/v2/port1.js:179-191 | recency filter then price filter equals a single order-preserving filter by the conjunction of the checked tests (both on: exactly the products passing both) |
| Sorting.SortInPlace | client/v2/port1.js:206 | the in-place insertion sort of the array leaves it equal to the specification sort `SortBy` of its old contents |
| Sorting.SortByPermutation | client/v2/port1.js:206 | the sort is a permutation of its input |
| Sorting.SortBySorted | client/v2/port1.js:206 | the sort is non-decreasing in the comparator's rank |
| Sorting.SortByStable | client/v2/port1.js:206 | the elements of any one rank appear in the same order as in the input (stability of `Array.prototype.sort`) |
| Sorting.SortedUnique | client/v2/port1.js:219 | two ascending integer sequences with the same elements are equal: the sorted price list is determined by the multiset of prices |
| SortEngine.ParseSortKey | client/v2/port1.js:198-205 | the dispatch table has an entry exactly for the four names `price-asc`, `price-desc`, `date-asc`, `date-desc`, and each name selects its own comparator |
| SortEngine.SortViewCorrect | client/v2/port1.js:199-202 | each comparator yields a permutation, ascending or descending in price or release date as the key says, with ties kept in input order |
| SortEngine.ApplySort | client/v2/port1.js:197-207 | an unknown or unset key returns the input itself; a known key returns a stable sorted permutation of a copy of the input |
| Indicators.GetRecentProducts | client/v2/port1.js:213-216 | keeps exactly the products released strictly after `now - days` days, with their multiplicities, in input order |
| Indicators.RecentCountVersusRecentFilter | client/v2/port1.js:213-216 | the strict list is a subsequence of the inclusive `filterByRecent` list (lines 166-170); the two lengths differ by the number of products released exactly at the threshold, and the lists are equal iff there are none |
| Indicators.PercentileIndexInRange | client/v2/port1.js:221 | for a non-empty list and `0 <= p <= 100` the rounded index lies in `[0, n-1]` |
| Indicators.PercentileIndexMonotone | client/v2/port1.js:221 | the rounded index never decreases as `p` grows |
| Indicators.Percentile | client/v2/port1.js:219-222 | no value for an empty list (`prices[index]` is `undefined`); a value for every `p` in `0..100` otherwise; the value is one of the prices |
| Indicators.PercentileMonotone | client/v2/port1.js:219-222 | a larger percentile never yields a smaller price |
| Indicators.PercentileRank | client/v2/port1.js:219-222 | the price at index `k` has at least `k + 1` prices at or below it and at least `n - k` at or above it |
| Indicators.PercentileOfSingleton | client/v2/port1.js:218-225 | every percentile of a one-product list is that product's price |
| Indicators.Percentiles | client/v2/port1.js:218-225 | the reduced object holds each requested percentile under its decimal text; every key is a decimal numeral |
| Indicators.PercentilesKeys | client/v2/port1.js:218-225 | the reduced object, started from `{}`, has exactly the keys of the requested percentiles and no others |
| Indicators.FindLastReleasedDate | client/v2/port1.js:227-230 | no value exactly for an empty list; otherwise a date at or after every release date and equal to one of them |
| Indicators.CalculateIndicators | client/v2/port1.js:232-237 | the count of strictly recent products (never above the list length), the p50/p90/p95 percentiles read under their keys `"50"`/`"90"`/`"95"`, and the last release date; for a non-empty list all are present and `p50 <= p90 <= p95` |
| Indicators.CalculateIndicatorsAsWritten | client/v2/port1.js:234 | destructuring `{ p50, p90, p95 }` from the percentile object leaves all three `undefined` for every list |
| Indicators.AsWrittenLosesPercentiles | client/v2/port1.js:234 | for one product priced 10 the source yields no median where the intended one is 10 |
| Indicators.PricesPermutation | client/v2/port1.js:219 | lists with the same products have the same multiset of prices |
| Indicators.LastReleasedPermutation | client/v2/port1.js:227-230 | lists with the same products have the same last release date |
| Indicators.IndicatorsPermutationInvariant | client/v2/port1.js:244-246 | the indicators of a permutation are the same, so computing them on the sorted list equals computing them on the filtered list |
| Decimal.NatToString | client/v2/port1.js:72 | the text of a natural number is a non-empty run of decimal digits with no leading zero, and starts with `0` only for zero itself |
| Decimal.NatToStringRoundTrip | client/v2/port1.js:72 | reading back the decimal text of a natural number gives the number |
| Decimal.IntToStringRoundTrip | client/v2/port1.js:72 | reading back the decimal text of an integer gives the integer |
| Decimal.NatToStringInjective | client/v2/port1.js:222 | distinct percentiles get distinct object keys |
| Fetcher.QueryUrl | client/v2/port1.js:72-76 | the URL always starts with `base?page=<page>&size=<size>`, and it is longer exactly when the brand is non-empty, by `&brand=<brand>` |
| Fetcher.QueryUrlRoundTrip | client/v2/port1.js:72-76 | page, size and brand can be read back out of the URL |
| Fetcher.QueryUrlInjective | client/v2/port1.js:72-76 | different queries give different URLs |
| Fetcher.FetchProducts | client/v2/port1.js:78-90 | a successful body gives its page and pagination; a non-success body or a failure gives the previous snapshot unchanged |
| Fetcher.FetchProductsAsWritten | client/v2/port1.js:81-89 | the fallback object as written gives its callers `undefined` products and pagination |
| Fetcher.FallbackAsWrittenLosesSnapshot | client/v2/port1.js:83 | on `{ success: false }` the source loses the previous products while the intended fallback keeps them |
| Favorites.Toggled | client/v2/port1.js:259-268 | the toggled id changes membership; every other id keeps its membership; a removal drops every occurrence of the id and keeps every other entry with its multiplicity, in order; an addition appends the id at the end |
| Favorites.ToggleTwice | client/v2/port1.js:259-268 | toggling twice restores every id's membership, and the list itself when the id was absent |
| Favorites.FilterByFavoritesAfterToggle | client/v2/port1.js:276-279 | after a toggle the favorites filter keeps the toggled product iff it has just become a favorite, and keeps every other product as before |
| Favorites.FavoritesStore.constructor | client/v2/port1.js:258 | a missing stored list reads as the empty list |
| Favorites.FavoritesStore.HandleFavoriteButtonClick | client/v2/port1.js:255-271 | the stored list becomes the toggled list, the id's membership flips, and the button shows `★` exactly when the id is now a favorite |
| View.ViewState.constructor | client/v2/port1.js:22-23 | no current products and no pagination at start |
| View.ViewState.SetCurrentProducts | client/v2/port1.js:55-58 | both globals are overwritten by the snapshot |
| View.ViewState.Refresh | client/v2/port1.js:296-300 | the fetch-then-`setCurrentProducts` step of the page-size listener (and of the page and brand listeners at lines 306-311 and 317-321): the globals become what `fetchProducts` hands back, and are unchanged on a failed fetch, because Refresh is built on the corrected `Fetcher.FetchProducts` of the line-83 finding |
| View.ViewState.ComputeView | client/v2/port1.js:244-246 | the rendered list is the sort of the filtered snapshot and a permutation of it; the indicators are those of the filtered snapshot |
| View.ViewState.Start | client/v2/port1.js:239-246 | requests the default URL `QueryUrl(1, 12, "")`, stores the page fetched, then returns the filtered sorted products and their indicators |
| Fetcher.DefaultQueryUrl | client/v2/port1.js:70-72 | with every argument defaulted the request is `https://clear-fashion-api.vercel.app?page=1&size=12` |
| View.RenderPagination | client/v2/port1.js:126-135 | the options are exactly `1..pageCount` in order; the selected option is `currentPage` when it is one of them, and the index is `-1` otherwise |

## Left out

- DOM and rendering: every `querySelector`, the markup of `renderProducts`, the `innerHTML`
  writes of `renderIndicators`, and the listener wiring are user interface, not logic.
- Network, JSON decoding, `console.error`, and the `try`/`catch`: these are I/O. They are
  abstracted into the `Response` value.
- `localStorage` and `JSON.parse`/`JSON.stringify`: these are foreign calls. The stored
  list is a value, and the name of its slot, `favoriteProducts`, does not appear in the model.
- Favorites.FavoritesStore.constructor: models only a missing slot. Unparseable stored data
  does not degrade to an empty list: the code only handles `null`, `JSON.parse` throws on
  invalid text, and nothing catches it at line 258 or line 277. The model follows the code.
- Filters.FilterByRecent: the code moves back 14 calendar days with `setDate`, which is
  not always 14 × 86 400 000 ms across a daylight-saving change. The model subtracts an
  exact number of milliseconds, as `getRecentProducts` does.
- Date parsing (`new Date(string)`), time zones, and unparseable dates (`NaN`) are left out.
  Release dates are exact instants.
- Floating point is left out: prices are exact integers. The model computes
  `Math.round((n-1) * (p/100))` as `((n-1)*p + 50) / 100` in exact arithmetic. Binary
  rounding of `p/100` is ignored.
- Indicators.FindLastReleasedDate: the empty-list result of the source (`Math.max()` is
  `-Infinity`, an Invalid Date) is modelled as `None`. The engine's limit on the number of
  spread arguments is not modelled.
- Indicators.Percentile: the empty-list `undefined` is `None`. Negative percentiles cannot
  occur, since the argument is a `nat`.
- `render` and `applyFiltersAndSort` are broken code and are not modelled. `render` renders
  twice and calls `renderIndicators` without its arguments. `applyFiltersAndSort` uses
  the undeclared `filteredProducts` and `checkboxFavorites`.
- View.ViewState.Start and View.ViewState.ComputeView: these model the intended pipeline of
  `main` (lines 239-250). The file defines `main` but never calls it, so as written
  this pipeline, and the only call to `calculateIndicators`, never run. Line 340 also
  reads the undeclared `checkboxFavorites`. Unless the page has an element with that id,
  which the browser exposes as a global, this throws a `ReferenceError` while the script
  loads. The `DOMContentLoaded` listener at lines 342-347 is then never registered. The
  listeners registered before line 340 still work, and Refresh models their
  fetch-then-store step. The model does not capture the script stopping at load.
- View.ViewState.Refresh: is built on the corrected `Fetcher.FetchProducts`. As written, a
  failed fetch hands `{currentProducts, currentPagination}` to `setCurrentProducts`, which
  reads `result` and `meta` (line 55), so both globals become `undefined`. The model keeps
  them unchanged instead; `Fetcher.FallbackAsWrittenLosesSnapshot` shows the as-written loss.
- SortEngine.ParseSortKey: assumes the sort value is one the select box offers.
  `sortFunctions[selectSort.value]` (line 205) also finds members inherited from
  `Object.prototype`, and the model does not capture that. `"constructor"` finds
  `Object`, which gives back an unsorted copy. `"toString"` makes `applySort` return the
  string `"[object Undefined]"`. `"valueOf"` throws. The model maps every name outside the
  four keys to "no entry", so the input comes back untouched.
- The `data uuid` attribute typo (line 109) is not modelled. Because of it, the click
  handler reads an `undefined` uuid. The model takes the uuid as an argument.
- Overlapping fetches that resolve out of order are concurrency, which is not modelled.
- SortEngine.ApplySort: that the input is left unmodified follows from `seq` being a value.
  The copy is an explicit array sorted in place.
- View.RenderPagination: the options are page numbers, not their `<option>` markup. The
  out-of-range index becoming `-1` is the select element's behaviour. The initial `{}` is
  modelled as `None`, with no options and `-1` selected.

## Findings

| source | as written | input that shows it | evidently intended | confidence | as-written member | corrected member |
|---|---|---|---|---|---|---|
| client/v2/port1.js:83 | the fallback returns `{currentProducts, currentPagination}`, but every caller destructures `result` and `meta`, so they get `undefined` | a body `{ success: false }` after a page has been loaded | hand the previous snapshot back under `result`/`meta`, the last known good page | not executed | Fetcher.FallbackAsWrittenLosesSnapshot | Fetcher.FetchProducts |
| client/v2/port1.js:234 | `const { p50, p90, p95 } = Percentiles(...)` reads keys the object never holds, since it is keyed `50`, `90`, `95`, so every percentile indicator is `undefined` | a list of one product priced 10 | read the entries `50`, `90`, `95`, giving 10 for each | not executed | Indicators.AsWrittenLosesPercentiles | Indicators.CalculateIndicators |
