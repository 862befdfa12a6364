/** The page state and what is derived from it: the current products and pagination
    that `setCurrentProducts` replaces, the pipeline `main` runs over them (filters,
    then sort, then indicators), and the option list of the page selector. */
module View {
  import opened Sequences
  import opened Catalog
  import opened Filters
  import opened SortEngine
  import opened Indicators
  import opened Fetcher

  /** The module-level globals `currentProducts` and `currentPagination`;
      `None` is the initial empty object `{}`. */
  class ViewState {
    var currentProducts: seq<Product>
    var currentPagination: Option<Pagination>

    constructor ()
      ensures currentProducts == [] && currentPagination == None
    {
      currentProducts := [];
      currentPagination := None;
    }

    function Current(): Snapshot
      reads this
    {
      Snapshot(currentProducts, currentPagination)
    }

    /** Overwrites both globals with the page just fetched. */
    method SetCurrentProducts(snapshot: Snapshot)
      modifies this
      ensures currentProducts == snapshot.products
      ensures currentPagination == snapshot.pagination
    {
      currentProducts := snapshot.products;
      currentPagination := snapshot.pagination;
    }

    /** A listener's `fetchProducts` followed by `setCurrentProducts`: the page on success,
        the previous globals untouched on failure. This is the corrected fallback of
        `FetchProducts`; the code as written leaves both globals undefined on failure
        (see `FetchProductsAsWritten`). */
    method Refresh(response: Response)
      modifies this
      ensures Current() == FetchProducts(response, old(Current()))
      ensures !Succeeded(response) ==> currentProducts == old(currentProducts) && currentPagination == old(currentPagination)
    {
      var fetched := FetchProducts(response, Current());
      SetCurrentProducts(fetched);
    }

    /** The filtered, sorted products `main` renders and the indicators it computes from
        them. The indicators do not depend on the sort: they are those of the filtered list. */
    method ComputeView(recentChecked: bool, reasonableChecked: bool, sortValue: string, now: int)
      returns (shown: seq<Product>, indicators: Indicators)
      ensures shown == SortView(FilterView(currentProducts, recentChecked, reasonableChecked, now), sortValue)
      ensures multiset(shown) == multiset(FilterView(currentProducts, recentChecked, reasonableChecked, now))
      ensures indicators == CalculateIndicators(FilterView(currentProducts, recentChecked, reasonableChecked, now), now)
    {
      var filteredProducts := ApplyFilters(currentProducts, recentChecked, reasonableChecked, now);
      var sortedProducts := ApplySort(filteredProducts, sortValue);
      assert multiset(sortedProducts) == multiset(filteredProducts);
      indicators := CalculateIndicators(sortedProducts, now);
      IndicatorsPermutationInvariant(sortedProducts, filteredProducts, now);
      shown := sortedProducts;
    }

    /** `main`: fetch the first page with the default page and size and no brand, store it,
        then filter, sort and compute indicators. `url` is the request it makes and
        `response` what came back. */
    method Start(response: Response, recentChecked: bool, reasonableChecked: bool, sortValue: string, now: int)
      returns (url: string, shown: seq<Product>, indicators: Indicators)
      modifies this
      ensures url == QueryUrl(DefaultPage, DefaultSize, "")
      ensures Current() == FetchProducts(response, old(Current()))
      ensures shown == SortView(FilterView(currentProducts, recentChecked, reasonableChecked, now), sortValue)
      ensures indicators == CalculateIndicators(FilterView(currentProducts, recentChecked, reasonableChecked, now), now)
    {
      url := QueryUrl(DefaultPage, DefaultSize, "");
      Refresh(response);
      shown, indicators := ComputeView(recentChecked, reasonableChecked, sortValue, now);
    }
  }

  /** The page selector: the option values and the selected index (`-1` when none). */
  datatype PageSelector = PageSelector(options: seq<int>, selectedIndex: int)

  /** `renderPagination`: one option per page `1..pageCount`, and `currentPage - 1` as the
      selected index, which a select box turns into `-1` when no option has that index.
      The initial `{}` has neither field: no options, nothing selected. */
  function RenderPagination(pagination: Option<Pagination>): (r: PageSelector)
    ensures pagination.None? ==> r == PageSelector([], -1)
    ensures pagination.Some? ==>
      && |r.options| == (if pagination.value.pageCount > 0 then pagination.value.pageCount else 0)
      && (forall i :: 0 <= i < |r.options| ==> r.options[i] == i + 1)
    ensures pagination.Some? ==> forall k :: k in r.options <==> 1 <= k <= pagination.value.pageCount
    ensures -1 <= r.selectedIndex < |r.options|
    ensures r.selectedIndex >= 0 ==> pagination.Some? && r.options[r.selectedIndex] == pagination.value.currentPage
    ensures r.selectedIndex == -1 <==> pagination.None? || pagination.value.currentPage !in r.options
  {
    match pagination
    case None => PageSelector([], -1)
    case Some(Pagination(currentPage, pageCount, _)) =>
      var length := if pageCount > 0 then pageCount else 0;
      var options := seq(length, index => index + 1);
      assert forall k :: k in options <==> 1 <= k <= pageCount by {
        forall k | 1 <= k <= pageCount ensures k in options {
          assert options[k - 1] == k;
        }
      }
      var index := currentPage - 1;
      PageSelector(options, if 0 <= index < length then index else -1)
  }
}
