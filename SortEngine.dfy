/** The sort engine: the dispatch table of `applySort` from the sort select box's
    value to a comparator, and the stable sort of a copy of the products. */
module SortEngine {
  import opened Sequences
  import opened Sorting
  import opened Catalog

  datatype SortKey = PriceAsc | PriceDesc | DateAsc | DateDesc

  /** The select box value under which the dispatch table holds each comparator. */
  function KeyName(key: SortKey): string {
    match key
    case PriceAsc => "price-asc"
    case PriceDesc => "price-desc"
    case DateAsc => "date-asc"
    case DateDesc => "date-desc"
  }

  /** Looks up the dispatch table; `None` is a missing entry (an unknown or unset value). */
  function ParseSortKey(value: string): (r: Option<SortKey>)
    ensures r.Some? ==> KeyName(r.value) == value
    ensures forall key :: KeyName(key) == value ==> r == Some(key)
  {
    if value == "price-asc" then Some(PriceAsc)
    else if value == "price-desc" then Some(PriceDesc)
    else if value == "date-asc" then Some(DateAsc)
    else if value == "date-desc" then Some(DateDesc)
    else None
  }

  /** Each comparator of the table is `(a, b) => Rank(key, a) - Rank(key, b)`:
      the descending ones compare `b - a`, which is the ascending order of the negation. */
  function Rank(key: SortKey, p: Product): int {
    match key
    case PriceAsc => p.price
    case PriceDesc => -p.price
    case DateAsc => p.released
    case DateDesc => -p.released
  }

  function KeyRank(key: SortKey): Product -> int {
    p => Rank(key, p)
  }

  /** The value the comparator of `key` looks at. */
  function SortValue(key: SortKey, p: Product): int {
    if key == PriceAsc || key == PriceDesc then p.price else p.released
  }

  /** The products with sort value `v`: the ties among which stability is observed. */
  function HasSortValue(key: SortKey, v: int): Product -> bool {
    p => SortValue(key, p) == v
  }

  /** Ascending or descending in price or release date, as `key` says. */
  predicate InOrder(key: SortKey, s: seq<Product>) {
    match key
    case PriceAsc => forall i, j :: 0 <= i < j < |s| ==> s[i].price <= s[j].price
    case PriceDesc => forall i, j :: 0 <= i < j < |s| ==> s[i].price >= s[j].price
    case DateAsc => forall i, j :: 0 <= i < j < |s| ==> s[i].released <= s[j].released
    case DateDesc => forall i, j :: 0 <= i < j < |s| ==> s[i].released >= s[j].released
  }

  /** What `applySort` returns: the input itself for an unknown key, its stable sort otherwise. */
  function SortView(products: seq<Product>, sortValue: string): seq<Product> {
    match ParseSortKey(sortValue)
    case None => products
    case Some(key) => SortBy(products, KeyRank(key))
  }

  /** Non-decreasing in the rank of `key` is the key's own order. */
  lemma RankedInOrder(key: SortKey, s: seq<Product>)
    requires SortedBy(s, KeyRank(key))
    ensures InOrder(key, s)
  {
    forall i, j | 0 <= i < j < |s| ensures Rank(key, s[i]) <= Rank(key, s[j]) {
      assert KeyRank(key)(s[i]) <= KeyRank(key)(s[j]);
    }
  }

  /** The products of one sort value are the products of one rank. */
  lemma SortValueTies(key: SortKey, v: int, s: seq<Product>)
    ensures Filter(HasSortValue(key, v), s)
         == Filter(RankIs(KeyRank(key), if key == PriceDesc || key == DateDesc then -v else v), s)
  {
    var w := if key == PriceDesc || key == DateDesc then -v else v;
    assert forall i :: 0 <= i < |s| ==> HasSortValue(key, v)(s[i]) == RankIs(KeyRank(key), w)(s[i]);
    FilterEquivalent(HasSortValue(key, v), RankIs(KeyRank(key), w), s);
  }

  /** A known key yields a permutation of the input, in the key's order, with ties in input order. */
  lemma SortViewCorrect(products: seq<Product>, key: SortKey, v: int)
    ensures multiset(SortBy(products, KeyRank(key))) == multiset(products)
    ensures InOrder(key, SortBy(products, KeyRank(key)))
    ensures Filter(HasSortValue(key, v), SortBy(products, KeyRank(key))) == Filter(HasSortValue(key, v), products)
  {
    var rank := KeyRank(key);
    SortByPermutation(products, rank);
    SortBySorted(products, rank);
    RankedInOrder(key, SortBy(products, rank));
    var w := if key == PriceDesc || key == DateDesc then -v else v;
    SortByStable(products, rank, w);
    SortValueTies(key, v, SortBy(products, rank));
    SortValueTies(key, v, products);
  }

  /** Sorts a copy of `products` with the comparator selected by `sortValue`, or returns
      `products` itself when the table has no entry for it. */
  method ApplySort(products: seq<Product>, sortValue: string) returns (sorted: seq<Product>)
    ensures sorted == SortView(products, sortValue)
    ensures ParseSortKey(sortValue) == None ==> sorted == products
    ensures ParseSortKey(sortValue).Some? ==>
      && multiset(sorted) == multiset(products)
      && InOrder(ParseSortKey(sortValue).value, sorted)
      && forall v :: Filter(HasSortValue(ParseSortKey(sortValue).value, v), sorted)
                  == Filter(HasSortValue(ParseSortKey(sortValue).value, v), products)
  {
    match ParseSortKey(sortValue)
    case None =>
      sorted := products;
    case Some(key) =>
      var copy := new Product[|products|](i requires 0 <= i < |products| => products[i]);
      assert copy[..] == products;
      SortInPlace(copy, KeyRank(key));
      sorted := copy[..];
      forall v ensures Filter(HasSortValue(key, v), sorted) == Filter(HasSortValue(key, v), products) {
        SortViewCorrect(products, key, v);
      }
      SortViewCorrect(products, key, 0);
  }
}
