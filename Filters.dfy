/** The filter engine: order-preserving predicate filters over the current
    products and their composition by the two checkboxes. */
module Filters {
  import opened Sequences
  import opened Catalog

  /** Default window of `filterByRecent`, in days. */
  const RecentDays: int := 14
  /** Default ceiling of `filterByReasonablePrice`. */
  const ReasonableMaxPrice: int := 50

  /** The instant `days` days before `now`. */
  function RecentThreshold(now: int, days: int): int {
    now - days * DayMs
  }

  /** Released at or after the threshold: the inclusive test of `filterByRecent`. */
  function ReleasedSince(threshold: int): Product -> bool {
    (p: Product) => p.released >= threshold
  }

  function PricedAtMost(maxPrice: int): Product -> bool {
    (p: Product) => p.price <= maxPrice
  }

  function IsFavoriteIn(favorites: seq<string>): Product -> bool {
    (p: Product) => p.uuid in favorites
  }

  function FilterByRecent(products: seq<Product>, now: int, days: int): (r: seq<Product>)
    ensures forall p :: p in r <==> p in products && p.released >= RecentThreshold(now, days)
    ensures forall p ::
      multiset(r)[p] == if p.released >= RecentThreshold(now, days) then multiset(products)[p] else 0
    ensures IsSubsequence(r, products)
  {
    var keep := ReleasedSince(RecentThreshold(now, days));
    FilterMultiset(keep, products);
    FilterMembers(keep, products);
    FilterIsSubsequence(keep, products);
    Filter(keep, products)
  }

  function FilterByReasonablePrice(products: seq<Product>, maxPrice: int): (r: seq<Product>)
    ensures forall p :: p in r <==> p in products && p.price <= maxPrice
    ensures forall p :: multiset(r)[p] == if p.price <= maxPrice then multiset(products)[p] else 0
    ensures IsSubsequence(r, products)
  {
    var keep := PricedAtMost(maxPrice);
    FilterMultiset(keep, products);
    FilterMembers(keep, products);
    FilterIsSubsequence(keep, products);
    Filter(keep, products)
  }

  /** The products whose uuid is in the persisted favorites list. */
  function FilterByFavorites(products: seq<Product>, favorites: seq<string>): (r: seq<Product>)
    ensures forall p :: p in r <==> p in products && p.uuid in favorites
    ensures forall p :: multiset(r)[p] == if p.uuid in favorites then multiset(products)[p] else 0
    ensures IsSubsequence(r, products)
  {
    var keep := IsFavoriteIn(favorites);
    FilterMultiset(keep, products);
    FilterMembers(keep, products);
    FilterIsSubsequence(keep, products);
    Filter(keep, products)
  }

  /** What `applyFilters` lets through for the given checkbox states. */
  predicate Shown(p: Product, recentChecked: bool, reasonableChecked: bool, now: int) {
    && (recentChecked ==> p.released >= RecentThreshold(now, RecentDays))
    && (reasonableChecked ==> p.price <= ReasonableMaxPrice)
  }

  function ShownBy(recentChecked: bool, reasonableChecked: bool, now: int): Product -> bool {
    (p: Product) => Shown(p, recentChecked, reasonableChecked, now)
  }

  /** What `applyFilters` returns: the recency filter if its checkbox is checked, then the
      price filter if its checkbox is checked, each with its default parameter. */
  function FilterView(products: seq<Product>, recentChecked: bool, reasonableChecked: bool, now: int): seq<Product> {
    var afterRecent := if recentChecked then FilterByRecent(products, now, RecentDays) else products;
    if reasonableChecked then FilterByReasonablePrice(afterRecent, ReasonableMaxPrice) else afterRecent
  }

  /** The two filters in sequence are one filter by the conjunction of the checked tests:
      with both checkboxes checked, exactly the products passing both, in input order. */
  lemma FilterViewIsOneFilter(products: seq<Product>, recentChecked: bool, reasonableChecked: bool, now: int)
    ensures FilterView(products, recentChecked, reasonableChecked, now)
         == Filter(ShownBy(recentChecked, reasonableChecked, now), products)
  {
    var recent := ReleasedSince(RecentThreshold(now, RecentDays));
    var cheap := PricedAtMost(ReasonableMaxPrice);
    var shown := ShownBy(recentChecked, reasonableChecked, now);
    if recentChecked && reasonableChecked {
      FilterFilter(recent, cheap, shown, products);
    } else if recentChecked {
      FilterEquivalent(recent, shown, products);
    } else if reasonableChecked {
      FilterEquivalent(cheap, shown, products);
    } else {
      FilterKeepsAll(shown, products);
    }
  }

  /** Applies the recency filter if its checkbox is checked, then the price filter if
      its checkbox is checked, each with its default parameter. */
  method ApplyFilters(products: seq<Product>, recentChecked: bool, reasonableChecked: bool, now: int)
    returns (filtered: seq<Product>)
    ensures filtered == FilterView(products, recentChecked, reasonableChecked, now)
    ensures !recentChecked && !reasonableChecked ==> filtered == products
    ensures forall p :: p in filtered <==> p in products && Shown(p, recentChecked, reasonableChecked, now)
    ensures forall p ::
      multiset(filtered)[p] == if Shown(p, recentChecked, reasonableChecked, now) then multiset(products)[p] else 0
    ensures IsSubsequence(filtered, products)
  {
    SubsequenceReflexive(products);
    filtered := products;
    if recentChecked {
      filtered := FilterByRecent(filtered, now, RecentDays);
    }
    if reasonableChecked {
      var before := filtered;
      filtered := FilterByReasonablePrice(filtered, ReasonableMaxPrice);
      SubsequenceTransitive(filtered, before, products);
    }
  }
}
