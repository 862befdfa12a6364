/** The indicator engine: the count of new products, the price percentiles and the
    last release date of a product list. */
module Indicators {
  import opened Sequences
  import opened Sorting
  import opened Catalog
  import opened Filters
  import opened Decimal

  /** Released strictly after the threshold: the test of `getRecentProducts`. */
  function ReleasedAfter(threshold: int): Product -> bool {
    (p: Product) => p.released > threshold
  }

  function ReleasedOn(instant: int): Product -> bool {
    (p: Product) => p.released == instant
  }

  /** The products released strictly after `days` days before `now`. */
  function GetRecentProducts(products: seq<Product>, now: int, days: int): (r: seq<Product>)
    ensures forall p :: p in r <==> p in products && p.released > RecentThreshold(now, days)
    ensures forall p ::
      multiset(r)[p] == if p.released > RecentThreshold(now, days) then multiset(products)[p] else 0
    ensures IsSubsequence(r, products)
  {
    var keep := ReleasedAfter(RecentThreshold(now, days));
    FilterMultiset(keep, products);
    FilterMembers(keep, products);
    FilterIsSubsequence(keep, products);
    Filter(keep, products)
  }

  /** The indicator's strict count and the filter's inclusive one differ by exactly the
      products released at the threshold instant, and agree when there is none. */
  lemma RecentCountVersusRecentFilter(products: seq<Product>, now: int, days: int)
    ensures IsSubsequence(GetRecentProducts(products, now, days), FilterByRecent(products, now, days))
    ensures |FilterByRecent(products, now, days)|
         == |GetRecentProducts(products, now, days)| + |Filter(ReleasedOn(RecentThreshold(now, days)), products)|
    ensures GetRecentProducts(products, now, days) == FilterByRecent(products, now, days)
        <==> forall p :: p in products ==> p.released != RecentThreshold(now, days)
  {
    var t := RecentThreshold(now, days);
    var since, after, on := ReleasedSince(t), ReleasedAfter(t), ReleasedOn(t);
    FilterFilter(since, after, after, products);
    FilterIsSubsequence(after, Filter(since, products));
    FilterLengthSplit(since, after, on, products);
    FilterMembers(on, products);
    if forall p :: p in products ==> p.released != t {
      FilterEquivalent(after, since, products);
    } else {
      var p :| p in products && p.released == t;
      assert p in Filter(on, products);
    }
  }

  /** `products.map(({ price }) => price)`. */
  function Prices(products: seq<Product>): (r: seq<int>)
    ensures |r| == |products|
  {
    seq(|products|, i requires 0 <= i < |products| => products[i].price)
  }

  /** The prices sorted by the numeric comparator `(a, b) => a - b`. */
  function SortedPrices(products: seq<Product>): (r: seq<int>)
    ensures |r| == |products|
  {
    SortBy(Prices(products), Identity)
  }

  /** `Math.round((n - 1) * (p / 100))` in exact arithmetic: Dafny's division rounds
      toward negative infinity, so this is the floor of the quotient plus one half. */
  function PercentileIndex(n: int, p: int): int {
    ((n - 1) * p + 50) / 100
  }

  lemma PercentileIndexInRange(n: int, p: int)
    requires n >= 1 && 0 <= p <= 100
    ensures 0 <= PercentileIndex(n, p) <= n - 1
  {
    assert 0 <= (n - 1) * p;
    assert (n - 1) * (100 - p) >= 0;
    assert (n - 1) * p <= (n - 1) * 100;
  }

  lemma PercentileIndexMonotone(n: int, p: int, q: int)
    requires n >= 1 && p <= q
    ensures PercentileIndex(n, p) <= PercentileIndex(n, q)
  {
    assert (n - 1) * (q - p) >= 0;
    assert (n - 1) * p <= (n - 1) * q;
  }

  /** The price at the rounded rank `p` percent of the way through the sorted prices;
      `None` where JavaScript reads past the end and gets `undefined`. */
  function Percentile(products: seq<Product>, p: nat): (r: Option<int>)
    ensures products == [] ==> r == None
    ensures products != [] && p <= 100 ==> r.Some?
    ensures r.Some? ==> r.value in Prices(products)
  {
    var prices := SortedPrices(products);
    var k := PercentileIndex(|prices|, p);
    assert products != [] && p <= 100 ==> 0 <= k < |prices| by {
      if products != [] && p <= 100 {
        PercentileIndexInRange(|prices|, p);
      }
    }
    if 0 <= k < |prices| then
      SortByPermutation(Prices(products), Identity);
      assert prices[k] in multiset(Prices(products));
      Some(prices[k])
    else None
  }

  /** A larger percentile never yields a smaller price. */
  lemma PercentileMonotone(products: seq<Product>, p: nat, q: nat)
    requires products != [] && p <= q <= 100
    ensures Percentile(products, p).value <= Percentile(products, q).value
  {
    var n := |products|;
    PercentileIndexInRange(n, p);
    PercentileIndexInRange(n, q);
    PercentileIndexMonotone(n, p, q);
    SortBySorted(Prices(products), Identity);
    var i, j := PercentileIndex(n, p), PercentileIndex(n, q);
    if i < j {
      assert Identity(SortedPrices(products)[i]) <= Identity(SortedPrices(products)[j]);
    }
  }

  function AtMost(v: int): int -> bool {
    x => x <= v
  }

  function AtLeast(v: int): int -> bool {
    x => x >= v
  }

  lemma SortedCountAtMost(sorted: seq<int>, k: nat)
    requires SortedBy(sorted, Identity) && k < |sorted|
    ensures |Filter(AtMost(sorted[k]), sorted)| >= k + 1
  {
    var v := sorted[k];
    assert forall i :: 0 <= i <= k ==> Identity(sorted[i]) <= Identity(sorted[k]);
    assert sorted == sorted[..k + 1] + sorted[k + 1..];
    FilterAppend(AtMost(v), sorted[..k + 1], sorted[k + 1..]);
    FilterKeepsAll(AtMost(v), sorted[..k + 1]);
  }

  lemma SortedCountAtLeast(sorted: seq<int>, k: nat)
    requires SortedBy(sorted, Identity) && k < |sorted|
    ensures |Filter(AtLeast(sorted[k]), sorted)| >= |sorted| - k
  {
    var v := sorted[k];
    assert forall i :: k <= i < |sorted| ==> Identity(sorted[k]) <= Identity(sorted[i]);
    assert sorted == sorted[..k] + sorted[k..];
    FilterAppend(AtLeast(v), sorted[..k], sorted[k..]);
    FilterKeepsAll(AtLeast(v), sorted[k..]);
  }

  /** The rank meaning of the `p`-th percentile at index `k`: at least `k + 1` prices are
      at or below it and at least `n - k` prices are at or above it. */
  lemma PercentileRank(products: seq<Product>, p: nat)
    requires products != [] && p <= 100
    ensures |Filter(AtMost(Percentile(products, p).value), Prices(products))|
         >= PercentileIndex(|products|, p) + 1
    ensures |Filter(AtLeast(Percentile(products, p).value), Prices(products))|
         >= |products| - PercentileIndex(|products|, p)
  {
    var prices, sorted := Prices(products), SortedPrices(products);
    var k := PercentileIndex(|products|, p);
    PercentileIndexInRange(|products|, p);
    var v := sorted[k];
    assert Percentile(products, p).value == v;
    SortBySorted(prices, Identity);
    SortByPermutation(prices, Identity);
    SortedCountAtMost(sorted, k);
    SortedCountAtLeast(sorted, k);
    FilterPermutation(AtMost(v), sorted, prices);
    FilterPermutation(AtLeast(v), sorted, prices);
  }

  /** Every percentile of a single product is its price. */
  lemma PercentileOfSingleton(x: Product, p: nat)
    ensures Percentile([x], p) == Some(x.price)
  {
    assert PercentileIndex(1, p) == 0;
    assert Prices([x]) == [x.price];
  }

  /** The keys of the requested percentiles: those of all but the last, and the last's. */
  lemma KeysSnoc(percentiles: seq<nat>)
    requires percentiles != []
    ensures (set p | p in percentiles :: NatToString(p))
         == (set p | p in percentiles[..|percentiles| - 1] :: NatToString(p)) + {NatToString(percentiles[|percentiles| - 1])}
  {
    assert percentiles == percentiles[..|percentiles| - 1] + [percentiles[|percentiles| - 1]];
  }

  /** The object built by the `reduce` of `Percentiles`: the key of each requested
      percentile is its decimal text, as for any number used as an object key. */
  function Percentiles(products: seq<Product>, percentiles: seq<nat>): (r: map<string, Option<int>>)
    ensures forall p :: p in percentiles ==> NatToString(p) in r && r[NatToString(p)] == Percentile(products, p)
    ensures forall k :: k in r ==> |k| > 0 && AllDigits(k)
  {
    if percentiles == [] then map[]
    else
      var last := percentiles[|percentiles| - 1];
      var r := Percentiles(products, percentiles[..|percentiles| - 1])[NatToString(last) := Percentile(products, last)];
      assert forall p :: p in percentiles ==> p == last || p in percentiles[..|percentiles| - 1];
      assert forall p :: NatToString(p) == NatToString(last) ==> p == last by {
        forall p | NatToString(p) == NatToString(last) ensures p == last {
          NatToStringInjective(p, last);
        }
      }
      r
  }

  /** The `reduce` starts from `{}` and writes only the requested keys. */
  lemma {:induction false} PercentilesKeys(products: seq<Product>, percentiles: seq<nat>)
    ensures Percentiles(products, percentiles).Keys == set p | p in percentiles :: NatToString(p)
  {
    if percentiles != [] {
      PercentilesKeys(products, percentiles[..|percentiles| - 1]);
      KeysSnoc(percentiles);
    }
  }

  function Lookup(m: map<string, Option<int>>, key: string): Option<int> {
    if key in m then m[key] else None
  }

  /** `Math.max` over the release dates; `None` for an empty list. */
  function FindLastReleasedDate(products: seq<Product>): (r: Option<int>)
    ensures r.None? <==> products == []
    ensures forall p :: p in products ==> r.Some? && p.released <= r.value
    ensures r.Some? ==> exists p :: p in products && p.released == r.value
  {
    if products == [] then None
    else
      var head := products[0].released;
      match FindLastReleasedDate(products[1..])
      case None => Some(head)
      case Some(m) => Some(if head < m then m else head)
  }

  datatype Indicators = Indicators(
    newProductsCount: nat,
    p50: Option<int>,
    p90: Option<int>,
    p95: Option<int>,
    lastReleasedDate: Option<int>)

  /** The three percentiles the indicators ask for, under their keys, in order. */
  lemma StandardPercentiles(products: seq<Product>)
    ensures Lookup(Percentiles(products, [50, 90, 95]), "50") == Percentile(products, 50)
    ensures Lookup(Percentiles(products, [50, 90, 95]), "90") == Percentile(products, 90)
    ensures Lookup(Percentiles(products, [50, 90, 95]), "95") == Percentile(products, 95)
    ensures products != [] ==>
      Percentile(products, 50).value <= Percentile(products, 90).value <= Percentile(products, 95).value
  {
    assert NatToString(50) == "50" && NatToString(90) == "90" && NatToString(95) == "95";
    if products != [] {
      PercentileMonotone(products, 50, 90);
      PercentileMonotone(products, 90, 95);
    }
  }

  /** The indicators of the product list, each percentile read under the key that
      `Percentiles` stores it under (see the finding in the README). */
  function CalculateIndicators(products: seq<Product>, now: int): (r: Indicators)
    ensures r.newProductsCount == |GetRecentProducts(products, now, RecentDays)| <= |products|
    ensures r.p50 == Percentile(products, 50) && r.p90 == Percentile(products, 90) && r.p95 == Percentile(products, 95)
    ensures r.lastReleasedDate == FindLastReleasedDate(products)
    ensures products == [] ==> r == Indicators(0, None, None, None, None)
    ensures products != [] ==>
      && r.p50.Some? && r.p90.Some? && r.p95.Some? && r.lastReleasedDate.Some?
      && r.p50.value <= r.p90.value <= r.p95.value
  {
    var percentiles := Percentiles(products, [50, 90, 95]);
    StandardPercentiles(products);
    Indicators(
      |GetRecentProducts(products, now, RecentDays)|,
      Lookup(percentiles, "50"),
      Lookup(percentiles, "90"),
      Lookup(percentiles, "95"),
      FindLastReleasedDate(products))
  }

  /** `calculateIndicators` as written: it destructures `{ p50, p90, p95 }`, keys the
      `Percentiles` object never holds, so all three read as `undefined`. */
  function CalculateIndicatorsAsWritten(products: seq<Product>, now: int): (r: Indicators)
    ensures r.p50 == None && r.p90 == None && r.p95 == None
  {
    var percentiles := Percentiles(products, [50, 90, 95]);
    assert !AllDigits("p50") && !AllDigits("p90") && !AllDigits("p95") by {
      assert "p50"[0] == "p90"[0] == "p95"[0] == 'p';
    }
    Indicators(
      |GetRecentProducts(products, now, RecentDays)|,
      Lookup(percentiles, "p50"),
      Lookup(percentiles, "p90"),
      Lookup(percentiles, "p95"),
      FindLastReleasedDate(products))
  }

  /** One product priced 10: the source shows no median where the intended one is 10. */
  lemma AsWrittenLosesPercentiles(x: Product, now: int)
    requires x.price == 10
    ensures CalculateIndicatorsAsWritten([x], now).p50 == None
    ensures CalculateIndicators([x], now).p50 == Some(10)
  {
    PercentileOfSingleton(x, 50);
  }

  lemma PricesAppend(a: seq<Product>, b: seq<Product>)
    ensures Prices(a + b) == Prices(a) + Prices(b)
  {
    assert forall i :: 0 <= i < |a + b| ==> Prices(a + b)[i] == (Prices(a) + Prices(b))[i];
  }

  /** Removing the element at `k` removes its price from the prices. */
  lemma PricesRemove(t: seq<Product>, k: nat)
    requires k < |t|
    ensures multiset(Prices(t)) == multiset(Prices(t[..k] + t[k + 1..])) + multiset{t[k].price}
    ensures multiset(t[..k] + t[k + 1..]) == multiset(t) - multiset{t[k]}
  {
    assert t == t[..k] + [t[k]] + t[k + 1..];
    PricesAppend(t[..k], t[k + 1..]);
    PricesAppend(t[..k], [t[k]]);
    PricesAppend(t[..k] + [t[k]], t[k + 1..]);
    assert Prices([t[k]]) == [t[k].price];
  }

  lemma PricesHead(s: seq<Product>)
    requires s != []
    ensures multiset(Prices(s)) == multiset(Prices(s[1..])) + multiset{s[0].price}
    ensures multiset(s[1..]) == multiset(s) - multiset{s[0]}
  {
    assert s == [s[0]] + s[1..];
    PricesAppend([s[0]], s[1..]);
    assert Prices([s[0]]) == [s[0].price];
  }

  lemma {:induction false} PricesPermutation(s: seq<Product>, t: seq<Product>)
    requires multiset(s) == multiset(t)
    ensures multiset(Prices(s)) == multiset(Prices(t))
    decreases |s|
  {
    if s == [] {
      assert |t| == |multiset(t)| == 0;
    } else {
      assert s[0] in multiset(t);
      var k :| 0 <= k < |t| && t[k] == s[0];
      PricesRemove(t, k);
      PricesHead(s);
      PricesPermutation(s[1..], t[..k] + t[k + 1..]);
    }
  }

  lemma LastReleasedPermutation(s: seq<Product>, t: seq<Product>)
    requires multiset(s) == multiset(t)
    ensures FindLastReleasedDate(s) == FindLastReleasedDate(t)
  {
    var a, b := FindLastReleasedDate(s), FindLastReleasedDate(t);
    if s == [] {
      assert |t| == |multiset(t)| == 0;
    } else {
      assert s[0] in multiset(t);
      assert t != [];
      var p :| p in s && p.released == a.value;
      var q :| q in t && q.released == b.value;
      assert p in t by { assert p in multiset(s); }
      assert q in s by { assert q in multiset(t); }
      assert a.value <= b.value && b.value <= a.value;
    }
  }

  /** The indicators depend only on which products are listed, not on their order:
      computing them on the sorted list, as the source does, gives those of the filtered one. */
  lemma IndicatorsPermutationInvariant(s: seq<Product>, t: seq<Product>, now: int)
    requires multiset(s) == multiset(t)
    ensures CalculateIndicators(s, now) == CalculateIndicators(t, now)
  {
    FilterPermutation(ReleasedAfter(RecentThreshold(now, RecentDays)), s, t);
    PricesPermutation(s, t);
    SortByPermutation(Prices(s), Identity);
    SortByPermutation(Prices(t), Identity);
    SortBySorted(Prices(s), Identity);
    SortBySorted(Prices(t), Identity);
    SortedUnique(SortedPrices(s), SortedPrices(t));
    assert |s| == |multiset(s)| == |multiset(t)| == |t|;
    LastReleasedPermutation(s, t);
  }
}
