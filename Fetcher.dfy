/** The product fetcher: the query URL `fetchProducts` builds, and what it hands back
    for each kind of response. The network and JSON decoding are abstracted into
    the `Response` value. */
module Fetcher {
  import opened Sequences
  import opened Catalog
  import opened Decimal

  const ApiBase: string := "https://clear-fashion-api.vercel.app"
  const DefaultPage: int := 1
  const DefaultSize: int := 12

  /** The URL without the optional brand parameter. */
  function BaseQuery(page: int, size: int): string {
    ApiBase + "?page=" + IntToString(page) + "&size=" + IntToString(size)
  }

  /** The URL of `fetchProducts(page, size, brand)`; an empty brand is falsy and adds nothing. */
  function QueryUrl(page: int, size: int, brand: string): (url: string)
    ensures BaseQuery(page, size) <= url
    ensures |url| > |BaseQuery(page, size)| <==> brand != ""
    ensures brand != "" ==> url[|BaseQuery(page, size)|..] == "&brand=" + brand
  {
    var url := BaseQuery(page, size);
    if brand != "" then url + "&brand=" + brand else url
  }

  /** The request of a call with every argument defaulted, as `main` makes it. */
  lemma DefaultQueryUrl()
    ensures QueryUrl(DefaultPage, DefaultSize, "") == "https://clear-fashion-api.vercel.app?page=1&size=12"
  {
    assert IntToString(1) == "1";
    assert NatToString(12) == NatToString(1) + [DigitChar(2)] == "12";
  }

  datatype Query = Query(page: int, size: int, brand: string)

  /** The index of the first `c` in `s`, or `|s|` if there is none. */
  function FirstIndex(s: string, c: char): (k: nat)
    ensures k <= |s| && c !in s[..k]
    ensures k < |s| ==> s[k] == c
  {
    if s == [] then 0
    else if s[0] == c then 0
    else
      var k := 1 + FirstIndex(s[1..], c);
      assert s[..k] == [s[0]] + s[1..][..k - 1];
      k
  }

  /** Reads page, size and brand back out of a URL of the form `QueryUrl` builds. */
  function ParseQueryUrl(url: string): Option<Query> {
    var prefix := ApiBase + "?page=";
    if prefix <= url then ParseParameters(url[|prefix|..]) else None
  }

  /** `<page>&size=<size>` followed by the brand part. */
  function ParseParameters(s: string): Option<Query> {
    var k := FirstIndex(s, '&');
    var afterPage := s[k..];
    if "&size=" <= afterPage then Combine(ParseInt(s[..k]), ParseSizeAndBrand(afterPage[6..])) else None
  }

  function Combine(page: Option<int>, sizeAndBrand: Option<(int, string)>): Option<Query> {
    if page.Some? && sizeAndBrand.Some? then Some(Query(page.value, sizeAndBrand.value.0, sizeAndBrand.value.1))
    else None
  }

  function ParseSizeAndBrand(s: string): Option<(int, string)> {
    var k := FirstIndex(s, '&');
    match (ParseInt(s[..k]), ParseBrand(s[k..]))
    case (Some(size), Some(brand)) => Some((size, brand))
    case _ => None
  }

  /** Nothing, or `&brand=` followed by a non-empty brand that runs to the end. */
  function ParseBrand(s: string): Option<string> {
    if s == "" then Some("")
    else if "&brand=" <= s && |s| > 7 then Some(s[7..])
    else None
  }

  function BrandSuffix(brand: string): string {
    if brand != "" then "&brand=" + brand else ""
  }

  lemma {:induction false} FirstIndexAt(a: string, b: string, c: char)
    requires c !in a && (b == [] || b[0] == c)
    ensures FirstIndex(a + b, c) == |a|
  {
    if a != [] {
      assert (a + b)[1..] == a[1..] + b;
      FirstIndexAt(a[1..], b, c);
    }
  }

  lemma ParseSizeAndBrandOf(size: int, brand: string)
    ensures ParseSizeAndBrand(IntToString(size) + BrandSuffix(brand)) == Some((size, brand))
  {
    var ss, suffix := IntToString(size), BrandSuffix(brand);
    FirstIndexAt(ss, suffix, '&');
    assert (ss + suffix)[..|ss|] == ss && (ss + suffix)[|ss|..] == suffix;
    IntToStringRoundTrip(size);
  }

  lemma ParseParametersSplit(ps: string, tail: string)
    requires '&' !in ps
    ensures ParseParameters(ps + "&size=" + tail) == Combine(ParseInt(ps), ParseSizeAndBrand(tail))
  {
    var rest := "&size=" + tail;
    var s := ps + "&size=" + tail;
    assert s == ps + rest;
    FirstIndexAt(ps, rest, '&');
    assert s[..|ps|] == ps && s[|ps|..] == rest;
    assert rest[..6] == "&size=" && rest[6..] == tail;
  }

  lemma ParseParametersOf(page: int, size: int, brand: string)
    ensures ParseParameters(IntToString(page) + "&size=" + IntToString(size) + BrandSuffix(brand))
         == Some(Query(page, size, brand))
  {
    var ps, ss, suffix := IntToString(page), IntToString(size), BrandSuffix(brand);
    assert ps + "&size=" + ss + suffix == ps + "&size=" + (ss + suffix);
    ParseParametersSplit(ps, ss + suffix);
    ParseSizeAndBrandOf(size, brand);
    IntToStringRoundTrip(page);
  }

  lemma ParseQueryUrlOf(parameters: string)
    ensures ParseQueryUrl(ApiBase + "?page=" + parameters) == ParseParameters(parameters)
  {
    var prefix := ApiBase + "?page=";
    assert (prefix + parameters)[..|prefix|] == prefix;
    assert (prefix + parameters)[|prefix|..] == parameters;
  }

  /** Regrouping a concatenation, stated over abstract strings. */
  lemma Regroup(p: string, a: string, b: string, c: string, d: string)
    ensures p + a + b + c + d == p + (a + b + c + d)
  {
  }

  /** The URL determines the page, the size and the brand it was built from. */
  lemma QueryUrlRoundTrip(page: int, size: int, brand: string)
    ensures ParseQueryUrl(QueryUrl(page, size, brand)) == Some(Query(page, size, brand))
  {
    var prefix := ApiBase + "?page=";
    var ps, ss, suffix := IntToString(page), IntToString(size), BrandSuffix(brand);
    assert QueryUrl(page, size, brand) == BaseQuery(page, size) + suffix;
    Regroup(prefix, ps, "&size=", ss, suffix);
    ParseQueryUrlOf(ps + "&size=" + ss + suffix);
    ParseParametersOf(page, size, brand);
  }

  lemma QueryUrlInjective(a: Query, b: Query)
    requires QueryUrl(a.page, a.size, a.brand) == QueryUrl(b.page, b.size, b.brand)
    ensures a == b
  {
    QueryUrlRoundTrip(a.page, a.size, a.brand);
    QueryUrlRoundTrip(b.page, b.size, b.brand);
  }

  /** The `data` of a successful body. */
  datatype PageData = PageData(result: seq<Product>, meta: Pagination)

  /** `Failed` stands for a rejected `fetch` or a body that is not JSON. */
  datatype Response = Failed | Body(success: bool, data: PageData)

  predicate Succeeded(response: Response) {
    response.Body? && response.success
  }

  /** The current products and pagination; `None` is the initial empty object `{}`. */
  datatype Snapshot = Snapshot(products: seq<Product>, pagination: Option<Pagination>)

  /** What `fetchProducts` is meant to hand back: the page on success, the previous
      snapshot unchanged (last known good) otherwise. */
  function FetchProducts(response: Response, previous: Snapshot): (r: Snapshot)
    ensures Succeeded(response) ==> r.products == response.data.result && r.pagination == Some(response.data.meta)
    ensures !Succeeded(response) ==> r == previous
  {
    if Succeeded(response) then Snapshot(response.data.result, Some(response.data.meta))
    else previous
  }

  /** The `{ result, meta }` its callers destructure; `None` reads as `undefined`. */
  datatype Destructured = Destructured(result: Option<seq<Product>>, meta: Option<Pagination>)

  /** `fetchProducts` as written: the fallback object has the keys `currentProducts` and
      `currentPagination`, so the callers' `result` and `meta` are both `undefined`. */
  function FetchProductsAsWritten(response: Response, previous: Snapshot): (r: Destructured)
    ensures Succeeded(response) ==> r == Destructured(Some(response.data.result), Some(response.data.meta))
    ensures !Succeeded(response) ==> r.result == None && r.meta == None
  {
    if Succeeded(response) then Destructured(Some(response.data.result), Some(response.data.meta))
    else Destructured(None, None)
  }

  /** A body `{ success: false }`: the previous products are lost as written and kept as intended. */
  lemma FallbackAsWrittenLosesSnapshot(data: PageData, previous: Snapshot)
    ensures FetchProductsAsWritten(Body(false, data), previous).result != Some(previous.products)
    ensures FetchProducts(Body(false, data), previous) == previous
  {
  }
}
