/** Stable sorting by an integer rank: the specification (`SortBy`, an insertion
    sort on sequences) and the in-place array sort that `Array.prototype.sort`
    performs with the comparator `(a, b) => rank(a) - rank(b)`. */
module Sorting {
  import opened Sequences

  /** Non-decreasing in `rank`. */
  predicate SortedBy<T>(s: seq<T>, rank: T -> int) {
    forall i, j :: 0 <= i < j < |s| ==> rank(s[i]) <= rank(s[j])
  }

  /** `x` placed after every element whose rank is at most its own, scanning from the right. */
  function Insert<T>(s: seq<T>, x: T, rank: T -> int): (r: seq<T>)
    ensures |r| == |s| + 1
  {
    if s == [] || rank(s[|s| - 1]) <= rank(x) then s + [x]
    else
      Insert(s[..|s| - 1], x, rank) + [s[|s| - 1]]
  }

  /** Insertion sort, one element at a time from the left. */
  function SortBy<T>(s: seq<T>, rank: T -> int): (r: seq<T>)
    ensures |r| == |s|
  {
    if s == [] then []
    else Insert(SortBy(s[..|s| - 1], rank), s[|s| - 1], rank)
  }

  lemma {:induction false} InsertMultiset<T>(s: seq<T>, x: T, rank: T -> int)
    ensures multiset(Insert(s, x, rank)) == multiset(s) + multiset{x}
  {
    if s != [] && rank(s[|s| - 1]) > rank(x) {
      assert s == s[..|s| - 1] + [s[|s| - 1]];
      InsertMultiset(s[..|s| - 1], x, rank);
    }
  }

  /** The result is a permutation of the input. */
  lemma {:induction false} SortByPermutation<T>(s: seq<T>, rank: T -> int)
    ensures multiset(SortBy(s, rank)) == multiset(s)
  {
    if s != [] {
      assert s == s[..|s| - 1] + [s[|s| - 1]];
      SortByPermutation(s[..|s| - 1], rank);
      InsertMultiset(SortBy(s[..|s| - 1], rank), s[|s| - 1], rank);
    }
  }

  lemma {:induction false} InsertSorted<T>(s: seq<T>, x: T, rank: T -> int)
    requires SortedBy(s, rank)
    ensures SortedBy(Insert(s, x, rank), rank)
  {
    if s != [] && rank(s[|s| - 1]) > rank(x) {
      var init, last := s[..|s| - 1], s[|s| - 1];
      assert SortedBy(init, rank);
      InsertSorted(init, x, rank);
      var front := Insert(init, x, rank);
      InsertMultiset(init, x, rank);
      forall k | 0 <= k < |front| ensures rank(front[k]) <= rank(last) {
        assert front[k] in multiset(front);
        if front[k] != x {
          assert front[k] in multiset(init);
          var m :| 0 <= m < |init| && init[m] == front[k];
          assert s[m] == init[m];
        }
      }
      SortedSnoc(front, last, rank);
    }
  }

  lemma SortedSnoc<T>(s: seq<T>, x: T, rank: T -> int)
    requires SortedBy(s, rank)
    requires forall k :: 0 <= k < |s| ==> rank(s[k]) <= rank(x)
    ensures SortedBy(s + [x], rank)
  {
  }

  /** The result is ordered by rank. */
  lemma {:induction false} SortBySorted<T>(s: seq<T>, rank: T -> int)
    ensures SortedBy(SortBy(s, rank), rank)
  {
    if s != [] {
      SortBySorted(s[..|s| - 1], rank);
      InsertSorted(SortBy(s[..|s| - 1], rank), s[|s| - 1], rank);
    }
  }

  /** The elements of rank `v`. */
  function RankIs<T>(rank: T -> int, v: int): T -> bool {
    y => rank(y) == v
  }

  /** Inserting only appends `x` to the elements of its own rank. */
  lemma {:induction false} InsertStable<T(!new)>(s: seq<T>, x: T, rank: T -> int, v: int)
    ensures Filter(RankIs(rank, v), Insert(s, x, rank))
         == Filter(RankIs(rank, v), s) + Filter(RankIs(rank, v), [x])
  {
    var same := RankIs(rank, v);
    if s == [] || rank(s[|s| - 1]) <= rank(x) {
      FilterAppend(same, s, [x]);
    } else {
      var init, last := s[..|s| - 1], s[|s| - 1];
      assert s == init + [last];
      InsertStable(init, x, rank, v);
      FilterAppend(same, Insert(init, x, rank), [last]);
      FilterAppend(same, init, [last]);
      assert Filter(same, [x]) == [] || Filter(same, [last]) == [];
    }
  }

  /** Stability: the elements of any one rank keep their input order. */
  lemma {:induction false} SortByStable<T(!new)>(s: seq<T>, rank: T -> int, v: int)
    ensures Filter(RankIs(rank, v), SortBy(s, rank)) == Filter(RankIs(rank, v), s)
  {
    if s != [] {
      var init, last := s[..|s| - 1], s[|s| - 1];
      assert s == init + [last];
      SortByStable(init, rank, v);
      InsertStable(SortBy(init, rank), last, rank, v);
      FilterAppend(RankIs(rank, v), init, [last]);
    }
  }

  function Identity(x: int): int { x }

  lemma SortedTail(a: seq<int>)
    requires a != [] && SortedBy(a, Identity)
    ensures SortedBy(a[1..], Identity)
    ensures forall k :: 0 <= k < |a| ==> a[0] <= a[k]
  {
    forall i, j | 0 <= i < j < |a| - 1 ensures Identity(a[1..][i]) <= Identity(a[1..][j]) {
      assert Identity(a[i + 1]) <= Identity(a[j + 1]);
    }
    forall k | 0 < k < |a| ensures a[0] <= a[k] {
      assert Identity(a[0]) <= Identity(a[k]);
    }
  }

  lemma MultisetCons(a: seq<int>)
    requires a != []
    ensures multiset(a) == multiset{a[0]} + multiset(a[1..])
  {
    assert a == [a[0]] + a[1..];
  }

  /** The first element of an ascending sequence is at most any element of it. */
  lemma SortedHeadLeast(a: seq<int>, x: int)
    requires SortedBy(a, Identity) && x in a
    ensures a[0] <= x
  {
    var k :| 0 <= k < |a| && a[k] == x;
    if k > 0 {
      assert Identity(a[0]) <= Identity(a[k]);
    }
  }

  /** Two ascending sequences with the same elements start alike and agree on the rest. */
  lemma SortedSameHead(a: seq<int>, b: seq<int>)
    requires a != [] && SortedBy(a, Identity) && SortedBy(b, Identity)
    requires multiset(a) == multiset(b)
    ensures b != [] && a[0] == b[0] && multiset(a[1..]) == multiset(b[1..])
  {
    assert a[0] in multiset(a);
    assert a[0] in b;
    assert b[0] in multiset(b);
    assert b[0] in a;
    SortedHeadLeast(a, b[0]);
    SortedHeadLeast(b, a[0]);
    MultisetCons(a);
    MultisetCons(b);
    assert a[0] == b[0];
    assert multiset(a[1..]) == multiset(a) - multiset{a[0]};
    assert multiset(b[1..]) == multiset(b) - multiset{b[0]};
  }

  /** Two sequences ordered by the identity rank with the same elements are equal. */
  lemma {:induction false} SortedUnique(a: seq<int>, b: seq<int>)
    requires SortedBy(a, Identity) && SortedBy(b, Identity)
    requires multiset(a) == multiset(b)
    ensures a == b
    decreases |a|
  {
    if a == [] {
      assert |b| == |multiset(b)| == 0;
    } else {
      SortedSameHead(a, b);
      SortedTail(a);
      SortedTail(b);
      SortedUnique(a[1..], b[1..]);
      assert a == [a[0]] + a[1..] && b == [b[0]] + b[1..];
    }
  }

  /** Sorts `a` in place, stably: as an insertion sort, each element in turn moves
      left past every element of strictly greater rank. */
  method SortInPlace<T>(a: array<T>, rank: T -> int)
    modifies a
    ensures a[..] == SortBy(old(a[..]), rank)
  {
    ghost var input := a[..];
    var i := 0;
    while i < a.Length
      invariant 0 <= i <= a.Length
      invariant a[..i] == SortBy(input[..i], rank)
      invariant a[i..] == input[i..]
    {
      ghost var before := a[..];
      assert before[i] == input[i] by { assert a[i..][0] == input[i..][0]; }
      InsertAt(a, i, rank);
      SortByExtend(input, i, rank);
      assert a[i + 1..] == input[i + 1..] by {
        assert before[i + 1..] == before[i..][1..] && input[i + 1..] == input[i..][1..];
      }
      i := i + 1;
    }
    assert input[..a.Length] == input;
  }

  /** One pass of the insertion sort: `a[i]` moves into place among `a[..i]`. */
  method InsertAt<T>(a: array<T>, i: nat, rank: T -> int)
    requires i < a.Length
    modifies a
    ensures a[..i + 1] == Insert(old(a[..i]), old(a[i]), rank)
    ensures a[i + 1..] == old(a[i + 1..])
  {
    ghost var sorted, x := a[..i], a[i];
    var j := i;
    while j > 0 && rank(a[j - 1]) > rank(a[j])
      invariant 0 <= j <= i
      invariant forall k :: 0 <= k < j ==> a[k] == sorted[k]
      invariant a[j] == x
      invariant forall k :: j < k <= i ==> a[k] == sorted[k - 1]
      invariant forall k :: i < k < a.Length ==> a[k] == old(a[k])
      invariant forall k :: j <= k < i ==> rank(sorted[k]) > rank(x)
    {
      a[j - 1], a[j] := a[j], a[j - 1];
      j := j - 1;
    }
    InsertAtPosition(sorted, x, rank, j);
    Reassemble(a[..], sorted, x, j, i);
  }

  /** `x` lands after `s[..j]` when every later element outranks it and `s[j - 1]` does not. */
  lemma {:induction false} InsertAtPosition<T>(s: seq<T>, x: T, rank: T -> int, j: nat)
    requires j <= |s| && (j == 0 || rank(s[j - 1]) <= rank(x))
    requires forall k :: j <= k < |s| ==> rank(s[k]) > rank(x)
    ensures Insert(s, x, rank) == s[..j] + [x] + s[j..]
    decreases |s|
  {
    if j == |s| {
      assert s[..j] == s && s[j..] == [];
    } else {
      var init, last := s[..|s| - 1], s[|s| - 1];
      assert s == init + [last];
      InsertAtPosition(init, x, rank, j);
      assert init[..j] == s[..j] && init[j..] + [last] == s[j..];
    }
  }

  /** The array after the pass, read as the sorted prefix with `x` placed at `j`. */
  lemma Reassemble<T>(s: seq<T>, sorted: seq<T>, x: T, j: nat, i: nat)
    requires j <= i < |s| && |sorted| == i
    requires forall k :: 0 <= k < j ==> s[k] == sorted[k]
    requires s[j] == x
    requires forall k :: j < k <= i ==> s[k] == sorted[k - 1]
    ensures s[..i + 1] == sorted[..j] + [x] + sorted[j..]
  {
  }

  lemma SortByExtend<T>(s: seq<T>, i: nat, rank: T -> int)
    requires i < |s|
    ensures SortBy(s[..i + 1], rank) == Insert(SortBy(s[..i], rank), s[i], rank)
  {
    assert s[..i + 1][..i] == s[..i];
  }
}
