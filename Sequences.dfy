/** Order-preserving filtering of sequences, the model of JavaScript's
    `Array.prototype.filter`, and the subsequence relation it establishes. */
module Sequences {

  datatype Option<T> = None | Some(value: T)

  /** `r` can be obtained from `s` by deleting elements, keeping the order of the rest. */
  predicate IsSubsequence<T(==)>(r: seq<T>, s: seq<T>)
    decreases |s|
  {
    r == [] ||
    (s != [] && ((r[0] == s[0] && IsSubsequence(r[1..], s[1..])) || IsSubsequence(r, s[1..])))
  }

  /** The elements of `s` that satisfy `keep`, in their order in `s`
      (FilterMultiset, FilterMembers and FilterIsSubsequence say so). */
  function Filter<T(==)>(keep: T -> bool, s: seq<T>): (r: seq<T>)
    ensures |r| <= |s|
  {
    if s == [] then []
    else
      var rest := Filter(keep, s[1..]);
      if keep(s[0]) then [s[0]] + rest else rest
  }

  /** Every kept value survives with its multiplicity in `s`, every other value disappears. */
  lemma {:induction false} FilterMultiset<T(!new)>(keep: T -> bool, s: seq<T>)
    ensures forall x :: multiset(Filter(keep, s))[x] == if keep(x) then multiset(s)[x] else 0
  {
    if s != [] {
      FilterMultiset(keep, s[1..]);
      assert s == [s[0]] + s[1..];
    }
  }

  /** Exactly the elements of `s` that satisfy `keep` survive. */
  lemma FilterMembers<T(!new)>(keep: T -> bool, s: seq<T>)
    ensures forall x :: x in Filter(keep, s) <==> x in s && keep(x)
  {
    var r := Filter(keep, s);
    FilterMultiset(keep, s);
    forall x ensures x in r <==> x in s && keep(x) {
      assert x in r <==> x in multiset(r);
      assert x in s <==> x in multiset(s);
    }
  }

  /** The kept elements keep their relative order. */
  lemma {:induction false} FilterIsSubsequence<T(!new)>(keep: T -> bool, s: seq<T>)
    ensures IsSubsequence(Filter(keep, s), s)
  {
    if s != [] {
      FilterIsSubsequence(keep, s[1..]);
    }
  }

  lemma {:induction false} SubsequenceReflexive<T>(s: seq<T>)
    ensures IsSubsequence(s, s)
  {
    if s != [] {
      SubsequenceReflexive(s[1..]);
    }
  }

  lemma {:induction false} SubsequenceTransitive<T>(a: seq<T>, b: seq<T>, c: seq<T>)
    requires IsSubsequence(a, b) && IsSubsequence(b, c)
    ensures IsSubsequence(a, c)
    decreases |c|
  {
    if a != [] {
      if IsSubsequence(b, c[1..]) {
        SubsequenceTransitive(a, b, c[1..]);
      } else if IsSubsequence(a, b[1..]) {
        SubsequenceTransitive(a, b[1..], c[1..]);
      } else {
        SubsequenceTransitive(a[1..], b[1..], c[1..]);
      }
    }
  }

  lemma FilterCons<T(!new)>(keep: T -> bool, x: T, s: seq<T>)
    ensures Filter(keep, [x] + s) == if keep(x) then [x] + Filter(keep, s) else Filter(keep, s)
  {
    var xs := [x] + s;
    assert xs[0] == x && xs[1..] == s;
  }

  lemma {:induction false} FilterAppend<T(!new)>(keep: T -> bool, a: seq<T>, b: seq<T>)
    ensures Filter(keep, a + b) == Filter(keep, a) + Filter(keep, b)
  {
    if a == [] {
      assert a + b == b;
    } else {
      assert a + b == [a[0]] + (a[1..] + b) && a == [a[0]] + a[1..];
      FilterAppend(keep, a[1..], b);
      FilterCons(keep, a[0], a[1..] + b);
      FilterCons(keep, a[0], a[1..]);
    }
  }

  /** Filtering with two predicates that agree on the elements of `s` gives the same sequence. */
  lemma {:induction false} FilterEquivalent<T(!new)>(f: T -> bool, g: T -> bool, s: seq<T>)
    requires forall i :: 0 <= i < |s| ==> f(s[i]) == g(s[i])
    ensures Filter(f, s) == Filter(g, s)
  {
    if s != [] {
      FilterEquivalent(f, g, s[1..]);
    }
  }

  /** A filter that keeps everything is the identity. */
  lemma {:induction false} FilterKeepsAll<T(!new)>(keep: T -> bool, s: seq<T>)
    requires forall i :: 0 <= i < |s| ==> keep(s[i])
    ensures Filter(keep, s) == s
  {
    if s != [] {
      FilterKeepsAll(keep, s[1..]);
    }
  }

  /** Filtering twice is filtering once with the conjunction. */
  lemma {:induction false} FilterFilter<T(!new)>(f: T -> bool, g: T -> bool, both: T -> bool, s: seq<T>)
    requires forall x :: both(x) == (f(x) && g(x))
    ensures Filter(g, Filter(f, s)) == Filter(both, s)
  {
    if s != [] {
      FilterFilter(f, g, both, s[1..]);
    }
  }

  /** When `keep` is the disjoint union of `a` and `b`, the kept counts add up. */
  lemma {:induction false} FilterLengthSplit<T(!new)>(keep: T -> bool, a: T -> bool, b: T -> bool, s: seq<T>)
    requires forall x :: keep(x) == (a(x) || b(x))
    requires forall x :: !(a(x) && b(x))
    ensures |Filter(keep, s)| == |Filter(a, s)| + |Filter(b, s)|
  {
    if s != [] {
      FilterLengthSplit(keep, a, b, s[1..]);
    }
  }

  /** The filtered multiset depends only on the multiset of the input. */
  lemma FilterPermutation<T(!new)>(keep: T -> bool, s: seq<T>, t: seq<T>)
    requires multiset(s) == multiset(t)
    ensures multiset(Filter(keep, s)) == multiset(Filter(keep, t))
    ensures |Filter(keep, s)| == |Filter(keep, t)|
  {
    var fs, ft := Filter(keep, s), Filter(keep, t);
    FilterMultiset(keep, s);
    FilterMultiset(keep, t);
    assert forall x :: multiset(fs)[x] == multiset(ft)[x];
    assert multiset(fs) == multiset(ft);
    assert |multiset(fs)| == |fs| && |multiset(ft)| == |ft|;
  }
}
