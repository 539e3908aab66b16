/**
  Ordering by a score, descending, as `sort_values(ascending=False)` does.
  The model sorts stably (insertion sort); pandas' default sort is not
  stable, so no contract here or elsewhere says how ties are ordered.
 */
module Ranking {
  import opened Common

  ghost predicate SortedDesc<T>(xs: seq<T>, key: T -> real) {
    forall i, j :: 0 <= i < j < |xs| ==> key(xs[i]) >= key(xs[j])
  }

  function Insert<T>(x: T, xs: seq<T>, key: T -> real): (r: seq<T>)
    requires SortedDesc(xs, key)
    ensures SortedDesc(r, key)
    ensures multiset(r) == multiset(xs) + multiset{x}
  {
    if |xs| == 0 then [x]
    else if key(x) >= key(xs[0]) then [x] + xs
    else
      var rest := Insert(x, xs[1..], key);
      assert xs == [xs[0]] + xs[1..];
      HeadOutranksInsertion(x, xs, rest, key);
      [xs[0]] + rest
  }

  lemma HeadOutranksInsertion<T>(x: T, xs: seq<T>, rest: seq<T>, key: T -> real)
    requires |xs| > 0 && SortedDesc(xs, key) && key(x) < key(xs[0])
    requires multiset(rest) == multiset(xs[1..]) + multiset{x}
    ensures forall k :: 0 <= k < |rest| ==> key(xs[0]) >= key(rest[k])
  {
    forall k | 0 <= k < |rest| ensures key(xs[0]) >= key(rest[k]) {
      var y := rest[k];
      assert y in multiset(rest);
      if y != x {
        assert y in multiset(xs[1..]);
        var m :| 0 <= m < |xs[1..]| && xs[1..][m] == y;
        assert xs[m + 1] == y;
      }
    }
  }

  /** The elements of `xs`, highest score first. */
  function SortDesc<T>(xs: seq<T>, key: T -> real): (r: seq<T>)
    ensures SortedDesc(r, key)
    ensures multiset(r) == multiset(xs)
  {
    if |xs| == 0 then []
    else
      assert xs == [xs[0]] + xs[1..];
      Insert(xs[0], SortDesc(xs[1..], key), key)
  }

  /** Sorting keeps the elements, their number and their distinctness. */
  lemma SortKeepsElements<T>(xs: seq<T>, key: T -> real)
    ensures |SortDesc(xs, key)| == |xs|
    ensures forall x :: x in SortDesc(xs, key) <==> x in xs
    ensures Distinct(xs) ==> Distinct(SortDesc(xs, key))
  {
    var r := SortDesc(xs, key);
    assert |multiset(r)| == |multiset(xs)|;
    forall x ensures x in r <==> x in xs {
      assert x in r <==> x in multiset(r);
      assert x in xs <==> x in multiset(xs);
    }
    if Distinct(xs) {
      DistinctPermutation(xs, r);
    }
  }

  /** Dropping elements from a sorted sequence leaves it sorted. */
  lemma {:induction false} FilterKeepsSorted<T(!new)>(xs: seq<T>, keep: T -> bool, key: T -> real)
    requires SortedDesc(xs, key)
    ensures SortedDesc(Filter(xs, keep), key)
  {
    if |xs| > 0 {
      FilterKeepsSorted(xs[1..], keep, key);
      var rest := Filter(xs[1..], keep);
      forall y | y in rest ensures key(xs[0]) >= key(y) {
        var i :| 0 <= i < |xs[1..]| && xs[1..][i] == y;
        assert xs[i + 1] == y;
      }
    }
  }

  /**
    In a sorted sequence, an element outside the first `n` positions never
    outranks one inside them.
   */
  lemma PrefixOutranksRest<T>(xs: seq<T>, key: T -> real, n: nat, x: T, y: T)
    requires SortedDesc(xs, key)
    requires x in Prefix(xs, n)
    requires y in xs && y !in Prefix(xs, n)
    ensures key(x) >= key(y)
  {
    var p := Prefix(xs, n);
    var i :| 0 <= i < |p| && p[i] == x;
    var j :| 0 <= j < |xs| && xs[j] == y;
    assert forall k :: 0 <= k < |p| ==> p[k] == xs[k];
    assert i < j;
  }

  /** Cutting a sorted sequence keeps it sorted. */
  lemma PrefixKeepsSorted<T>(xs: seq<T>, key: T -> real, n: nat)
    requires SortedDesc(xs, key)
    ensures SortedDesc(Prefix(xs, n), key)
  {
    var p := Prefix(xs, n);
    assert forall k :: 0 <= k < |p| ==> p[k] == xs[k];
  }

  /**
    The best `n` elements of `xs` that `keep` accepts, best first: sort,
    drop the rejected elements, cut to `n`.
   */
  function TopKept<T(!new)>(xs: seq<T>, key: T -> real, keep: T -> bool, n: nat): (r: seq<T>)
    requires Distinct(xs)
    ensures Distinct(r)
    ensures forall x :: x in r ==> x in xs && keep(x)
    ensures |r| == Min(n, |Elements(Filter(xs, keep))|)
    ensures SortedDesc(r, key)
    ensures forall y :: y in xs && keep(y) && y !in r && |r| > 0 ==> key(y) <= key(r[|r| - 1])
  {
    var sorted := SortDesc(xs, key);
    SortKeepsElements(xs, key);
    var kept := Filter(sorted, keep);
    FilterKeepsDistinct(sorted, keep);
    FilterKeepsSorted(sorted, keep, key);
    PrefixKeepsSorted(kept, key, n);
    TopKeptFacts(xs, sorted, kept, key, keep, n);
    Prefix(kept, n)
  }

  lemma TopKeptFacts<T(!new)>(xs: seq<T>, sorted: seq<T>, kept: seq<T>, key: T -> real, keep: T -> bool, n: nat)
    requires Distinct(sorted) && forall x :: x in sorted <==> x in xs
    requires kept == Filter(sorted, keep) && SortedDesc(kept, key)
    ensures var r := Prefix(kept, n);
      && Distinct(r)
      && |r| == Min(n, |Elements(Filter(xs, keep))|)
      && forall y :: y in xs && keep(y) && y !in r && |r| > 0 ==> key(y) <= key(r[|r| - 1])
  {
    var r := Prefix(kept, n);
    assert Elements(kept) == Elements(Filter(xs, keep));
    FilterKeepsDistinct(sorted, keep);
    DistinctCardinality(kept);
    forall i, j | 0 <= i < j < |r| ensures r[i] != r[j] {
      assert r[i] == kept[i] && r[j] == kept[j];
    }
    forall y | y in xs && keep(y) && y !in r && |r| > 0 ensures key(y) <= key(r[|r| - 1]) {
      assert r[|r| - 1] in r;
      PrefixOutranksRest(kept, key, n, r[|r| - 1], y);
    }
  }
}
