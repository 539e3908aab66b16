/**
  Shared vocabulary of the recommender model: identifiers, the error
  taxonomy, a Result wrapper, and the small sequence utilities (duplicate
  removal, filtering, prefixes, sums) that every engine is built from.
 */
module Common {

  type ProductId = string
  type SessionId = string
  type Category = string

  datatype Option<T> = None | Some(value: T)

  /** The exceptions the recommender can raise, named by what they mean. */
  datatype Error =
    | BinsNotIncreasing   // the hour bins handed to the binning step do not increase
    | HourNotObserved     // the current hour never occurs in the history
    | UnknownProduct      // the product id has no row in the history
    | NoSessions          // the session/product matrix has no rows
    | SampleTooLarge      // a sample larger than its population was requested

  datatype Result<T> = Ok(value: T) | Err(error: Error)

  function Min(a: int, b: int): int {
    if a <= b then a else b
  }

  predicate Distinct<T(==)>(xs: seq<T>) {
    forall i, j :: 0 <= i < j < |xs| ==> xs[i] != xs[j]
  }

  /** The set of elements of a sequence. */
  function Elements<T>(xs: seq<T>): set<T> {
    set x | x in xs
  }

  /** Python's `xs[:n]`. */
  function Prefix<T>(xs: seq<T>, n: nat): (r: seq<T>)
    ensures |r| == Min(n, |xs|)
    ensures r == xs[..|r|]
  {
    if n <= |xs| then xs[..n] else xs
  }

  /** Removes repeated elements, keeping the first occurrence of each. */
  function Dedupe<T(==, !new)>(xs: seq<T>): (r: seq<T>)
    ensures Distinct(r)
    ensures forall x :: x in r <==> x in xs
    ensures |r| <= |xs|
  {
    if |xs| == 0 then []
    else
      var r := Dedupe(xs[..|xs| - 1]);
      if xs[|xs| - 1] in r then r else r + [xs[|xs| - 1]]
  }

  /** The elements of `xs` that `keep` accepts, in their original order. */
  function Filter<T(!new)>(xs: seq<T>, keep: T -> bool): (r: seq<T>)
    ensures forall x :: x in r <==> x in xs && keep(x)
    ensures |r| <= |xs|
  {
    if |xs| == 0 then []
    else if keep(xs[0]) then [xs[0]] + Filter(xs[1..], keep)
    else Filter(xs[1..], keep)
  }

  /** Filtering a repetition-free sequence keeps it repetition-free. */
  lemma {:induction false} FilterKeepsDistinct<T(!new)>(xs: seq<T>, keep: T -> bool)
    requires Distinct(xs)
    ensures Distinct(Filter(xs, keep))
  {
    if |xs| > 0 {
      FilterKeepsDistinct(xs[1..], keep);
      assert xs[0] !in xs[1..];
    }
  }

  function Sum(xs: seq<nat>): nat {
    if |xs| == 0 then 0 else xs[0] + Sum(xs[1..])
  }

  /** A sequence without repetitions has as many elements as its set. */
  lemma {:induction false} DistinctCardinality<T>(xs: seq<T>)
    requires Distinct(xs)
    ensures |Elements(xs)| == |xs|
  {
    if |xs| > 0 {
      var init := xs[..|xs| - 1];
      DistinctCardinality(init);
      assert Elements(xs) == Elements(init) + {xs[|xs| - 1]};
      assert xs[|xs| - 1] !in Elements(init);
    }
  }

  /** A repetition-free sequence drawn from a set is no longer than the set. */
  lemma {:induction false} DistinctSubsetBound<T>(xs: seq<T>, s: set<T>)
    requires Distinct(xs)
    requires forall x :: x in xs ==> x in s
    ensures |xs| <= |s|
  {
    DistinctCardinality(xs);
    SubsetCardinality(Elements(xs), s);
  }

  lemma {:induction false} SubsetCardinality<T>(a: set<T>, b: set<T>)
    requires a <= b
    ensures |a| <= |b|
  {
    if a != {} {
      var x :| x in a;
      SubsetCardinality(a - {x}, b - {x});
    }
  }

  /** The multiset of a sequence records every element at most once exactly when it has no repetitions. */
  lemma {:induction false} DistinctMultiplicity<T>(xs: seq<T>)
    ensures Distinct(xs) <==> forall x :: multiset(xs)[x] <= 1
  {
    if |xs| > 0 {
      var t := xs[1..];
      assert xs == [xs[0]] + t;
      DistinctMultiplicity(t);
      if Distinct(xs) {
        assert Distinct(t);
        assert xs[0] !in t;
      }
      if forall x :: multiset(xs)[x] <= 1 {
        forall x ensures multiset(t)[x] <= 1 {
          assert multiset(xs)[x] == multiset(t)[x] + (if x == xs[0] then 1 else 0);
        }
        assert multiset(t)[xs[0]] == 0;
        assert xs[0] !in t;
        forall i, j | 0 <= i < j < |xs| ensures xs[i] != xs[j] {
          if i == 0 {
            assert xs[j] == t[j - 1];
          } else {
            assert xs[i] == t[i - 1] && xs[j] == t[j - 1];
          }
        }
      }
    }
  }

  /** A repetition-free sequence inside another of the same length holds all of its elements. */
  lemma SameSizeSameElements<T>(xs: seq<T>, ys: seq<T>)
    requires Distinct(xs) && Distinct(ys) && |xs| == |ys|
    requires forall x :: x in xs ==> x in ys
    ensures forall y :: y in ys ==> y in xs
  {
    DistinctCardinality(xs);
    DistinctCardinality(ys);
    forall y | y in ys ensures y in xs {
      if y !in xs {
        SubsetCardinality(Elements(xs), Elements(ys) - {y});
        assert false;
      }
    }
  }

  /** Rearranging a sequence keeps its elements. */
  lemma SameMembers<T>(xs: seq<T>, ys: seq<T>)
    requires multiset(xs) == multiset(ys)
    ensures forall x :: x in xs <==> x in ys
  {
    forall x ensures x in xs <==> x in ys {
      assert x in xs <==> x in multiset(xs);
      assert x in ys <==> x in multiset(ys);
    }
  }

  /** Rearranging a repetition-free sequence keeps it repetition-free. */
  lemma DistinctPermutation<T>(xs: seq<T>, ys: seq<T>)
    requires multiset(xs) == multiset(ys)
    requires Distinct(xs)
    ensures Distinct(ys)
  {
    DistinctMultiplicity(xs);
    DistinctMultiplicity(ys);
  }

  lemma {:induction false} FilterAppend<T(!new)>(a: seq<T>, b: seq<T>, keep: T -> bool)
    ensures Filter(a + b, keep) == Filter(a, keep) + Filter(b, keep)
  {
    if |a| == 0 {
      assert a + b == b;
    } else {
      assert (a + b)[0] == a[0];
      assert (a + b)[1..] == a[1..] + b;
      FilterAppend(a[1..], b, keep);
    }
  }

  /** An accepted element sits in the filtered sequence after the accepted elements before it. */
  lemma FilterPosition<T(!new)>(xs: seq<T>, keep: T -> bool, i: nat)
    requires i < |xs| && keep(xs[i])
    ensures |Filter(xs[..i], keep)| < |Filter(xs, keep)|
    ensures Filter(xs, keep)[|Filter(xs[..i], keep)|] == xs[i]
  {
    assert xs == xs[..i] + ([xs[i]] + xs[i + 1..]);
    FilterAppend(xs[..i], [xs[i]] + xs[i + 1..], keep);
    assert Filter([xs[i]] + xs[i + 1..], keep) == [xs[i]] + Filter(xs[i + 1..], keep);
  }

  /** Every position of the filtered sequence comes from an accepted element of the original. */
  lemma {:induction false} FilterOrigin<T(!new)>(xs: seq<T>, keep: T -> bool, m: nat) returns (i: nat)
    requires m < |Filter(xs, keep)|
    ensures i < |xs| && keep(xs[i])
    ensures |Filter(xs[..i], keep)| == m && Filter(xs, keep)[m] == xs[i]
  {
    var tail := xs[1..];
    FilterFront(xs, keep);
    if keep(xs[0]) && m == 0 {
      assert xs[..0] == [];
      i := 0;
    } else {
      var m' := if keep(xs[0]) then m - 1 else m;
      var i' := FilterOrigin(tail, keep, m');
      i := i' + 1;
      FilterFront(xs[..i], keep);
      assert xs[..i][1..] == tail[..i'];
      if keep(xs[0]) {
        assert Filter(xs, keep)[m] == Filter(tail, keep)[m - 1];
      } else {
        assert Filter(xs, keep) == Filter(tail, keep);
      }
    }
  }

  /** Filtering keeps the first element exactly when `keep` accepts it. */
  lemma FilterFront<T(!new)>(xs: seq<T>, keep: T -> bool)
    requires |xs| > 0
    ensures Filter(xs, keep) == (if keep(xs[0]) then [xs[0]] else []) + Filter(xs[1..], keep)
  {
  }
}
