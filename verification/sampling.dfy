/**
  `random.sample` and the iteration order of a Python set, both modelled as
  choices driven by an explicit stream of random draws. `Draw` removes one
  element per draw, the way a sample without replacement does; the lemma
  `EveryArrangementReachable` shows that the draws can produce every
  repetition-free arrangement of the population, so a contract that holds
  for all draws holds for whatever the random source does.
 */
module Sampling {
  import opened Common

  function RemoveAt<T>(xs: seq<T>, i: nat): (r: seq<T>)
    requires i < |xs|
    ensures |r| == |xs| - 1
    ensures forall x :: x in r ==> x in xs
    ensures Distinct(xs) ==> Distinct(r) && xs[i] !in r
  {
    xs[..i] + xs[i + 1..]
  }

  /** Takes `k` elements out of `pool`, the next index coming from the next draw. */
  function Draw<T>(pool: seq<T>, k: nat, draws: seq<nat>): (r: seq<T>)
    requires k <= |pool|
    ensures |r| == k
    ensures forall x :: x in r ==> x in pool
    ensures Distinct(pool) ==> Distinct(r)
    decreases k
  {
    if k == 0 then []
    else
      var j := (if |draws| > 0 then draws[0] else 0) % |pool|;
      var rest := Draw(RemoveAt(pool, j), k - 1, if |draws| > 0 then draws[1..] else []);
      [pool[j]] + rest
  }

  /**
    `random.sample(pool, k)`: raises ValueError when `k` exceeds the
    population, otherwise returns `k` elements taken without replacement.
   */
  function Sample<T>(pool: seq<T>, k: nat, draws: seq<nat>): (r: Result<seq<T>>)
    ensures r.Ok? <==> k <= |pool|
    ensures r.Err? ==> r.error == SampleTooLarge
    ensures r.Ok? ==> |r.value| == k && forall x :: x in r.value ==> x in pool
    ensures r.Ok? && Distinct(pool) ==> Distinct(r.value)
  {
    if k > |pool| then Err(SampleTooLarge) else Ok(Draw(pool, k, draws))
  }

  /** A draw that names an index of the pool takes that element first. */
  lemma DrawPicks<T>(pool: seq<T>, k: nat, j: nat, draws: seq<nat>)
    requires 0 < k <= |pool| && j < |pool|
    ensures Draw(pool, k, [j] + draws) == [pool[j]] + Draw(RemoveAt(pool, j), k - 1, draws)
  {
    assert ([j] + draws)[1..] == draws;
    assert j % |pool| == j;
  }

  /** Removing the first element of `r` from the pool leaves the rest of `r` inside the pool. */
  lemma RestStaysInPool<T>(pool: seq<T>, r: seq<T>, j: nat)
    requires Distinct(r) && |r| > 0
    requires forall x :: x in r ==> x in pool
    requires j < |pool| && pool[j] == r[0]
    ensures forall x :: x in r[1..] ==> x in RemoveAt(pool, j)
  {
    forall x | x in r[1..] ensures x in RemoveAt(pool, j) {
      var i :| 1 <= i < |r| && r[i] == x;
      assert x != r[0];
      assert x in pool;
      var k :| 0 <= k < |pool| && pool[k] == x;
      assert pool[..j] + pool[j + 1..] == RemoveAt(pool, j);
      if k < j {
        assert pool[..j][k] == x;
      } else {
        assert pool[j + 1..][k - j - 1] == x;
      }
    }
  }

  /** Drawing the first element of `r` leaves a pool and an arrangement that meet the same conditions. */
  lemma ArrangementTail<T>(pool: seq<T>, r: seq<T>) returns (j: nat)
    requires Distinct(pool) && Distinct(r) && |r| > 0
    requires forall x :: x in r ==> x in pool
    ensures j < |pool| && pool[j] == r[0]
    ensures Distinct(RemoveAt(pool, j)) && Distinct(r[1..])
    ensures forall x :: x in r[1..] ==> x in RemoveAt(pool, j)
  {
    assert r[0] in pool;
    j :| 0 <= j < |pool| && pool[j] == r[0];
    RestStaysInPool(pool, r, j);
    assert Distinct(r[1..]) by {
      forall a, b | 0 <= a < b < |r[1..]| ensures r[1..][a] != r[1..][b] {
        assert r[1..][a] == r[a + 1] && r[1..][b] == r[b + 1];
      }
    }
  }

  /**
    Every repetition-free arrangement of elements of the pool is the outcome
    of some draws: the draws returned here produce it.
   */
  lemma {:induction false} EveryArrangementReachable<T>(pool: seq<T>, r: seq<T>) returns (draws: seq<nat>)
    requires Distinct(pool) && Distinct(r)
    requires forall x :: x in r ==> x in pool
    ensures |r| <= |pool|
    ensures Draw(pool, |r|, draws) == r
  {
    if |r| == 0 {
      draws := [];
    } else {
      var j := ArrangementTail(pool, r);
      var d := EveryArrangementReachable(RemoveAt(pool, j), r[1..]);
      DrawPicks(pool, |r|, j, d);
      assert [r[0]] + r[1..] == r;
      draws := [j] + d;
    }
  }
}
