/**
 * Exact money: rounding, percentages and the largest-remainder split.
 *
 * Every amount is carried in paisa.  An amount that is not yet rounded is a
 * `real`; a rounded one is an `int`.
 */
module Money {
  import opened Prelude

  /** Nearest whole paisa, a half rounded away from zero. */
  function Round2(v: real): (r: int)
    ensures v >= 0.0 ==> r >= 0 && r as real - 0.5 <= v < r as real + 0.5
    ensures v < 0.0 ==> r <= 0 && r as real - 0.5 < v <= r as real + 0.5
  {
    if v >= 0.0 then (v + 0.5).Floor else -((-v + 0.5).Floor)
  }

  /** Rounding never reorders two amounts, and leaves whole amounts alone. */
  lemma Round2Monotone(a: real, b: real)
    requires a <= b
    ensures Round2(a) <= Round2(b)
  {}

  function Sum(values: seq<real>): real {
    if values == [] then 0.0 else values[0] + Sum(values[1..])
  }

  function PercentOf(amount: real, pct: real): int {
    Round2(amount * pct / 100.0)
  }

  function SumInt(values: seq<int>): int {
    if values == [] then 0 else values[0] + SumInt(values[1..])
  }

  /** Towards zero, as ROUND_DOWN does. */
  function Trunc(x: real): int {
    if x >= 0.0 then x.Floor else -((-x).Floor)
  }

  // ─── what `allocate` promises ───

  /** The exact proportional share of one weight. */
  function Share(t: int, weight: real, sum: real): real
    requires sum != 0.0
  {
    t as real * weight / sum
  }

  function Shares(t: int, weights: seq<real>): (s: seq<real>)
    requires Sum(weights) != 0.0
    ensures |s| == |weights|
  {
    seq(|weights|, i requires 0 <= i < |weights| => Share(t, weights[i], Sum(weights)))
  }

  function Floors(shares: seq<real>): (s: seq<int>)
    ensures |s| == |shares|
  {
    seq(|shares|, i requires 0 <= i < |shares| => Trunc(shares[i]))
  }

  function Fracs(shares: seq<real>): (s: seq<real>)
    ensures |s| == |shares|
  {
    seq(|shares|, i requires 0 <= i < |shares| => shares[i] - Trunc(shares[i]) as real)
  }

  /** Index `j` is served before index `i`: a larger remainder, or the same one further left. */
  predicate Before(fracs: seq<real>, j: int, i: int)
    requires 0 <= i < |fracs| && 0 <= j < |fracs|
  {
    fracs[j] > fracs[i] || (fracs[j] == fracs[i] && j < i)
  }

  ghost function Ahead(fracs: seq<real>, i: int): set<int>
    requires 0 <= i < |fracs|
  {
    set j | 0 <= j < |fracs| && Before(fracs, j, i)
  }

  /** How many indices are served before `i`. */
  ghost function Rank(fracs: seq<real>, i: int): nat
    requires 0 <= i < |fracs|
  {
    |Ahead(fracs, i)|
  }

  ghost function Rest(t: int, shares: seq<real>): int {
    t - SumInt(Floors(shares))
  }

  /** Largest remainder, stated without a loop: the `rest` best-ranked shares get one paisa more. */
  ghost function LargestRemainder(t: int, shares: seq<real>): (parts: seq<int>)
    ensures |parts| == |shares|
  {
    seq(|shares|, i requires 0 <= i < |shares| =>
      Trunc(shares[i]) + if Rank(Fracs(shares), i) < Rest(t, shares) then 1 else 0)
  }

  ghost function Allocation(total: real, weights: seq<real>): (parts: seq<int>)
    ensures |parts| == |weights|
  {
    var t := Round2(total);
    if Sum(weights) == 0.0 then
      seq(|weights|, i => if i == 0 then t else 0)
    else
      LargestRemainder(t, Shares(t, weights))
  }

  // ─── the order in which the leftover paisa are handed out ───

  /** `i` put behind every index it must not overtake (one step of a stable descending sort). */
  function InsertIndex(fracs: seq<real>, order: seq<int>, i: int): (r: seq<int>)
    requires 0 <= i < |fracs|
    requires forall k :: 0 <= k < |order| ==> 0 <= order[k] < |fracs|
    ensures |r| == |order| + 1
    ensures forall x :: x in r <==> x in order || x == i
    ensures forall k :: 0 <= k < |r| ==> 0 <= r[k] < |fracs|
  {
    if order != [] && Before(fracs, order[0], i) then
      [order[0]] + InsertIndex(fracs, order[1..], i)
    else
      [i] + order
  }

  /** The indices below `n`, largest remainder first, ties left to right. */
  function SortByFrac(fracs: seq<real>, n: nat): (order: seq<int>)
    requires n <= |fracs|
    ensures |order| == n
    ensures forall x :: x in order <==> 0 <= x < n
    ensures forall k :: 0 <= k < n ==> 0 <= order[k] < |fracs|
  {
    if n == 0 then [] else InsertIndex(fracs, SortByFrac(fracs, n - 1), n - 1)
  }

  ghost predicate Ordered(fracs: seq<real>, order: seq<int>) {
    && (forall k :: 0 <= k < |order| ==> 0 <= order[k] < |fracs|)
    && (forall a, b :: 0 <= a < b < |order| ==> Before(fracs, order[a], order[b]))
  }

  lemma {:induction false} InsertKeepsOrder(fracs: seq<real>, order: seq<int>, i: int)
    requires 0 <= i < |fracs| && i !in order
    requires Ordered(fracs, order)
    ensures Ordered(fracs, InsertIndex(fracs, order, i))
  {
    var r := InsertIndex(fracs, order, i);
    if order != [] && Before(fracs, order[0], i) {
      var tail := InsertIndex(fracs, order[1..], i);
      InsertKeepsOrder(fracs, order[1..], i);
      assert r == [order[0]] + tail;
      forall b | 0 < b < |r|
        ensures Before(fracs, r[0], r[b])
      {
        assert r[b] == tail[b - 1] && tail[b - 1] in tail;
      }
    } else {
      assert r == [i] + order;
      forall b | 0 < b < |r|
        ensures Before(fracs, r[0], r[b])
      {
        assert r[b] == order[b - 1];
        assert order[0] in order;
      }
    }
  }

  lemma {:induction false} SortIsOrdered(fracs: seq<real>, n: nat)
    requires n <= |fracs|
    ensures Ordered(fracs, SortByFrac(fracs, n))
  {
    if n > 0 {
      SortIsOrdered(fracs, n - 1);
      InsertKeepsOrder(fracs, SortByFrac(fracs, n - 1), n - 1);
    }
  }

  /** The k-th index of the sorted order is the one of rank k. */
  lemma {:induction false} SortedPositionIsRank(fracs: seq<real>, k: nat)
    requires k < |fracs|
    ensures Rank(fracs, SortByFrac(fracs, |fracs|)[k]) == k
  {
    var order := SortByFrac(fracs, |fracs|);
    SortIsOrdered(fracs, |fracs|);
    var i := order[k];
    var front := order[..k];
    forall j
      ensures j in Ahead(fracs, i) <==> j in front
    {
      if 0 <= j < |fracs| {
        assert j in order;
        var p :| 0 <= p < |order| && order[p] == j;
        if p < k {
          assert front[p] == j;
        } else {
          forall q | 0 <= q < k
            ensures front[q] != j
          {
            assert Before(fracs, order[q], order[p]);
          }
        }
      }
    }
    assert Ahead(fracs, i) == set x | x in front;
    DistinctCardinality(front);
  }

  /**
   * Splits `total` over `weights` in proportion.  The parts are those of
   * `Allocation`: nothing is asked of the sign of the total or the weights.
   */
  method Allocate(total: real, weights: seq<real>) returns (parts: seq<int>)
    ensures parts == Allocation(total, weights)
  {
    hide Rank, InsertIndex, SortByFrac, Sum;
    var t := Round2(total);
    var wSum := Sum(weights);
    if wSum == 0.0 {
      return seq(|weights|, i => if i == 0 then t else 0);
    }
    var raw := Shares(t, weights);
    var n := |raw|;
    var floored := new int[n](i requires 0 <= i < n => Trunc(raw[i]));
    assert floored[..] == Floors(raw);
    var rest := t - SumInt(floored[..]);
    ghost var rest0 := rest;
    var fracs := Fracs(raw);
    var order := SortByFrac(fracs, n);
    var k := 0;
    while k < n
      invariant 0 <= k <= n
      invariant rest == rest0 - k
      invariant k == 0 || rest >= 0
      invariant forall i :: 0 <= i < n ==>
                  floored[i] == Trunc(raw[i]) + if Rank(fracs, i) < k then 1 else 0
    {
      if rest <= 0 {
        break;
      }
      var i := order[k];
      assert i in order;
      SortedPositionIsRank(fracs, k);
      RankInjective(fracs);
      floored[i] := floored[i] + 1;
      rest := rest - 1;
      k := k + 1;
    }
    forall i | 0 <= i < n
      ensures Rank(fracs, i) < n
    {
      RankBounded(fracs, i);
    }
    parts := floored[..];
    assert parts == LargestRemainder(t, raw);
  }

  lemma RankBounded(fracs: seq<real>, i: int)
    requires 0 <= i < |fracs|
    ensures Rank(fracs, i) < |fracs|
  {
    var order := SortByFrac(fracs, |fracs|);
    assert i in order;
    var k :| 0 <= k < |order| && order[k] == i;
    SortedPositionIsRank(fracs, k);
  }

  lemma RankInjective(fracs: seq<real>)
    ensures forall i, j :: 0 <= i < |fracs| && 0 <= j < |fracs| && Rank(fracs, i) == Rank(fracs, j) ==> i == j
  {
    var order := SortByFrac(fracs, |fracs|);
    forall i, j | 0 <= i < |fracs| && 0 <= j < |fracs| && Rank(fracs, i) == Rank(fracs, j)
      ensures i == j
    {
      assert i in order && j in order;
      var a :| 0 <= a < |order| && order[a] == i;
      var b :| 0 <= b < |order| && order[b] == j;
      SortedPositionIsRank(fracs, a);
      SortedPositionIsRank(fracs, b);
    }
  }
}
