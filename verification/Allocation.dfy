/** The laws of `Money.Allocation`: exact sum, bounds, fairness and optimality. */
module AllocationLaws {
  import opened Prelude
  import opened Money
  import opened Reals

  // ─── sums ───

  lemma {:induction false} SumAppend(a: seq<real>, x: real)
    ensures Sum(a + [x]) == Sum(a) + x
  {
    if a == [] {
      assert a + [x] == [x];
    } else {
      SumAppend(a[1..], x);
      assert (a + [x])[1..] == a[1..] + [x];
    }
  }

  lemma {:induction false} SumIntAppend(a: seq<int>, x: int)
    ensures SumInt(a + [x]) == SumInt(a) + x
  {
    if a == [] {
      assert a + [x] == [x];
    } else {
      SumIntAppend(a[1..], x);
      assert (a + [x])[1..] == a[1..] + [x];
    }
  }

  lemma {:induction false} ScaledSum(c: real, w: seq<real>, s: seq<real>)
    requires |s| == |w| && forall i :: 0 <= i < |w| ==> s[i] == c * w[i]
    ensures Sum(s) == c * Sum(w)
  {
    if w != [] {
      ScaledSum(c, w[1..], s[1..]);
      SumTimes(w[0], Sum(w[1..]), c);
    }
  }

  lemma {:induction false} NonNegativeSum(w: seq<real>)
    requires forall i :: 0 <= i < |w| ==> w[i] >= 0.0
    ensures Sum(w) >= 0.0
    ensures forall i :: 0 <= i < |w| ==> w[i] <= Sum(w)
  {
    if w != [] {
      NonNegativeSum(w[1..]);
      forall i | 0 <= i < |w|
        ensures w[i] <= Sum(w)
      {
        if i > 0 {
          assert w[i] == w[1..][i - 1];
        }
      }
    }
  }

  /** The exact shares are the total, cut up. */
  lemma SharesSum(t: int, w: seq<real>)
    requires Sum(w) > 0.0
    ensures Sum(Shares(t, w)) == t as real
  {
    var s := Shares(t, w);
    var c := t as real / Sum(w);
    forall i | 0 <= i < |w|
      ensures s[i] == c * w[i]
    {
      ShareIsScaled(t, w[i], Sum(w));
    }
    ScaledSum(c, w, s);
    QuotientTimes(t as real, Sum(w));
  }

  lemma ShareIsScaled(t: int, x: real, sum: real)
    requires sum > 0.0
    ensures Share(t, x, sum) == t as real / sum * x
  {
    var c := t as real / sum;
    QuotientTimes(t as real, sum);
    assert c * x * sum == c * sum * x;
    QuotientIs(t as real * x, sum, c * x);
  }

  lemma {:induction false} FloorsAndFracs(s: seq<real>)
    ensures Sum(s) == SumInt(Floors(s)) as real + Sum(Fracs(s))
  {
    if s != [] {
      FloorsAndFracs(s[1..]);
      assert Floors(s)[1..] == Floors(s[1..]);
      assert Fracs(s)[1..] == Fracs(s[1..]);
    }
  }

  ghost function Positive(fracs: seq<real>): set<int> {
    set j | 0 <= j < |fracs| && fracs[j] > 0.0
  }

  /** Remainders below one add up to no more than the number of non-zero ones. */
  lemma {:induction false} SumOfFracsBounded(fracs: seq<real>)
    requires forall i :: 0 <= i < |fracs| ==> 0.0 <= fracs[i] < 1.0
    ensures 0.0 <= Sum(fracs) <= |Positive(fracs)| as real
  {
    if fracs != [] {
      var n := |fracs| - 1;
      var front := fracs[..n];
      SumOfFracsBounded(front);
      SumAppend(front, fracs[n]);
      assert fracs == front + [fracs[n]];
      PositiveOfLast(fracs);
    }
  }

  lemma PositiveOfLast(fracs: seq<real>)
    requires fracs != []
    ensures var n := |fracs| - 1;
            |Positive(fracs)| == |Positive(fracs[..n])| + if fracs[n] > 0.0 then 1 else 0
  {
    var n := |fracs| - 1;
    assert Positive(fracs) == Positive(fracs[..n]) + if fracs[n] > 0.0 then {n} else {};
  }

  lemma PositiveAhead(fracs: seq<real>, i: int)
    requires 0 <= i < |fracs| && fracs[i] <= 0.0
    ensures |Positive(fracs)| <= Rank(fracs, i)
  {
    assert Positive(fracs) <= Ahead(fracs, i);
    SubsetCardinality(Positive(fracs), Ahead(fracs, i));
  }

  lemma {:induction false} SubsetCardinality(a: set<int>, b: set<int>)
    requires a <= b
    ensures |a| <= |b|
  {
    assert b == a + (b - a);
  }

  ghost function Indices(n: nat): (r: set<int>)
    ensures forall i :: i in r <==> 0 <= i < n
    ensures |r| == n
  {
    if n == 0 then {} else Indices(n - 1) + {n - 1}
  }

  // ─── how many parts get the extra paisa ───

  ghost function Served(fracs: seq<real>, rest: int): set<int> {
    set i | 0 <= i < |fracs| && Rank(fracs, i) < rest
  }

  lemma ServedCount(fracs: seq<real>, rest: int)
    requires 0 <= rest <= |fracs|
    ensures |Served(fracs, rest)| == rest
  {
    hide Rank;
    var order := SortByFrac(fracs, |fracs|);
    SortIsOrdered(fracs, |fracs|);
    var front := order[..rest];
    forall i
      ensures i in Served(fracs, rest) <==> i in front
    {
      if 0 <= i < |fracs| {
        assert i in order;
        var k :| 0 <= k < |order| && order[k] == i;
        SortedPositionIsRank(fracs, k);
        if k < rest {
          assert front[k] == i;
        } else {
          forall q | 0 <= q < rest
            ensures front[q] != i
          {
            assert Before(fracs, order[q], order[k]);
          }
        }
      }
    }
    assert Served(fracs, rest) == set x | x in front;
    DistinctCardinality(front);
  }

  lemma SplitLast(a: seq<int>)
    requires a != []
    ensures SumInt(a) == SumInt(a[..|a| - 1]) + a[|a| - 1]
  {
    assert a == a[..|a| - 1] + [a[|a| - 1]];
    SumIntAppend(a[..|a| - 1], a[|a| - 1]);
  }

  ghost predicate BumpedBy(a: seq<int>, b: seq<int>, bumped: set<int>) {
    && |a| == |b|
    && bumped <= Indices(|a|)
    && forall i :: 0 <= i < |a| ==> b[i] == a[i] + if i in bumped then 1 else 0
  }

  lemma {:induction false} IndicatorSum(a: seq<int>, b: seq<int>, bumped: set<int>)
    requires BumpedBy(a, b, bumped)
    ensures SumInt(b) == SumInt(a) + |bumped|
  {
    if a != [] {
      var n := |a| - 1;
      var front := bumped - {n};
      IndicatorSum(a[..n], b[..n], front);
      SplitLast(a);
      SplitLast(b);
      RemoveOne(bumped, n);
    } else {
      assert bumped == {};
    }
  }

  lemma RemoveOne(s: set<int>, x: int)
    ensures |s| == |s - {x}| + if x in s then 1 else 0
  {
    assert s == (s - {x}) + if x in s then {x} else {};
  }

  // ─── exact shares, seen only through their sum and sign ───

  /** `s` cuts the non-negative total `t` into non-negative exact shares. */
  ghost predicate ExactSplit(t: int, s: seq<real>) {
    && t >= 0
    && Sum(s) == t as real
    && forall i :: 0 <= i < |s| ==> s[i] >= 0.0
  }

  lemma RestBounded(t: int, s: seq<real>)
    requires ExactSplit(t, s)
    ensures forall i :: 0 <= i < |s| ==> 0.0 <= Fracs(s)[i] < 1.0
    ensures 0 <= Rest(t, s) <= |Positive(Fracs(s))| <= |s|
  {
    FloorsAndFracs(s);
    SumOfFracsBounded(Fracs(s));
    SubsetCardinality(Positive(Fracs(s)), Indices(|s|));
  }

  lemma SplitAddsUp(t: int, s: seq<real>)
    requires ExactSplit(t, s)
    ensures SumInt(LargestRemainder(t, s)) == t
  {
    RestBounded(t, s);
    ServedCount(Fracs(s), Rest(t, s));
    var served := Served(Fracs(s), Rest(t, s));
    assert BumpedBy(Floors(s), LargestRemainder(t, s), served);
    IndicatorSum(Floors(s), LargestRemainder(t, s), served);
  }

  /** The shares of a non-negative total over non-negative weights are such a cut. */
  lemma SharesAreExact(t: int, w: seq<real>)
    requires t >= 0 && Sum(w) != 0.0 && NonNegative(w)
    ensures Sum(w) > 0.0
    ensures ExactSplit(t, Shares(t, w))
  {
    NonNegativeSum(w);
    SharesSum(t, w);
    forall i | 0 <= i < |w|
      ensures Shares(t, w)[i] >= 0.0
    {
      ShareNonNegative(t, w[i], Sum(w));
    }
  }

  lemma ShareNonNegative(t: int, x: real, sum: real)
    requires t >= 0 && x >= 0.0 && sum > 0.0
    ensures Share(t, x, sum) >= 0.0
  {
    NonNegativeProduct(t as real, x);
    NonNegativeQuotient(t as real * x, sum);
  }

  ghost predicate NonNegative(w: seq<real>) {
    forall i :: 0 <= i < |w| ==> w[i] >= 0.0
  }

  /** No share has to be cut: each is a whole number of paisa. */
  ghost predicate NothingToCut(s: seq<real>) {
    forall i :: 0 <= i < |s| ==> Fracs(s)[i] == 0.0
  }

  /**
   * The parts add up exactly to the rounded total, precisely when there is a
   * part to carry it and either the total is not negative or no share has to
   * be cut.  (Truncation is towards zero, so a negative total leaves nothing
   * to hand out.)
   */
  lemma AllocationAddsUp(total: real, w: seq<real>)
    requires NonNegative(w)
    ensures SumInt(Allocation(total, w)) == Round2(total) <==>
            (if w == [] then Round2(total) == 0
             else Round2(total) >= 0 || Sum(w) == 0.0 || NothingToCut(Shares(Round2(total), w)))
  {
    var t := Round2(total);
    if Sum(w) == 0.0 {
      if w != [] {
        var parts := Allocation(total, w);
        assert parts == [t] + parts[1..];
        ZeroSum(parts[1..]);
      }
    } else if t >= 0 {
      SharesAreExact(t, w);
      SplitAddsUp(t, Shares(t, w));
    } else {
      NegativeShares(t, w);
      NegativeSplit(t, Shares(t, w));
    }
  }

  lemma {:induction false} ZeroSum(parts: seq<int>)
    requires forall i :: 0 <= i < |parts| ==> parts[i] == 0
    ensures SumInt(parts) == 0
  {
    if parts != [] {
      ZeroSum(parts[1..]);
    }
  }

  lemma {:induction false} NonPositiveFracs(fracs: seq<real>)
    requires forall i :: 0 <= i < |fracs| ==> fracs[i] <= 0.0
    ensures Sum(fracs) <= 0.0
    ensures Sum(fracs) == 0.0 <==> forall i :: 0 <= i < |fracs| ==> fracs[i] == 0.0
  {
    if fracs != [] {
      var tail := fracs[1..];
      NonPositiveFracs(tail);
      if Sum(fracs) == 0.0 {
        forall i | 0 <= i < |fracs|
          ensures fracs[i] == 0.0
        {
          if i > 0 {
            assert fracs[i] == tail[i - 1];
          }
        }
      }
    }
  }

  lemma NegativeShares(t: int, w: seq<real>)
    requires t < 0 && Sum(w) != 0.0 && NonNegative(w)
    ensures Sum(Shares(t, w)) == t as real
    ensures forall i :: 0 <= i < |w| ==> Shares(t, w)[i] <= 0.0
  {
    NonNegativeSum(w);
    SharesSum(t, w);
    forall i | 0 <= i < |w|
      ensures Shares(t, w)[i] <= 0.0
    {
      NegativeShare(t, w[i], Sum(w));
    }
  }

  lemma NegativeShare(t: int, x: real, sum: real)
    requires t <= 0 && x >= 0.0 && sum > 0.0
    ensures Share(t, x, sum) <= 0.0
  {
    var r := -(t as real);
    NonNegativeProduct(r, x);
    NegatedProduct(r, x);
    QuotientOrder(t as real * x, 0.0, sum);
    QuotientIs(0.0, sum, 0.0);
  }

  lemma NegativeSplit(t: int, s: seq<real>)
    requires Sum(s) == t as real && forall i :: 0 <= i < |s| ==> s[i] <= 0.0
    ensures SumInt(LargestRemainder(t, s)) == t <==> NothingToCut(s)
  {
    var fr := Fracs(s);
    FloorsAndFracs(s);
    NonPositiveFracs(fr);
    assert Rest(t, s) as real == Sum(fr);
    assert Rest(t, s) <= 0;
    assert LargestRemainder(t, s) == Floors(s);
  }

  // ─── bounds ───

  /** Each part is the floor or the ceiling of its exact share; a share that is whole is paid exactly. */
  ghost predicate FloorOrCeiling(part: int, share: real) {
    && part >= 0
    && share - 1.0 < part as real < share + 1.0
    && (share == share.Floor as real ==> part as real == share)
  }

  lemma SplitIsFloorOrCeiling(t: int, s: seq<real>, i: int)
    requires ExactSplit(t, s) && 0 <= i < |s|
    ensures FloorOrCeiling(LargestRemainder(t, s)[i], s[i])
  {
    RestBounded(t, s);
    if Fracs(s)[i] <= 0.0 {
      PositiveAhead(Fracs(s), i);
    }
  }

  lemma PartIsFloorOrCeiling(total: real, w: seq<real>, i: int)
    requires 0 <= i < |w| && Round2(total) >= 0 && Sum(w) != 0.0 && NonNegative(w)
    ensures FloorOrCeiling(Allocation(total, w)[i], Shares(Round2(total), w)[i])
  {
    SharesAreExact(Round2(total), w);
    SplitIsFloorOrCeiling(Round2(total), Shares(Round2(total), w), i);
  }

  /** A line of weight zero is given nothing while some line has weight. */
  lemma ZeroWeightGetsNothing(total: real, w: seq<real>, i: int)
    requires 0 <= i < |w| && w[i] == 0.0 && Round2(total) >= 0 && NonNegative(w)
    requires exists j :: 0 <= j < |w| && w[j] > 0.0
    ensures Allocation(total, w)[i] == 0
  {
    NonNegativeSum(w);
    PartIsFloorOrCeiling(total, w, i);
    assert Shares(Round2(total), w)[i] == 0.0;
  }

  ghost predicate WholePaisa(w: seq<real>) {
    forall i :: 0 <= i < |w| ==> w[i] >= 0.0 && w[i].Floor as real == w[i]
  }

  /** Splitting no more than the lines are worth never takes more from a line than it is worth. */
  lemma NoPartAboveItsWeight(total: real, w: seq<real>, i: int)
    requires WholePaisa(w) && 0 <= i < |w|
    requires 0 <= Round2(total) && Round2(total) as real <= Sum(w)
    ensures 0 <= Allocation(total, w)[i] && Allocation(total, w)[i] as real <= w[i]
  {
    NonNegativeSum(w);
    if Sum(w) != 0.0 {
      PartIsFloorOrCeiling(total, w, i);
      ShareAtMostWeight(Round2(total), w[i], Sum(w));
      CeilingAtMostWhole(Allocation(total, w)[i], Shares(Round2(total), w)[i], w[i]);
    }
  }

  lemma CeilingAtMostWhole(part: int, share: real, weight: real)
    requires FloorOrCeiling(part, share) && share <= weight && weight.Floor as real == weight
    ensures part as real <= weight
  {
    assert part < weight.Floor + 1;
  }

  lemma ShareAtMostWeight(t: int, x: real, sum: real)
    requires 0.0 <= t as real <= sum && sum > 0.0 && x >= 0.0
    ensures Share(t, x, sum) <= x
  {
    NonNegativeProduct(sum - t as real, x);
    DifferenceTimes(sum, t as real, x);
    QuotientIs(x * sum, sum, x);
    QuotientOrder(t as real * x, x * sum, sum);
  }

  lemma {:induction false} WholeSum(w: seq<real>)
    requires WholePaisa(w)
    ensures Sum(w) >= 0.0 && Sum(w).Floor as real == Sum(w)
  {
    if w != [] {
      WholeSum(w[1..]);
      assert Sum(w) == (w[0].Floor + Sum(w[1..]).Floor) as real;
    }
  }

  /** A percentage coupon of at most 100 % never discounts a line below zero. */
  lemma PercentCouponKeepsLinesNonNegative(w: seq<real>, pct: real, i: int)
    requires WholePaisa(w) && 0 <= i < |w| && 0.0 <= pct <= 100.0
    ensures var discount := Allocation(PercentOf(Sum(w), pct) as real, w);
            && 0 <= discount[i] && discount[i] as real <= w[i]
            && SumInt(discount) == PercentOf(Sum(w), pct)
  {
    WholeSum(w);
    var d := PercentOf(Sum(w), pct);
    PercentBounded(Sum(w), pct);
    NoPartAboveItsWeight(d as real, w, i);
    AllocationAddsUp(d as real, w);
  }

  lemma PercentBounded(a: real, pct: real)
    requires a >= 0.0 && a.Floor as real == a && 0.0 <= pct <= 100.0
    ensures 0 <= PercentOf(a, pct) && PercentOf(a, pct) as real <= a
    ensures Round2(PercentOf(a, pct) as real) == PercentOf(a, pct)
  {
    NonNegativeProduct(a, pct);
    NonNegativeProduct(a, 100.0 - pct);
    DifferenceTimes(100.0, pct, a);
    var v := a * pct / 100.0;
    assert 0.0 <= v <= a;
    Round2Monotone(v, a);
    assert Round2(a) == a.Floor;
  }

  // ─── fairness ───

  /** A strictly larger weight never receives a smaller part. */
  lemma LargerWeightNeverSmallerPart(total: real, w: seq<real>, i: int, j: int)
    requires 0 <= i < |w| && 0 <= j < |w| && w[i] > w[j] && Round2(total) >= 0 && NonNegative(w)
    ensures Allocation(total, w)[i] >= Allocation(total, w)[j]
  {
    var t := Round2(total);
    NonNegativeSum(w);
    SharesAreExact(t, w);
    LargerShare(t, w[i], w[j], Sum(w));
    LargerShareNeverSmallerPart(t, Shares(t, w), i, j);
  }

  lemma LargerShareNeverSmallerPart(t: int, s: seq<real>, i: int, j: int)
    requires ExactSplit(t, s) && 0 <= i < |s| && 0 <= j < |s|
    requires s[i] > s[j] || s[i] == s[j] == 0.0
    ensures LargestRemainder(t, s)[i] >= LargestRemainder(t, s)[j]
  {
    if s[i] == s[j] {
      SplitIsFloorOrCeiling(t, s, i);
      SplitIsFloorOrCeiling(t, s, j);
    } else if Trunc(s[i]) == Trunc(s[j]) {
      RankGrows(Fracs(s), i, j);
    }
  }

  lemma LargerShare(t: int, a: real, b: real, sum: real)
    requires t >= 0 && a > b && sum > 0.0
    ensures Share(t, a, sum) > Share(t, b, sum) || Share(t, a, sum) == Share(t, b, sum) == 0.0
  {
    if t == 0 {
      QuotientIs(0.0, sum, 0.0);
      return;
    }
    PositiveProduct(a - b, t as real);
    DifferenceTimes(a, b, t as real);
    QuotientOrder(t as real * b, t as real * a, sum);
  }

  lemma RankGrows(fracs: seq<real>, i: int, j: int)
    requires 0 <= i < |fracs| && 0 <= j < |fracs| && Before(fracs, i, j)
    ensures Rank(fracs, i) < Rank(fracs, j)
  {
    assert Ahead(fracs, i) + {i} <= Ahead(fracs, j);
    SubsetCardinality(Ahead(fracs, i) + {i}, Ahead(fracs, j));
  }

  /** Of two equal weights the one further left is never paid less. */
  lemma EqualWeightsLeftFirst(total: real, w: seq<real>, i: int, j: int)
    requires 0 <= i < j < |w| && w[i] == w[j] && Round2(total) >= 0 && NonNegative(w)
    ensures Allocation(total, w)[i] >= Allocation(total, w)[j]
  {
    NonNegativeSum(w);
    if Sum(w) != 0.0 {
      var s := Shares(Round2(total), w);
      RankGrows(Fracs(s), i, j);
    }
  }

  /** Without any weight the whole total goes to the first line. */
  lemma NoWeightPaysFirst(total: real, w: seq<real>, i: int)
    requires 0 <= i < |w| && forall j :: 0 <= j < |w| ==> w[j] == 0.0
    ensures Allocation(total, w)[i] == if i == 0 then Round2(total) else 0
  {
    ZeroWeights(w);
  }

  lemma {:induction false} ZeroWeights(w: seq<real>)
    requires forall j :: 0 <= j < |w| ==> w[j] == 0.0
    ensures Sum(w) == 0.0
  {
    if w != [] {
      ZeroWeights(w[1..]);
    }
  }

  /** `part` is less than one off the share of `x` in `t`, when `sum` shares it. */
  predicate LessThanAPaisaOff(part: int, t: int, x: real, sum: real) {
    -sum < Times(part as real, sum) - Times(t as real, x) < sum
  }

  /** Every part is less than a paisa off its proportion of the total. */
  lemma PartNearProportion(total: real, w: seq<real>, i: int)
    requires 0 <= i < |w| && Round2(total) >= 0 && Sum(w) != 0.0 && NonNegative(w)
    ensures LessThanAPaisaOff(Allocation(total, w)[i], Round2(total), w[i], Sum(w))
  {
    hide LessThanAPaisaOff, Share;
    NonNegativeSum(w);
    PartIsFloorOrCeiling(total, w, i);
    Near(Allocation(total, w)[i], Round2(total), w[i], Sum(w));
  }

  lemma Near(part: int, t: int, x: real, sum: real)
    requires sum > 0.0 && FloorOrCeiling(part, Share(t, x, sum))
    ensures LessThanAPaisaOff(part, t, x, sum)
  {
    var share := Share(t, x, sum);
    QuotientBack(Times(t as real, x), sum);
    NearShare(part as real, share, sum);
  }

  lemma NearShare(part: real, share: real, sum: real)
    requires sum > 0.0 && share - 1.0 < part < share + 1.0
    ensures -sum < Times(part, sum) - Times(share, sum) < sum
  {
    hide Times;
    PositiveTimes(part - share + 1.0, sum);
    PositiveTimes(share - part + 1.0, sum);
    SumOfTimes(part, share, 1.0, sum);
    SumOfTimes(share, part, 1.0, sum);
    OneTimes(sum);
  }

  /** A percentage is the whole paisa nearest to it. */
  lemma PercentIsNearest(amount: real, pct: real)
    ensures -50.0 <= 100.0 * PercentOf(amount, pct) as real - amount * pct <= 50.0
  {
    var v := amount * pct / 100.0;
    assert 100.0 * v == amount * pct;
  }

  // ─── optimality ───

  function Distance(part: int, share: real): real {
    if part as real >= share then part as real - share else share - part as real
  }

  /** Summed absolute deviation of a split from the exact shares. */
  function Deviation(parts: seq<int>, shares: seq<real>): real
    requires |parts| == |shares|
  {
    if parts == [] then 0.0
    else Distance(parts[0], shares[0]) + Deviation(parts[1..], shares[1..])
  }

  /** `part` is the greedy choice for a share whose remainder lies on its side of `theta`. */
  predicate Greedy(part: int, share: real, theta: real) {
    var frac := share - share.Floor as real;
    (part == share.Floor && frac <= theta) || (part == share.Floor + 1 && frac >= theta)
  }

  /** The least that moving a part by `d` paisa can cost when `theta` separates the remainders. */
  function Toll(theta: real, d: int): real {
    (1.0 - 2.0 * theta) * d as real
  }

  /** One index: moving a part away from the greedy choice costs at least its toll. */
  lemma SlopeBound(share: real, part: int, other: int, theta: real)
    requires 0.0 <= theta <= 1.0 && Greedy(part, share, theta)
    ensures Distance(other, share) >= Distance(part, share) + Toll(theta, other - part)
  {
    var td := TollOf(theta, other - part);
    if other > part {
      StepOfOne(part, other);
      SlopeUp(share, part, other, theta, td);
    } else if other < part {
      StepOfOne(other, part);
      SlopeDown(share, part, other, theta, td);
    }
  }

  /** The toll, with its product of `theta` and the step named and bounded. */
  lemma TollOf(theta: real, d: int) returns (td: real)
    requires 0.0 <= theta <= 1.0
    ensures Toll(theta, d) == d as real - 2.0 * td
    ensures d == 0 ==> td == 0.0
    ensures d >= 1 ==> theta <= td && td - theta <= d as real - 1.0
    ensures d <= -1 ==> theta <= -td && -td - theta <= -(d as real) - 1.0
  {
    TollIs(theta, d);
    hide Times, Toll;
    if d >= 1 {
      Scale(theta, d as real);
      td := Times(theta, d as real);
    } else if d <= -1 {
      Scale(theta, -(d as real));
      td := -Times(theta, -(d as real));
    } else {
      td := 0.0;
    }
  }

  lemma TollIs(theta: real, d: int)
    ensures Toll(theta, d) == d as real - 2.0 * Times(theta, d as real)
    ensures Toll(theta, d) == d as real + 2.0 * Times(theta, -(d as real))
    ensures d == 0 ==> Toll(theta, d) == 0.0
  {}

  lemma StepOfOne(a: int, b: int)
    requires a < b
    ensures a as real + 1.0 <= b as real
  {}

  /** More than the greedy choice, with the product of `theta` and the step given. */
  lemma SlopeUp(share: real, part: int, other: int, theta: real, td: real)
    requires 0.0 <= theta <= 1.0 && Greedy(part, share, theta) && part as real + 1.0 <= other as real
    requires theta <= td && td - theta <= other as real - part as real - 1.0
    ensures Distance(other, share) >= Distance(part, share) + (other as real - part as real) - 2.0 * td
  {
    if part == share.Floor {
      assert Distance(part, share) == share - share.Floor as real;
    }
  }

  /** Less than the greedy choice. */
  lemma SlopeDown(share: real, part: int, other: int, theta: real, td: real)
    requires 0.0 <= theta <= 1.0 && Greedy(part, share, theta) && other as real + 1.0 <= part as real
    requires theta <= -td && -td - theta <= part as real - other as real - 1.0
    ensures Distance(other, share) >= Distance(part, share) + (other as real - part as real) - 2.0 * td
  {
    assert Distance(other, share) == share - other as real;
    if part == share.Floor {
      assert Distance(part, share) == share - share.Floor as real;
    }
  }

  lemma Scale(theta: real, d: real)
    requires 0.0 <= theta <= 1.0 && d >= 1.0
    ensures theta <= Times(theta, d) <= d && Times(theta, d) - theta <= d - 1.0
  {
    var e := d - 1.0;
    NonNegativeProduct(theta, e);
    NonNegativeProduct(1.0 - theta, e);
    assert theta * e == theta * d - theta;
    assert (1.0 - theta) * e == e - theta * e;
  }

  ghost predicate Separates(parts: seq<int>, shares: seq<real>, theta: real)
    requires |parts| == |shares|
  {
    forall i :: 0 <= i < |parts| ==> Greedy(parts[i], shares[i], theta)
  }

  lemma {:induction false} SeparatedIsBest(parts: seq<int>, other: seq<int>, shares: seq<real>, theta: real)
    requires |parts| == |other| == |shares| && 0.0 <= theta <= 1.0
    requires Separates(parts, shares, theta)
    ensures Deviation(other, shares) >=
            Deviation(parts, shares) + Toll(theta, SumInt(other) - SumInt(parts))
  {
    if parts != [] {
      SlopeBound(shares[0], parts[0], other[0], theta);
      SeparatedIsBest(parts[1..], other[1..], shares[1..], theta);
      TollAdds(theta, other[0] - parts[0], SumInt(other[1..]) - SumInt(parts[1..]));
    }
  }

  lemma BestOfItsSum(parts: seq<int>, other: seq<int>, shares: seq<real>, theta: real)
    requires |parts| == |other| == |shares| && 0.0 <= theta <= 1.0
    requires Separates(parts, shares, theta) && SumInt(parts) == SumInt(other)
    ensures Deviation(parts, shares) <= Deviation(other, shares)
  {
    SeparatedIsBest(parts, other, shares, theta);
    assert Toll(theta, 0) == 0.0;
  }

  lemma TollAdds(theta: real, a: int, b: int)
    ensures Toll(theta, a + b) == Toll(theta, a) + Toll(theta, b)
  {
    var x, y := a as real, b as real;
    assert (a + b) as real == x + y;
    SumTimes(x, y, 1.0 - 2.0 * theta);
  }

  /** The remainder of the last index served separates the served from the rest. */
  lemma Threshold(t: int, s: seq<real>) returns (theta: real)
    requires ExactSplit(t, s)
    ensures 0.0 <= theta <= 1.0
    ensures Separates(LargestRemainder(t, s), s, theta)
  {
    RestBounded(t, s);
    var fr := Fracs(s);
    var rest := Rest(t, s);
    if rest == 0 {
      theta := 1.0;
    } else {
      var order := SortByFrac(fr, |fr|);
      var last := order[rest - 1];
      SortedPositionIsRank(fr, rest - 1);
      theta := fr[last];
      forall i | 0 <= i < |s|
        ensures Rank(fr, i) < rest ==> fr[i] >= theta
        ensures Rank(fr, i) >= rest ==> fr[i] <= theta
      {
        if Before(fr, last, i) {
          RankGrows(fr, last, i);
        } else if i != last {
          RankGrows(fr, i, last);
        }
      }
    }
  }

  /** Among all whole-paisa splits of the total, the allocation is nearest to the exact shares. */
  lemma AllocationIsOptimal(total: real, w: seq<real>, other: seq<int>)
    requires Round2(total) >= 0 && Sum(w) != 0.0 && NonNegative(w)
    requires |other| == |w| && SumInt(other) == Round2(total)
    ensures var shares := Shares(Round2(total), w);
            Deviation(Allocation(total, w), shares) <= Deviation(other, shares)
  {
    SharesAreExact(Round2(total), w);
    SplitIsOptimal(Round2(total), Shares(Round2(total), w), other);
  }

  lemma SplitIsOptimal(t: int, s: seq<real>, other: seq<int>)
    requires ExactSplit(t, s) && |other| == |s| && SumInt(other) == t
    ensures Deviation(LargestRemainder(t, s), s) <= Deviation(other, s)
  {
    var theta := Threshold(t, s);
    var parts := LargestRemainder(t, s);
    SplitAddsUp(t, s);
    BestOfItsSum(parts, other, s, theta);
  }
}
