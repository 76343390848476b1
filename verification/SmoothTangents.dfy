/** Which tangents the curve is drawn with, told by the data. */
module SmoothTangents {
  import opened Reals
  import opened Smooth
  import opened SmoothLaws

  /** Two neighbouring slopes turn, or one of them is flat. */
  predicate Turns(a: real, b: real) {
    a * b <= 0.0
  }

  function Mean(a: real, b: real): real {
    (a + b) / 2.0
  }

  /** The tangent one starts from: the outer slope at either end, zero at a turn or a flat, the mean elsewhere. */
  predicate StartsAt(m: seq<real>, t: seq<real>, i: nat)
    requires 2 <= |m| && |t| == |m| + 1 && i <= |m|
  {
    if i == 0 then t[i] == m[0]
    else if i == |m| then t[i] == m[i - 1]
    else if Turns(m[i - 1], m[i]) then t[i] == 0.0
    else t[i] == Mean(m[i - 1], m[i])
  }

  predicate IsSlope(a: Point, b: Point, m: real)
    requires a.x < b.x
  {
    m == (b.y - a.y) / (b.x - a.x)
  }

  /** The slopes of the data and the tangents one starts from. */
  ghost predicate FromData(pts: seq<Point>, m: seq<real>, t: seq<real>) {
    && |pts| >= 3 && Rising(pts) && |m| == |pts| - 1 && |t| == |pts|
    && (forall i :: 0 <= i < |pts| - 1 ==> IsSlope(pts[i], pts[i + 1], m[i]))
    && (forall i :: 0 <= i <= |m| ==> StartsAt(m, t, i))
  }

  lemma SlopeAt(pts: seq<Point>, m: seq<real>, t: seq<real>, i: nat)
    requires FromData(pts, m, t) && i < |m|
    ensures m[i] == Slopes(pts)[i]
  {
    hide StartsAt, Slope;
    assert IsSlope(pts[i], pts[i + 1], m[i]);
    SlopeIs(pts[i], pts[i + 1], m[i]);
  }

  lemma SlopesAre(pts: seq<Point>, m: seq<real>, t: seq<real>)
    requires FromData(pts, m, t)
    ensures m == Slopes(pts)
  {
    assert |m| == |Slopes(pts)|;
    hide FromData, Rising, Slopes;
    forall i | 0 <= i < |m|
      ensures m[i] == Slopes(pts)[i]
    {
      SlopeAt(pts, m, t, i);
    }
  }

  lemma SlopeIs(a: Point, b: Point, m: real)
    requires a.x < b.x && IsSlope(a, b, m)
    ensures m == Slope(a, b)
  {}

  lemma StartIs(m: seq<real>, t: seq<real>, i: nat)
    requires 2 <= |m| && |t| == |m| + 1 && i <= |m| && StartsAt(m, t, i)
    ensures t[i] == Tangents(m)[i]
  {
    if 0 < i < |m| {
      TangentInside(m, i);
    }
  }

  lemma TangentInside(m: seq<real>, i: nat)
    requires 0 < i < |m|
    ensures Tangents(m)[i] == if Turns(m[i - 1], m[i]) then 0.0 else Mean(m[i - 1], m[i])
  {}

  lemma DataIs(pts: seq<Point>, m: seq<real>, t: seq<real>)
    requires FromData(pts, m, t)
    ensures m == Slopes(pts) && t == Tangents(m)
  {
    SlopesAre(pts, m, t);
    hide StartsAt, IsSlope, Tangents;
    forall i | 0 <= i <= |m|
      ensures t[i] == Tangents(m)[i]
    {
      StartIs(m, t, i);
    }
  }

  /** The two tangents of a segment of slope `m` lie within the circle of radius three slopes. */
  predicate Gentle(m: real, left: real, right: real) {
    left * left + right * right <= 9.0 * (m * m)
  }

  lemma GentleMeans(m: real, left: real, right: real)
    requires m != 0.0
    ensures SquareSum(Ratio(left, m), Ratio(right, m)) <= 9.0 <==> Gentle(m, left, right)
  {
    var a, b := Ratio(left, m), Ratio(right, m);
    QuotientTimes(left, m);
    QuotientTimes(right, m);
    CircleTimes(m, a, b);
    SquareSign(9.0 - SquareSum(a, b), m);
  }

  lemma SquareSign(x: real, m: real)
    requires m != 0.0
    ensures x >= 0.0 <==> x * (m * m) >= 0.0
  {
    if m > 0.0 {
      SignOfProduct(x, m);
      SignOfProduct(x * m, m);
    } else {
      SignOfProduct(x, -m);
      SignOfProduct(x * -m, -m);
      assert x * -m * -m == x * (m * m);
    }
  }

  lemma CircleTimes(m: real, a: real, b: real)
    ensures (9.0 - SquareSum(a, b)) * (m * m) == 9.0 * (m * m) - (a * m * (a * m) + b * m * (b * m))
  {
    SquareOfProduct(m, a);
    SquareOfProduct(m, b);
    SumTimes(a * a, b * b, m * m);
    DifferenceTimes(9.0, SquareSum(a, b), m * m);
  }

  /** A gentle segment keeps its tangents. */
  lemma GentleKeeps(m: real, left: real, right: real, sqrt: real -> real)
    requires IsSqrt(sqrt) && m != 0.0 && Gentle(m, left, right)
    ensures Limited(m, left, right, sqrt) == (left, right)
  {
    GentleMeans(m, left, right);
    GentleSegmentUntouched(m, left, right, sqrt);
  }

  /** What a steep segment's tangents, and their ratios to the slope, are multiplied with. */
  lemma SteepFactor(m: real, left: real, right: real, sqrt: real -> real) returns (k: real, a: real, b: real)
    requires IsSqrt(sqrt) && m != 0.0 && !Gentle(m, left, right)
    ensures k > 0.0 && a * m == left && b * m == right && SquareSum(k * a, k * b) == 9.0
    ensures Limited(m, left, right, sqrt) == (Scaled(k, a, m), Scaled(k, b, m))
  {
    GentleMeans(m, left, right);
    hide Gentle, SquareSum, Scaled;
    a, b := Ratio(left, m), Ratio(right, m);
    var root := sqrt(SquareSum(a, b));
    k := Factor(root);
    QuotientTimes(left, m);
    QuotientTimes(right, m);
    OnTheCircle(a, b, root);
  }

  /**
   * A steep segment gets both its tangents scaled by one factor, in their own
   * directions, onto the circle of radius three slopes.
   */
  lemma SteepSegmentScaled(m: real, left: real, right: real, sqrt: real -> real)
    requires IsSqrt(sqrt) && m != 0.0 && !Gentle(m, left, right)
    ensures var (l, r) := Limited(m, left, right, sqrt);
            && l * l + r * r == 9.0 * (m * m)
            && l * right == r * left && l * left >= 0.0 && r * right >= 0.0
  {
    var k, a, b := SteepFactor(m, left, right, sqrt);
    hide *;
    ScaledIs(k, a, m, left);
    ScaledIs(k, b, m, right);
    OnScaledCircle(k, a, b, m, left, right);
    InSameDirection(k, left, right);
  }

  /** Scaling by one positive factor keeps the ratio and the directions. */
  lemma InSameDirection(k: real, left: real, right: real)
    requires k > 0.0
    ensures (k * left) * right == (k * right) * left && (k * left) * left >= 0.0 && (k * right) * right >= 0.0
  {
    SquareNonNegative(left);
    SquareNonNegative(right);
    NonNegativeProduct(k, left * left);
    NonNegativeProduct(k, right * right);
    SameDirection(k, left, right);
  }

  lemma ScaledIs(k: real, a: real, m: real, t: real)
    requires a * m == t
    ensures Scaled(k, a, m) == k * t
  {
    assert k * a * m == k * (a * m);
  }

  lemma SameDirection(k: real, left: real, right: real)
    ensures (k * left) * right == (k * right) * left
    ensures (k * left) * left == k * (left * left) && (k * right) * right == k * (right * right)
  {}

  lemma OnScaledCircle(k: real, a: real, b: real, m: real, left: real, right: real)
    requires SquareSum(k * a, k * b) == 9.0 && a * m == left && b * m == right
    ensures (k * left) * (k * left) + (k * right) * (k * right) == 9.0 * (m * m)
  {
    var p, q := k * a, k * b;
    SquareOfProduct(m, p);
    SquareOfProduct(m, q);
    assert k * left == m * p && k * right == m * q;
    SumTimes(p * p, q * q, m * m);
  }

  // ─── the limiting loop, tangent by tangent ───

  /**
   * From segment `i` on: `c[j]` is what iteration j - 1 left at point j, and
   * iteration j turns `c[j]` and the untouched `t[j + 1]` into the final
   * tangent of point j and into `c[j + 1]`.
   */
  ghost predicate Carried(m: seq<real>, t: seq<real>, final: seq<real>, c: seq<real>, i: nat, sqrt: real -> real)
    requires IsSqrt(sqrt)
  {
    && |t| == |final| == |c| == |m| + 1 && i <= |m|
    && c[i] == t[i] && final[|m|] == c[|m|]
    && (forall j :: 0 <= j < i ==> final[j] == t[j])
    && (forall j :: i <= j < |m| ==> Limited(m[j], c[j], t[j + 1], sqrt) == (final[j], c[j + 1]))
  }

  /** The loop runs from the first segment to the last, each iteration on what the one before it left. */
  lemma {:induction false} LoopCarries(m: seq<real>, t: seq<real>, i: nat, sqrt: real -> real) returns (c: seq<real>)
    requires |t| == |m| + 1 && i <= |m| && IsSqrt(sqrt)
    ensures Carried(m, t, LimitFrom(m, t, i, sqrt), c, i, sqrt)
    decreases |m| - i
  {
    if i == |m| {
      c := t;
    } else {
      var (left, right) := Limited(m[i], t[i], t[i + 1], sqrt);
      var next := t[i := left][i + 1 := right];
      var rest := LoopCarries(m, next, i + 1, sqrt);
      c := rest[i := t[i]];
    }
  }

  /** What is carried to a point only ever shrinks from the tangent it started with. */
  lemma {:induction false} CarriedShrinks(m: seq<real>, t: seq<real>, final: seq<real>, c: seq<real>, i: nat,
                                          sqrt: real -> real)
    requires IsSqrt(sqrt) && Carried(m, t, final, c, 0, sqrt) && LimitedUpTo(m, t, 0) && i <= |m|
    ensures Shrinks(t[i], c[i])
    ensures i < |m| ==> Shrinks(c[i], final[i])
    ensures i < |m| ==> Agrees(m[i], c[i])
    decreases i
  {
    if i > 0 {
      CarriedShrinks(m, t, final, c, i - 1, sqrt);
      LimitedFits(m[i - 1], c[i - 1], t[i], sqrt);
    }
    if i < |m| {
      ShrinkKeeps(m[i], t[i], c[i]);
      LimitedFits(m[i], c[i], t[i + 1], sqrt);
    }
  }

  lemma ShrunkSquare(a: real, b: real)
    requires Shrinks(a, b)
    ensures b * b <= a * a
  {
    if a >= 0.0 {
      NonNegativeProduct(a - b, a + b);
    } else {
      NonNegativeProduct(b - a, -(a + b));
    }
    DifferenceOfSquares(a, b);
  }

  lemma DifferenceOfSquares(a: real, b: real)
    ensures (a - b) * (a + b) == a * a - b * b && (b - a) * -(a + b) == a * a - b * b
  {}

  /** A segment that starts gentle hands its right tangent on as it was. */
  lemma GentleHandsOn(m: seq<real>, t: seq<real>, final: seq<real>, c: seq<real>, i: nat, sqrt: real -> real)
    requires IsSqrt(sqrt) && Carried(m, t, final, c, 0, sqrt) && LimitedUpTo(m, t, 0)
    requires i < |m| && m[i] != 0.0 && Gentle(m[i], t[i], t[i + 1])
    ensures final[i] == c[i] && c[i + 1] == t[i + 1]
  {
    CarriedShrinks(m, t, final, c, i, sqrt);
    ShrunkSquare(t[i], c[i]);
    GentleKeeps(m[i], c[i], t[i + 1], sqrt);
  }

  /**
   * The final tangents: the mean of both slopes between two gentle segments of
   * the same direction, zero at a turn or a flat, the outer slope at the outer
   * end of a gentle segment.
   */
  lemma FinalTangentIs(pts: seq<Point>, m: seq<real>, t: seq<real>, sqrt: real -> real, i: nat)
    requires FromData(pts, m, t) && IsSqrt(sqrt) && i < |pts|
    ensures 0 < i < |m| && Turns(m[i - 1], m[i]) ==> FinalTangents(pts, sqrt)[i] == 0.0
    ensures 0 < i < |m| && !Turns(m[i - 1], m[i]) && GentleAt(m, t, i - 1) && GentleAt(m, t, i) ==>
              FinalTangents(pts, sqrt)[i] == Mean(m[i - 1], m[i])
    ensures i == 0 && GentleAt(m, t, 0) ==> FinalTangents(pts, sqrt)[i] == m[0]
    ensures i == |m| && GentleAt(m, t, i - 1) ==> FinalTangents(pts, sqrt)[i] == m[i - 1]
  {
    DataIs(pts, m, t);
    FirstTangentsAgree(m);
    var final := FinalTangents(pts, sqrt);
    var c := LoopCarries(m, t, 0, sqrt);
    assert StartsAt(m, t, i);
    LimitsAt(m, t, final, c, i, sqrt);
  }

  predicate GentleAt(m: seq<real>, t: seq<real>, i: nat)
    requires |t| == |m| + 1 && i < |m|
  {
    Gentle(m[i], t[i], t[i + 1])
  }

  lemma LimitsAt(m: seq<real>, t: seq<real>, final: seq<real>, c: seq<real>, i: nat, sqrt: real -> real)
    requires IsSqrt(sqrt) && Carried(m, t, final, c, 0, sqrt) && LimitedUpTo(m, t, 0)
    requires 2 <= |m| && i <= |m| && StartsAt(m, t, i)
    ensures 0 < i < |m| && Turns(m[i - 1], m[i]) ==> final[i] == 0.0
    ensures 0 < i < |m| && !Turns(m[i - 1], m[i]) && GentleAt(m, t, i - 1) && GentleAt(m, t, i) ==>
              final[i] == Mean(m[i - 1], m[i])
    ensures i == 0 && GentleAt(m, t, 0) ==> final[i] == m[0]
    ensures i == |m| && GentleAt(m, t, i - 1) ==> final[i] == m[i - 1]
  {
    CarriedShrinks(m, t, final, c, i, sqrt);
    if 0 < i < |m| {
      FlatTurns(m[i - 1], m[i]);
    }
    hide Turns, Mean, Carried, LimitedUpTo, Gentle;
    if i > 0 && m[i - 1] != 0.0 && GentleAt(m, t, i - 1) {
      GentleHandsOn(m, t, final, c, i - 1, sqrt);
    }
    if i < |m| && m[i] != 0.0 && GentleAt(m, t, i) {
      GentleHandsOn(m, t, final, c, i, sqrt);
    }
    FlatEnds(m, t, final, c, sqrt);
  }

  lemma FlatTurns(a: real, b: real)
    ensures a == 0.0 || b == 0.0 ==> Turns(a, b)
  {}

  /** A flat outer segment ends flat; the last tangent is the one carried to it. */
  lemma FlatEnds(m: seq<real>, t: seq<real>, final: seq<real>, c: seq<real>, sqrt: real -> real)
    requires IsSqrt(sqrt) && Carried(m, t, final, c, 0, sqrt) && 2 <= |m|
    ensures m[0] == 0.0 ==> final[0] == 0.0
    ensures m[|m| - 1] == 0.0 ==> final[|m|] == 0.0
    ensures final[|m|] == c[|m|]
  {
    var n := |m| - 1;
    assert Limited(m[0], c[0], t[0 + 1], sqrt) == (final[0], c[0 + 1]);
    assert Limited(m[n], c[n], t[n + 1], sqrt) == (final[n], c[n + 1]);
  }

  // ─── on the drawn path ───

  /** At an inner point the path arrives and leaves along the mean slope, or flat at a turn. */
  lemma InnerPointsAreDrawn(pts: seq<Point>, m: seq<real>, t: seq<real>, sqrt: real -> real, path: seq<Command>, i: nat)
    requires FromData(pts, m, t) && IsSqrt(sqrt) && path == Curve(pts, FinalTangents(pts, sqrt)) && 0 < i < |m|
    ensures |path| == |pts|
    ensures Turns(m[i - 1], m[i]) ==> Passes(path, pts, i, 0.0)
    ensures !Turns(m[i - 1], m[i]) && GentleAt(m, t, i - 1) && GentleAt(m, t, i) ==>
              Passes(path, pts, i, Mean(m[i - 1], m[i]))
  {
    hide FinalTangents, Turns, Mean, GentleAt;
    FinalTangentIs(pts, m, t, sqrt, i);
    JointsAreSmooth(pts, FinalTangents(pts, sqrt), path, i);
  }

  /** The path goes through the inner point `i` along one tangent. */
  predicate Passes(path: seq<Command>, pts: seq<Point>, i: nat, tangent: real)
    requires |path| == |pts| && 0 < i < |pts| - 1
  {
    Arrives(path[i], pts[i], tangent) && Leaves(path[i + 1], pts[i], tangent)
  }

  /** A segment of the path leaves and arrives along the final tangents of its ends. */
  lemma SegmentIsDrawn(pts: seq<Point>, final: seq<real>, path: seq<Command>, i: nat)
    requires |pts| == |final| && i < |pts| - 1 && path == Curve(pts, final)
    ensures |path| == |pts| && Leaves(path[i + 1], pts[i], final[i]) && Arrives(path[i + 1], pts[i + 1], final[i + 1])
  {
    DrawnSegment(pts, final, i);
    SegmentTangents(pts[i], pts[i + 1], final[i], final[i + 1]);
  }

  /** At the ends of gentle outer segments the path leaves and arrives along the outer slopes. */
  lemma EndsAreDrawn(pts: seq<Point>, m: seq<real>, t: seq<real>, sqrt: real -> real, path: seq<Command>)
    requires FromData(pts, m, t) && IsSqrt(sqrt) && path == Curve(pts, FinalTangents(pts, sqrt))
    ensures |path| == |pts|
    ensures GentleAt(m, t, 0) ==> Leaves(path[1], pts[0], m[0])
    ensures var n := |m|; GentleAt(m, t, n - 1) ==> Arrives(path[n], pts[n], m[n - 1])
  {
    var n, final := |m|, FinalTangents(pts, sqrt);
    FinalTangentIs(pts, m, t, sqrt, 0);
    FinalTangentIs(pts, m, t, sqrt, n);
    hide FinalTangents, GentleAt, StartsAt, Leaves, Arrives, Curve, Rising;
    SegmentIsDrawn(pts, final, path, 0);
    SegmentIsDrawn(pts, final, path, n - 1);
  }

  /** The path begins at the first data point. */
  lemma PathBegins(pts: seq<Point>, t: seq<real>)
    requires |pts| == |t| >= 1
    ensures Curve(pts, t) != [] && Curve(pts, t)[0] == MoveTo(pts[0])
  {}
}
