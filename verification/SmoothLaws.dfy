/** The curve of `Smooth` never overshoots the data and never turns between two points. */
module SmoothLaws {
  import opened Reals
  import opened Smooth

  // ─── what limiting achieves for a tangent ───

  /** The tangent does not point against the segment. */
  predicate Agrees(m: real, t: real) {
    (m > 0.0 ==> t >= 0.0) && (m < 0.0 ==> t <= 0.0)
  }

  /** The tangent points along the segment and is at most three times as steep. */
  predicate Fits(m: real, t: real) {
    (m >= 0.0 ==> 0.0 <= t <= 3.0 * m) && (m <= 0.0 ==> 3.0 * m <= t <= 0.0)
  }

  /** `b` is `a` moved towards zero. */
  predicate Shrinks(a: real, b: real) {
    (a >= 0.0 ==> 0.0 <= b <= a) && (a <= 0.0 ==> a <= b <= 0.0)
  }

  lemma ShrinkKeeps(m: real, a: real, b: real)
    requires Shrinks(a, b)
    ensures Fits(m, a) ==> Fits(m, b)
    ensures Agrees(m, a) ==> Agrees(m, b)
  {}

  // ─── ratios ───

  lemma RatioOf(t: real, m: real)
    requires m != 0.0 && Agrees(m, t)
    ensures Ratio(t, m) >= 0.0 && Ratio(t, m) * m == t
  {
    var r := Ratio(t, m);
    QuotientTimes(t, m);
    if m > 0.0 {
      SignOfProduct(r, m);
    } else {
      NegatedProduct(r, m);
      SignOfProduct(r, -m);
    }
  }

  /** A ratio of at most three makes a fitting tangent. */
  lemma RatioFits(r: real, m: real)
    requires 0.0 <= r <= 3.0
    ensures Fits(m, r * m)
  {
    var rest := 3.0 - r;
    DifferenceTimes(3.0, r, m);
    if m >= 0.0 {
      NonNegativeProduct(r, m);
      NonNegativeProduct(rest, m);
    }
    if m <= 0.0 {
      NonNegativeProduct(r, -m);
      NonNegativeProduct(rest, -m);
      NegatedProduct(r, m);
      NegatedProduct(rest, m);
    }
  }

  lemma ScaledFits(k: real, a: real, m: real)
    requires 0.0 <= k * a <= 3.0
    ensures Fits(m, Scaled(k, a, m))
  {
    RatioFits(k * a, m);
  }

  /** Squares compare with nine as their roots compare with three. */
  lemma SquareAgainstNine(r: real)
    requires r >= 0.0
    ensures r > 3.0 ==> r * r > 9.0
    ensures r <= 3.0 ==> r * r <= 9.0
  {
    assert (r - 3.0) * (r + 3.0) == r * r - 9.0;
    if r > 3.0 {
      PositiveProduct(r - 3.0, r + 3.0);
    } else {
      NonNegativeProduct(3.0 - r, r + 3.0);
      assert (3.0 - r) * (r + 3.0) == 9.0 - r * r;
    }
  }

  lemma SumOfSquaresAtMostNine(a: real, b: real)
    requires a >= 0.0 && b >= 0.0 && SquareSum(a, b) <= 9.0
    ensures a <= 3.0 && b <= 3.0
  {
    SquareNonNegative(a);
    SquareNonNegative(b);
    SquareAgainstNine(a);
    SquareAgainstNine(b);
  }

  /** Scaling both ratios by 3 / sqrt(a² + b²) puts them on the circle of radius three. */
  lemma OnTheCircle(a: real, b: real, root: real)
    requires root > 0.0 && root * root == SquareSum(a, b) > 9.0
    ensures var k := Factor(root); 0.0 < k < 1.0 && SquareSum(k * a, k * b) == 9.0
  {
    var k := Factor(root);
    QuotientTimes(3.0, root);
    SquareAgainstNine(root);
    FactorBelowOne(k, root);
    SquareOfProduct(k, a);
    SquareOfProduct(k, b);
    SquareOfProduct(k, root);
    assert k * k * (a * a + b * b) == k * k * (a * a) + k * k * (b * b);
  }

  lemma SquareOfProduct(k: real, a: real)
    ensures (k * a) * (k * a) == k * k * (a * a)
  {}

  lemma FactorBelowOne(k: real, root: real)
    requires root > 3.0 && k * root == 3.0
    ensures 0.0 < k < 1.0
  {
    SignOfProduct(k, root);
    DifferenceTimes(1.0, k, root);
    SignOfProduct(1.0 - k, root);
  }

  lemma ScalingShrinks(k: real, a: real, m: real)
    requires 0.0 < k < 1.0 && a >= 0.0
    ensures Shrinks(a * m, Scaled(k, a, m))
  {
    var t := a * m;
    assert k * a * m == k * t;
    DifferenceTimes(1.0, k, t);
    if t >= 0.0 {
      NonNegativeProduct(k, t);
      NonNegativeProduct(1.0 - k, t);
    }
    if t <= 0.0 {
      NonNegativeProduct(k, -t);
      NonNegativeProduct(1.0 - k, -t);
      NegatedProduct(k, t);
      NegatedProduct(1.0 - k, t);
    }
  }

  ghost predicate LimitedWell(m: real, left: real, right: real, l: real, r: real) {
    Fits(m, l) && Fits(m, r) && Shrinks(left, l) && Shrinks(right, r)
  }

  /** One segment limited: both tangents fit it, and neither grew. */
  lemma LimitedFits(m: real, left: real, right: real, sqrt: real -> real)
    requires IsSqrt(sqrt) && Agrees(m, left) && Agrees(m, right)
    ensures var (l, r) := Limited(m, left, right, sqrt); LimitedWell(m, left, right, l, r)
  {
    if m != 0.0 {
      var a, b := Ratio(left, m), Ratio(right, m);
      var h := SquareSum(a, b);
      if h > 9.0 {
        SteepPair(m, left, right, sqrt(h));
      } else {
        GentlePair(m, left, right);
      }
    }
  }

  lemma GentlePair(m: real, left: real, right: real)
    requires m != 0.0 && Agrees(m, left) && Agrees(m, right)
    requires SquareSum(Ratio(left, m), Ratio(right, m)) <= 9.0
    ensures LimitedWell(m, left, right, left, right)
  {
    RatioOf(left, m);
    RatioOf(right, m);
    SumOfSquaresAtMostNine(Ratio(left, m), Ratio(right, m));
    RatioFits(Ratio(left, m), m);
    RatioFits(Ratio(right, m), m);
  }

  lemma SteepPair(m: real, left: real, right: real, root: real)
    requires m != 0.0 && Agrees(m, left) && Agrees(m, right) && root > 0.0
    requires root * root == SquareSum(Ratio(left, m), Ratio(right, m)) > 9.0
    ensures var k := Factor(root);
            LimitedWell(m, left, right, Scaled(k, Ratio(left, m), m), Scaled(k, Ratio(right, m), m))
  {
    var a, b, k := Ratio(left, m), Ratio(right, m), Factor(root);
    RatioOf(left, m);
    RatioOf(right, m);
    OnTheCircle(a, b, root);
    NonNegativeProduct(k, a);
    NonNegativeProduct(k, b);
    SumOfSquaresAtMostNine(k * a, k * b);
    SteepTangent(m, left, a, k);
    SteepTangent(m, right, b, k);
  }

  lemma SteepTangent(m: real, t: real, a: real, k: real)
    requires t == a * m && a >= 0.0 && 0.0 < k < 1.0 && 0.0 <= k * a <= 3.0
    ensures Fits(m, Scaled(k, a, m)) && Shrinks(t, Scaled(k, a, m))
  {
    ScaledFits(k, a, m);
    ScalingShrinks(k, a, m);
  }

  /** Tangents inside the circle are left alone. */
  lemma GentleSegmentUntouched(m: real, left: real, right: real, sqrt: real -> real)
    requires IsSqrt(sqrt) && m != 0.0 && SquareSum(Ratio(left, m), Ratio(right, m)) <= 9.0
    ensures Limited(m, left, right, sqrt) == (left, right)
  {}

  // ─── the limiting loop ───

  /** Segments before `i` are fitted on both sides, the others still agree with their tangents. */
  ghost predicate LimitedUpTo(m: seq<real>, t: seq<real>, i: nat)
    requires |t| == |m| + 1
  {
    && (forall j :: 0 <= j < i && j < |m| ==> Fits(m[j], t[j]) && Fits(m[j], t[j + 1]))
    && (forall j :: i <= j < |m| ==> Agrees(m[j], t[j]) && Agrees(m[j], t[j + 1]))
  }

  /**
   * Iteration i rewrites the right tangent of segment i - 1, which was already
   * limited; it only shrinks it, so that segment stays fitted.
   */
  lemma LimitStep(m: seq<real>, t: seq<real>, i: nat, sqrt: real -> real)
    requires |t| == |m| + 1 && i < |m| && IsSqrt(sqrt) && LimitedUpTo(m, t, i)
    ensures var (left, right) := Limited(m[i], t[i], t[i + 1], sqrt);
            LimitedUpTo(m, t[i := left][i + 1 := right], i + 1)
  {
    var (left, right) := Limited(m[i], t[i], t[i + 1], sqrt);
    LimitedFits(m[i], t[i], t[i + 1], sqrt);
    if i > 0 {
      ShrinkKeeps(m[i - 1], t[i], left);
    }
    if i + 1 < |m| {
      ShrinkKeeps(m[i + 1], t[i + 1], right);
    }
  }

  lemma {:induction false} LimitLoop(m: seq<real>, t: seq<real>, i: nat, sqrt: real -> real)
    requires |t| == |m| + 1 && i <= |m| && IsSqrt(sqrt) && LimitedUpTo(m, t, i)
    ensures LimitedUpTo(m, LimitFrom(m, t, i, sqrt), |m|)
    decreases |m| - i
  {
    if i < |m| {
      LimitStep(m, t, i, sqrt);
      var (left, right) := Limited(m[i], t[i], t[i + 1], sqrt);
      LimitLoop(m, t[i := left][i + 1 := right], i + 1, sqrt);
    }
  }

  /** A first tangent agrees with the segments on both its sides. */
  lemma FirstTangentAgrees(m: seq<real>, i: nat)
    requires |m| >= 2 && i <= |m|
    ensures i > 0 ==> Agrees(m[i - 1], Tangents(m)[i])
    ensures i < |m| ==> Agrees(m[i], Tangents(m)[i])
  {
    if 0 < i < |m| {
      MeanAgrees(m[i - 1], m[i]);
    }
  }

  lemma FirstTangentsAgree(m: seq<real>)
    requires |m| >= 2
    ensures LimitedUpTo(m, Tangents(m), 0)
  {
    forall j | 0 <= j < |m|
      ensures Agrees(m[j], Tangents(m)[j]) && Agrees(m[j], Tangents(m)[j + 1])
    {
      FirstTangentAgrees(m, j);
      FirstTangentAgrees(m, j + 1);
    }
  }

  lemma MeanAgrees(a: real, b: real)
    ensures a * b > 0.0 ==> Agrees(a, (a + b) / 2.0) && Agrees(b, (a + b) / 2.0)
  {
    NegatedProduct(a, b);
    if a >= 0.0 && b <= 0.0 {
      NonNegativeProduct(a, -b);
    }
    if a <= 0.0 && b >= 0.0 {
      NonNegativeProduct(-a, b);
    }
  }

  /** Every final tangent fits the segment on its left and the one on its right. */
  lemma FinalTangentsFit(pts: seq<Point>, sqrt: real -> real, i: nat)
    requires |pts| >= 3 && Rising(pts) && IsSqrt(sqrt) && i < |pts| - 1
    ensures var t := FinalTangents(pts, sqrt);
            Fits(Slope(pts[i], pts[i + 1]), t[i]) && Fits(Slope(pts[i], pts[i + 1]), t[i + 1])
  {
    var m := Slopes(pts);
    FirstTangentsAgree(m);
    LimitLoop(m, Tangents(m), 0, sqrt);
    assert m[i] == Slope(pts[i], pts[i + 1]);
  }

  // ─── the curve ───

  /** A cubic Bézier coordinate at parameter `s`. */
  function Bezier(p0: real, p1: real, p2: real, p3: real, s: real): real {
    var r := 1.0 - s;
    r * r * r * p0 + 3.0 * (r * r * s) * p1 + 3.0 * (r * s * s) * p2 + s * s * s * p3
  }

  function Cube(x: real): real {
    x * x * x
  }

  /** The share of each control step that is covered at parameter `s`. */
  function First(s: real): real {
    1.0 - Cube(1.0 - s)
  }

  function Second(s: real): real {
    3.0 * (s * s) - 2.0 * Cube(s)
  }

  /** The coordinate is the start plus the covered share of each control step. */
  predicate CoversSteps(p0: real, p1: real, p2: real, p3: real, s: real, a0: real, a1: real, a2: real) {
    Bezier(p0, p1, p2, p3, s) == p0 + ((p1 - p0) * a0 + (p2 - p1) * a1 + (p3 - p2) * a2)
  }

  /** Every share grows, and the two outer ones together outgrow the middle one. */
  predicate SharesGrow(a0: real, a1: real, a2: real, b0: real, b1: real, b2: real) {
    a0 <= b0 && a1 <= b1 && a2 <= b2 && a0 + a2 - a1 <= b0 + b2 - b1
  }

  lemma BezierBySteps(p0: real, p1: real, p2: real, p3: real, s: real)
    ensures CoversSteps(p0, p1, p2, p3, s, First(s), Second(s), Cube(s))
  {
    var r3, r2s, rs2, s3 := Weights(p0, p1, p2, p3, s);
    hide Bezier, First, Second, Cube;
    Linear(r3, r2s, rs2, s3, p0, p1, p2, p3);
  }

  /** The four weights of a cubic at `s`: they add up to one, and the shares are sums of them. */
  lemma Weights(p0: real, p1: real, p2: real, p3: real, s: real) returns (r3: real, r2s: real, rs2: real, s3: real)
    ensures Bezier(p0, p1, p2, p3, s) == r3 * p0 + 3.0 * r2s * p1 + 3.0 * rs2 * p2 + s3 * p3
    ensures r3 + 3.0 * r2s + 3.0 * rs2 + s3 == 1.0
    ensures First(s) == 3.0 * r2s + 3.0 * rs2 + s3 && Second(s) == 3.0 * rs2 + s3 && Cube(s) == s3
  {
    var r := 1.0 - s;
    r3, r2s, rs2, s3 := r * r * r, r * r * s, r * s * s, s * s * s;
    Weighted(p0, p1, p2, p3, r, s);
    SharesOf(r, s);
    hide Bezier, First, Second, Cube;
    Binomials(s);
  }

  lemma Weighted(p0: real, p1: real, p2: real, p3: real, r: real, s: real)
    requires r == 1.0 - s
    ensures Bezier(p0, p1, p2, p3, s)
         == r * r * r * p0 + 3.0 * (r * r * s) * p1 + 3.0 * (r * s * s) * p2 + s * s * s * p3
  {}

  lemma SharesOf(r: real, s: real)
    requires r == 1.0 - s
    ensures First(s) == 1.0 - r * r * r && Second(s) == 3.0 * (s * s) - 2.0 * (s * s * s) && Cube(s) == s * s * s
  {}

  lemma Binomials(s: real)
    ensures var r := 1.0 - s;
            && r * r * r + 3.0 * (r * r * s) + 3.0 * (r * s * s) + s * s * s == 1.0
            && 3.0 * (s * s) - 2.0 * (s * s * s) == 3.0 * (r * s * s) + s * s * s
  {
    var r := 1.0 - s;
    assert r * r == 1.0 - 2.0 * s + s * s;
    assert r * r * r == r * r - r * r * s;
    assert r * r * s == s - 2.0 * (s * s) + s * s * s;
    assert r * s * s == s * s - s * s * s;
  }

  lemma Linear(r3: real, r2s: real, rs2: real, s3: real, p0: real, p1: real, p2: real, p3: real)
    requires r3 + 3.0 * r2s + 3.0 * rs2 + s3 == 1.0
    ensures r3 * p0 + 3.0 * r2s * p1 + 3.0 * rs2 * p2 + s3 * p3 ==
            p0 + (p1 - p0) * (3.0 * r2s + 3.0 * rs2 + s3) + (p2 - p1) * (3.0 * rs2 + s3) + (p3 - p2) * s3
  {
    assert r3 == 1.0 - 3.0 * r2s - 3.0 * rs2 - s3;
  }

  lemma CubeMonotone(a: real, b: real)
    requires a <= b
    ensures Cube(a) <= Cube(b)
  {
    var d, q := b - a, a * a + a * b + b * b;
    SquareNonNegative(a + b);
    SquareNonNegative(a);
    SquareNonNegative(b);
    assert (a + b) * (a + b) == a * a + 2.0 * (a * b) + b * b;
    NonNegativeProduct(d, q);
    DifferenceOfCubes(a, b);
  }

  lemma DifferenceOfCubes(a: real, b: real)
    ensures (b - a) * (a * a + a * b + b * b) == Cube(b) - Cube(a)
  {}

  lemma SecondMonotone(s: real, u: real)
    requires 0.0 <= s <= u <= 1.0
    ensures Second(s) <= Second(u)
  {
    var d := u - s;
    var q := 3.0 * (s + u) - 2.0 * (s * s + s * u + u * u);
    NonNegativeProduct(s, 1.0 - s);
    NonNegativeProduct(u, 1.0 - u);
    NonNegativeProduct(s, 1.0 - u);
    NonNegativeProduct(u, 1.0 - s);
    assert q == 2.0 * (s * (1.0 - s)) + 2.0 * (u * (1.0 - u)) + s * (1.0 - u) + u * (1.0 - s);
    NonNegativeProduct(d, q);
    DifferenceOfCubes(s, u);
    assert d * q == 3.0 * (d * (s + u)) - 2.0 * (d * (s * s + s * u + u * u));
    assert d * (s + u) == u * u - s * s;
  }

  /** The two outer shares together outgrow the middle one. */
  lemma OuterOutgrowsMiddle(s: real, u: real)
    requires s <= u
    ensures First(s) + Cube(s) - Second(s) <= First(u) + Cube(u) - Second(u)
  {
    CubeMonotone(2.0 * s - 1.0, 2.0 * u - 1.0);
    HalfCube(s);
    HalfCube(u);
  }

  lemma CubeOfOneMinus(s: real)
    ensures Cube(1.0 - s) == 1.0 - 3.0 * s + 3.0 * (s * s) - s * s * s
  {
    var r := 1.0 - s;
    assert r * r == 1.0 - 2.0 * s + s * s;
    assert r * r * s == s - 2.0 * (s * s) + s * s * s;
    assert r * r * r == r * r - r * r * s;
  }

  lemma HalfCube(s: real)
    ensures First(s) + Cube(s) - Second(s) == (Cube(2.0 * s - 1.0) + 1.0) / 2.0
  {
    var s2, s3, w := s * s, s * s * s, 2.0 * s - 1.0;
    CubeOfOneMinus(s);
    assert w * w == 4.0 * s2 - 4.0 * s + 1.0;
    assert w * w * s == 4.0 * s3 - 4.0 * s2 + s;
    assert w * w * w == 2.0 * (w * w * s) - w * w;
  }

  predicate Within(y: real, a: real, b: real) {
    (a <= y <= b) || (b <= y <= a)
  }

  /** Steps up whose ends lie in the band never lead down, even when the middle step does. */
  lemma StepsNeverLeadDown(d0: real, d1: real, d2: real, g0: real, g1: real, g2: real)
    requires 0.0 <= d0 <= d0 + d1 + d2 && 0.0 <= d2 <= d0 + d1 + d2
    requires 0.0 <= g0 && 0.0 <= g1 && 0.0 <= g2 && g1 <= g0 + g2
    ensures d0 * g0 + d1 * g1 + d2 * g2 >= 0.0
  {
    if d1 >= 0.0 {
      NonNegativeProduct(d0, g0);
      NonNegativeProduct(d1, g1);
      NonNegativeProduct(d2, g2);
    } else {
      var e := -d1;
      NonNegativeProduct(d0 - e, g0);
      NonNegativeProduct(d2 - e, g2);
      NonNegativeProduct(e, g0 + g2 - g1);
      assert d0 * g0 + d1 * g1 + d2 * g2 == (d0 - e) * g0 + (d2 - e) * g2 + e * (g0 + g2 - g1);
    }
  }

  /** With both inner controls between its ends, a rising cubic rises throughout. */
  lemma RisingBezier(p0: real, p1: real, p2: real, p3: real, s: real, u: real)
    requires p0 <= p1 <= p3 && p0 <= p2 <= p3 && 0.0 <= s <= u <= 1.0
    ensures Bezier(p0, p1, p2, p3, s) <= Bezier(p0, p1, p2, p3, u)
  {
    hide Bezier;
    var a0, a1, a2, b0, b1, b2 := SharesAt(p0, p1, p2, p3, s, u);
    Climb(p1 - p0, p2 - p1, p3 - p2, a0, a1, a2, b0, b1, b2);
  }

  /** The shares of the three control steps at two parameters. */
  lemma SharesAt(p0: real, p1: real, p2: real, p3: real, s: real, u: real)
    returns (a0: real, a1: real, a2: real, b0: real, b1: real, b2: real)
    requires 0.0 <= s <= u <= 1.0
    ensures CoversSteps(p0, p1, p2, p3, s, a0, a1, a2)
    ensures CoversSteps(p0, p1, p2, p3, u, b0, b1, b2)
    ensures SharesGrow(a0, a1, a2, b0, b1, b2)
  {
    a0, a1, a2 := First(s), Second(s), Cube(s);
    b0, b1, b2 := First(u), Second(u), Cube(u);
    BezierBySteps(p0, p1, p2, p3, s);
    BezierBySteps(p0, p1, p2, p3, u);
    SharesGrowWith(s, u);
  }

  lemma SharesGrowWith(s: real, u: real)
    requires 0.0 <= s <= u <= 1.0
    ensures SharesGrow(First(s), Second(s), Cube(s), First(u), Second(u), Cube(u))
  {
    CubeMonotone(s, u);
    CubeMonotone(1.0 - u, 1.0 - s);
    SecondMonotone(s, u);
    OuterOutgrowsMiddle(s, u);
  }

  lemma Climb(d0: real, d1: real, d2: real, a0: real, a1: real, a2: real, b0: real, b1: real, b2: real)
    requires 0.0 <= d0 <= d0 + d1 + d2 && 0.0 <= d2 <= d0 + d1 + d2
    requires a0 <= b0 && a1 <= b1 && a2 <= b2 && a0 + a2 - a1 <= b0 + b2 - b1
    ensures d0 * a0 + d1 * a1 + d2 * a2 <= d0 * b0 + d1 * b1 + d2 * b2
  {
    StepsNeverLeadDown(d0, d1, d2, b0 - a0, b1 - a1, b2 - a2);
    Telescope(d0, a0, b0);
    Telescope(d1, a1, b1);
    Telescope(d2, a2, b2);
  }

  lemma Telescope(d: real, a: real, b: real)
    ensures d * b == d * a + d * (b - a)
  {}

  lemma BezierNegated(p0: real, p1: real, p2: real, p3: real, s: real)
    ensures Bezier(-p0, -p1, -p2, -p3, s) == -Bezier(p0, p1, p2, p3, s)
  {}

  lemma BezierEnds(p0: real, p1: real, p2: real, p3: real)
    ensures Bezier(p0, p1, p2, p3, 0.0) == p0 && Bezier(p0, p1, p2, p3, 1.0) == p3
  {}

  /** Monotone from one end to the other, whichever is higher; hence never outside the two ends. */
  lemma BezierMonotone(p0: real, p1: real, p2: real, p3: real, s: real, u: real)
    requires Within(p1, p0, p3) && Within(p2, p0, p3) && 0.0 <= s <= u <= 1.0
    ensures p0 <= p3 ==> p0 <= Bezier(p0, p1, p2, p3, s) <= Bezier(p0, p1, p2, p3, u) <= p3
    ensures p3 <= p0 ==> p3 <= Bezier(p0, p1, p2, p3, u) <= Bezier(p0, p1, p2, p3, s) <= p0
  {
    BezierEnds(p0, p1, p2, p3);
    if p0 <= p3 {
      RisingBezier(p0, p1, p2, p3, 0.0, s);
      RisingBezier(p0, p1, p2, p3, s, u);
      RisingBezier(p0, p1, p2, p3, u, 1.0);
    }
    if p3 <= p0 {
      RisingBezier(-p0, -p1, -p2, -p3, 0.0, s);
      RisingBezier(-p0, -p1, -p2, -p3, s, u);
      RisingBezier(-p0, -p1, -p2, -p3, u, 1.0);
      BezierNegated(p0, p1, p2, p3, 0.0);
      BezierNegated(p0, p1, p2, p3, s);
      BezierNegated(p0, p1, p2, p3, u);
      BezierNegated(p0, p1, p2, p3, 1.0);
    }
  }

  // ─── the drawn path ───

  /** A fitting tangent puts its control ordinate between the ends of the segment. */
  lemma ControlsWithin(a: Point, b: Point, left: real, right: real)
    requires a.x < b.x && Fits(Slope(a, b), left) && Fits(Slope(a, b), right)
    ensures var h := (b.x - a.x) / 3.0;
            Within(a.y + left * h, a.y, b.y) && Within(b.y - right * h, a.y, b.y)
  {
    var h, m := (b.x - a.x) / 3.0, Slope(a, b);
    QuotientTimes(b.y - a.y, b.x - a.x);
    assert 3.0 * (m * h) == b.y - a.y by { assert m * (3.0 * h) == 3.0 * (m * h); }
    Lift(m, left, h);
    Lift(m, right, h);
  }

  lemma Lift(m: real, t: real, h: real)
    requires h > 0.0 && Fits(m, t)
    ensures m >= 0.0 ==> 0.0 <= t * h <= 3.0 * (m * h)
    ensures m <= 0.0 ==> 3.0 * (m * h) <= t * h <= 0.0
  {
    if m >= 0.0 {
      NonNegativeProduct(t, h);
      NonNegativeProduct(3.0 * m - t, h);
      DifferenceTimes(3.0 * m, t, h);
    }
    if m <= 0.0 {
      NonNegativeProduct(-t, h);
      NonNegativeProduct(t - 3.0 * m, h);
      NegatedProduct(t, h);
      DifferenceTimes(t, 3.0 * m, h);
    }
  }

  /** The ordinate of the i-th drawn segment at parameter `s`. */
  function YAt(pts: seq<Point>, path: seq<Command>, i: nat, s: real): real
    requires i + 1 < |path| == |pts| && path[i + 1].CurveTo?
  {
    Bezier(pts[i].y, path[i + 1].c1.y, path[i + 1].c2.y, path[i + 1].to.y, s)
  }

  function XAt(pts: seq<Point>, path: seq<Command>, i: nat, s: real): real
    requires i + 1 < |path| == |pts| && path[i + 1].CurveTo?
  {
    Bezier(pts[i].x, path[i + 1].c1.x, path[i + 1].c2.x, path[i + 1].to.x, s)
  }

  /** What is promised of one drawn segment from `a` to `b`. */
  ghost predicate StaysInBand(a: Point, c: Command, b: Point, s: real, u: real) {
    && c.CurveTo? && c.to == b
    && Within(c.c1.y, a.y, b.y) && Within(c.c2.y, a.y, b.y)
    && var low, high := Bezier(a.y, c.c1.y, c.c2.y, b.y, s), Bezier(a.y, c.c1.y, c.c2.y, b.y, u);
       && (a.y <= b.y ==> a.y <= low <= high <= b.y)
       && (b.y <= a.y ==> b.y <= high <= low <= a.y)
  }

  lemma SegmentStaysInBand(a: Point, c: Command, b: Point, left: real, right: real, s: real, u: real)
    requires a.x < b.x && Fits(Slope(a, b), left) && Fits(Slope(a, b), right) && 0.0 <= s <= u <= 1.0
    requires c == Segment(a, b, b.x - a.x, left, right)
    ensures StaysInBand(a, c, b, s, u)
  {
    ControlsWithin(a, b, left, right);
    BezierMonotone(a.y, c.c1.y, c.c2.y, b.y, s, u);
  }

  /**
   * The drawn curve: between two neighbouring data points both controls lie
   * between the two ordinates, the curve runs monotonically from one to the
   * other, and so never leaves their band.
   */
  lemma CurveNeverOvershoots(pts: seq<Point>, sqrt: real -> real, i: nat, s: real, u: real)
    requires |pts| >= 3 && Rising(pts) && IsSqrt(sqrt) && i < |pts| - 1 && 0.0 <= s <= u <= 1.0
    ensures var path := Curve(pts, FinalTangents(pts, sqrt));
            |path| == |pts| && StaysInBand(pts[i], path[i + 1], pts[i + 1], s, u)
  {
    hide Bezier, FinalTangents, Curve;
    var left, right := DrawnTangents(pts, sqrt, i);
    SegmentStaysInBand(pts[i], Curve(pts, FinalTangents(pts, sqrt))[i + 1], pts[i + 1], left, right, s, u);
  }

  lemma DrawnTangents(pts: seq<Point>, sqrt: real -> real, i: nat) returns (left: real, right: real)
    requires |pts| >= 3 && Rising(pts) && IsSqrt(sqrt) && i < |pts| - 1
    ensures var path := Curve(pts, FinalTangents(pts, sqrt));
            |path| == |pts| && path[i + 1] == Segment(pts[i], pts[i + 1], pts[i + 1].x - pts[i].x, left, right)
    ensures Fits(Slope(pts[i], pts[i + 1]), left) && Fits(Slope(pts[i], pts[i + 1]), right)
  {
    var t := FinalTangents(pts, sqrt);
    left, right := t[i], t[i + 1];
    FinalTangentsFit(pts, sqrt, i);
    DrawnSegment(pts, t, i);
  }

  lemma DrawnSegment(pts: seq<Point>, t: seq<real>, i: nat)
    requires |pts| == |t| && i < |pts| - 1
    ensures |Curve(pts, t)| == |pts|
    ensures Curve(pts, t)[i + 1] == Segment(pts[i], pts[i + 1], pts[i + 1].x - pts[i].x, t[i], t[i + 1])
  {
    assert Curve(pts, t)[i + 1] == Segments(pts, t)[i];
  }

  /** The abscissa moves at constant speed, so the path is the graph of a function through every data point. */
  lemma CurveIsGraph(pts: seq<Point>, t: seq<real>, path: seq<Command>, i: nat, s: real)
    requires |pts| == |t| && i < |pts| - 1 && path == Curve(pts, t)
    ensures |path| == |pts| && path[i + 1].CurveTo?
    ensures XAt(pts, path, i, s) == pts[i].x + s * (pts[i + 1].x - pts[i].x)
    ensures YAt(pts, path, i, 0.0) == pts[i].y && YAt(pts, path, i, 1.0) == pts[i + 1].y
  {
    DrawnSegment(pts, t, i);
    var a, b := pts[i].x, pts[i + 1].x;
    BezierBySteps(a, a + (b - a) / 3.0, b - (b - a) / 3.0, b, s);
    BezierEnds(pts[i].y, path[i + 1].c1.y, path[i + 1].c2.y, path[i + 1].to.y);
    EqualSteps(s, (b - a) / 3.0);
  }

  lemma EqualSteps(s: real, d: real)
    ensures d * First(s) + d * Second(s) + d * Cube(s) == 3.0 * s * d
  {
    CubeOfOneMinus(s);
    var sum := First(s) + Second(s) + Cube(s);
    assert sum == 3.0 * s;
    assert d * sum == d * First(s) + d * Second(s) + d * Cube(s);
  }

  /** A Bézier curve leaves its start, or arrives at its end, along the line to its control point there. */
  predicate Leaves(c: Command, start: Point, tangent: real) {
    c.CurveTo? && c.c1.y - start.y == tangent * (c.c1.x - start.x)
  }

  predicate Arrives(c: Command, end: Point, tangent: real) {
    c.CurveTo? && c.to == end && end.y - c.c2.y == tangent * (end.x - c.c2.x)
  }

  /** Where two segments meet, the curve leaves with the tangent it arrived with. */
  lemma JointsAreSmooth(pts: seq<Point>, t: seq<real>, path: seq<Command>, i: nat)
    requires |pts| == |t| && 0 < i < |pts| - 1 && path == Curve(pts, t)
    ensures |path| == |pts|
    ensures Arrives(path[i], pts[i], t[i]) && Leaves(path[i + 1], pts[i], t[i])
  {
    DrawnSegment(pts, t, i - 1);
    DrawnSegment(pts, t, i);
    SegmentTangents(pts[i - 1], pts[i], t[i - 1], t[i]);
    SegmentTangents(pts[i], pts[i + 1], t[i], t[i + 1]);
  }

  lemma SegmentTangents(a: Point, b: Point, left: real, right: real)
    ensures var c := Segment(a, b, b.x - a.x, left, right);
            Leaves(c, a, left) && Arrives(c, b, right)
  {}
}
