/**
 * The finance desk's monotone cubic curve (Fritsch and Carlson): tangents that
 * are limited segment by segment, so that the drawn curve never leaves the
 * band between two neighbouring data points.
 */
module Smooth {

  datatype Point = Point(x: real, y: real)

  /** One command of an SVG path. */
  datatype Command =
    | MoveTo(to: Point)
    | LineTo(to: Point)
    | CurveTo(c1: Point, c2: Point, to: Point)

  ghost predicate Rising(pts: seq<Point>) {
    forall i :: 0 <= i < |pts| - 1 ==> pts[i].x < pts[i + 1].x
  }

  /** A square root where one is needed. */
  ghost predicate IsSqrt(sqrt: real -> real) {
    forall h :: h > 9.0 ==> sqrt(h) > 0.0 && sqrt(h) * sqrt(h) == h
  }

  // ─── tangents ───

  function Slope(a: Point, b: Point): real
    requires a.x != b.x
  {
    (b.y - a.y) / (b.x - a.x)
  }

  function Slopes(pts: seq<Point>): (m: seq<real>)
    requires |pts| >= 2 && Rising(pts)
    ensures |m| == |pts| - 1
  {
    seq(|pts| - 1, i requires 0 <= i < |pts| - 1 => Slope(pts[i], pts[i + 1]))
  }

  /** Before limiting: the slope at the ends, zero at a turn, the mean of both sides elsewhere. */
  function Tangents(m: seq<real>): (t: seq<real>)
    requires |m| >= 2
    ensures |t| == |m| + 1
  {
    seq(|m| + 1, i requires 0 <= i < |m| + 1 =>
      if i == 0 then m[0]
      else if i == |m| then m[|m| - 1]
      else if m[i - 1] * m[i] <= 0.0 then 0.0
      else (m[i - 1] + m[i]) / 2.0)
  }

  function Ratio(t: real, m: real): real
    requires m != 0.0
  {
    t / m
  }

  function SquareSum(a: real, b: real): real {
    a * a + b * b
  }

  function Factor(root: real): real
    requires root != 0.0
  {
    3.0 / root
  }

  function Scaled(k: real, a: real, m: real): real {
    k * a * m
  }

  /** The two tangents of a segment of slope `m`, limited. */
  function Limited(m: real, left: real, right: real, sqrt: real -> real): (r: (real, real))
    requires IsSqrt(sqrt)
  {
    if m == 0.0 then (0.0, 0.0)
    else
      var a, b := Ratio(left, m), Ratio(right, m);
      var h := SquareSum(a, b);
      if h > 9.0 then
        var k := Factor(sqrt(h));
        (Scaled(k, a, m), Scaled(k, b, m))
      else (left, right)
  }

  /** Segment after segment, each working on what the one before it left. */
  function LimitFrom(m: seq<real>, t: seq<real>, i: nat, sqrt: real -> real): (r: seq<real>)
    requires |t| == |m| + 1 && i <= |m| && IsSqrt(sqrt)
    ensures |r| == |t|
    decreases |m| - i
  {
    if i == |m| then t
    else
      var (left, right) := Limited(m[i], t[i], t[i + 1], sqrt);
      LimitFrom(m, t[i := left][i + 1 := right], i + 1, sqrt)
  }

  function FinalTangents(pts: seq<Point>, sqrt: real -> real): (t: seq<real>)
    requires |pts| >= 3 && Rising(pts) && IsSqrt(sqrt)
    ensures |t| == |pts|
  {
    LimitFrom(Slopes(pts), Tangents(Slopes(pts)), 0, sqrt)
  }

  // ─── the path ───

  function Segment(a: Point, b: Point, dx: real, left: real, right: real): Command {
    var h := dx / 3.0;
    CurveTo(Point(a.x + h, a.y + left * h), Point(b.x - h, b.y - right * h), b)
  }

  function Gap(pts: seq<Point>, i: int): real
    requires 0 <= i < |pts| - 1
  {
    pts[i + 1].x - pts[i].x
  }

  function Segments(pts: seq<Point>, t: seq<real>): (path: seq<Command>)
    requires |pts| == |t| >= 1
    ensures |path| == |pts| - 1
  {
    seq(|pts| - 1, i requires 0 <= i < |pts| - 1 =>
      Segment(pts[i], pts[i + 1], Gap(pts, i), t[i], t[i + 1]))
  }

  function Curve(pts: seq<Point>, t: seq<real>): seq<Command>
    requires |pts| == |t| >= 1
  {
    [MoveTo(pts[0])] + Segments(pts, t)
  }

  function Polyline(pts: seq<Point>): seq<Command> {
    seq(|pts|, i requires 0 <= i < |pts| => if i == 0 then MoveTo(pts[0]) else LineTo(pts[i]))
  }

  method FillSlopes(pts: seq<Point>, dx: array<real>, m: array<real>)
    requires |pts| >= 2 && Rising(pts) && dx.Length == m.Length == |pts| - 1 && dx != m
    modifies dx, m
    ensures forall j :: 0 <= j < dx.Length ==> dx[j] == Gap(pts, j)
    ensures m[..] == Slopes(pts)
  {
    for i := 0 to |pts| - 1
      invariant forall j :: 0 <= j < i ==> dx[j] == Gap(pts, j)
      invariant forall j :: 0 <= j < i ==> m[j] == Slope(pts[j], pts[j + 1])
    {
      dx[i] := pts[i + 1].x - pts[i].x;
      m[i] := (pts[i + 1].y - pts[i].y) / dx[i];
    }
  }

  method FillTangents(m: array<real>, t: array<real>)
    requires m.Length >= 2 && t.Length == m.Length + 1 && t != m
    modifies t
    ensures t[..] == Tangents(m[..])
  {
    var n := t.Length;
    t[0] := m[0];
    for i := 1 to n - 1
      invariant m[..] == old(m[..])
      invariant forall j :: 0 <= j < i ==> t[j] == Tangents(m[..])[j]
    {
      t[i] := if m[i - 1] * m[i] <= 0.0 then 0.0 else (m[i - 1] + m[i]) / 2.0;
    }
    t[n - 1] := m[n - 2];
  }

  /** The limiting loop: iteration i rewrites t[i] and t[i + 1], the latter to be read again by iteration i + 1. */
  method LimitTangents(m: array<real>, t: array<real>, sqrt: real -> real)
    requires t.Length == m.Length + 1 && t != m && IsSqrt(sqrt)
    modifies t
    ensures t[..] == LimitFrom(m[..], old(t[..]), 0, sqrt)
  {
    for i := 0 to m.Length
      invariant m[..] == old(m[..])
      invariant LimitFrom(m[..], t[..], i, sqrt) == LimitFrom(m[..], old(t[..]), 0, sqrt)
    {
      ghost var was := t[..];
      var left, right := LimitPair(m[i], t[i], t[i + 1], sqrt);
      t[i], t[i + 1] := left, right;
      assert t[..] == was[i := left][i + 1 := right];
    }
  }

  method LimitPair(m: real, left: real, right: real, sqrt: real -> real) returns (l: real, r: real)
    requires IsSqrt(sqrt)
    ensures (l, r) == Limited(m, left, right, sqrt)
  {
    l, r := left, right;
    if m == 0.0 {
      l, r := 0.0, 0.0;
    } else {
      var a, b := Ratio(left, m), Ratio(right, m);
      var h := SquareSum(a, b);
      if h > 9.0 {
        var k := Factor(sqrt(h));
        l, r := Scaled(k, a, m), Scaled(k, b, m);
      }
    }
  }

  method SmoothPath(pts: seq<Point>, sqrt: real -> real) returns (path: seq<Command>)
    requires Rising(pts) && IsSqrt(sqrt)
    ensures path == if |pts| < 3 then Polyline(pts) else Curve(pts, FinalTangents(pts, sqrt))
    ensures |pts| < 3 ==>
              && |path| == |pts|
              && forall i :: 0 <= i < |pts| ==> path[i] == if i == 0 then MoveTo(pts[i]) else LineTo(pts[i])
  {
    var n := |pts|;
    if n < 3 {
      return Polyline(pts);
    }
    var dx, t := GapsAndTangents(pts, sqrt);
    path := Draw(pts, dx, t);
  }

  method GapsAndTangents(pts: seq<Point>, sqrt: real -> real) returns (dx: array<real>, t: array<real>)
    requires |pts| >= 3 && Rising(pts) && IsSqrt(sqrt)
    ensures |pts| == t.Length == dx.Length + 1
    ensures forall j :: 0 <= j < dx.Length ==> dx[j] == Gap(pts, j)
    ensures t[..] == FinalTangents(pts, sqrt)
  {
    var n := |pts|;
    dx := new real[n - 1];
    var m := new real[n - 1];
    FillSlopes(pts, dx, m);
    t := new real[n];
    FillTangents(m, t);
    ghost var first := t[..];
    LimitTangents(m, t, sqrt);
    assert first == Tangents(Slopes(pts));
  }

  lemma Extend(path: seq<Command>, head: seq<Command>, all: seq<Command>, i: nat)
    requires i < |all| && path == head + all[..i]
    ensures path + [all[i]] == head + all[..i + 1]
  {}

  method Draw(pts: seq<Point>, dx: array<real>, t: array<real>) returns (path: seq<Command>)
    requires |pts| == t.Length == dx.Length + 1
    requires forall j :: 0 <= j < dx.Length ==> dx[j] == Gap(pts, j)
    ensures path == Curve(pts, t[..])
  {
    ghost var all := Segments(pts, t[..]);
    path := [MoveTo(pts[0])];
    for i := 0 to |pts| - 1
      invariant path == [MoveTo(pts[0])] + all[..i]
    {
      var curve := Segment(pts[i], pts[i + 1], dx[i], t[i], t[i + 1]);
      assert curve == all[i];
      Extend(path, [MoveTo(pts[0])], all, i);
      path := path + [curve];
    }
  }
}
