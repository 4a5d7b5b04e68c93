/**
 * Sampling a Bezier curve by De Casteljau's construction
 * (CurveDomino.GetBizierCurve, Components.py:196-204): for each of the
 * SAMPLE_COUNT + 1 parameters t = 1 - i / SAMPLE_COUNT the control polygon
 * is collapsed by repeated linear interpolation until one point is left.
 * Only `Interpolate` is used, so everything here is exact over the reals.
 */
module Bezier {
  import opened Geometry

  /** Components.py:146. */
  const SAMPLE_COUNT: nat := 100

  /** The parameter of sample i: t = 1 - i / SAMPLE_COUNT, so sample 0 has t = 1. */
  function Param(i: nat): real
  {
    1.0 - i as real / SAMPLE_COUNT as real
  }

  /** One round: every pair of neighbours interpolated with weight t on the first (Components.py:202). */
  function Step(pts: seq<Point>, t: real): (r: seq<Point>)
    requires |pts| > 0
    ensures |r| == |pts| - 1
    ensures forall j :: 0 <= j < |r| ==> r[j] == Interpolate(pts[j], pts[j + 1], t)
  {
    seq(|pts| - 1, j requires 0 <= j < |pts| - 1 => Interpolate(pts[j], pts[j + 1], t))
  }

  /** Rounds repeated while more than one point is left (Components.py:200-202). */
  function Collapse(pts: seq<Point>, t: real): (r: seq<Point>)
    ensures |r| == if |pts| == 0 then 0 else 1
    decreases |pts|
  {
    if |pts| <= 1 then pts else Collapse(Step(pts, t), t)
  }

  /** The first n samples, in order (Components.py:198-203). */
  function SamplesUpTo(points: seq<Point>, n: nat): (r: seq<Point>)
    ensures |r| == if |points| == 0 then 0 else n
  {
    if n == 0 then [] else SamplesUpTo(points, n - 1) + Collapse(points, Param(n - 1))
  }

  /** The whole sampled curve. */
  function Curve(points: seq<Point>): seq<Point>
  {
    SamplesUpTo(points, SAMPLE_COUNT + 1)
  }

  /**
   * GetBizierCurve (Components.py:196-204): the outer loop over the
   * samples, the inner loop collapsing a copy of the control points.
   */
  method GetBizierCurve(points: seq<Point>) returns (curve: seq<Point>)
    ensures curve == Curve(points)
    ensures |points| > 0 ==> |curve| == SAMPLE_COUNT + 1
    ensures |points| > 0 ==> curve[0] == points[0] && curve[SAMPLE_COUNT] == points[|points| - 1]
  {
    curve := [];
    for i := 0 to SAMPLE_COUNT + 1
      invariant curve == SamplesUpTo(points, i)
    {
      var interpolated := points;
      while |interpolated| > 1
        invariant Collapse(interpolated, Param(i)) == Collapse(points, Param(i))
        decreases |interpolated|
      {
        var t := 1.0 - i as real / SAMPLE_COUNT as real;
        interpolated := Step(interpolated, t);
      }
      curve := curve + interpolated;
    }
    if |points| > 0 {
      CurveEnds(points);
    }
  }

  /** With t = 1 a round drops the last point; with t = 0 it drops the first. */
  lemma StepAtEnds(pts: seq<Point>)
    requires |pts| > 0
    ensures Step(pts, 1.0) == pts[..|pts| - 1]
    ensures Step(pts, 0.0) == pts[1..]
  {
  }

  /** Collapsing with t = 1 leaves the first control point, with t = 0 the last one. */
  lemma {:induction false} CollapseAtEnds(pts: seq<Point>)
    requires |pts| > 0
    ensures Collapse(pts, 1.0) == [pts[0]]
    ensures Collapse(pts, 0.0) == [pts[|pts| - 1]]
    decreases |pts|
  {
    if |pts| > 1 {
      StepAtEnds(pts);
      CollapseAtEnds(pts[..|pts| - 1]);
      CollapseAtEnds(pts[1..]);
    }
  }

  lemma {:induction false} SampleAt(points: seq<Point>, n: nat, i: nat)
    requires |points| > 0 && i < n
    ensures SamplesUpTo(points, n)[i] == Collapse(points, Param(i))[0]
  {
    if i < n - 1 {
      SampleAt(points, n - 1, i);
    }
  }

  /** The sampled curve starts at the first control point and ends at the last. */
  lemma CurveEnds(points: seq<Point>)
    requires |points| > 0
    ensures Curve(points)[0] == points[0]
    ensures Curve(points)[SAMPLE_COUNT] == points[|points| - 1]
  {
    SampleAt(points, SAMPLE_COUNT + 1, 0);
    SampleAt(points, SAMPLE_COUNT + 1, SAMPLE_COUNT);
    assert Param(0) == 1.0 && Param(SAMPLE_COUNT) == 0.0;
    CollapseAtEnds(points);
  }

  /** The cubic Bernstein polynomial on one coordinate, weight t on the first value. */
  function Cubic(x0: real, x1: real, x2: real, x3: real, t: real): real
  {
    var s := 1.0 - t;
    t * t * t * x0 + 3.0 * t * t * s * x1 + 3.0 * t * s * s * x2 + s * s * s * x3
  }

  /** The cubic Bezier curve in Bernstein form, an independent definition. */
  function Bernstein(p0: Point, p1: Point, p2: Point, p3: Point, t: real): Point
  {
    Point(Cubic(p0.x, p1.x, p2.x, p3.x, t), Cubic(p0.y, p1.y, p2.y, p3.y, t))
  }

  /** Interpolation on one coordinate, weight t on the first value. */
  function Lerp(x: real, y: real, t: real): real
  {
    x * t + y * (1.0 - t)
  }

  /** The three rounds on one coordinate give the cubic Bernstein polynomial. */
  lemma CubicCoordinate(x0: real, x1: real, x2: real, x3: real, t: real)
    ensures Lerp(Lerp(Lerp(x0, x1, t), Lerp(x1, x2, t), t), Lerp(Lerp(x1, x2, t), Lerp(x2, x3, t), t), t)
      == Cubic(x0, x1, x2, x3, t)
  {
  }

  /** The chain of interpolations that three rounds perform on four points. */
  function Chain(p0: Point, p1: Point, p2: Point, p3: Point, t: real): Point
  {
    var a0, a1, a2 := Interpolate(p0, p1, t), Interpolate(p1, p2, t), Interpolate(p2, p3, t);
    Interpolate(Interpolate(a0, a1, t), Interpolate(a1, a2, t), t)
  }

  lemma InterpolateByCoordinate(p: Point, q: Point, t: real)
    ensures Interpolate(p, q, t) == Point(Lerp(p.x, q.x, t), Lerp(p.y, q.y, t))
  {
  }

  /** The chain, coordinate by coordinate. */
  lemma ChainCoordinates(p0: Point, p1: Point, p2: Point, p3: Point, t: real)
    ensures Chain(p0, p1, p2, p3, t) == Point(
      Lerp(Lerp(Lerp(p0.x, p1.x, t), Lerp(p1.x, p2.x, t), t), Lerp(Lerp(p1.x, p2.x, t), Lerp(p2.x, p3.x, t), t), t),
      Lerp(Lerp(Lerp(p0.y, p1.y, t), Lerp(p1.y, p2.y, t), t), Lerp(Lerp(p1.y, p2.y, t), Lerp(p2.y, p3.y, t), t), t))
  {
    var a0, a1, a2 := Interpolate(p0, p1, t), Interpolate(p1, p2, t), Interpolate(p2, p3, t);
    InterpolateByCoordinate(p0, p1, t);
    InterpolateByCoordinate(p1, p2, t);
    InterpolateByCoordinate(p2, p3, t);
    InterpolateByCoordinate(a0, a1, t);
    InterpolateByCoordinate(a1, a2, t);
    InterpolateByCoordinate(Interpolate(a0, a1, t), Interpolate(a1, a2, t), t);
  }

  /** Three rounds collapse four control points. */
  lemma CubicCollapse(p0: Point, p1: Point, p2: Point, p3: Point, t: real)
    ensures Collapse([p0, p1, p2, p3], t) == [Chain(p0, p1, p2, p3, t)]
  {
    var a := Step([p0, p1, p2, p3], t);
    var b := Step(a, t);
    var c := Step(b, t);
    assert Collapse([p0, p1, p2, p3], t) == Collapse(a, t) == Collapse(b, t) == Collapse(c, t) == c;
  }

  /**
   * For four control points, De Casteljau's construction gives the cubic
   * Bernstein polynomial with the weight t on the first control point.
   */
  lemma CubicIsBernstein(p0: Point, p1: Point, p2: Point, p3: Point, t: real)
    ensures Collapse([p0, p1, p2, p3], t) == [Bernstein(p0, p1, p2, p3, t)]
  {
    CubicCollapse(p0, p1, p2, p3, t);
    ChainCoordinates(p0, p1, p2, p3, t);
    CubicCoordinate(p0.x, p1.x, p2.x, p3.x, t);
    CubicCoordinate(p0.y, p1.y, p2.y, p3.y, t);
  }
}
