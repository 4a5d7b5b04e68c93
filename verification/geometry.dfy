/**
 * Planar geometry shared by the layout rules: block dimensions, points, the
 * linear interpolation the curve generator is built from, and the helpers
 * (distance, heading, discrete curvature) that need square roots and
 * trigonometry. Those transcendental functions are not computed here: they
 * are fields of a `Geo` value that every caller passes in.
 */
module Geometry {

  /** Block dimensions SX x SY x SZ (Components.py:8). */
  const SX: real := 0.015
  const SY: real := 0.05
  const SZ: real := 0.1

  /** The value of Python's math.pi, written as a decimal. */
  const PI: real := 3.141592653589793

  /** Score given to a degenerate triple of points (Components.py:210). */
  const DEGENERATE_CURVATURE: real := 1.0e100

  datatype Point = Point(x: real, y: real)

  /**
   * A point with a heading, the shape `((x, y), angle)` of both a port (an
   * attachment point in a component's own frame) and the end poses a curve
   * joins.
   */
  datatype Pose = Pose(at: Point, angle: real)

  /** The host language's sqrt, atan2, cos and sin, supplied by the caller. */
  datatype Geo = Geo(
    sqrt: real -> real,
    atan2: (real, real) -> real,
    cos: real -> real,
    sin: real -> real)
  {
    /** The square root is exact and non-negative on non-negative arguments. */
    ghost predicate Lawful()
    {
      forall v :: 0.0 <= v ==> 0.0 <= sqrt(v) && sqrt(v) * sqrt(v) == v
    }

    /** Polar coordinates recompose exactly: r cos(theta) = x and r sin(theta) = y. */
    ghost predicate PolarExact()
    {
      forall x, y ::
        sqrt(x * x + y * y) * cos(atan2(y, x)) == x &&
        sqrt(x * x + y * y) * sin(atan2(y, x)) == y
    }
  }

  /**
   * `Interpolate(p, q, t)`: the weight t goes to the FIRST point, so t = 1
   * gives p and t = 0 gives q (Components.py:205-206).
   */
  function Interpolate(p: Point, q: Point, t: real): (r: Point)
    ensures t == 1.0 ==> r == p
    ensures t == 0.0 ==> r == q
    ensures r.x - q.x == t * (p.x - q.x) && r.y - q.y == t * (p.y - q.y)
  {
    Point(p.x * t + q.x * (1.0 - t), p.y * t + q.y * (1.0 - t))
  }

  /** Interpolating with t = -1 reflects the first point through the second. */
  lemma ReflectThrough(p: Point, q: Point)
    ensures Interpolate(p, q, -1.0) == Point(2.0 * q.x - p.x, 2.0 * q.y - p.y)
  {
  }

  /** Euclidean distance (Components.py:216-217). */
  function Distance(geo: Geo, p: Point, q: Point): (d: real)
    ensures geo.Lawful() ==> 0.0 <= d
    ensures geo.Lawful() ==> d * d == (p.x - q.x) * (p.x - q.x) + (p.y - q.y) * (p.y - q.y)
  {
    var dx := p.x - q.x;
    var dy := p.y - q.y;
    assert 0.0 <= dx * dx + dy * dy;
    geo.sqrt(dx * dx + dy * dy)
  }

  /** Heading of the segment from p to q (Components.py:214-215). */
  function Angle(geo: Geo, p: Point, q: Point): (a: real)
    ensures geo.PolarExact() ==>
      var dx, dy := q.x - p.x, q.y - p.y;
      geo.sqrt(dx * dx + dy * dy) * geo.cos(a) == dx && geo.sqrt(dx * dx + dy * dy) * geo.sin(a) == dy
  {
    geo.atan2(q.y - p.y, q.x - p.x)
  }

  /**
   * Discrete curvature of three points: 4 * area / (d1 * d2 * d3), the area by
   * Heron's formula clamped at zero; a triple with a zero side scores
   * DEGENERATE_CURVATURE instead of dividing by zero (Components.py:207-213).
   */
  function Curvature(geo: Geo, a: Point, b: Point, c: Point): (k: real)
    ensures geo.Lawful() && (a == b || b == c || c == a) ==> k == DEGENERATE_CURVATURE
    ensures geo.Lawful() ==> 0.0 <= k
  {
    var l0 := Distance(geo, a, b);
    var l1 := Distance(geo, b, c);
    var l2 := Distance(geo, c, a);
    if l0 * l1 * l2 == 0.0 then DEGENERATE_CURVATURE
    else
      DistinctCorners(geo, a, b, c);
      var s := (l0 + l1 + l2) / 2.0;
      var heron := s * (s - l0) * (s - l1) * (s - l2);
      var area := geo.sqrt(if 0.0 < heron then heron else 0.0);
      CurvatureNonNegative(geo, area, l0, l1, l2);
      area * 4.0 / l0 / l1 / l2
  }

  lemma CurvatureNonNegative(geo: Geo, area: real, l0: real, l1: real, l2: real)
    requires l0 * l1 * l2 != 0.0
    requires geo.Lawful() ==> 0.0 <= area && 0.0 <= l0 && 0.0 <= l1 && 0.0 <= l2
    ensures geo.Lawful() ==> 0.0 <= area * 4.0 / l0 / l1 / l2
  {
    if geo.Lawful() {
      assert l0 != 0.0 && l1 != 0.0 && l2 != 0.0;
      assert 0.0 <= area * 4.0 / l0;
      assert 0.0 <= area * 4.0 / l0 / l1;
    }
  }

  /** With an exact square root the distance from a point to itself is zero. */
  lemma {:induction false} DistanceToSelf(geo: Geo, p: Point)
    requires geo.Lawful()
    ensures Distance(geo, p, p) == 0.0
  {
    var d := Distance(geo, p, p);
    assert d * d == 0.0;
    FactorZero(d, d);
  }

  /** With an exact square root, a triangle whose sides all have non-zero length has three distinct corners. */
  lemma DistinctCorners(geo: Geo, a: Point, b: Point, c: Point)
    requires Distance(geo, a, b) * Distance(geo, b, c) * Distance(geo, c, a) != 0.0
    ensures geo.Lawful() ==> a != b && b != c && c != a
  {
    if geo.Lawful() {
      DistanceToSelf(geo, a);
      DistanceToSelf(geo, b);
      DistanceToSelf(geo, c);
    }
  }

  /** With an exact square root two points are at distance zero exactly when they coincide. */
  lemma DistanceZero(geo: Geo, p: Point, q: Point)
    requires geo.Lawful()
    ensures Distance(geo, p, q) == 0.0 <==> p == q
  {
    if p == q {
      DistanceToSelf(geo, p);
    }
    if Distance(geo, p, q) == 0.0 {
      SquaresVanish(p.x - q.x, p.y - q.y);
    }
  }

  lemma SquaresVanish(a: real, b: real)
    requires a * a + b * b == 0.0
    ensures a == 0.0 && b == 0.0
  {
    SquareNonNegative(a);
    SquareNonNegative(b);
    FactorZero(a, a);
    FactorZero(b, b);
  }

  lemma SquareNonNegative(a: real)
    ensures 0.0 <= a * a
  {
    if a < 0.0 {
      assert a * a == (-a) * (-a);
    }
  }

  lemma FactorZero(x: real, y: real)
    requires x * y == 0.0
    ensures x == 0.0 || y == 0.0
  {
    if x != 0.0 {
      assert y == (x * y) / x;
    }
  }
}
