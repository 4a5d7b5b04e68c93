/**
 * The radius search of CurveDomino.SearchMinCurvature (Components.py:169-195).
 * A cubic Bezier curve joins two poses; its inner control points lie on the
 * poses' headings at distance `radius`. Five radii spread evenly over the
 * bracket [lower, upper] are scored by the largest discrete curvature along
 * the sampled curve, the first best one narrows the bracket around itself,
 * and the search recurses until the bracket is narrower than MIN_BRACKET.
 */
module CurveSearch {
  import opened Geometry
  import opened Bezier

  /** Number of radii tried per round (Components.py:170). */
  const DIVIDE: nat := 5

  /** The search stops once the bracket is narrower than this (Components.py:193). */
  const MIN_BRACKET: real := 0.05

  /** The curve is padded by interpolating just past each end (Components.py:185). */
  const OVERSHOOT: real := 1.01

  /** The radii tried in one round: lower + (upper - lower) / 4 * i for i < 5 (Components.py:171). */
  function Candidates(lower: real, upper: real): (r: seq<real>)
    ensures |r| == DIVIDE
    ensures r[0] == lower && r[DIVIDE - 1] == upper
    ensures forall i :: 0 < i < DIVIDE ==> r[i] - r[i - 1] == (upper - lower) / 4.0
  {
    seq(DIVIDE, i => lower + (upper - lower) / (DIVIDE - 1) as real * i as real)
  }

  /** With lower <= upper every candidate lies in the bracket, in increasing order. */
  lemma CandidatesInBracket(lower: real, upper: real)
    requires lower <= upper
    ensures forall i :: 0 <= i < DIVIDE ==> lower <= Candidates(lower, upper)[i] <= upper
    ensures forall i, j :: 0 <= i <= j < DIVIDE ==> Candidates(lower, upper)[i] <= Candidates(lower, upper)[j]
  {
    var c := Candidates(lower, upper);
    assert c[0] <= c[1] <= c[2] <= c[3] <= c[4];
  }

  /** The control polygon for one radius (Components.py:176-183). */
  function Controls(geo: Geo, s: Pose, e: Pose, radius: real): (r: seq<Point>)
    ensures |r| == 4 && r[0] == s.at && r[3] == e.at
  {
    [s.at,
     Point(s.at.x + radius * geo.cos(s.angle), s.at.y + radius * geo.sin(s.angle)),
     Point(e.at.x - radius * geo.cos(e.angle), e.at.y - radius * geo.sin(e.angle)),
     e.at]
  }

  /** The sampled curve with one point added just beyond each end (Components.py:185). */
  function Padded(geo: Geo, s: Pose, e: Pose, radius: real): (r: seq<Point>)
    ensures |r| == SAMPLE_COUNT + 3
  {
    var c := Controls(geo, s, e, radius);
    [Interpolate(c[0], c[1], OVERSHOOT)] + Curve(c) + [Interpolate(c[3], c[2], OVERSHOOT)]
  }

  /** The curvature at every inner point of a polyline (Components.py:186). */
  function Curvatures(geo: Geo, pts: seq<Point>): (r: seq<real>)
    requires |pts| >= 3
    ensures |r| == |pts| - 2
    ensures forall i :: 0 <= i < |r| ==> r[i] == Curvature(geo, pts[i], pts[i + 1], pts[i + 2])
  {
    seq(|pts| - 2, i requires 0 <= i < |pts| - 2 => Curvature(geo, pts[i], pts[i + 1], pts[i + 2]))
  }

  /** Python's max over a non-empty list. */
  function MaxOf(xs: seq<real>): (m: real)
    requires |xs| > 0
    ensures m in xs
    ensures forall i :: 0 <= i < |xs| ==> xs[i] <= m
  {
    if |xs| == 1 then xs[0]
    else
      var rest := MaxOf(xs[1..]);
      if xs[0] >= rest then xs[0] else rest
  }

  /** The score of one radius: the largest curvature along the padded curve (Components.py:184-187). */
  function Score(geo: Geo, s: Pose, e: Pose, radius: real): real
  {
    MaxOf(Curvatures(geo, Padded(geo, s, e, radius)))
  }

  /**
   * A padded curve that passes twice in a row through one point scores at
   * least DEGENERATE_CURVATURE, instead of failing on a division by zero
   * (Components.py:209-210).
   */
  lemma RepeatedPointScoresDegenerate(geo: Geo, s: Pose, e: Pose, radius: real, i: nat)
    requires geo.Lawful()
    requires i + 2 < SAMPLE_COUNT + 3
    requires Padded(geo, s, e, radius)[i] == Padded(geo, s, e, radius)[i + 1]
    ensures Score(geo, s, e, radius) >= DEGENERATE_CURVATURE
  {
    var pts := Padded(geo, s, e, radius);
    assert Curvatures(geo, pts)[i] == DEGENERATE_CURVATURE;
  }

  /** `curvatures.index(min(curvatures))`: the first position of the smallest value (Components.py:189). */
  function FirstMinIndex(xs: seq<real>): (i: nat)
    requires |xs| > 0
    ensures i < |xs|
    ensures forall j :: 0 <= j < |xs| ==> xs[i] <= xs[j]
    ensures forall j :: 0 <= j < i ==> xs[i] < xs[j]
  {
    if |xs| == 1 then 0
    else
      var k := FirstMinIndex(xs[1..]) + 1;
      if xs[0] <= xs[k] then 0 else k
  }

  /** The bracket for the next round: the neighbouring candidates of the winner (Components.py:190-193). */
  function Narrow(lower: real, upper: real, index: nat): (r: (real, real))
    requires index < DIVIDE
    ensures lower <= upper ==> lower <= r.0 <= Candidates(lower, upper)[index] <= r.1 <= upper
    ensures r.1 - r.0 == (if 0 < index < DIVIDE - 1 then (upper - lower) / 2.0 else (upper - lower) / 4.0)
  {
    var c := Candidates(lower, upper);
    var r := (if index != 0 then c[index - 1] else lower, if index != DIVIDE - 1 then c[index + 1] else upper);
    if lower <= upper then
      CandidatesInBracket(lower, upper);
      r
    else r
  }

  /**
   * The midpoint of the narrowed bracket is the winning candidate itself
   * when the winner is one of the three inner ones, and lies an eighth of
   * the old bracket inside it when the winner is at an edge.
   */
  lemma WinnerAtMidpoint(lower: real, upper: real, index: nat)
    requires index < DIVIDE
    ensures var (lo, hi) := Narrow(lower, upper, index);
      var c := Candidates(lower, upper)[index];
      && (0 < index < DIVIDE - 1 ==> (lo + hi) / 2.0 == c)
      && (index == 0 ==> (lo + hi) / 2.0 - c == (upper - lower) / 8.0)
      && (index == DIVIDE - 1 ==> c - (lo + hi) / 2.0 == (upper - lower) / 8.0)
  {
  }

  /** The scores of the five candidate radii of one round (Components.py:172-188). */
  function Scores(score: real -> real, lower: real, upper: real): (r: seq<real>)
    ensures |r| == DIVIDE
    ensures forall i :: 0 <= i < DIVIDE ==> r[i] == score(Candidates(lower, upper)[i])
  {
    var c := Candidates(lower, upper);
    seq(DIVIDE, i requires 0 <= i < DIVIDE => score(c[i]))
  }

  /**
   * The recursion of SearchMinCurvature with the scoring of a radius left
   * open: each round keeps the first best candidate and its neighbours.
   */
  function SearchWith(geo: Geo, s: Pose, e: Pose, score: real -> real, lower: real, upper: real): (r: (real, seq<Point>))
    ensures lower < upper ==> lower < r.0 < upper
    decreases (upper - lower) * 40.0
  {
    var index := FirstMinIndex(Scores(score, lower, upper));
    var (lo, hi) := Narrow(lower, upper, index);
    if hi - lo < MIN_BRACKET then
      ((lo + hi) / 2.0, Curve(Controls(geo, s, e, Candidates(lower, upper)[index])))
    else
      SearchWith(geo, s, e, score, lo, hi)
  }

  /**
   * What the round that ends the search returns (Components.py:189-194):
   * with k the first best of the five candidates of [L, U] and [lo, hi] the
   * bracket k narrows it to, that bracket is narrower than MIN_BRACKET, the
   * radius is its midpoint, and the curve is the one sampled at candidate k,
   * which scores no worse than any candidate and better than those before it.
   */
  ghost predicate LastRound(geo: Geo, s: Pose, e: Pose, score: real -> real, L: real, U: real, r: (real, seq<Point>))
  {
    var c := Candidates(L, U);
    var k := FirstMinIndex(Scores(score, L, U));
    var (lo, hi) := Narrow(L, U, k);
    && hi - lo < MIN_BRACKET
    && r.0 == (lo + hi) / 2.0
    && r.1 == Curve(Controls(geo, s, e, c[k]))
    && (forall j :: 0 <= j < DIVIDE ==> score(c[k]) <= score(c[j]))
    && (forall j :: 0 <= j < k ==> score(c[k]) < score(c[j]))
  }

  /** The search ends with a last round on a bracket nested in the first one. */
  lemma {:induction false} SearchFinal(geo: Geo, s: Pose, e: Pose, score: real -> real, lower: real, upper: real)
    requires lower <= upper
    ensures exists L, U :: lower <= L <= U <= upper && LastRound(geo, s, e, score, L, U, SearchWith(geo, s, e, score, lower, upper))
    decreases (upper - lower) * 40.0
  {
    var index := FirstMinIndex(Scores(score, lower, upper));
    var (lo, hi) := Narrow(lower, upper, index);
    if hi - lo < MIN_BRACKET {
      assert LastRound(geo, s, e, score, lower, upper, SearchWith(geo, s, e, score, lower, upper));
    } else {
      SearchFinal(geo, s, e, score, lo, hi);
      var L, U :| lo <= L <= U <= hi && LastRound(geo, s, e, score, L, U, SearchWith(geo, s, e, score, lo, hi));
      assert SearchWith(geo, s, e, score, lower, upper) == SearchWith(geo, s, e, score, lo, hi);
    }
  }

  /** The score SearchMinCurvature gives a radius: the largest curvature along its padded curve (Components.py:184-187). */
  function CurvatureScore(geo: Geo, s: Pose, e: Pose): real -> real
  {
    radius => Score(geo, s, e, radius)
  }

  /**
   * SearchMinCurvature (Components.py:169-195), scoring each radius by the
   * largest curvature along its padded curve. The radius returned is the
   * midpoint of the last bracket, which lies strictly inside the first one,
   * and the curve is the least-scoring candidate's of the last round.
   */
  function Search(geo: Geo, s: Pose, e: Pose, lower: real, upper: real): (r: (real, seq<Point>))
    ensures lower < upper ==> lower < r.0 < upper
    ensures lower <= upper ==>
      exists L, U :: lower <= L <= U <= upper && LastRound(geo, s, e, CurvatureScore(geo, s, e), L, U, r)
  {
    if lower <= upper then
      SearchFinal(geo, s, e, CurvatureScore(geo, s, e), lower, upper);
      SearchWith(geo, s, e, CurvatureScore(geo, s, e), lower, upper)
    else
      SearchWith(geo, s, e, CurvatureScore(geo, s, e), lower, upper)
  }

  /**
   * The curve returned is sampled at the winning candidate of the last
   * round. That radius is the returned one when the winner is an inner
   * candidate, and half the last bracket away from it when the winner is
   * at an edge; either way less than half of MIN_BRACKET away.
   */
  lemma SearchCurve(geo: Geo, s: Pose, e: Pose, score: real -> real, lower: real, upper: real)
    requires lower <= upper
    ensures var r := SearchWith(geo, s, e, score, lower, upper);
      exists c :: lower <= c <= upper && -MIN_BRACKET / 2.0 < c - r.0 < MIN_BRACKET / 2.0 &&
                  r.1 == Curve(Controls(geo, s, e, c))
  {
    var r := SearchWith(geo, s, e, score, lower, upper);
    SearchFinal(geo, s, e, score, lower, upper);
    var L, U :| lower <= L <= U <= upper && LastRound(geo, s, e, score, L, U, r);
    LastRoundNear(geo, s, e, score, L, U, r);
  }

  /** The last round's curve is sampled at a candidate in its bracket, less than MIN_BRACKET / 2 from the radius returned. */
  lemma LastRoundNear(geo: Geo, s: Pose, e: Pose, score: real -> real, L: real, U: real, r: (real, seq<Point>))
    requires L <= U && LastRound(geo, s, e, score, L, U, r)
    ensures exists c :: L <= c <= U && -MIN_BRACKET / 2.0 < c - r.0 < MIN_BRACKET / 2.0 && r.1 == Curve(Controls(geo, s, e, c))
  {
    var k := FirstMinIndex(Scores(score, L, U));
    var (lo, hi) := Narrow(L, U, k);
    var c := Candidates(L, U)[k];
    assert L <= lo <= c <= hi <= U;
    assert hi - lo < MIN_BRACKET && r.0 == (lo + hi) / 2.0;
    assert r.1 == Curve(Controls(geo, s, e, c));
  }

  /** Every curve the search can return has SAMPLE_COUNT + 1 points from s.at to e.at. */
  lemma SearchCurveEnds(geo: Geo, s: Pose, e: Pose, lower: real, upper: real)
    requires lower <= upper
    ensures var curve := Search(geo, s, e, lower, upper).1;
      |curve| == SAMPLE_COUNT + 1 && curve[0] == s.at && curve[SAMPLE_COUNT] == e.at
  {
    var score := CurvatureScore(geo, s, e);
    SearchCurve(geo, s, e, score, lower, upper);
    var r := SearchWith(geo, s, e, score, lower, upper);
    var c :| r.1 == Curve(Controls(geo, s, e, c));
    CurveEnds(Controls(geo, s, e, c));
  }
}
