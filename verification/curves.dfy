/**
 * CurveDomino's constructor (Components.py:145-168): the radius search
 * picks a Bezier curve between two poses; the curve is extended by one
 * point, its segments are measured, and blocks are set along it at equal
 * arc-length steps by the walk of module Resample.
 */
module Curves {
  import opened Geometry
  import opened Bezier
  import opened CurveSearch
  import opened Resample
  import opened ComponentTree
  import opened Plans
  import opened Layouts

  /** The default interval is SZ / INTERVAL_RATIO (Components.py:147, 155-156). */
  const CURVE_INTERVAL_RATIO: real := 1.8

  /**
   * The curve with one more point: the second last point reflected through
   * the last, which gives the end a segment of its own (Components.py:151).
   */
  function Extend(curve: seq<Point>): (c: seq<Point>)
    requires |curve| >= 2
    ensures |c| == |curve| + 1 && c[..|curve|] == curve
    ensures c[|curve|] == Interpolate(curve[|curve| - 2], curve[|curve| - 1], -1.0)
  {
    curve + [Interpolate(curve[|curve| - 2], curve[|curve| - 1], -1.0)]
  }

  /** The heading of every segment, then a last heading (Components.py:152). */
  function Headings(geo: Geo, c: seq<Point>, last: real): (a: seq<real>)
    requires |c| >= 1
    ensures |a| == |c| && a[|c| - 1] == last
    ensures forall i {:trigger a[i]} :: 0 <= i < |c| - 1 ==> a[i] == Angle(geo, c[i], c[i + 1])
  {
    seq(|c| - 1, i requires 0 <= i < |c| - 1 => Angle(geo, c[i], c[i + 1])) + [last]
  }

  /**
   * The length of every segment, then the search radius (Components.py:153),
   * which is what the walk's first step divides by.
   */
  function Lengths(geo: Geo, c: seq<Point>, radius: real): (l: seq<real>)
    requires |c| >= 1
    ensures |l| == |c| && l[|c| - 1] == radius
    ensures forall i {:trigger l[i]} :: 0 <= i < |c| - 1 ==> l[i] == Distance(geo, c[i], c[i + 1])
    ensures geo.Lawful() && 0.0 < radius ==> NonNegative(l)
  {
    seq(|c| - 1, i requires 0 <= i < |c| - 1 => Distance(geo, c[i], c[i + 1])) + [radius]
  }

  /** A negative interval asks for the default (Components.py:155-156). */
  function CurveStep(interval: real): (step: real)
    ensures 0.0 <= step
    ensures step == 0.0 <==> interval == 0.0
    ensures 0.0 <= interval ==> step == interval
  {
    if interval < 0.0 then SZ / CURVE_INTERVAL_RATIO else interval
  }

  /** N = int(total / interval + 0.5) + 1 blocks (Components.py:157). */
  function CurveCount(total: real, step: real): (n: int)
    requires step != 0.0
    ensures 0.0 <= total / step ==> 1 <= n
    ensures 0.0 <= total / step + 0.5 ==> (n - 1) as real <= total / step + 0.5 < n as real
  {
    Trunc(total / step + 0.5) + 1
  }

  /** The spot of an upright block: where it stands and where it faces. */
  function StoodAt(part: Part): Pose
    requires part.Block?
  {
    Pose(Point(part.xyz.x, part.xyz.y), part.rpy.z)
  }

  /** A block standing upright at a spot, turned to its heading (Components.py:168). */
  function Standing(spot: Pose): (b: Part)
    ensures b.Block? && StoodAt(b) == spot
  {
    Block(Vec3(spot.at.x, spot.at.y, SZ / 2.0), Vec3(0.0, 0.0, spot.angle))
  }

  /** The curve, headings and lengths the constructor measures, and the radius it found. */
  datatype Measured = Measured(curve: seq<Point>, angle: seq<real>, length: seq<real>)
  {
    ghost predicate Usable()
    {
      |length| >= 3 && |curve| == |angle| == |length| && NonNegative(length) && length[|length| - 1] > 0.0
    }

    /** Every segment's length is the distance between its ends. */
    ghost predicate MeasuredBy(geo: Geo)
    {
      forall i {:trigger length[i]} :: 0 <= i < |curve| - 1 && i < |length| ==> length[i] == Distance(geo, curve[i], curve[i + 1])
    }

    /** A segment of length 0 joins two equal points. */
    ghost predicate Tight()
    {
      forall i {:trigger length[i]} :: 0 <= i < |curve| - 1 && i < |length| && length[i] == 0.0 ==> curve[i] == curve[i + 1]
    }

    /** sum(length[:-2]): the length of the sampled curve, without the extension (Components.py:154). */
    function Total(): real
      requires |length| >= 2
    {
      Prefix(length, |length| - 2)
    }
  }

  /** Extends and measures a searched curve. */
  function Measure(geo: Geo, radius: real, curve: seq<Point>, last: real): (m: Measured)
    requires |curve| >= 2
    ensures |m.curve| == |curve| + 1 && m.curve[..|curve|] == curve
    ensures m.angle == Headings(geo, m.curve, last) && m.length == Lengths(geo, m.curve, radius)
    ensures geo.Lawful() && 0.0 < radius ==> m.Usable()
  {
    var c := Extend(curve);
    Measured(c, Headings(geo, c, last), Lengths(geo, c, radius))
  }

  /** The point at fraction t of sampled segment j: curve[j] at t = 1, curve[j + 1] at t = 0. */
  function SegmentPoint(curve: seq<Point>, j: nat, t: real): Point
    requires j + 1 < |curve|
  {
    Interpolate(curve[j], curve[j + 1], t)
  }

  /**
   * Where block i goes: block 0 at the start of the curve with the first
   * heading, block i at walked length i * spacing. The last branch is for
   * marks off the curve, which no block of a curve that can be built has.
   * Every block stands on a sampled segment, never on the extension.
   */
  function Spot(m: Measured, spacing: real, i: nat): (r: Pose)
    requires m.Usable()
    ensures exists j: nat, t: real :: j < |m.curve| - 2 && 0.0 <= t <= 1.0 && r.at == SegmentPoint(m.curve, j, t)
  {
    if 0 < i && 0.0 < Mark(spacing, i) <= m.Total() then
      var (j, t) := Locate(m.length, Mark(spacing, i));
      assert SegmentPoint(m.curve, j, t) == Along(m.curve, m.angle, m.length, Mark(spacing, i)).at;
      Along(m.curve, m.angle, m.length, Mark(spacing, i))
    else
      assert SegmentPoint(m.curve, 0, 1.0) == m.curve[0];
      Pose(m.curve[0], m.angle[0])
  }

  /**
   * The blocks laid along a measured curve (Components.py:154-168). The
   * component stays at the origin and has no ports. A zero interval divides
   * by zero, and so does a curve so short that N = 1.
   */
  function Laid(m: Measured, interval: real): (r: Result<Plan>)
    requires m.Usable()
    ensures r.Err? ==> r.error == ZeroDivision
    ensures r.Ok? ==> r.value.xyz == ORIGIN && r.value.rpy == ORIGIN && r.value.ports == []
  {
    var step := CurveStep(interval);
    if step == 0.0 then Err(ZeroDivision)
    else
      var n := CurveCount(m.Total(), step);
      if n == 1 then Err(ZeroDivision)
      else
        var spacing := m.Total() / (n - 1) as real;
        Ok(Plan(ORIGIN, ORIGIN, Blocks(m, spacing, if n < 0 then 0 else n), []))
  }

  /** Blocks 0 .. n-1, block i keyed i and standing at its spot. */
  function Blocks(m: Measured, spacing: real, n: nat): (parts: seq<(Key, Part)>)
    requires m.Usable()
    ensures |parts| == n
  {
    if n == 0 then [] else Blocks(m, spacing, n - 1) + [(Index(n - 1), Standing(Spot(m, spacing, n - 1)))]
  }

  /** Block i of the first n is keyed i and stands at spot i. */
  lemma {:induction false} BlocksAt(m: Measured, spacing: real, n: nat)
    requires m.Usable()
    ensures forall i :: 0 <= i < n ==> Blocks(m, spacing, n)[i] == (Index(i), Standing(Spot(m, spacing, i)))
  {
    if n > 0 {
      BlocksAt(m, spacing, n - 1);
    }
  }

  /** The curve the search finds between two poses, measured. */
  function Measurement(geo: Geo, s: Pose, e: Pose): (m: Measured)
    requires geo.Lawful()
    ensures m.Usable() && m.MeasuredBy(geo) && |m.curve| == SAMPLE_COUNT + 2 && m.curve[0] == s.at && m.curve[SAMPLE_COUNT] == e.at
  {
    var found := Search(geo, s, e, 0.0, 1.0);
    SearchCurveEnds(geo, s, e, 0.0, 1.0);
    var m := Measure(geo, found.0, found.1, e.angle);
    assert m.curve[SAMPLE_COUNT] == found.1[SAMPLE_COUNT];
    m
  }

  /** A CurveDomino from s to e (Components.py:148-168). */
  function CurveLayout(geo: Geo, s: Pose, e: Pose, interval: real): (r: Result<Plan>)
    requires geo.Lawful()
    ensures r.Err? ==> r.error == ZeroDivision
    ensures interval == 0.0 ==> r == Err(ZeroDivision)
    ensures r.Ok? ==> r.value.xyz == ORIGIN && r.value.rpy == ORIGIN && r.value.ports == []
  {
    Laid(Measurement(geo, s, e), interval)
  }

  /**
   * The constructor's loop: counts the blocks, then walks the measured
   * curve and sets a block at every spot the walk reaches.
   */
  method LayAlong(m: Measured, interval: real) returns (r: Result<Plan>)
    requires m.Usable()
    ensures r == Laid(m, interval)
  {
    var step := CurveStep(interval);
    if step == 0.0 {
      return Err(ZeroDivision);
    }
    var total := m.Total();
    var n := CurveCount(total, step);
    if n == 1 {
      return Err(ZeroDivision);
    }
    PrefixMonotone(m.length, 0, |m.length| - 2);
    CountedSpacing(total, step, n);
    var spacing := total / (n - 1) as real;
    var spots := Walk(m.curve, m.angle, m.length, spacing, n);
    WalkedSpots(m, spacing, spots);
    var parts := StandAll(m, spacing, spots);
    r := Ok(Plan(ORIGIN, ORIGIN, parts, []));
  }

  /** `self.add_child(SingleDomino(...), i)` for every spot in turn: block i stands on spot i. */
  method StandAll(m: Measured, spacing: real, spots: seq<Pose>) returns (parts: seq<(Key, Part)>)
    requires m.Usable()
    requires forall i :: 0 <= i < |spots| ==> spots[i] == Spot(m, spacing, i)
    ensures parts == Blocks(m, spacing, |spots|)
  {
    parts := [];
    for i := 0 to |spots|
      invariant parts == Blocks(m, spacing, i)
    {
      parts := parts + [(Index(i), Standing(spots[i]))];
    }
  }

  /** The spots the walk returns are the spots Spot describes. */
  lemma WalkedSpots(m: Measured, spacing: real, spots: seq<Pose>)
    requires m.Usable() && |spots| >= 1
    requires spots[0] == Pose(m.curve[0], m.angle[0])
    requires AllPlaced(m.curve, m.angle, m.length, spacing, spots)
    ensures forall i :: 0 <= i < |spots| ==> spots[i] == Spot(m, spacing, i)
  {
    forall i | 0 <= i < |spots|
      ensures spots[i] == Spot(m, spacing, i)
    {
      if i > 0 {
        assert PlacedAt(m.curve, m.angle, m.length, Mark(spacing, i), spots[i]);
      }
    }
  }

  /**
   * With a non-negative total and a positive step, a count other than 1 is
   * at least 2, and the spacing it gives is positive and adds up to the
   * total over n - 1 steps.
   */
  lemma CountedSpacing(total: real, step: real, n: int)
    requires 0.0 <= total && 0.0 < step && n == Trunc(total / step + 0.5) + 1 && n != 1
    ensures n >= 2 && 0.0 < total && 0.0 < total / (n - 1) as real
    ensures Mark(total / (n - 1) as real, n - 1) == total
  {
    assert 0.0 <= total / step;
    assert 1.0 <= total / step + 0.5;
    assert 0.0 < total;
    MarkIsMultiple(total / (n - 1) as real, n - 1);
  }

  /** The whole constructor: search once, measure, then lay the blocks. */
  method CurvePlan(geo: Geo, s: Pose, e: Pose, interval: real) returns (r: Result<Plan>)
    requires geo.Lawful()
    ensures r == CurveLayout(geo, s, e, interval)
  {
    r := LayAlong(Measurement(geo, s, e), interval);
  }

  /**
   * A zero interval divides by zero, and so does a curve shorter than half
   * an interval, since then N = 1; every other interval lays blocks.
   */
  lemma LaidErrors(m: Measured, interval: real)
    requires m.Usable()
    ensures interval == 0.0 ==> Laid(m, interval) == Err(ZeroDivision)
    ensures interval != 0.0 ==> (Laid(m, interval).Err? <==> m.Total() < CurveStep(interval) / 2.0)
    ensures Laid(m, interval).Err? ==> Laid(m, interval).error == ZeroDivision
  {
    PrefixMonotone(m.length, 0, |m.length| - 2);
    var step := CurveStep(interval);
    if step != 0.0 {
      assert 0.0 < step;
      assert 0.0 <= m.Total() / step;
      HalfStep(m.Total(), step);
    }
  }

  /** The parts of a laid curve, one per spot. */
  lemma LaidParts(m: Measured, interval: real, p: Plan)
    requires m.Usable() && Laid(m, interval) == Ok(p)
    ensures |p.parts| >= 2 && |p.parts| == CurveCount(m.Total(), CurveStep(interval))
    ensures p.xyz == ORIGIN && p.rpy == ORIGIN && p.ports == []
    ensures forall i :: 0 <= i < |p.parts| ==>
      p.parts[i] == (Index(i), Standing(Spot(m, m.Total() / (|p.parts| - 1) as real, i)))
  {
    PrefixMonotone(m.length, 0, |m.length| - 2);
    CountedSpacing(m.Total(), CurveStep(interval), CurveCount(m.Total(), CurveStep(interval)));
    BlocksAt(m, m.Total() / (|p.parts| - 1) as real, |p.parts|);
  }

  /**
   * A laid curve is an otherwise empty component at the origin holding
   * N >= 2 blocks keyed 0 .. N-1, each upright at height SZ / 2.
   */
  lemma LaidBlocks(m: Measured, interval: real, p: Plan)
    requires m.Usable() && Laid(m, interval) == Ok(p)
    ensures |p.parts| >= 2 && |p.parts| == CurveCount(m.Total(), CurveStep(interval))
    ensures p.xyz == ORIGIN && p.rpy == ORIGIN && p.ports == []
    ensures WellKeyed(p) && PlanLeaves(p) == |p.parts|
    ensures forall i :: 0 <= i < |p.parts| ==>
      p.parts[i].0 == Index(i) && p.parts[i].1.Block? &&
      p.parts[i].1.xyz.z == SZ / 2.0 && p.parts[i].1.rpy.x == 0.0 && p.parts[i].1.rpy.y == 0.0
  {
    LaidParts(m, interval, p);
    var n := |p.parts|;
    assert DistinctKeys(p.parts) by {
      forall i, j | 0 <= i < j < n
        ensures p.parts[i].0 != p.parts[j].0
      {
      }
    }
    BlocksAfter(p, 0, n);
  }

  /**
   * Blocks set at the spots of a laid curve: block 0 stands on the start
   * of the curve facing along its first segment, and block i at walked
   * length i * spacing along the sampled curve.
   */
  lemma SpotsPlaced(m: Measured, spacing: real, parts: seq<(Key, Part)>)
    requires m.Usable() && 0.0 < spacing && |parts| >= 1 && Mark(spacing, |parts| - 1) == m.Total()
    requires forall i :: 0 <= i < |parts| ==> parts[i].1 == Standing(Spot(m, spacing, i))
    ensures forall i :: 0 <= i < |parts| ==> parts[i].1.Block?
    ensures StoodAt(parts[0].1) == Pose(m.curve[0], m.angle[0])
    ensures forall i :: 1 <= i < |parts| ==>
      PlacedAt(m.curve, m.angle, m.length, i as real * spacing, StoodAt(parts[i].1))
  {
    forall i | 0 <= i < |parts|
      ensures parts[i].1.Block? && StoodAt(parts[i].1) == Spot(m, spacing, i)
    {
      assert parts[i].1 == Standing(Spot(m, spacing, i));
    }
    forall i | 1 <= i < |parts|
      ensures PlacedAt(m.curve, m.angle, m.length, i as real * spacing, StoodAt(parts[i].1))
    {
      SpotPlaced(m, spacing, i, |parts| - 1);
    }
  }

  /** Every block after the first lands at its mark, which lies on the sampled curve. */
  lemma SpotPlaced(m: Measured, spacing: real, i: nat, last: nat)
    requires m.Usable() && 0.0 < spacing && 1 <= i <= last && Mark(spacing, last) == m.Total()
    ensures PlacedAt(m.curve, m.angle, m.length, i as real * spacing, Spot(m, spacing, i))
  {
    MarkIsMultiple(spacing, i);
    MarkIncreasing(spacing, 0, i);
    MarkIncreasing(spacing, i, last);
  }

  /** Walking the whole sampled length ends on the curve's last sampled point. */
  lemma AlongToEnd(m: Measured)
    requires m.Usable() && m.Tight() && 0.0 < m.Total()
    ensures Along(m.curve, m.angle, m.length, m.Total()).at == m.curve[|m.curve| - 2]
  {
    var j := Locate(m.length, m.Total()).0;
    LocateEnd(m.length);
    AlongEnd(m.curve, m.angle, m.length);
    FlatTail(m, j + 1, |m.length| - 2);
  }

  /** Segments that add nothing to the walked length join points that coincide. */
  lemma {:induction false} FlatTail(m: Measured, a: nat, b: nat)
    requires m.Usable() && m.Tight()
    requires a <= b <= |m.length| - 2 && Prefix(m.length, a) == Prefix(m.length, b)
    ensures m.curve[a] == m.curve[b]
    decreases b
  {
    if a < b {
      PrefixMonotone(m.length, a, b - 1);
      FlatTail(m, a, b - 1);
    }
  }

  /** Measured lengths are distances, so a segment of length 0 joins two equal points. */
  lemma MeasuredTight(geo: Geo, m: Measured)
    requires geo.Lawful() && m.MeasuredBy(geo)
    ensures m.Tight()
  {
    forall i | 0 <= i < |m.curve| - 1 && i < |m.length| && m.length[i] == 0.0
      ensures m.curve[i] == m.curve[i + 1]
    {
      DistanceZero(geo, m.curve[i], m.curve[i + 1]);
    }
  }

  /**
   * Blocks set at the spots of a curve whose last mark is its sampled
   * length: the first stands on the curve's first point, the last on its
   * last sampled point.
   */
  lemma SpotsEnds(geo: Geo, m: Measured, spacing: real, parts: seq<(Key, Part)>)
    requires geo.Lawful() && m.Usable() && m.MeasuredBy(geo)
    requires 0.0 < spacing && |parts| >= 2 && Mark(spacing, |parts| - 1) == m.Total()
    requires forall i :: 0 <= i < |parts| ==> parts[i].1 == Standing(Spot(m, spacing, i))
    ensures parts[0].1.Block? && parts[0].1.xyz == Vec3(m.curve[0].x, m.curve[0].y, SZ / 2.0)
    ensures parts[|parts| - 1].1.Block?
    ensures parts[|parts| - 1].1.xyz == Vec3(m.curve[|m.curve| - 2].x, m.curve[|m.curve| - 2].y, SZ / 2.0)
  {
    var last := |parts| - 1;
    assert parts[0].1 == Standing(Spot(m, spacing, 0));
    assert parts[last].1 == Standing(Spot(m, spacing, last));
    SpotAtEnd(m, spacing, last);
    MeasuredTight(geo, m);
    AlongToEnd(m);
  }

  /** The first block of a laid curve stands on its first point, the last block on its last sampled point. */
  lemma LaidEnds(geo: Geo, m: Measured, interval: real, p: Plan)
    requires geo.Lawful() && m.Usable() && m.MeasuredBy(geo) && Laid(m, interval) == Ok(p)
    ensures |p.parts| >= 2 && p.parts[0].1.Block? && p.parts[|p.parts| - 1].1.Block?
    ensures p.parts[0].1.xyz == Vec3(m.curve[0].x, m.curve[0].y, SZ / 2.0)
    ensures p.parts[|p.parts| - 1].1.xyz == Vec3(m.curve[|m.curve| - 2].x, m.curve[|m.curve| - 2].y, SZ / 2.0)
  {
    LaidParts(m, interval, p);
    var n := |p.parts|;
    PrefixMonotone(m.length, 0, |m.length| - 2);
    CountedSpacing(m.Total(), CurveStep(interval), n);
    SpotsEnds(geo, m, m.Total() / (n - 1) as real, p.parts);
  }

  lemma SpotAtEnd(m: Measured, spacing: real, last: nat)
    requires m.Usable() && 0.0 < spacing && 1 <= last && Mark(spacing, last) == m.Total()
    ensures 0.0 < m.Total() && Spot(m, spacing, last) == Along(m.curve, m.angle, m.length, m.Total())
  {
    MarkIncreasing(spacing, 0, last);
  }

  /**
   * A CurveDomino runs from one pose to the other: its first block stands
   * on the start point and its last block on the end point.
   */
  lemma CurveEnds(geo: Geo, s: Pose, e: Pose, interval: real, p: Plan)
    requires geo.Lawful() && CurveLayout(geo, s, e, interval) == Ok(p)
    ensures |p.parts| >= 2 && p.parts[0].1.Block? && p.parts[|p.parts| - 1].1.Block?
    ensures p.parts[0].1.xyz == Vec3(s.at.x, s.at.y, SZ / 2.0)
    ensures p.parts[|p.parts| - 1].1.xyz == Vec3(e.at.x, e.at.y, SZ / 2.0)
  {
    var m := Measurement(geo, s, e);
    LaidEnds(geo, m, interval, p);
    assert m.curve[|m.curve| - 2] == m.curve[SAMPLE_COUNT];
  }

  /** Comparing with half a positive step is comparing the ratio with one half. */
  lemma HalfStep(total: real, step: real)
    requires 0.0 < step
    ensures total < step / 2.0 <==> total / step < 0.5
  {
    var q := total / step;
    assert total == q * step;
    if q < 0.5 {
      assert (0.5 - q) * step > 0.0;
    } else {
      assert (q - 0.5) * step >= 0.0;
    }
  }
}
