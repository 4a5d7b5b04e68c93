/**
 * The arc-length walk of CurveDomino's constructor (Components.py:151-168).
 * The sampled curve is a polyline; `length[k]` is the length of segment k
 * (from `curve[k]` to `curve[k + 1]`) and `angle[k]` its heading. Block i is
 * put where the walked length reaches i * interval, between the ends of the
 * segment it falls on, with its heading blended between that segment's
 * heading and the next one's.
 */
module Resample {
  import opened Geometry

  /** The total length of the first n segments. */
  function Prefix(length: seq<real>, n: nat): real
    requires n <= |length|
  {
    if n == 0 then 0.0 else Prefix(length, n - 1) + length[n - 1]
  }

  ghost predicate NonNegative(length: seq<real>)
  {
    forall k :: 0 <= k < |length| ==> 0.0 <= length[k]
  }

  /** With lengths that are never negative, walking further never walks less. */
  lemma {:induction false} PrefixMonotone(length: seq<real>, a: nat, b: nat)
    requires NonNegative(length) && a <= b <= |length|
    ensures Prefix(length, a) <= Prefix(length, b)
    decreases b
  {
    if a < b {
      PrefixMonotone(length, a, b - 1);
    }
  }

  /** Python's `s[k]` for -|s| <= k < |s|: a negative index counts from the end. */
  function PyAt<T>(s: seq<T>, k: int): (r: T)
    requires -|s| <= k < |s|
    ensures r == s[if k < 0 then |s| + k else k]
  {
    if k < 0 then s[|s| + k] else s[k]
  }

  /** The first segment from k on whose end lies at walked length s or beyond. */
  function Reach(length: seq<real>, s: real, k: nat): (j: nat)
    requires k < |length| && s <= Prefix(length, |length|)
    ensures k <= j < |length| && s <= Prefix(length, j + 1)
    ensures forall m :: k < m <= j ==> Prefix(length, m) < s
    decreases |length| - k
  {
    if s <= Prefix(length, k + 1) then k else Reach(length, s, k + 1)
  }

  /**
   * Where walked length s lies among the sampled segments (all but the last
   * two entries of `length`): segment j, at fraction 1 - t of the way from
   * `curve[j]` to `curve[j + 1]`. The segment has positive length, the
   * fraction is in [0, 1) and the segment is the first one that reaches s.
   */
  function Locate(length: seq<real>, s: real): (r: (nat, real))
    requires |length| >= 3 && NonNegative(length)
    requires 0.0 < s <= Prefix(length, |length| - 2)
    ensures r.0 <= |length| - 3 && 0.0 < length[r.0]
    ensures Prefix(length, r.0) < s <= Prefix(length, r.0 + 1)
    ensures 0.0 <= r.1 < 1.0
  {
    PrefixMonotone(length, |length| - 2, |length|);
    var j := Reach(length, s, 0);
    ReachOnCurve(length, s, j);
    var t := (Prefix(length, j + 1) - s) / length[j];
    Fraction(Prefix(length, j), length[j], Prefix(length, j + 1), s, t);
    (j, t)
  }

  /** The fraction Locate returns puts s exactly 1 - t of the way along its segment. */
  lemma LocateSplits(length: seq<real>, s: real)
    requires |length| >= 3 && NonNegative(length)
    requires 0.0 < s <= Prefix(length, |length| - 2)
    ensures Prefix(length, Locate(length, s).0) + (1.0 - Locate(length, s).1) * length[Locate(length, s).0] == s
  {
    var (j, t) := Locate(length, s);
    Fraction(Prefix(length, j), length[j], Prefix(length, j + 1), s, t);
  }

  /** A point s inside the segment from start to stop, as the fraction of it still ahead. */
  lemma Fraction(start: real, len: real, stop: real, s: real, t: real)
    requires stop == start + len && start < s <= stop && t == (stop - s) / len
    ensures 0.0 < len && 0.0 <= t < 1.0
    ensures start + (1.0 - t) * len == s
  {
    var ahead := stop - s;
    assert 0.0 <= ahead < len;
    assert (1.0 - ahead / len) * len == len - ahead;
  }

  /**
   * Walking the whole sampled length stops at the very end of its segment:
   * the fraction is 0 and nothing of length lies between that segment's end
   * and the end of the sampled part.
   */
  lemma LocateEnd(length: seq<real>)
    requires |length| >= 3 && NonNegative(length) && 0.0 < Prefix(length, |length| - 2)
    ensures Locate(length, Prefix(length, |length| - 2)).1 == 0.0
    ensures Prefix(length, Locate(length, Prefix(length, |length| - 2)).0 + 1) == Prefix(length, |length| - 2)
  {
    var total := Prefix(length, |length| - 2);
    var (j, t) := Locate(length, total);
    LocateSplits(length, total);
    PrefixMonotone(length, j + 1, |length| - 2);
    WholeSegment(Prefix(length, j), length[j], t, total);
  }

  /** The block at the whole sampled length stands at the end of the segment Locate finds. */
  lemma AlongEnd(curve: seq<Point>, angle: seq<real>, length: seq<real>)
    requires |length| >= 3 && |curve| == |angle| == |length| && NonNegative(length)
    requires 0.0 < Prefix(length, |length| - 2)
    ensures Along(curve, angle, length, Prefix(length, |length| - 2)).at == curve[Locate(length, Prefix(length, |length| - 2)).0 + 1]
  {
    LocateEnd(length);
  }

  /** A fraction t of a positive segment that reaches as far as the whole segment is 0. */
  lemma WholeSegment(start: real, len: real, t: real, total: real)
    requires 0.0 < len && 0.0 <= t && start + (1.0 - t) * len == total && start + len <= total
    ensures t == 0.0
  {
    assert t * len <= 0.0;
  }

  /** The segment Reach finds ends no later than the sampled part, and starts before s. */
  lemma ReachOnCurve(length: seq<real>, s: real, j: nat)
    requires |length| >= 3 && NonNegative(length)
    requires 0.0 < s <= Prefix(length, |length| - 2)
    requires Prefix(length, |length| - 2) <= Prefix(length, |length|)
    requires j == Reach(length, s, 0)
    ensures j <= |length| - 3 && Prefix(length, j) < s
  {
  }

  /**
   * With lengths that are never negative, the segment Locate finds is the
   * only one that starts before s and ends at s or beyond.
   */
  lemma LocateUnique(length: seq<real>, s: real, j: nat)
    requires |length| >= 3 && NonNegative(length)
    requires 0.0 < s <= Prefix(length, |length| - 2)
    requires j < |length| && Prefix(length, j) < s <= Prefix(length, j + 1)
    ensures Locate(length, s).0 == j
  {
    var k := Locate(length, s).0;
    if k < j {
      PrefixMonotone(length, k + 1, j);
    }
  }

  /** The block at walked length s: its position and its blended heading (Components.py:165-167). */
  function Along(curve: seq<Point>, angle: seq<real>, length: seq<real>, s: real): (r: Pose)
    requires |length| >= 3 && |curve| == |angle| == |length| && NonNegative(length)
    requires 0.0 < s <= Prefix(length, |length| - 2)
  {
    var (j, t) := Locate(length, s);
    Pose(Interpolate(curve[j], curve[j + 1], t), angle[j] * t + angle[j + 1] * (1.0 - t))
  }

  /** `spot` is the block at walked length s, and s lies on the sampled part. */
  ghost predicate PlacedAt(curve: seq<Point>, angle: seq<real>, length: seq<real>, s: real, spot: Pose)
    requires |length| >= 3 && |curve| == |angle| == |length| && NonNegative(length)
  {
    0.0 < s <= Prefix(length, |length| - 2) && spot == Along(curve, angle, length, s)
  }

  /** The walked length at which block i is placed: i steps of `interval`. */
  function Mark(interval: real, i: nat): real
  {
    if i == 0 then 0.0 else Mark(interval, i - 1) + interval
  }

  /** Block i is placed at walked length i * interval. */
  lemma {:induction false} MarkIsMultiple(interval: real, i: nat)
    ensures Mark(interval, i) == i as real * interval
  {
    if i > 0 {
      MarkIsMultiple(interval, i - 1);
    }
  }

  /** With a positive interval the marks strictly increase. */
  lemma {:induction false} MarkIncreasing(interval: real, i: nat, j: nat)
    requires interval > 0.0 && i <= j
    ensures Mark(interval, i) <= Mark(interval, j)
    ensures i < j ==> Mark(interval, i) < Mark(interval, j)
    decreases j
  {
    if i < j {
      MarkIncreasing(interval, i, j - 1);
    }
  }

  /**
   * The loop of Components.py:159-168. `length`, `curve` and `angle` have
   * the same number of entries; the last entry of `length` is what the
   * first step divides by, since it starts at index -1. The mark of block
   * n - 1 is the length of the sampled part, which ends two entries before
   * the end. Block 0 sits at `curve[0]` with the first heading, and block i
   * at walked length Mark(interval, i).
   */
  method Walk(curve: seq<Point>, angle: seq<real>, length: seq<real>, interval: real, n: nat)
    returns (spots: seq<Pose>)
    requires |length| >= 3 && |curve| == |angle| == |length| && NonNegative(length)
    requires length[|length| - 1] > 0.0
    requires interval > 0.0 && n >= 1 && Mark(interval, n - 1) == Prefix(length, |length| - 2)
    ensures |spots| == n
    ensures spots[0] == Pose(curve[0], angle[0])
    ensures AllPlaced(curve, angle, length, interval, spots)
  {
    var L, ci := interval, -1;
    spots := [];
    for i := 0 to n
      invariant |spots| == i
      invariant -1 <= ci <= |length| - 3
      invariant L == Prefix(length, ci + 1) - Mark(interval, i) + interval
      invariant ci == -1 || Prefix(length, ci) < Mark(interval, i) - interval
      invariant i == 0 ==> ci == -1 && L == interval
      invariant i > 0 ==> spots[0] == Pose(curve[0], angle[0])
      invariant AllPlaced(curve, angle, length, interval, spots)
    {
      var spot;
      L, ci, spot := Place(curve, angle, length, interval, n, i, L, ci);
      PlacedExtend(curve, angle, length, interval, spots, spot);
      spots := spots + [spot];
    }
  }

  /**
   * One pass of the loop body (Components.py:160-168): walk on to the
   * segment that reaches the mark of block i, then place block i on it.
   */
  method Place(curve: seq<Point>, angle: seq<real>, length: seq<real>, interval: real, n: nat, i: nat, L: real, ci: int)
    returns (L': real, ci': int, spot: Pose)
    requires |length| >= 3 && |curve| == |angle| == |length| && NonNegative(length)
    requires length[|length| - 1] > 0.0
    requires interval > 0.0 && i < n && Mark(interval, n - 1) == Prefix(length, |length| - 2)
    requires -1 <= ci <= |length| - 3
    requires L == Prefix(length, ci + 1) - Mark(interval, i) + interval
    requires ci == -1 || Prefix(length, ci) < Mark(interval, i) - interval
    requires i == 0 ==> ci == -1 && L == interval
    ensures -1 <= ci' <= |length| - 3
    ensures L' == Prefix(length, ci' + 1) - Mark(interval, i + 1) + interval
    ensures ci' == -1 || Prefix(length, ci') < Mark(interval, i + 1) - interval
    ensures i == 0 ==> spot == Pose(curve[0], angle[0])
    ensures i > 0 ==> PlacedAt(curve, angle, length, Mark(interval, i), spot)
  {
    ghost var here := Mark(interval, i);
    MarkIncreasing(interval, 0, i);
    MarkIncreasing(interval, i, n - 1);
    L', ci' := Advance(length, interval, here - interval, here, L, ci);
    L' := L' - interval;
    spot := Spot(curve, angle, length, L', ci');
    if i == 0 {
      FirstSpot(curve, angle, length);
    } else {
      WalkedTo(curve, angle, length, here, ci');
    }
  }

  /** Every block after the first lies at its mark. */
  ghost predicate AllPlaced(curve: seq<Point>, angle: seq<real>, length: seq<real>, interval: real, spots: seq<Pose>)
    requires |length| >= 3 && |curve| == |angle| == |length| && NonNegative(length)
  {
    forall k :: 1 <= k < |spots| ==> PlacedAt(curve, angle, length, Mark(interval, k), spots[k])
  }

  lemma PlacedExtend(curve: seq<Point>, angle: seq<real>, length: seq<real>, interval: real, spots: seq<Pose>, spot: Pose)
    requires |length| >= 3 && |curve| == |angle| == |length| && NonNegative(length)
    requires AllPlaced(curve, angle, length, interval, spots)
    requires |spots| >= 1 ==> PlacedAt(curve, angle, length, Mark(interval, |spots|), spot)
    ensures AllPlaced(curve, angle, length, interval, spots + [spot])
  {
    var s := spots + [spot];
    forall k | 1 <= k < |s|
      ensures PlacedAt(curve, angle, length, Mark(interval, k), s[k])
    {
      if k < |spots| {
        assert s[k] == spots[k];
      }
    }
  }

  /**
   * The inner loop of Components.py:160-162: move on to the next segment
   * while the length walked beyond the mark `before` of the previous block
   * is shorter than interval, that is, until the segment reaches the mark
   * `here` of this block. The walk never passes the sampled part.
   */
  method Advance(length: seq<real>, interval: real, ghost before: real, ghost here: real, L: real, ci: int)
    returns (L': real, ci': int)
    requires |length| >= 3 && NonNegative(length)
    requires here == before + interval && here <= Prefix(length, |length| - 2)
    requires -1 <= ci <= |length| - 3
    requires L == Prefix(length, ci + 1) - before
    requires ci == -1 || Prefix(length, ci) < here
    ensures ci <= ci' <= |length| - 3
    ensures L' == Prefix(length, ci' + 1) - before && L' >= interval
    ensures ci' == -1 || Prefix(length, ci') < here
    ensures L >= interval ==> ci' == ci
  {
    L', ci' := L, ci;
    while L' < interval
      invariant ci <= ci' <= |length| - 3
      invariant L' == Prefix(length, ci' + 1) - before
      invariant ci' == -1 || Prefix(length, ci') < here
      invariant L >= interval ==> ci' == ci
      decreases |length| - ci'
    {
      ci' := ci' + 1;
      L' := L' + length[ci'];
    }
  }

  /**
   * The block placed on segment ci when the walk is L short of the
   * segment's end (Components.py:163-167): the position weights the
   * segment's start by t = L / length[ci], and the heading blends the
   * segment's heading with the next one's by the same weight.
   */
  function Spot(curve: seq<Point>, angle: seq<real>, length: seq<real>, L: real, ci: int): (r: Pose)
    requires |curve| == |angle| == |length| && -1 <= ci < |length| - 1
    requires PyAt(length, ci) != 0.0
    ensures L == 0.0 ==> r == Pose(curve[ci + 1], angle[ci + 1])
    ensures L == PyAt(length, ci) ==> r == Pose(PyAt(curve, ci), PyAt(angle, ci))
  {
    var t := L / PyAt(length, ci);
    Pose(Interpolate(PyAt(curve, ci), curve[ci + 1], t), PyAt(angle, ci) * t + angle[ci + 1] * (1.0 - t))
  }

  /** The first step, from index -1 with nothing left to walk, puts block 0 at `curve[0]` with the first heading. */
  lemma FirstSpot(curve: seq<Point>, angle: seq<real>, length: seq<real>)
    requires |curve| == |angle| == |length| >= 2 && length[|length| - 1] != 0.0
    ensures Spot(curve, angle, length, 0.0, -1) == Pose(curve[0], angle[0])
  {
  }

  /** Once the walk stops at segment ci, the block it places is the one at walked length s. */
  lemma WalkedTo(curve: seq<Point>, angle: seq<real>, length: seq<real>, s: real, ci: int)
    requires |length| >= 3 && |curve| == |angle| == |length| && NonNegative(length)
    requires 0.0 < s <= Prefix(length, |length| - 2)
    requires -1 <= ci <= |length| - 3
    requires Prefix(length, ci + 1) >= s
    requires ci == -1 || Prefix(length, ci) < s
    ensures ci >= 0 && PyAt(length, ci) != 0.0
    ensures PlacedAt(curve, angle, length, s, Spot(curve, angle, length, Prefix(length, ci + 1) - s, ci))
  {
    LocateUnique(length, s, ci);
    var r := Locate(length, s);
    assert r == (ci, (Prefix(length, ci + 1) - s) / length[ci]);
    assert PyAt(length, ci) == length[ci] && PyAt(curve, ci) == curve[ci] && PyAt(angle, ci) == angle[ci];
    var t := r.1;
    assert Spot(curve, angle, length, Prefix(length, ci + 1) - s, ci)
        == Pose(Interpolate(curve[ci], curve[ci + 1], t), angle[ci] * t + angle[ci + 1] * (1.0 - t));
  }
}
