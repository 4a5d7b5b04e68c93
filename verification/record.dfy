/**
 * `RecordedState` (Utilities.py:31-68): a buffer of world snapshots in the
 * order they were taken. `Update` samples the world when the last snapshot
 * is older than the sampling interval and drops the oldest one once it
 * falls out of the time span; `Get` finds the snapshot in force at a
 * given time by binary search.
 */
module Records {
  import opened ComponentTree

  /** What BodyState reads from the physics engine for one body (Utilities.py:9-14). */
  datatype Body = Body(position: seq<real>, orientation: seq<real>, linear: seq<real>, angular: seq<real>)

  /** A WorldState: the engine's elapsed time when it was taken and every body's state (Utilities.py:21-23). */
  datatype World = World(stamp: real, bodies: seq<Body>)

  /** The constructor's defaults: sample every 0.05 s, keep everything (Utilities.py:32). */
  const DEFAULT_SAMPLE_INTERVAL: real := 0.05
  const DEFAULT_TIME_SPAN: real := -1.0

  /** Time stamps strictly increase along the buffer. */
  ghost predicate Increasing(states: seq<World>)
  {
    forall i, j :: 0 <= i < j < |states| ==> states[i].stamp < states[j].stamp
  }

  /** Update's sampling rule: the buffer is empty or its last snapshot is more than `interval` old. */
  predicate Appends(states: seq<World>, interval: real, now: World)
    ensures |states| == 0 ==> Appends(states, interval, now)
    ensures 0.0 <= interval && |states| > 0 && now.stamp <= states[|states| - 1].stamp ==> !Appends(states, interval, now)
  {
    |states| == 0 || now.stamp - states[|states| - 1].stamp > interval
  }

  /** The buffer after `Update` at the time of snapshot `now` (Utilities.py:41-45). */
  function Updated(states: seq<World>, interval: real, span: real, now: World): (u: seq<World>)
    ensures |states| - 1 <= |u| <= |states| + 1
    ensures forall w :: w in u ==> w in states || w == now
    ensures Appends(states, interval, now) ==> |u| > 0 && u[|u| - 1] == now
    ensures !Appends(states, interval, now) && |u| > 0 ==> u[|u| - 1] == states[|states| - 1]
    ensures |u| == 0 ==> |states| == 1 && !Appends(states, interval, now)
  {
    var kept := if Appends(states, interval, now) then states + [now] else states;
    if 0.0 < span && now.stamp - kept[0].stamp > span then kept[1..] else kept
  }

  /**
   * Update appends the new snapshot exactly when the sampling rule says so,
   * then drops at most one snapshot, the oldest, and only when it is more
   * than `span` old with a positive span; everything else stays, in order.
   */
  lemma UpdateRules(states: seq<World>, interval: real, span: real, now: World)
    ensures var kept := if Appends(states, interval, now) then states + [now] else states;
      var u := Updated(states, interval, span, now);
      && |kept| - 1 <= |u| <= |kept|
      && u == kept[|kept| - |u|..]
      && (|u| < |kept| <==> 0.0 < span && now.stamp - kept[0].stamp > span)
    ensures Appends(states, interval, now) ==> Updated(states, interval, span, now)[|Updated(states, interval, span, now)| - 1] == now
    ensures !Appends(states, interval, now) ==> |states| > 0 && |Updated(states, interval, span, now)| >= |states| - 1
  {
  }

  /**
   * With a non-negative sampling interval and a clock that does not run
   * backwards, Update keeps the time stamps strictly increasing.
   */
  lemma UpdatedIncreasing(states: seq<World>, interval: real, span: real, now: World)
    requires Increasing(states) && 0.0 <= interval
    requires |states| > 0 ==> states[|states| - 1].stamp <= now.stamp
    ensures Increasing(Updated(states, interval, span, now))
  {
    var kept := if Appends(states, interval, now) then states + [now] else states;
    assert Increasing(kept) by {
      if Appends(states, interval, now) {
        forall i, j | 0 <= i < j < |kept|
          ensures kept[i].stamp < kept[j].stamp
        {
          if j == |states| && i < |states| - 1 {
            assert states[i].stamp < states[|states| - 1].stamp;
          }
        }
      }
    }
  }

  class Record {
    /** The sampling interval and the time span (Utilities.py:34-35). */
    const interval: real
    const span: real
    /** The deque of snapshots, oldest first (Utilities.py:36). */
    var states: seq<World>

    constructor(interval: real, span: real)
      ensures this.interval == interval && this.span == span && states == []
    {
      this.interval := interval;
      this.span := span;
      states := [];
    }

    /** `Initialize`: take one snapshot unconditionally (Utilities.py:39-40). */
    method Initialize(now: World)
      modifies this
      ensures states == old(states) + [now]
      ensures GetLatest() == Ok(now)
    {
      states := states + [now];
    }

    /** `Update` at the time of snapshot `now` (Utilities.py:41-45). */
    method Update(now: World)
      modifies this
      ensures states == Updated(old(states), interval, span, now)
    {
      if |states| == 0 || now.stamp - states[|states| - 1].stamp > interval {
        states := states + [now];
      }
      if 0.0 < span && now.stamp - states[0].stamp > span {
        states := states[1..];
      }
    }

    /** `GetLatest`: the newest snapshot; an empty deque raises IndexError (Utilities.py:46-47). */
    function GetLatest(): (r: Result<World>)
      reads this
      ensures r.Err? <==> |states| == 0
      ensures r.Err? ==> r.error == IndexOutOfRange
      ensures r.Ok? ==> r.value == states[|states| - 1] && forall i :: 0 <= i < |states| ==> Increasing(states) ==> states[i].stamp <= r.value.stamp
    {
      if |states| == 0 then Err(IndexOutOfRange) else Ok(states[|states| - 1])
    }

    /**
     * `__BinarySearchGet(time_stamp, lower, upper)`, as the index of the
     * snapshot it returns (Utilities.py:48-56). The halving keeps the
     * lower snapshot at or before q and the upper one after it, so the
     * snapshot found is at or before q and the next one after q, whether
     * or not the buffer is ordered.
     */
    function BinarySearch(q: real, lower: nat, upper: nat): (k: nat)
      reads this
      requires lower < upper < |states|
      ensures lower <= k < upper
      ensures states[lower].stamp <= q ==> states[k].stamp <= q
      ensures q < states[upper].stamp ==> q < states[k + 1].stamp
      decreases upper - lower
    {
      if upper == lower + 1 then lower
      else
        var mid := (lower + upper) / 2;
        if q < states[mid].stamp then BinarySearch(q, lower, mid) else BinarySearch(q, mid, upper)
    }

    /**
     * `Get(time_stamp)`: None outside the recorded time range, otherwise a
     * snapshot taken at or before q whose successor, if any, was taken
     * after q (Utilities.py:57-66).
     */
    function Get(q: real): (r: Option<World>)
      reads this
      ensures r.None? <==> |states| == 0 || q < states[0].stamp || states[|states| - 1].stamp < q
      ensures r.Some? ==> r.value.stamp <= q
      ensures |states| > 0 && states[0].stamp <= q == states[|states| - 1].stamp ==> r == Some(states[|states| - 1])
      ensures r.Some? ==> exists k :: 0 <= k < |states| && states[k] == r.value && (k + 1 < |states| ==> q < states[k + 1].stamp)
    {
      if |states| == 0 then None
      else if q < states[0].stamp then None
      else if q > states[|states| - 1].stamp then None
      else if q == states[|states| - 1].stamp then Some(states[|states| - 1])
      else
        var k := BinarySearch(q, 0, |states| - 1);
        assert k + 1 < |states| ==> q < states[k + 1].stamp;
        Some(states[k])
    }

    /** On an ordered buffer, Get finds the latest snapshot taken at or before q. */
    lemma GetLatestBefore(q: real)
      requires Increasing(states) && Get(q).Some?
      ensures Get(q).value in states && Get(q).value.stamp <= q
      ensures forall i :: 0 <= i < |states| && states[i].stamp <= q ==> states[i].stamp <= Get(q).value.stamp
    {
      var k :| 0 <= k < |states| && states[k] == Get(q).value && (k + 1 < |states| ==> q < states[k + 1].stamp);
      forall i | 0 <= i < |states| && states[i].stamp <= q
        ensures states[i].stamp <= states[k].stamp
      {
      }
    }

    /** On an ordered buffer, Get at a recorded time stamp finds the snapshot taken then. */
    lemma GetRecorded(i: nat)
      requires Increasing(states) && i < |states|
      ensures Get(states[i].stamp) == Some(states[i])
    {
      var q := states[i].stamp;
      assert states[0].stamp <= q <= states[|states| - 1].stamp;
      var k :| 0 <= k < |states| && states[k] == Get(q).value && (k + 1 < |states| ==> q < states[k + 1].stamp);
    }
  }
}
