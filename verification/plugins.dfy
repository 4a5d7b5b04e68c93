/**
 * `AutoTerminatePlugin` (Plugins.py:48-65): after each record update it
 * compares the newest snapshot with the one a window earlier and asks the
 * engine to stop once every body has moved and turned less than a
 * threshold rate over that time.
 */
module AutoTermination {
  import opened ComponentTree
  import opened Records

  /** Speed and spin below which a body counts as at rest (Plugins.py:49-50). */
  const SPEED_THRESHOLD: real := 0.01
  const SPIN_THRESHOLD: real := 0.1
  /** The constructor's default window, in seconds (Plugins.py:51). */
  const DEFAULT_WINDOW: real := 0.5

  /**
   * `last.Difference(first)`: per body, the distance moved and the angle
   * turned between two snapshots. It is computed from physics state, so it
   * is a parameter here.
   */
  type Difference = (World, World) -> seq<(real, real)>

  /** The flag the engine's main loop watches (Engine.py:12, 35). */
  class Engine {
    var terminate: bool

    constructor()
      ensures !terminate
    {
      terminate := false;
    }
  }

  /** Every body moved at most SPEED_THRESHOLD * dt and turned at most SPIN_THRESHOLD * dt. */
  predicate AtRest(moves: seq<(real, real)>, dt: real)
    ensures |moves| == 0 ==> AtRest(moves, dt)
    ensures AtRest(moves, dt) && dt < 0.0 ==> forall i :: 0 <= i < |moves| ==> moves[i].0 < 0.0 && moves[i].1 < 0.0
  {
    forall i :: 0 <= i < |moves| ==> moves[i].0 <= SPEED_THRESHOLD * dt && moves[i].1 <= SPIN_THRESHOLD * dt
  }

  /** Bodies at rest over dt are at rest over any longer interval. */
  lemma RestLonger(moves: seq<(real, real)>, dt: real, longer: real)
    requires AtRest(moves, dt) && dt <= longer
    ensures AtRest(moves, longer)
  {
    forall i | 0 <= i < |moves|
      ensures moves[i].0 <= SPEED_THRESHOLD * longer && moves[i].1 <= SPIN_THRESHOLD * longer
    {
      assert SPEED_THRESHOLD * dt <= SPEED_THRESHOLD * longer;
    }
  }

  /**
   * What one `OnUpdateRecord` decides from the record: Ok(true) to stop
   * the engine, Ok(false) to leave it, or the error it raises: IndexError
   * on an empty record, AttributeError when the record does not reach a
   * whole window back or the window is negative, so that Get looks past the
   * newest snapshot (Plugins.py:55-65).
   */
  function Verdict(record: Record, window: real, difference: Difference): (r: Result<bool>)
    reads record
    ensures r.Err? <==> || |record.states| == 0
                        || (window < record.states[|record.states| - 1].stamp &&
                            (record.states[|record.states| - 1].stamp - window < record.states[0].stamp || window < 0.0))
    ensures r.Err? ==> r.error == (if |record.states| == 0 then IndexOutOfRange else NoneAttribute)
    ensures |record.states| > 0 && record.states[|record.states| - 1].stamp <= window ==> r == Ok(false)
  {
    match record.GetLatest()
    case Err(e) => Err(e)
    case Ok(last) =>
      if last.stamp <= window then Ok(false)
      else
        match record.Get(last.stamp - window)
        case None => Err(NoneAttribute)
        case Some(first) => Ok(AtRest(difference(last, first), last.stamp - first.stamp))
  }

  /**
   * The engine is told to stop only when the compared snapshots lie at
   * least a window apart and every body was at rest over that time; with a
   * positive window the thresholds the bodies are held to are positive.
   */
  lemma StopsAtRest(record: Record, window: real, difference: Difference)
    requires Verdict(record, window, difference) == Ok(true)
    ensures var last := record.states[|record.states| - 1];
      && window < last.stamp
      && record.Get(last.stamp - window).Some?
      && var first := record.Get(last.stamp - window).value;
      && window <= last.stamp - first.stamp
      && AtRest(difference(last, first), last.stamp - first.stamp)
      && (0.0 < window ==> 0.0 < SPEED_THRESHOLD * (last.stamp - first.stamp) && 0.0 < SPIN_THRESHOLD * (last.stamp - first.stamp))
  {
  }

  /** A single body over either threshold keeps the engine running. */
  lemma OneMovingBody(record: Record, window: real, difference: Difference, i: nat)
    requires |record.states| > 0 && window < record.states[|record.states| - 1].stamp
    requires record.Get(record.states[|record.states| - 1].stamp - window).Some?
    requires var last := record.states[|record.states| - 1];
      var first := record.Get(last.stamp - window).value;
      var moves := difference(last, first);
      i < |moves| && (moves[i].0 > SPEED_THRESHOLD * (last.stamp - first.stamp) || moves[i].1 > SPIN_THRESHOLD * (last.stamp - first.stamp))
    ensures Verdict(record, window, difference) == Ok(false)
  {
  }

  class AutoTerminatePlugin {
    const window: real

    constructor(window: real)
      ensures this.window == window
    {
      this.window := window;
    }

    /**
     * `OnUpdateRecord` (Plugins.py:54-65): sets the engine's flag when the
     * record shows every body at rest, never clears it, and changes nothing
     * when it raises.
     */
    method OnUpdateRecord(engine: Engine, record: Record, difference: Difference) returns (r: Result<()>)
      modifies engine
      ensures r.Err? <==> Verdict(record, window, difference).Err?
      ensures r.Err? ==> r.error == Verdict(record, window, difference).error
      ensures engine.terminate == (old(engine.terminate) || Verdict(record, window, difference) == Ok(true))
    {
      var latest := record.GetLatest();
      if latest.Err? {
        return Err(latest.error);
      }
      var last := latest.value;
      if last.stamp <= window {
        return Ok(());
      }
      var found := record.Get(last.stamp - window);
      if found.None? {
        return Err(NoneAttribute);
      }
      var first := found.value;
      var dt := last.stamp - first.stamp;
      var moves := difference(last, first);
      for i := 0 to |moves|
        invariant AtRest(moves[..i], dt)
      {
        if moves[i].0 > SPEED_THRESHOLD * dt {
          assert !AtRest(moves, dt);
          return Ok(());
        }
        if moves[i].1 > SPIN_THRESHOLD * dt {
          assert !AtRest(moves, dt);
          return Ok(());
        }
      }
      assert moves[..|moves|] == moves;
      engine.terminate := true;
      r := Ok(());
    }
  }
}
