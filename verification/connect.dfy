/**
 * `Component.Connect` (Components.py:56-59): a CurveDomino from one
 * child's port to another's, stored in the parent under a given key or
 * under one spelled from the four arguments. The two ports are promoted
 * into the parent's frame first; a missing child, a missing port or a
 * curve too short to lay leaves the parent as it was.
 */
module Connections {
  import opened Geometry
  import opened Text
  import opened ComponentTree
  import opened Components
  import opened Plans
  import opened Curves

  /** '%s' of a child key: a name as it is, an index in decimal. */
  function KeyText(k: Key): (s: string)
    ensures k.Name? ==> s == k.name
    ensures k.Index? ==> |s| > 0 && (0 <= k.index <==> IsDigit(s[0]))
  {
    match k
    case Name(s) => s
    case Index(i) => IntToString(i)
  }

  /** The key the connection is stored under: the one given, or '<child1>_<port1>_to_<child2>_<port2>'. */
  function ConnectionKey(c1: Key, p1: string, c2: Key, p2: string, name: Option<Key>): (k: Key)
    ensures name.Some? ==> k == name.value
    ensures name.None? ==> k.Name? && |k.name| == |KeyText(c1)| + |p1| + |KeyText(c2)| + |p2| + 6
  {
    if name.Some? then name.value else Name(KeyText(c1) + "_" + p1 + "_to_" + KeyText(c2) + "_" + p2)
  }

  /** Connect passes no interval, so CurveDomino's default of -1 applies (Components.py:148, 59). */
  const DEFAULT_INTERVAL: real := -1.0

  /**
   * What Connect builds between the two promoted ports: the plan of a new
   * component, or the error its constructor raises. Connect itself only
   * hands the ports over; `CurveDomino` is the constructor it calls.
   */
  type Maker = (Pose, Pose) --> Result<Plan>

  /** The CurveDomino constructor with its default interval. */
  function CurveDomino(geo: Geo): (f: Maker)
    requires geo.Lawful()
    ensures forall s, e :: f.requires(s, e)
  {
    (s: Pose, e: Pose) => CurveLayout(geo, s, e, DEFAULT_INTERVAL)
  }

  /** Connect on a tree value: evaluated left to right, the first failure is the result. */
  function Connected(t: Tree, c1: Key, p1: string, c2: Key, p2: string, name: Option<Key>, geo: Geo, make: Maker): (r: Result<Tree>)
    requires forall s, e :: make.requires(s, e)
    ensures r.Ok? ==> CallOf(t, c1, p1, geo).Ok? && CallOf(t, c2, p2, geo).Ok?
    ensures r.Ok? ==> r.value.leaf == t.leaf && r.value.xyz == t.xyz && r.value.rpy == t.rpy && r.value.ports == t.ports
    ensures r.Ok? ==> |t.kids| <= |r.value.kids| <= |t.kids| + 1
  {
    var s := CallOf(t, c1, p1, geo);
    if s.Err? then Err(s.error)
    else
      var e := CallOf(t, c2, p2, geo);
      if e.Err? then Err(e.error)
      else
        var curve := make(s.value, e.value);
        if curve.Err? then Err(curve.error)
        else Ok(t.(kids := PutKid(t.kids, ConnectionKey(c1, p1, c2, p2, name), Planned(curve.value))))
  }

  /**
   * `parent.Connect(child1, port1, child2, port2, name)` on the objects:
   * look both ports up, build the curve between them and store it.
   */
  method Connect(parent: Component, c1: Key, p1: string, c2: Key, p2: string, name: Option<Key>, geo: Geo, make: Maker)
    returns (r: Result<()>)
    requires parent.Valid() && forall s, e :: make.requires(s, e)
    modifies parent
    ensures parent.Valid() && fresh(parent.Repr - old(parent.Repr))
    ensures r.Err? ==> Connected(old(parent.model), c1, p1, c2, p2, name, geo, make) == Err(r.error)
    ensures r.Err? ==> parent.model == old(parent.model)
    ensures r.Ok? ==> Connected(old(parent.model), c1, p1, c2, p2, name, geo, make) == Ok(parent.model)
  {
    var s := parent.Call(c1, p1, geo);
    if s.Err? {
      return Err(s.error);
    }
    var e := parent.Call(c2, p2, geo);
    if e.Err? {
      return Err(e.error);
    }
    r := Join(parent, ConnectionKey(c1, p1, c2, p2, name), make(s.value, e.value));
  }

  /** Store a new component built from a plan under a key, or pass the plan's error on and leave the parent as it was. */
  method Join(parent: Component, key: Key, plan: Result<Plan>) returns (r: Result<()>)
    requires parent.Valid()
    modifies parent
    ensures parent.Valid() && fresh(parent.Repr - old(parent.Repr))
    ensures plan.Err? ==> r == Err(plan.error) && parent.model == old(parent.model)
    ensures plan.Ok? ==> r == Ok(()) && parent.model == old(parent.model).(kids := PutKid(old(parent.model.kids), key, Planned(plan.value)))
  {
    if plan.Err? {
      return Err(plan.error);
    }
    var curve := Build(plan.value);
    parent.SetChild(key, curve);
    r := Ok(());
  }

  /** Connect fails with a KeyError when either child or its port is missing. */
  lemma ConnectedMissing(t: Tree, c1: Key, p1: string, c2: Key, p2: string, name: Option<Key>, geo: Geo, make: Maker)
    requires forall s, e :: make.requires(s, e)
    ensures CallOf(t, c1, p1, geo).Err? ==> Connected(t, c1, p1, c2, p2, name, geo, make) == Err(KeyNotFound)
    ensures CallOf(t, c1, p1, geo).Ok? && CallOf(t, c2, p2, geo).Err? ==>
      Connected(t, c1, p1, c2, p2, name, geo, make) == Err(KeyNotFound)
  {
  }

  /** Between two ports that exist, Connect fails exactly when the constructor does, with its error. */
  lemma ConnectedFails(t: Tree, c1: Key, p1: string, c2: Key, p2: string, name: Option<Key>, geo: Geo, make: Maker,
                       s: Pose, e: Pose)
    requires forall s, e :: make.requires(s, e)
    requires CallOf(t, c1, p1, geo) == Ok(s) && CallOf(t, c2, p2, geo) == Ok(e)
    ensures make(s, e).Err? ==> Connected(t, c1, p1, c2, p2, name, geo, make) == Err(make(s, e).error)
    ensures make(s, e).Ok? ==> Connected(t, c1, p1, c2, p2, name, geo, make).Ok?
  {
  }

  /**
   * A successful Connect adds one child under the connection's key, the
   * component built from the constructor's plan, and keeps every other
   * child, the parent's ports and its pose.
   */
  lemma ConnectedAdds(t: Tree, c1: Key, p1: string, c2: Key, p2: string, name: Option<Key>, geo: Geo, make: Maker,
                      s: Pose, e: Pose, plan: Plan, u: Tree)
    requires forall s, e :: make.requires(s, e) && UniqueKeys(KeysOf(t.kids))
    requires CallOf(t, c1, p1, geo) == Ok(s) && CallOf(t, c2, p2, geo) == Ok(e) && make(s, e) == Ok(plan)
    requires Connected(t, c1, p1, c2, p2, name, geo, make) == Ok(u)
    ensures UniqueKeys(KeysOf(u.kids)) && u.ports == t.ports && u.xyz == t.xyz && u.rpy == t.rpy
    ensures Child(u, ConnectionKey(c1, p1, c2, p2, name)) == Some(Planned(plan))
    ensures forall k :: k != ConnectionKey(c1, p1, c2, p2, name) ==> Child(u, k) == Child(t, k)
  {
    PutKidSpec(t, ConnectionKey(c1, p1, c2, p2, name), Planned(plan));
  }

  /**
   * With CurveDomino as the constructor: Connect between two ports that
   * exist fails, with ZeroDivisionError, exactly when the curve between
   * them is shorter than half the default interval SZ / 1.8.
   */
  lemma CurveTooShort(geo: Geo, s: Pose, e: Pose)
    requires geo.Lawful()
    ensures CurveDomino(geo)(s, e).Err? <==> Measurement(geo, s, e).Total() < SZ / CURVE_INTERVAL_RATIO / 2.0
    ensures CurveDomino(geo)(s, e).Err? ==> CurveDomino(geo)(s, e).error == ZeroDivision
  {
    var m := Measurement(geo, s, e);
    LaidErrors(m, DEFAULT_INTERVAL);
    assert CurveDomino(geo)(s, e) == Laid(m, DEFAULT_INTERVAL);
  }

  /**
   * With CurveDomino as the constructor, the component Connect adds has
   * its first block standing on the first promoted port and its last on
   * the second.
   */
  lemma CurveJoinsPorts(geo: Geo, s: Pose, e: Pose, plan: Plan)
    requires geo.Lawful() && CurveDomino(geo)(s, e) == Ok(plan)
    ensures |plan.parts| >= 2 && plan.parts[0].1.Block? && plan.parts[|plan.parts| - 1].1.Block?
    ensures plan.parts[0].1.xyz == Vec3(s.at.x, s.at.y, SZ / 2.0)
    ensures plan.parts[|plan.parts| - 1].1.xyz == Vec3(e.at.x, e.at.y, SZ / 2.0)
  {
    CurveEnds(geo, s, e, DEFAULT_INTERVAL, plan);
  }
}
