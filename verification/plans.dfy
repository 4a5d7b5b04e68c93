/**
 * What the constructors of the concrete components (Components.py:100-139,
 * 145-168, 237-373) have in common: each starts an empty component at a
 * pose, then stores its children one after the other and sets its ports.
 * A `Plan` is that description as a value; `Build` is the constructor's
 * sequence of stores, run on the objects, and `Planned` the tree it builds.
 */
module Plans {
  import opened Geometry
  import opened ComponentTree
  import opened Components

  /** A child to store: a SingleDomino at a pose, or a whole sub-component. */
  datatype Part = Block(xyz: Vec3, rpy: Vec3) | Group(plan: Plan)

  /** A component: its pose, its children in the order they are stored, its ports in the order they are set. */
  datatype Plan = Plan(xyz: Vec3, rpy: Vec3, parts: seq<(Key, Part)>, ports: seq<(string, Pose)>)

  /** The pose of a component placed at `pose` on the floor: ([x, y, 0], [0, 0, angle]). */
  function Floor(pose: Pose): Vec3
  {
    Vec3(pose.at.x, pose.at.y, 0.0)
  }

  function Yaw(angle: real): Vec3
  {
    Vec3(0.0, 0.0, angle)
  }

  /** A component standing on the floor at `pose`, turned about the vertical by the pose's angle. */
  predicate OnFloorAt(p: Plan, pose: Pose)
  {
    p.xyz.x == pose.at.x && p.xyz.y == pose.at.y && p.xyz.z == 0.0 && p.rpy == Vec3(0.0, 0.0, pose.angle)
  }

  /** A SingleDomino given by an orientation alias (Components.py:72-73). */
  function Aligned(xyz: Vec3, o: Orientation): Part
  {
    Block(xyz, o.Turns())
  }

  /** The tree a plan builds. */
  function Planned(p: Plan): Tree
    decreases p, 2
  {
    NewComposite(p.xyz, p.rpy).(kids := PlannedKids(p, |p.parts|), ports := PortsOf(p.ports))
  }

  /** The children after the first n stores. */
  function PlannedKids(p: Plan, n: nat): seq<Kid>
    requires n <= |p.parts|
    decreases p, 1, n
  {
    if n == 0 then [] else PutKid(PlannedKids(p, n - 1), p.parts[n - 1].0, PartTree(p.parts[n - 1].1))
  }

  function PartTree(part: Part): Tree
    decreases part, 0
  {
    match part
    case Block(xyz, rpy) => NewLeaf(xyz, rpy)
    case Group(q) => Planned(q)
  }

  /** The port dictionary after setting the ports in order. */
  function PortsOf(ports: seq<(string, Pose)>): map<string, Pose>
  {
    if |ports| == 0 then map[]
    else PortsOf(ports[..|ports| - 1])[ports[|ports| - 1].0 := ports[|ports| - 1].1]
  }

  /** No key is stored twice. */
  predicate DistinctKeys(parts: seq<(Key, Part)>)
  {
    forall i, j :: 0 <= i < j < |parts| ==> parts[i].0 != parts[j].0
  }

  /**
   * The constructor's stores on a fresh component (Components.py:12-17,
   * 31-32): every child is a new object, so the result is a tree that
   * shares nothing with what existed before.
   */
  method Build(p: Plan) returns (c: Component)
    ensures c.Valid() && fresh(c.Repr)
    ensures c.model == Planned(p)
    decreases p, 2
  {
    c := BuildKids(p, |p.parts|);
    for i := 0 to |p.ports|
      invariant c.Valid() && fresh(c.Repr)
      invariant c.model == NewComposite(p.xyz, p.rpy).(kids := PlannedKids(p, |p.parts|), ports := PortsOf(p.ports[..i]))
    {
      assert p.ports[..i + 1][..i] == p.ports[..i];
      c.SetPort(p.ports[i].0, p.ports[i].1);
    }
    assert p.ports[..|p.ports|] == p.ports;
  }

  /** The empty component at the plan's pose with the first n children stored. */
  method BuildKids(p: Plan, n: nat) returns (c: Component)
    requires n <= |p.parts|
    ensures c.Valid() && fresh(c.Repr)
    ensures c.model == NewComposite(p.xyz, p.rpy).(kids := PlannedKids(p, n))
    decreases p, 1, n
  {
    if n == 0 {
      c := new Component.Composite(p.xyz, p.rpy);
    } else {
      c := BuildKids(p, n - 1);
      AddPart(c, p, n - 1);
    }
  }

  /** Store `c[key] = <new component built from part>` for part i of the plan. */
  method AddPart(c: Component, p: Plan, i: nat)
    requires i < |p.parts| && c.Valid()
    requires c.model == NewComposite(p.xyz, p.rpy).(kids := PlannedKids(p, i))
    modifies c
    ensures c.Valid() && fresh(c.Repr - old(c.Repr))
    ensures c.model == NewComposite(p.xyz, p.rpy).(kids := PlannedKids(p, i + 1))
    decreases p, 1, i
  {
    assert p.parts[i] in p.parts;
    var node := BuildPart(p.parts[i].1);
    c.SetChild(p.parts[i].0, node);
  }

  /** A new SingleDomino, or a new sub-component built from its own plan. */
  method BuildPart(part: Part) returns (node: Component)
    ensures node.Valid() && fresh(node.Repr)
    ensures node.model == PartTree(part)
    decreases part, 0
  {
    if part.Block? {
      node := new Component.Leaf(part.xyz, part.rpy);
    } else {
      node := Build(part.plan);
    }
  }

  /**
   * With distinct keys every store adds a child at the end, so the tree has
   * the plan's children in the plan's order.
   */
  lemma {:induction false} PlannedKidsInOrder(p: Plan, n: nat)
    requires n <= |p.parts| && DistinctKeys(p.parts)
    ensures |PlannedKids(p, n)| == n
    ensures forall i :: 0 <= i < n ==> PlannedKids(p, n)[i] == Kid(p.parts[i].0, PartTree(p.parts[i].1))
  {
    if n > 0 {
      PlannedKidsInOrder(p, n - 1);
      var kids := PlannedKids(p, n - 1);
      var k := p.parts[n - 1].0;
      assert k !in KeysOf(kids) by {
        forall j | 0 <= j < |kids|
          ensures KeysOf(kids)[j] != k
        {
          assert KeysOf(kids)[j] == p.parts[j].0;
        }
      }
      assert PlannedKids(p, n) == kids + [Kid(k, PartTree(p.parts[n - 1].1))];
      ExtendsInOrder(kids, p.parts, n, PartTree);
    }
  }

  /** Appending the child for part n - 1 to the children of parts 0 .. n - 2 keeps them in the plan's order. */
  lemma ExtendsInOrder(kids: seq<Kid>, parts: seq<(Key, Part)>, n: nat, tree: Part -> Tree)
    requires 0 < n <= |parts| && |kids| == n - 1
    requires forall i :: 0 <= i < n - 1 ==> kids[i] == Kid(parts[i].0, tree(parts[i].1))
    ensures forall i :: 0 <= i < n ==> (kids + [Kid(parts[n - 1].0, tree(parts[n - 1].1))])[i] == Kid(parts[i].0, tree(parts[i].1))
  {
  }

  /** A freshly built component has nothing created. */
  lemma {:induction false} PlannedNoneCreated(p: Plan)
    ensures NoneCreated(Planned(p))
    decreases p, 2
  {
    PlannedKidsNoneCreated(p, |p.parts|);
  }

  lemma {:induction false} PlannedKidsNoneCreated(p: Plan, n: nat)
    requires n <= |p.parts|
    ensures forall j :: 0 <= j < |PlannedKids(p, n)| ==> NoneCreated(PlannedKids(p, n)[j].node)
    decreases p, 1, n
  {
    if n > 0 {
      PlannedKidsNoneCreated(p, n - 1);
      var kids := PlannedKids(p, n - 1);
      var node := PartTree(p.parts[n - 1].1);
      assert p.parts[n - 1] in p.parts;
      PartNoneCreated(p.parts[n - 1].1);
      match Find(KeysOf(kids), p.parts[n - 1].0) {
        case Some(j) =>
        case None =>
      }
    }
  }

  lemma {:induction false} PartNoneCreated(part: Part)
    ensures NoneCreated(PartTree(part))
    decreases part, 0
  {
    if part.Group? {
      PlannedNoneCreated(part.plan);
    }
  }

  /** The number of SingleDominoes a plan lays out, counting inside its sub-components. */
  function PlanLeaves(p: Plan): nat
    decreases p, 2
  {
    PartsLeaves(p, |p.parts|)
  }

  function PartsLeaves(p: Plan, n: nat): nat
    requires n <= |p.parts|
    decreases p, 1, n
  {
    if n == 0 then 0 else PartsLeaves(p, n - 1) + PartLeaves(p.parts[n - 1].1)
  }

  function PartLeaves(part: Part): nat
    decreases part, 0
  {
    match part
    case Block(_, _) => 1
    case Group(q) => PlanLeaves(q)
  }

  /** Distinct keys in the plan and in every sub-component's plan. */
  predicate WellKeyed(p: Plan)
    decreases p
  {
    && DistinctKeys(p.parts)
    && forall i :: 0 <= i < |p.parts| ==> p.parts[i].1.Group? ==>
         (assert p.parts[i] in p.parts; WellKeyed(p.parts[i].1.plan))
  }

  /**
   * A well-keyed plan builds a component with one body per SingleDomino it
   * lays out, so AllIds lists that many ids once it is created.
   */
  lemma {:induction false} PlannedLeafCount(p: Plan)
    requires WellKeyed(p)
    ensures LeafCount(Planned(p)) == PlanLeaves(p)
    decreases p, 2
  {
    PlannedKidsInOrder(p, |p.parts|);
    PlannedLeafCountUpTo(p, |p.parts|);
  }

  lemma {:induction false} PlannedLeafCountUpTo(p: Plan, n: nat)
    requires WellKeyed(p) && n <= |p.parts|
    requires |Planned(p).kids| == |p.parts|
    requires forall i :: 0 <= i < |p.parts| ==> Planned(p).kids[i].node == PartTree(p.parts[i].1)
    ensures LeafCountUpTo(Planned(p), n) == PartsLeaves(p, n)
    decreases p, 1, n
  {
    if n > 0 {
      PlannedLeafCountUpTo(p, n - 1);
      var part := p.parts[n - 1].1;
      assert p.parts[n - 1] in p.parts;
      PartLeafCount(part);
    }
  }

  lemma {:induction false} PartLeafCount(part: Part)
    requires part.Group? ==> WellKeyed(part.plan)
    ensures LeafCount(PartTree(part)) == PartLeaves(part)
    decreases part, 0
  {
    if part.Group? {
      PlannedLeafCount(part.plan);
    }
  }

  /** No port name is set twice. */
  predicate DistinctNames(ports: seq<(string, Pose)>)
  {
    forall i, j :: 0 <= i < j < |ports| ==> ports[i].0 != ports[j].0
  }

  /** Setting distinct port names in turn gives each name the pose listed with it, and no other name. */
  lemma {:induction false} PortsListed(ports: seq<(string, Pose)>)
    requires DistinctNames(ports)
    ensures forall i :: 0 <= i < |ports| ==> ports[i].0 in PortsOf(ports) && PortsOf(ports)[ports[i].0] == ports[i].1
    ensures forall name :: name in PortsOf(ports) ==> exists i :: 0 <= i < |ports| && ports[i].0 == name
  {
    if |ports| > 0 {
      PortsListed(ports[..|ports| - 1]);
    }
  }
}
