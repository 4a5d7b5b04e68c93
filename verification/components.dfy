/**
 * The objects of the layout (Components.py:11-99): a `Component` owns its
 * children, in insertion order, and its named planar ports; a SingleDomino
 * is a component marked `isLeaf`, the only kind that becomes a physics
 * body. Each object keeps a ghost `model`, the `Tree` value of the subtree
 * it heads, and every operation is proved against the functions on `Tree`
 * in module ComponentTree.
 */
module Components {
  import opened Geometry
  import opened ComponentTree

  /** What `component[name]` yields: a child, or failing that a port (Components.py:26-30). */
  datatype Found = IsChild(node: Component) | IsPort(port: Pose)

  /** The orientation names a SingleDomino accepts, in the order they are declared (Components.py:63-69). */
  const ALIASES: seq<string> := ["xyz", "xzy", "yxz", "yzx", "zxy", "zyx"]

  /**
   * The orientation an alias stands for, as quarter turns about x, y and z;
   * an unknown name is a KeyError (Components.py:63-69, 72-73).
   */
  function QuarterTurns(alias: string): Result<(int, int, int)>
  {
    if alias == "xyz" then Ok((0, 0, 0))
    else if alias == "xzy" then Ok((1, 0, 0))
    else if alias == "yxz" then Ok((0, 0, 1))
    else if alias == "yzx" then Ok((1, 0, 1))
    else if alias == "zxy" then Ok((0, 1, 1))
    else if alias == "zyx" then Ok((0, 1, 0))
    else Err(KeyNotFound)
  }

  /** Roll, pitch and yaw of an alias, each 0 or a right angle. */
  function Alias(alias: string): (r: Result<Vec3>)
    ensures r.Ok? <==> alias in ALIASES
    ensures r.Ok? ==> forall a :: a in [r.value.x, r.value.y, r.value.z] ==> a == 0.0 || a == PI / 2.0
  {
    match QuarterTurns(alias) {
      case Err(e) => Err(e)
      case Ok((a, b, c)) => Ok(Vec3(a as real * PI / 2.0, b as real * PI / 2.0, c as real * PI / 2.0))
    }
  }

  /** The six aliases name six different orientations. */
  lemma AliasesDistinct()
    ensures forall i, j :: 0 <= i < j < |ALIASES| ==> Alias(ALIASES[i]).value != Alias(ALIASES[j]).value
  {
    forall i, j | 0 <= i < j < |ALIASES|
      ensures Alias(ALIASES[i]).value != Alias(ALIASES[j]).value
    {
      var a, b := QuarterTurns(ALIASES[i]).value, QuarterTurns(ALIASES[j]).value;
      assert a != b;
    }
  }

  /** The six aliases as values, for layouts that name an orientation directly. */
  datatype Orientation = XYZ | XZY | YXZ | YZX | ZXY | ZYX
  {
    function Spelling(): string
    {
      match this
      case XYZ => "xyz"
      case XZY => "xzy"
      case YXZ => "yxz"
      case YZX => "yzx"
      case ZXY => "zxy"
      case ZYX => "zyx"
    }

    function Turns(): Vec3
    {
      match this
      case XYZ => Vec3(0.0, 0.0, 0.0)
      case XZY => Vec3(PI / 2.0, 0.0, 0.0)
      case YXZ => Vec3(0.0, 0.0, PI / 2.0)
      case YZX => Vec3(PI / 2.0, 0.0, PI / 2.0)
      case ZXY => Vec3(0.0, PI / 2.0, PI / 2.0)
      case ZYX => Vec3(0.0, PI / 2.0, 0.0)
    }
  }

  /** Each orientation is what its alias stands for. */
  lemma OrientationSpelled(o: Orientation)
    ensures Alias(o.Spelling()) == Ok(o.Turns())
  {
  }

  class Component {
    const isLeaf: bool
    const xyz: Vec3
    const rpy: Vec3
    /** The children's keys in insertion order, and the children under them. */
    var keys: seq<Key>
    var nodes: seq<Component>
    var port: map<string, Pose>
    var created: bool
    /** A block's body id, -1 until created; unused by composites. */
    var bodyId: int
    /** Where a block's body was placed; unused by composites. */
    var placedAt: Frame
    /** The subtree headed by this object, as a value. */
    ghost var model: Tree
    ghost var Repr: set<object>

    /**
     * A strict tree whose `model` agrees with the fields and with the
     * children's models: keys are unique, children own disjoint parts of
     * the footprint and never contain their parent.
     */
    ghost predicate Valid()
      reads this, Repr
      decreases Repr
    {
      && this in Repr
      && model.leaf == isLeaf && model.xyz == xyz && model.rpy == rpy
      && model.created == created && model.bodyId == bodyId && model.placedAt == placedAt
      && model.ports == port
      && |keys| == |nodes| == |model.kids|
      && UniqueKeys(keys)
      && (forall j :: 0 <= j < |nodes| ==>
            nodes[j] in Repr && nodes[j].Repr <= Repr && this !in nodes[j].Repr
            && nodes[j].Valid() && model.kids[j] == Kid(keys[j], nodes[j].model))
      && (forall i, j :: 0 <= i < j < |nodes| ==> nodes[i].Repr !! nodes[j].Repr)
    }

    /** The keys of the model are the keys of the object. */
    lemma KeysAgree()
      requires Valid()
      ensures KeysOf(model.kids) == keys
    {
    }

    /** A SingleDomino at `xyz` with orientation `rpy`, not yet created (Components.py:70-76). */
    constructor Leaf(xyz: Vec3, rpy: Vec3)
      ensures Valid() && fresh(Repr)
      ensures model == NewLeaf(xyz, rpy)
    {
      this.isLeaf := true;
      this.xyz := xyz;
      this.rpy := rpy;
      keys, nodes, port := [], [], map[];
      created, bodyId, placedAt := false, -1, IDENTITY;
      model := NewLeaf(xyz, rpy);
      Repr := {this};
    }

    /** A composite with no children and no ports yet (Components.py:12-17). */
    constructor Composite(xyz: Vec3, rpy: Vec3)
      ensures Valid() && fresh(Repr)
      ensures model == NewComposite(xyz, rpy)
    {
      this.isLeaf := false;
      this.xyz := xyz;
      this.rpy := rpy;
      keys, nodes, port := [], [], map[];
      created, bodyId, placedAt := false, -1, IDENTITY;
      model := NewComposite(xyz, rpy);
      Repr := {this};
    }

    /**
     * Create (Components.py:18-25, 77-95): `base` is the parent's world
     * frame and `next` the id the physics library hands out next; the
     * result is the id after the last one used.
     */
    method Create(base: Frame, phys: Physics, next: int) returns (next': int)
      requires Valid()
      modifies Repr
      ensures Valid() && Repr == old(Repr)
      ensures (model, next') == CreateTree(old(model), base, phys, next)
      decreases Repr, 1
    {
      if created {
        return next;
      }
      var now := phys.compose(base, Frame(xyz, phys.fromEuler(rpy)));
      if isLeaf {
        Place(next, now);
        return next + 1;
      }
      next' := CreateChildren(now, phys, next);
      MarkCreated();
    }

    /** A block takes its body id and its world frame (Components.py:82-95). */
    method Place(id: int, at: Frame)
      requires Valid()
      modifies this
      ensures Valid() && Repr == old(Repr)
      ensures model == old(model).(created := true, bodyId := id, placedAt := at)
    {
      bodyId, placedAt, created := id, at, true;
      model := model.(created := true, bodyId := id, placedAt := at);
    }

    /** The composite's own flag, set once its children are created (Components.py:25). */
    method MarkCreated()
      requires Valid()
      modifies this
      ensures Valid() && Repr == old(Repr)
      ensures model == old(model).(created := true)
    {
      created := true;
      model := model.(created := true);
    }

    /** The loop of Create: the children in insertion order, each in the frame `now` (Components.py:23-24). */
    method CreateChildren(now: Frame, phys: Physics, next: int) returns (next': int)
      requires Valid()
      modifies Repr
      ensures Valid() && Repr == old(Repr)
      ensures keys == old(keys) && nodes == old(nodes) && port == old(port)
      ensures created == old(created) && bodyId == old(bodyId) && placedAt == old(placedAt)
      ensures (model.kids, next') == CreateKids(old(model), |old(model.kids)|, now, phys, next)
      ensures model == old(model).(kids := model.kids)
      decreases Repr, 0
    {
      ghost var t0 := model;
      ghost var starts: seq<int> := [next];
      next' := next;
      var i := 0;
      while i < |nodes|
        invariant 0 <= i <= |nodes|
        invariant keys == old(keys) && nodes == old(nodes) && port == old(port)
        invariant Repr == old(Repr) && created == old(created)
        invariant bodyId == old(bodyId) && placedAt == old(placedAt)
        invariant Valid()
        invariant model == t0.(kids := model.kids)
        invariant |starts| == i + 1 && starts[0] == next && starts[i] == next'
        invariant forall j :: 0 <= j < i ==>
          CreateTree(t0.kids[j].node, now, phys, starts[j]) == (model.kids[j].node, starts[j + 1])
        invariant model.kids[i..] == t0.kids[i..]
      {
        next' := CreateChild(i, now, phys, next');
        starts := starts + [next'];
        i := i + 1;
      }
      CreateKidsByStarts(t0, now, phys, model.kids, starts);
    }

    /** Create the i-th child in the frame `now`; the other children are left alone. */
    method CreateChild(i: nat, now: Frame, phys: Physics, next: int) returns (next': int)
      requires Valid() && i < |nodes|
      modifies Repr
      ensures Valid() && Repr == old(Repr)
      ensures keys == old(keys) && nodes == old(nodes) && port == old(port)
      ensures created == old(created) && bodyId == old(bodyId) && placedAt == old(placedAt)
      ensures (model.kids[i].node, next') == CreateTree(old(model.kids[i].node), now, phys, next)
      ensures model == old(model).(kids := old(model.kids)[i := Kid(keys[i], model.kids[i].node)])
      decreases Repr, -1
    {
      var c := nodes[i];
      next' := c.Create(now, phys, next);
      forall j | 0 <= j < |nodes|
        ensures nodes[j].Repr == old(nodes[j].Repr) && nodes[j].Valid()
        ensures j != i ==> nodes[j].model == old(nodes[j].model)
      {
        if j != i {
          var s := nodes[j];
          assert old(s.Repr !! c.Repr);
          assert forall o :: o in old(s.Repr) ==> unchanged(o);
        }
      }
      model := model.(kids := model.kids[i := Kid(keys[i], c.model)]);
    }

    /**
     * `component[name] = value` (Components.py:31-32): an existing key keeps
     * its place and now holds `value`, a new key goes last. The new child
     * must be a separate tree: the model has no sharing.
     */
    method SetChild(name: Key, value: Component)
      requires Valid() && value.Valid() && Repr !! value.Repr
      modifies this
      ensures Valid() && Repr == old(Repr) + value.Repr
      ensures keys == (if name in old(keys) then old(keys) else old(keys) + [name])
      ensures port == old(port) && created == old(created) && bodyId == old(bodyId) && placedAt == old(placedAt)
      ensures model == old(model).(kids := PutKid(old(model.kids), name, value.model))
    {
      KeysAgree();
      var f := Find(keys, name);
      match f {
        case Some(j) => ReplaceChild(j, value);
        case None => AppendChild(name, value);
      }
    }

    /** Put `value` at position j, keeping the key there. */
    method ReplaceChild(j: nat, value: Component)
      requires Valid() && value.Valid() && Repr !! value.Repr && j < |nodes|
      modifies this
      ensures Valid() && Repr == old(Repr) + value.Repr
      ensures keys == old(keys) && nodes == old(nodes)[j := value]
      ensures port == old(port) && created == old(created) && bodyId == old(bodyId) && placedAt == old(placedAt)
      ensures model == old(model).(kids := old(model.kids)[j := Kid(keys[j], value.model)])
    {
      nodes := nodes[j := value];
      Repr := Repr + value.Repr;
      model := model.(kids := model.kids[j := Kid(keys[j], value.model)]);
    }

    /** Add `value` last, under a new key. */
    method AppendChild(name: Key, value: Component)
      requires Valid() && value.Valid() && Repr !! value.Repr && name !in keys
      modifies this
      ensures Valid() && Repr == old(Repr) + value.Repr
      ensures keys == old(keys) + [name] && nodes == old(nodes) + [value]
      ensures port == old(port) && created == old(created) && bodyId == old(bodyId) && placedAt == old(placedAt)
      ensures model == old(model).(kids := old(model.kids) + [Kid(name, value.model)])
    {
      keys, nodes := keys + [name], nodes + [value];
      Repr := Repr + value.Repr;
      model := model.(kids := model.kids + [Kid(name, value.model)]);
    }

    /** `component.port[name] = p`, as the constructors of the concrete components do. */
    method SetPort(name: string, p: Pose)
      requires Valid()
      modifies this
      ensures Valid() && Repr == old(Repr)
      ensures keys == old(keys) && nodes == old(nodes) && port == old(port)[name := p]
      ensures model == old(model).(ports := old(model.ports)[name := p])
    {
      port := port[name := p];
      model := model.(ports := port);
    }

    /**
     * `component[name]` (Components.py:26-30): the child under `name` if
     * there is one, otherwise the port of that name, otherwise a KeyError.
     * Ports are named by strings, so an int key never finds a port.
     */
    function Get(name: Key): (r: Result<Found>)
      requires Valid()
      reads this, Repr
      ensures (r.Ok? && r.value.IsChild?) <==> name in keys
      ensures r.Ok? && r.value.IsChild? ==> Child(model, name) == Some(r.value.node.model)
      ensures name !in keys ==> (r.Ok? <==> name.Name? && name.name in port)
      ensures r.Ok? && r.value.IsPort? ==> name.Name? && r.value.port == port[name.name]
      ensures r.Err? ==> r.error == KeyNotFound
    {
      KeysAgree();
      match Find(keys, name) {
        case Some(j) => Ok(IsChild(nodes[j]))
        case None =>
          if name.Name? && name.name in port then Ok(IsPort(port[name.name])) else Err(KeyNotFound)
      }
    }

    /** `Id(name)` (Components.py:33-37, 96-97), evaluated on the objects. */
    function Id(name: Option<Key>): (r: Result<int>)
      requires Valid()
      reads this, Repr
      ensures r == IdOf(model, name)
      decreases Repr
    {
      KeysAgree();
      if isLeaf then
        if name.Some? then Err(UnexpectedArgument) else Ok(if created then bodyId else -1)
      else if name.None? then
        if |nodes| != 1 then Err(AmbiguousDefault) else nodes[0].Id(None)
      else match Find(keys, name.value) {
        case None => Err(KeyNotFound)
        case Some(j) => nodes[j].Id(None)
      }
    }

    /** `AllIds()` (Components.py:38-42, 98-99): the loop over the children, on the objects. */
    method AllIds() returns (ids: seq<int>)
      requires Valid()
      ensures ids == Ids(model)
      decreases Repr
    {
      if isLeaf {
        return [bodyId];
      }
      ids := [];
      for i := 0 to |nodes|
        invariant ids == IdsUpTo(model, i)
      {
        var more := nodes[i].AllIds();
        ids := ids + more;
      }
    }

    /** `Promote(name)` (Components.py:43-53), on the object's own pose and ports. */
    function Promote(name: string, geo: Geo): (r: Result<Pose>)
      requires Valid()
      reads this, Repr
      ensures r == PromoteOf(model, name, geo)
    {
      if name !in port then Err(KeyNotFound) else Ok(Promoted(xyz, rpy, port[name], geo))
    }

    /** `component(child, port)` (Components.py:54-55), on the objects. */
    method Call(child: Key, name: string, geo: Geo) returns (r: Result<Pose>)
      requires Valid()
      ensures r == CallOf(model, child, name, geo)
    {
      KeysAgree();
      var f := Find(keys, child);
      if f.None? {
        r := Err(KeyNotFound);
      } else {
        r := nodes[f.value].Promote(name, geo);
      }
    }
  }
}
