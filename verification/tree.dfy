/**
 * The value of a component tree (Components.py:11-99). A `Tree` is a
 * snapshot of one node of the layout and everything below it: the
 * operations of `Component` that only read the tree (Id, AllIds) and the
 * one that walks it to create the physics bodies (Create) are specified on
 * these values, and what the source promises about them is proved here as
 * lemmas. The objects themselves are in module Components.
 */
module ComponentTree {
  import opened Geometry

  /** Children are keyed by a string or by an int. */
  datatype Key = Name(name: string) | Index(index: int)

  datatype Vec3 = Vec3(x: real, y: real, z: real)
  datatype Quat = Quat(x: real, y: real, z: real, w: real)
  /** A position and an orientation quaternion. */
  datatype Frame = Frame(pos: Vec3, rot: Quat)

  /**
   * The two calls into the physics library that Create makes to place a
   * body: Euler angles to a quaternion, and the composition of two frames.
   */
  datatype Physics = Physics(fromEuler: Vec3 -> Quat, compose: (Frame, Frame) -> Frame)

  const ORIGIN: Vec3 := Vec3(0.0, 0.0, 0.0)
  /** The default base pose of Create: the origin, unrotated (Components.py:18). */
  const IDENTITY: Frame := Frame(ORIGIN, Quat(0.0, 0.0, 0.0, 1.0))

  /**
   * What the source raises: KeyError, the failed assertion of `Id()`, a
   * call with an argument the callee does not take (TypeError),
   * ZeroDivisionError, IndexError, and the AttributeError of reading a
   * field of None.
   */
  datatype Error = KeyNotFound | AmbiguousDefault | UnexpectedArgument | ZeroDivision | IndexOutOfRange | NoneAttribute

  datatype Result<T> = Ok(value: T) | Err(error: Error)

  datatype Option<T> = None | Some(value: T)

  /**
   * A node: whether it is a SingleDomino, its local pose (position and
   * roll, pitch, yaw), its `created` flag, for a block its body id and the
   * world frame its body was placed at, its children in insertion order
   * and its ports.
   */
  datatype Tree = Tree(
    leaf: bool, xyz: Vec3, rpy: Vec3,
    created: bool, bodyId: int, placedAt: Frame,
    kids: seq<Kid>, ports: map<string, Pose>)

  datatype Kid = Kid(key: Key, node: Tree)

  /** A SingleDomino that has not been created: body id -1 (Components.py:70-76). */
  function NewLeaf(xyz: Vec3, rpy: Vec3): Tree
  {
    Tree(true, xyz, rpy, false, -1, IDENTITY, [], map[])
  }

  /** A composite without children or ports (Components.py:12-17). */
  function NewComposite(xyz: Vec3, rpy: Vec3): Tree
  {
    Tree(false, xyz, rpy, false, -1, IDENTITY, [], map[])
  }

  // ---------------------------------------------------------------------
  // Keys and dictionary order
  // ---------------------------------------------------------------------

  function KeysOf(kids: seq<Kid>): (r: seq<Key>)
    ensures |r| == |kids| && forall j :: 0 <= j < |kids| ==> r[j] == kids[j].key
  {
    seq(|kids|, j requires 0 <= j < |kids| => kids[j].key)
  }

  /** No key occurs twice: a dictionary's keys. */
  predicate UniqueKeys(keys: seq<Key>)
  {
    forall i, j :: 0 <= i < j < |keys| ==> keys[i] != keys[j]
  }

  /** Where key k sits in the insertion order, if it is there at all. */
  function Find(keys: seq<Key>, k: Key): (r: Option<nat>)
    ensures r.None? <==> k !in keys
    ensures r.Some? ==> r.value < |keys| && keys[r.value] == k && k !in keys[..r.value]
  {
    if |keys| == 0 then None
    else if keys[0] == k then Some(0)
    else match Find(keys[1..], k) {
      case None => None
      case Some(j) =>
        assert keys[1..][..j] == keys[1..j + 1];
        Some(j + 1)
    }
  }

  /** In a dictionary, the position found for a key is its only position. */
  lemma FindUnique(keys: seq<Key>, j: nat)
    requires UniqueKeys(keys) && j < |keys|
    ensures Find(keys, keys[j]) == Some(j)
  {
    var r := Find(keys, keys[j]);
    assert keys[r.value] == keys[j];
  }

  /** The child stored under k, if any. */
  function Child(t: Tree, k: Key): Option<Tree>
  {
    match Find(KeysOf(t.kids), k) {
      case None => None
      case Some(j) => Some(t.kids[j].node)
    }
  }

  /**
   * `children[k] = node` on a dictionary (Components.py:31-32): an existing
   * key keeps its place and gets the new value, a new key goes last.
   */
  function PutKid(kids: seq<Kid>, k: Key, node: Tree): seq<Kid>
  {
    match Find(KeysOf(kids), k) {
      case Some(j) => kids[j := Kid(k, node)]
      case None => kids + [Kid(k, node)]
    }
  }

  /**
   * Storing a child under k: the keys keep their order and stay unique,
   * k is added at the end only if it was absent, k now yields the new
   * node and every other key yields what it did before.
   */
  lemma {:induction false} PutKidSpec(t: Tree, k: Key, node: Tree)
    requires UniqueKeys(KeysOf(t.kids))
    ensures var u := t.(kids := PutKid(t.kids, k, node));
      && UniqueKeys(KeysOf(u.kids))
      && KeysOf(u.kids) == (if k in KeysOf(t.kids) then KeysOf(t.kids) else KeysOf(t.kids) + [k])
      && Child(u, k) == Some(node)
      && (forall k' :: k' != k ==> Child(u, k') == Child(t, k'))
  {
    var keys := KeysOf(t.kids);
    var u := t.(kids := PutKid(t.kids, k, node));
    var keys' := KeysOf(u.kids);
    match Find(keys, k) {
      case Some(j) =>
        assert keys' == keys;
        FindUnique(keys', j);
      case None =>
        assert keys' == keys + [k];
        FindUnique(keys', |keys|);
        forall k' | k' != k
          ensures Child(u, k') == Child(t, k')
        {
          var f := Find(keys, k');
          if f.Some? {
            FindUnique(keys', f.value);
          } else {
            assert k' !in keys';
          }
        }
    }
  }

  // ---------------------------------------------------------------------
  // Create
  // ---------------------------------------------------------------------

  /** The frame a node's children are placed in, given its parent's frame (Components.py:21-22, 80-81). */
  function WorldFrame(phys: Physics, base: Frame, t: Tree): Frame
  {
    phys.compose(base, Frame(t.xyz, phys.fromEuler(t.rpy)))
  }

  /**
   * Create on a tree value (Components.py:18-25, 77-95): a node already
   * created is returned as it is; otherwise a block takes body id `next`
   * and is placed at its world frame, and a composite creates its children
   * in insertion order, each in the composite's world frame. The second
   * component of the result is the next unused body id.
   */
  function CreateTree(t: Tree, base: Frame, phys: Physics, next: int): (r: (Tree, int))
    ensures r.0.created && next <= r.1
    ensures t.created ==> r == (t, next)
    decreases t, 1
  {
    if t.created then (t, next)
    else if t.leaf then
      (t.(created := true, bodyId := next, placedAt := WorldFrame(phys, base, t)), next + 1)
    else
      var done := CreateKids(t, |t.kids|, WorldFrame(phys, base, t), phys, next);
      (t.(created := true, kids := done.0), done.1)
  }

  /** Create applied to the first n children of t, in order, starting from id `next`. */
  function CreateKids(t: Tree, n: nat, base: Frame, phys: Physics, next: int): (r: (seq<Kid>, int))
    requires n <= |t.kids|
    ensures |r.0| == n && next <= r.1
    ensures forall j :: 0 <= j < n ==> r.0[j].key == t.kids[j].key
    decreases t, 0, n
  {
    if n == 0 then ([], next)
    else
      var before := CreateKids(t, n - 1, base, phys, next);
      var kid := t.kids[n - 1];
      var made := CreateTree(kid.node, base, phys, before.1);
      (before.0 + [Kid(kid.key, made.0)], made.1)
  }

  /** Creating the children one by one, each from the id the previous one left, is CreateKids. */
  lemma {:induction false} CreateKidsByStarts(t: Tree, base: Frame, phys: Physics, kids: seq<Kid>, starts: seq<int>)
    requires |kids| == |t.kids| && |starts| == |kids| + 1
    requires forall j :: 0 <= j < |kids| ==> kids[j].key == t.kids[j].key
    requires forall j :: 0 <= j < |kids| ==>
      CreateTree(t.kids[j].node, base, phys, starts[j]) == (kids[j].node, starts[j + 1])
    ensures CreateKids(t, |kids|, base, phys, starts[0]) == (kids, starts[|kids|])
  {
    var n := |kids|;
    for m := 0 to n
      invariant CreateKids(t, m, base, phys, starts[0]) == (kids[..m], starts[m])
    {
      assert kids[..m + 1] == kids[..m] + [kids[m]];
    }
    assert kids[..n] == kids;
  }

  /** Every node that counts is created: a block's children are never walked. */
  ghost predicate AllCreated(t: Tree)
    decreases t
  {
    t.created && (t.leaf || forall j :: 0 <= j < |t.kids| ==> AllCreated(t.kids[j].node))
  }

  /** No node that counts is created yet: a freshly built layout. */
  ghost predicate NoneCreated(t: Tree)
    decreases t
  {
    !t.created && (t.leaf || forall j :: 0 <= j < |t.kids| ==> NoneCreated(t.kids[j].node))
  }

  /**
   * A node marked created has every descendant created. Create stops at a
   * created node, so this is what it needs to reach every block; it fails
   * only when a child is added to a component after that component was
   * created.
   */
  ghost predicate Settled(t: Tree)
    decreases t
  {
    if t.created then AllCreated(t)
    else t.leaf || forall j :: 0 <= j < |t.kids| ==> Settled(t.kids[j].node)
  }

  /** After Create on a settled tree, every node is created. */
  lemma {:induction false} CreateMarksAll(t: Tree, base: Frame, phys: Physics, next: int)
    requires Settled(t)
    ensures AllCreated(CreateTree(t, base, phys, next).0)
    decreases t, 1
  {
    if !t.created && !t.leaf {
      CreateKidsMarkAll(t, |t.kids|, WorldFrame(phys, base, t), phys, next);
    }
  }

  lemma {:induction false} CreateKidsMarkAll(t: Tree, n: nat, base: Frame, phys: Physics, next: int)
    requires n <= |t.kids| && forall j :: 0 <= j < |t.kids| ==> Settled(t.kids[j].node)
    ensures forall j :: 0 <= j < n ==> AllCreated(CreateKids(t, n, base, phys, next).0[j].node)
    decreases t, 0, n
  {
    if n > 0 {
      var before := CreateKids(t, n - 1, base, phys, next);
      CreateKidsMarkAll(t, n - 1, base, phys, next);
      CreateMarksAll(t.kids[n - 1].node, base, phys, before.1);
    }
  }

  /** Two trees that differ at most in the created flags, the body ids and the placements. */
  ghost predicate SameLayout(a: Tree, b: Tree)
    decreases a
  {
    && a.leaf == b.leaf && a.xyz == b.xyz && a.rpy == b.rpy && a.ports == b.ports
    && (a.leaf || (
      && |a.kids| == |b.kids|
      && forall j :: 0 <= j < |a.kids| ==>
           a.kids[j].key == b.kids[j].key && SameLayout(a.kids[j].node, b.kids[j].node)))
  }

  /** Create changes nothing but the created flags, the body ids and the placements. */
  lemma {:induction false} CreateKeepsLayout(t: Tree, base: Frame, phys: Physics, next: int)
    ensures SameLayout(CreateTree(t, base, phys, next).0, t)
    decreases t, 1
  {
    if t.created {
      SameLayoutReflexive(t);
    } else if !t.leaf {
      CreateKidsKeepLayout(t, |t.kids|, WorldFrame(phys, base, t), phys, next);
    }
  }

  lemma {:induction false} CreateKidsKeepLayout(t: Tree, n: nat, base: Frame, phys: Physics, next: int)
    requires n <= |t.kids|
    ensures forall j :: 0 <= j < n ==> SameLayout(CreateKids(t, n, base, phys, next).0[j].node, t.kids[j].node)
    decreases t, 0, n
  {
    if n > 0 {
      var before := CreateKids(t, n - 1, base, phys, next);
      CreateKidsKeepLayout(t, n - 1, base, phys, next);
      CreateKeepsLayout(t.kids[n - 1].node, base, phys, before.1);
    }
  }

  lemma {:induction false} SameLayoutReflexive(t: Tree)
    ensures SameLayout(t, t)
    decreases t
  {
    if !t.leaf {
      forall j | 0 <= j < |t.kids|
        ensures SameLayout(t.kids[j].node, t.kids[j].node)
      {
        SameLayoutReflexive(t.kids[j].node);
      }
    }
  }

  /** Create is idempotent: a second call returns at once and changes no flag and no body id. */
  lemma CreateIdempotent(t: Tree, base: Frame, phys: Physics, next: int, base': Frame, phys': Physics, next': int)
    ensures var once := CreateTree(t, base, phys, next).0;
      CreateTree(once, base', phys', next') == (once, next')
  {
  }

  // ---------------------------------------------------------------------
  // Body ids
  // ---------------------------------------------------------------------

  /**
   * AllIds on a tree value (Components.py:38-42, 98-99): a block yields its
   * body id, a composite the concatenation of its children's ids in
   * insertion order.
   */
  function Ids(t: Tree): seq<int>
    decreases t, 1
  {
    if t.leaf then [t.bodyId] else IdsUpTo(t, |t.kids|)
  }

  function IdsUpTo(t: Tree, n: nat): seq<int>
    requires n <= |t.kids|
    decreases t, 0, n
  {
    if n == 0 then [] else IdsUpTo(t, n - 1) + Ids(t.kids[n - 1].node)
  }

  /** The number of blocks in a subtree. */
  function LeafCount(t: Tree): nat
    decreases t, 1
  {
    if t.leaf then 1 else LeafCountUpTo(t, |t.kids|)
  }

  function LeafCountUpTo(t: Tree, n: nat): nat
    requires n <= |t.kids|
    decreases t, 0, n
  {
    if n == 0 then 0 else LeafCountUpTo(t, n - 1) + LeafCount(t.kids[n - 1].node)
  }

  /** AllIds lists one id per block. */
  lemma {:induction false} IdsCount(t: Tree)
    ensures |Ids(t)| == LeafCount(t)
    decreases t, 1
  {
    if !t.leaf {
      IdsUpToCount(t, |t.kids|);
    }
  }

  lemma {:induction false} IdsUpToCount(t: Tree, n: nat)
    requires n <= |t.kids|
    ensures |IdsUpTo(t, n)| == LeafCountUpTo(t, n)
    decreases t, 0, n
  {
    if n > 0 {
      IdsUpToCount(t, n - 1);
      IdsCount(t.kids[n - 1].node);
    }
  }

  /** The ids lo, lo + 1, ..., hi - 1. */
  function Range(lo: int, hi: int): (r: seq<int>)
    requires lo <= hi
    ensures |r| == hi - lo && forall j :: 0 <= j < |r| ==> r[j] == lo + j
    decreases hi - lo
  {
    if lo == hi then [] else Range(lo, hi - 1) + [hi - 1]
  }

  lemma RangeSplit(lo: int, mid: int, hi: int)
    requires lo <= mid <= hi
    ensures Range(lo, mid) + Range(mid, hi) == Range(lo, hi)
  {
  }

  lemma {:induction false} IdsUpToPrefix(a: Tree, b: Tree, n: nat)
    requires n <= |a.kids| && n <= |b.kids| && a.kids[..n] == b.kids[..n]
    ensures IdsUpTo(a, n) == IdsUpTo(b, n)
  {
    if n > 0 {
      assert a.kids[..n - 1] == a.kids[..n][..n - 1];
      assert b.kids[..n - 1] == b.kids[..n][..n - 1];
      IdsUpToPrefix(a, b, n - 1);
      assert a.kids[n - 1] == a.kids[..n][n - 1];
    }
  }

  /** Creating a freshly built tree uses exactly one body id per block. */
  lemma {:induction false} CreateCount(t: Tree, base: Frame, phys: Physics, next: int)
    requires NoneCreated(t)
    ensures CreateTree(t, base, phys, next).1 == next + LeafCount(t)
    decreases t, 1
  {
    if !t.leaf {
      CreateKidsCount(t, |t.kids|, WorldFrame(phys, base, t), phys, next);
    }
  }

  lemma {:induction false} CreateKidsCount(t: Tree, n: nat, base: Frame, phys: Physics, next: int)
    requires n <= |t.kids| && forall j :: 0 <= j < |t.kids| ==> NoneCreated(t.kids[j].node)
    ensures CreateKids(t, n, base, phys, next).1 == next + LeafCountUpTo(t, n)
    decreases t, 0, n
  {
    if n > 0 {
      var before := CreateKids(t, n - 1, base, phys, next);
      CreateKidsCount(t, n - 1, base, phys, next);
      CreateCount(t.kids[n - 1].node, base, phys, before.1);
    }
  }

  /**
   * Creating a freshly built tree gives each block exactly one body: the
   * blocks, in AllIds order, get the consecutive ids next, next + 1, ...,
   * and the ids used are exactly as many as the blocks.
   */
  lemma {:induction false} CreateFreshIds(t: Tree, base: Frame, phys: Physics, next: int)
    requires NoneCreated(t)
    ensures var r := CreateTree(t, base, phys, next);
      r.1 == next + LeafCount(t) && Ids(r.0) == Range(next, r.1)
    decreases t, 1
  {
    CreateCount(t, base, phys, next);
    if !t.leaf {
      var now := WorldFrame(phys, base, t);
      var done := CreateKids(t, |t.kids|, now, phys, next);
      CreateKidsFreshIds(t, |t.kids|, now, phys, next);
      var u := t.(created := true, kids := done.0);
      assert u.kids[..|t.kids|] == done.0;
      IdsUpToPrefix(u, t.(kids := done.0), |t.kids|);
    }
  }

  lemma {:induction false} CreateKidsFreshIds(t: Tree, n: nat, base: Frame, phys: Physics, next: int)
    requires n <= |t.kids| && forall j :: 0 <= j < |t.kids| ==> NoneCreated(t.kids[j].node)
    ensures var r := CreateKids(t, n, base, phys, next);
      IdsUpTo(t.(kids := r.0), n) == Range(next, r.1)
    decreases t, 0, n
  {
    if n > 0 {
      var before := CreateKids(t, n - 1, base, phys, next);
      var kid := t.kids[n - 1];
      var made := CreateTree(kid.node, base, phys, before.1);
      var r := CreateKids(t, n, base, phys, next);
      CreateKidsFreshIds(t, n - 1, base, phys, next);
      CreateFreshIds(kid.node, base, phys, before.1);
      var u := t.(kids := r.0);
      assert r.0[..n - 1] == before.0;
      IdsUpToPrefix(u, t.(kids := before.0), n - 1);
      assert r.1 == made.1 && u.kids[n - 1].node == made.0;
      assert IdsUpTo(u, n) == Range(next, before.1) + Range(before.1, made.1);
      RangeSplit(next, before.1, made.1);
    }
  }

  // ---------------------------------------------------------------------
  // Id
  // ---------------------------------------------------------------------

  /**
   * Id on a tree value (Components.py:33-37, 96-97): a block takes no name
   * and answers its body id once created, -1 before; a composite without a
   * name needs exactly one child and asks it, with a name it asks that
   * child; either way the child is asked without a name.
   */
  function IdOf(t: Tree, name: Option<Key>): (r: Result<int>)
    ensures r == Err(UnexpectedArgument) <==> t.leaf && name.Some?
    ensures r == Err(KeyNotFound) <==> !t.leaf && name.Some? && name.value !in KeysOf(t.kids)
    ensures !t.leaf && name.None? && |t.kids| != 1 ==> r == Err(AmbiguousDefault)
    decreases t
  {
    if t.leaf then
      if name.Some? then Err(UnexpectedArgument)
      else Ok(if t.created then t.bodyId else -1)
    else if name.None? then
      if |t.kids| != 1 then Err(AmbiguousDefault) else IdOf(t.kids[0].node, None)
    else match Find(KeysOf(t.kids), name.value) {
      case None => Err(KeyNotFound)
      case Some(j) => IdOf(t.kids[j].node, None)
    }
  }

  lemma {:induction false} KidIdsWithin(t: Tree, n: nat, j: nat)
    requires j < n <= |t.kids|
    ensures forall x :: x in Ids(t.kids[j].node) ==> x in IdsUpTo(t, n)
    decreases n
  {
    if j < n - 1 {
      KidIdsWithin(t, n - 1, j);
    }
  }

  /**
   * What Id answers is -1 (a block not created yet) or one of the ids
   * AllIds lists; once every node is created it is always one of them.
   */
  lemma {:induction false} IdIsListed(t: Tree, name: Option<Key>)
    requires IdOf(t, name).Ok?
    ensures IdOf(t, name).value == -1 || IdOf(t, name).value in Ids(t)
    ensures AllCreated(t) ==> IdOf(t, name).value in Ids(t)
    decreases t
  {
    if !t.leaf {
      var j := if name.None? then 0 else Find(KeysOf(t.kids), name.value).value;
      IdIsListed(t.kids[j].node, None);
      KidIdsWithin(t, |t.kids|, j);
    }
  }

  /**
   * `children[k].Id()`, as PileDomino.BottomId and TopId and LineDomino.StartId
   * and EndId ask it (Components.py:114-117, 140-143): a missing key is a
   * KeyError, a block child answers its own id, and what comes back is -1
   * or one of the ids AllIds lists.
   */
  function ChildId(t: Tree, k: Key): (r: Result<int>)
    ensures r == Err(KeyNotFound) <==> Child(t, k).None?
    ensures Child(t, k).Some? && Child(t, k).value.leaf ==>
      r == Ok(if Child(t, k).value.created then Child(t, k).value.bodyId else -1)
    ensures r.Ok? && !t.leaf ==> r.value == -1 || r.value in Ids(t)
  {
    match Find(KeysOf(t.kids), k) {
      case None => Err(KeyNotFound)
      case Some(j) =>
        var r := IdOf(t.kids[j].node, None);
        if r.Err? then r
        else
          IdIsListed(t.kids[j].node, None);
          KidIdsWithin(t, |t.kids|, j);
          r
    }
  }

  // ---------------------------------------------------------------------
  // Ports seen from the parent
  // ---------------------------------------------------------------------

  /**
   * A port of a component at `xyz` turned by `rpy`, expressed in the frame
   * the component sits in (Components.py:44-53): the point is rotated by
   * the yaw about the component's origin, through polar coordinates, and
   * moved to its position; the heading gains the yaw.
   */
  function Promoted(xyz: Vec3, rpy: Vec3, p: Pose, geo: Geo): (r: Pose)
    ensures r.angle == p.angle + rpy.z
    ensures geo.PolarExact() && rpy.z == 0.0 ==> r.at == Point(xyz.x + p.at.x, xyz.y + p.at.y)
  {
    var distance := geo.sqrt(p.at.x * p.at.x + p.at.y * p.at.y);
    var direction := geo.atan2(p.at.y, p.at.x);
    var yaw := rpy.z;
    PolarUnturned(geo, p.at.x, p.at.y, yaw);
    Pose(
      Point(xyz.x + distance * geo.cos(direction + yaw), xyz.y + distance * geo.sin(direction + yaw)),
      p.angle + yaw)
  }

  lemma PolarUnturned(geo: Geo, x: real, y: real, yaw: real)
    ensures geo.PolarExact() && yaw == 0.0 ==>
      geo.sqrt(x * x + y * y) * geo.cos(geo.atan2(y, x) + yaw) == x &&
      geo.sqrt(x * x + y * y) * geo.sin(geo.atan2(y, x) + yaw) == y
  {
    if geo.PolarExact() && yaw == 0.0 {
      assert geo.atan2(y, x) + yaw == geo.atan2(y, x);
    }
  }

  /** Promote on a tree value (Components.py:43-53): a missing port is a KeyError. */
  function PromoteOf(t: Tree, name: string, geo: Geo): (r: Result<Pose>)
    ensures r.Err? <==> name !in t.ports
    ensures r.Err? ==> r.error == KeyNotFound
    ensures r.Ok? ==> r.value.angle == t.ports[name].angle + t.rpy.z
    ensures r.Ok? && geo.PolarExact() && t.rpy.z == 0.0 ==>
      r.value.at == Point(t.xyz.x + t.ports[name].at.x, t.xyz.y + t.ports[name].at.y)
  {
    if name !in t.ports then Err(KeyNotFound) else Ok(Promoted(t.xyz, t.rpy, t.ports[name], geo))
  }

  /**
   * `parent(child, port)` on a tree value (Components.py:54-55): the port
   * of that child promoted into the parent's frame; a missing child or a
   * missing port is a KeyError.
   */
  function CallOf(t: Tree, child: Key, name: string, geo: Geo): (r: Result<Pose>)
    ensures r.Err? <==> Child(t, child).None? || name !in Child(t, child).value.ports
    ensures r.Err? ==> r.error == KeyNotFound
    ensures r.Ok? ==> r.value.angle == Child(t, child).value.ports[name].angle + Child(t, child).value.rpy.z
    ensures r.Ok? && geo.PolarExact() && Child(t, child).value.rpy.z == 0.0 ==>
      var c := Child(t, child).value;
      r.value.at == Point(c.xyz.x + c.ports[name].at.x, c.xyz.y + c.ports[name].at.y)
  {
    match Child(t, child) {
      case None => Err(KeyNotFound)
      case Some(c) => PromoteOf(c, name, geo)
    }
  }
}
