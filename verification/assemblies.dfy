/**
 * The fixed assemblies (Components.py:244-300, 336-376): each is a
 * component placed at a floor pose ((x, y), angle) holding a fixed set of
 * blocks, and for ConditionGate and AndGate sub-components, with fixed
 * ports. Positions are in the assembly's own frame.
 */
module Assemblies {
  import opened Geometry
  import opened ComponentTree
  import opened Components
  import opened Plans
  import opened Layouts

  /** Share of the trigger's thickness a TapButton's cover supports (Components.py:247). */
  const TAP_CONTACT_RATIO: real := 0.9

  /** Share of the trigger's thickness a SideBranch's base supports (Components.py:261). */
  const SIDE_CONTACT_RATIO: real := 0.4

  /** An in-port and an out-port at one point facing opposite ways: a chain can run through in either direction. */
  predicate Reversible(ports: map<string, Pose>, a: string, b: string)
  {
    && a in ports && b in ports
    && ports[a].at == ports[b].at
    && (ports[a].angle - ports[b].angle == PI || ports[b].angle - ports[a].angle == PI)
  }

  /** A pair of listed ports at one point, facing opposite ways, stays so once the ports are set. */
  lemma ReversibleAt(ports: seq<(string, Pose)>, i: nat, j: nat)
    requires DistinctNames(ports) && i < |ports| && j < |ports|
    requires ports[i].1.at == ports[j].1.at
    requires ports[i].1.angle - ports[j].1.angle == PI || ports[j].1.angle - ports[i].1.angle == PI
    ensures Reversible(PortsOf(ports), ports[i].0, ports[j].0)
  {
    PortsListed(ports);
  }

  /** TapButton (Components.py:244-256). */
  function TapButtonPlan(pose: Pose): (p: Plan)
    ensures OnFloorAt(p, pose) && |p.parts| == 5 && |p.ports| == 2
  {
    Plan(Floor(pose), Yaw(pose.angle),
         [(Name("base"), Aligned(Vec3(0.0, 0.0, SX / 2.0), ZYX)),
          (Name("lever"), Aligned(Vec3(-SZ / 2.0, 0.0, SX * 1.5), ZYX)),
          (Name("support"), Aligned(Vec3(SY / 2.0, 0.0, SX * 1.5), ZXY)),
          (Name("cover"), Aligned(Vec3(0.0, 0.0, SX * 2.5), ZYX)),
          (Name("trigger"), Aligned(Vec3(SY + SX * (0.5 - TAP_CONTACT_RATIO), 0.0, SZ / 2.0 + SX * 3.0), XYZ))],
         [("in", Pose(Point(-SY - SZ, 0.0), 0.0)),
          ("out", Pose(Point(SY * 2.0, 0.0), 0.0))])
  }

  /**
   * A TapButton has five blocks under distinct keys; lever and support lie
   * on the base, the cover on them, and the trigger stands on the cover.
   */
  lemma TapButtonShape(pose: Pose)
    ensures var p := TapButtonPlan(pose);
      && WellKeyed(p) && DistinctNames(p.ports) && PlanLeaves(p) == 5
      && p.parts[1].1.xyz.z == p.parts[0].1.xyz.z + SX && p.parts[2].1.xyz.z == p.parts[0].1.xyz.z + SX
      && p.parts[3].1.xyz.z == p.parts[1].1.xyz.z + SX
      && p.parts[4].1.xyz.z - SZ / 2.0 == p.parts[3].1.xyz.z + SX / 2.0
  {
    BlocksAfter(TapButtonPlan(pose), 0, 5);
  }

  /** SideBranch (Components.py:258-273). */
  function SideBranchPlan(pose: Pose): (p: Plan)
    ensures OnFloorAt(p, pose) && |p.parts| == 4 && |p.ports| == 5
  {
    Plan(Floor(pose), Yaw(pose.angle),
         [(Name("base"), Aligned(Vec3(0.0, 0.0, SX / 2.0), ZXY)),
          (Name("trigger"), Aligned(Vec3(0.0, SZ / 2.0 + SX * (0.5 - SIDE_CONTACT_RATIO), SX + SZ / 2.0), YXZ)),
          (Name("connection"), Aligned(Vec3(0.0, 0.0, SX + SZ / 2.0), XYZ)),
          (Name("cover"), Aligned(Vec3(0.0, SX, SX * 1.5 + SZ), ZXY))],
         [("inL", Pose(Point(-SY, 0.0), 0.0)),
          ("outL", Pose(Point(-SY, 0.0), PI)),
          ("inR", Pose(Point(SY, 0.0), PI)),
          ("outR", Pose(Point(SY, 0.0), 0.0)),
          ("branch", Pose(Point(0.0, SZ / 2.0 + SY), PI / 2.0))])
  }

  /** A SideBranch has four blocks under distinct keys and can be passed left or right. */
  lemma SideBranchShape(pose: Pose)
    ensures var p := SideBranchPlan(pose);
      && WellKeyed(p) && DistinctNames(p.ports) && PlanLeaves(p) == 4
      && Reversible(PortsOf(p.ports), "inL", "outL") && Reversible(PortsOf(p.ports), "inR", "outR")
  {
    var p := SideBranchPlan(pose);
    BlocksAfter(p, 0, 4);
    ReversibleAt(p.ports, 0, 1);
    ReversibleAt(p.ports, 2, 3);
  }

  /** UTurn (Components.py:288-300). */
  function UTurnPlan(pose: Pose): (p: Plan)
    ensures OnFloorAt(p, pose) && |p.parts| == 6 && |p.ports| == 4
  {
    Plan(Floor(pose), Yaw(pose.angle),
         [(Name("base1"), Aligned(Vec3(SX * 1.5, 0.0, SX / 2.0), ZYX)),
          (Name("base2"), Aligned(Vec3(SX * 1.5, 0.0, SY / 2.0 + SX), YZX)),
          (Name("lever"), Aligned(Vec3(SX, 0.0, SY * 1.5 + SX), XZY)),
          (Name("support"), Aligned(Vec3(SX * 1.5 + SY / 2.0, 0.0, SY + SZ / 2.0 + SX), YXZ)),
          (Name("triggerL"), Aligned(Vec3(0.0, SX + SY / 1.5, SZ / 2.0), XYZ)),
          (Name("triggerR"), Aligned(Vec3(0.0, -SX - SY / 1.5, SZ / 2.0), XYZ))],
         [("inD", Pose(Point(0.0, -SX - SY), 0.0)),
          ("outD", Pose(Point(0.0, -SX - SY), PI)),
          ("inU", Pose(Point(0.0, SX + SY), 0.0)),
          ("outU", Pose(Point(0.0, SX + SY), PI))])
  }

  /** A UTurn has six blocks under distinct keys, and its two triggers mirror each other. */
  lemma UTurnShape(pose: Pose)
    ensures var p := UTurnPlan(pose);
      && WellKeyed(p) && PlanLeaves(p) == 6
      && p.parts[4].1.xyz.y == -p.parts[5].1.xyz.y
  {
    BlocksAfter(UTurnPlan(pose), 0, 6);
  }

  /** Either side of a UTurn can be entered and left. */
  lemma UTurnPorts(pose: Pose)
    ensures var p := UTurnPlan(pose);
      && DistinctNames(p.ports)
      && Reversible(PortsOf(p.ports), "inD", "outD") && Reversible(PortsOf(p.ports), "inU", "outU")
  {
    var p := UTurnPlan(pose);
    ReversibleAt(p.ports, 0, 1);
    ReversibleAt(p.ports, 2, 3);
  }

  /** ConditionGate (Components.py:336-354): a pile of five holds the connection. */
  function ConditionGatePlan(pose: Pose): (p: Plan)
    ensures OnFloorAt(p, pose) && |p.parts| == 9 && |p.ports| == 5
  {
    Plan(Floor(pose), Yaw(pose.angle),
         [(Name("base"), Group(PilePlan(5, Pose(Point(0.0, -SY / 2.0 - SX + SZ / 2.0), PI / 2.0)))),
          (Name("connection"), Aligned(Vec3(0.0, SY + SX / 2.0, SX * 5.5), ZYX)),
          (Name("condition"), Aligned(Vec3(0.0, SY * 1.5 + SX, SZ / 2.0), YXZ)),
          (Name("triggerL"), Aligned(Vec3(-SZ / 2.0 - SX, 0.0, SZ / 2.0), XYZ)),
          (Name("triggerR"), Aligned(Vec3(SZ / 2.0 + SX, 0.0, SZ / 2.0), XYZ)),
          (Name("barrierLD"), Aligned(Vec3(-SY, -SY / 2.0 - SX / 2.0, SZ / 2.0), YXZ)),
          (Name("barrierRD"), Aligned(Vec3(SY, -SY / 2.0 - SX / 2.0, SZ / 2.0), YXZ)),
          (Name("barrierLU"), Aligned(Vec3(-SY / 2.0 - SZ / 2.0, SZ - SY / 2.0 - SX * 1.5, SY / 2.0), YZX)),
          (Name("barrierRU"), Aligned(Vec3(SY / 2.0 + SZ / 2.0, SZ - SY / 2.0 - SX * 1.5, SY / 2.0), YZX))],
         [("inL", Pose(Point(-SZ - SX, 0.0), 0.0)),
          ("outL", Pose(Point(-SZ - SX, 0.0), PI)),
          ("inR", Pose(Point(SZ + SX, 0.0), PI)),
          ("outR", Pose(Point(SZ + SX, 0.0), 0.0)),
          ("inU", Pose(Point(0.0, SY * 2.0 + SX), -PI / 2.0))])
  }

  /** Length and last two characters: enough to tell the ConditionGate's keys apart. */
  function Tag(s: string): (int, char, char)
  {
    if |s| < 2 then (|s|, ' ', ' ') else (|s|, s[|s| - 1], s[|s| - 2])
  }

  /** A ConditionGate's children, and the blocks of its pile, are under distinct keys. */
  lemma ConditionGateKeys(pose: Pose)
    ensures WellKeyed(ConditionGatePlan(pose))
  {
    var p := ConditionGatePlan(pose);
    PileStacks(5, Pose(Point(0.0, -SY / 2.0 - SX + SZ / 2.0), PI / 2.0));
    forall i, j | 0 <= i < j < |p.parts|
      ensures p.parts[i].0 != p.parts[j].0
    {
      assert Tag(p.parts[i].0.name) != Tag(p.parts[j].0.name);
    }
  }

  /**
   * A ConditionGate lays out thirteen blocks: the pile of five and eight
   * single ones; the connection lies flat right on top of the pile.
   */
  lemma ConditionGateShape(pose: Pose)
    ensures var p := ConditionGatePlan(pose);
      && PlanLeaves(p) == 13
      && p.parts[1].1.xyz.z - SX / 2.0 == p.parts[0].1.plan.parts[4].1.xyz.z + SX / 2.0
  {
    var p := ConditionGatePlan(pose);
    var pile := p.parts[0].1.plan;
    BlocksAfter(pile, 0, 5);
    assert PartLeaves(p.parts[0].1) == PartsLeaves(pile, 5) == 5;
    assert PartsLeaves(p, 1) == 5;
    BlocksAfter(p, 1, 9);
  }

  /** The left and the right way through a ConditionGate can be taken in either direction. */
  lemma ConditionGatePorts(pose: Pose)
    ensures var p := ConditionGatePlan(pose);
      && DistinctNames(p.ports)
      && Reversible(PortsOf(p.ports), "inL", "outL") && Reversible(PortsOf(p.ports), "inR", "outR")
  {
    var p := ConditionGatePlan(pose);
    ReversibleAt(p.ports, 0, 1);
    ReversibleAt(p.ports, 2, 3);
  }

  /** OrGate (Components.py:356-365). */
  function OrGatePlan(pose: Pose): (p: Plan)
    ensures OnFloorAt(p, pose) && |p.parts| == 3 && |p.ports| == 3
  {
    Plan(Floor(pose), Yaw(pose.angle),
         [(Name("output"), Aligned(Vec3(SX, 0.0, SZ / 2.0), XYZ)),
          (Name("inputD"), Aligned(Vec3(-SX / 2.0, -(SX + SY) / 2.0, SZ / 2.0), XYZ)),
          (Name("inputU"), Aligned(Vec3(-SX / 2.0, (SX + SY) / 2.0, SZ / 2.0), XYZ))],
         [("inD", Pose(Point(-SY, -(SX + SY) / 2.0), 0.0)),
          ("inU", Pose(Point(-SY, (SX + SY) / 2.0), 0.0)),
          ("out", Pose(Point(SX + SY, 0.0), 0.0))])
  }

  /** An OrGate has three blocks; its two inputs mirror each other and each input port lies SY before its block. */
  lemma OrGateShape(pose: Pose)
    ensures var p := OrGatePlan(pose);
      && WellKeyed(p) && DistinctNames(p.ports) && PlanLeaves(p) == 3
      && p.parts[1].1.xyz.y == -p.parts[2].1.xyz.y
      && p.ports[0].1.at.y == p.parts[1].1.xyz.y && p.ports[1].1.at.y == p.parts[2].1.xyz.y
  {
    BlocksAfter(OrGatePlan(pose), 0, 3);
  }

  /**
   * AndGate (Components.py:367-376): a short barrier line across the
   * input, a pile of three and a raised line; it fails as the lines do.
   */
  function AndGatePlan(geo: Geo, pose: Pose): (r: Result<Plan>)
    ensures r.Err? ==> r.error == ZeroDivision || r.error == IndexOutOfRange
    ensures r.Ok? ==> OnFloorAt(r.value, pose) && |r.value.parts| == 3 && |r.value.ports| == 3
  {
    var barrier := LinePlan(geo, Point(0.0, -SX), Point(0.0, SX), (true, true), SX, 0.0, false);
    var base := PilePlan(3, Pose(Point((SX + SY + SZ) / 2.0, 0.0), 0.0));
    var highline := LinePlan(geo, Point(SY, 0.0), Point(SY + SX * 4.0, 0.0), (true, true), SX * 2.0, SX * 3.0, false);
    if barrier.Err? then Err(barrier.error)
    else if highline.Err? then Err(highline.error)
    else
      Ok(Plan(Floor(pose), Yaw(pose.angle),
              [(Name("barrier"), Group(barrier.value)),
               (Name("base"), Group(base)),
               (Name("highline"), Group(highline.value))],
              [("inR", Pose(Point(SY * 2.0 + SX * 4.0, 0.0), PI)),
               ("inU", Pose(Point(0.0, SY), -PI / 2.0)),
               ("out", Pose(Point(-SY, 0.0), PI))]))
  }

  /** With an exact square root, the root of a square of a non-negative literal is that literal. */
  lemma SqrtOf(geo: Geo, r: real)
    requires geo.Lawful() && 0.0 <= r
    ensures geo.sqrt(r * r) == r
  {
    var s := geo.sqrt(r * r);
    assert 0.0 <= s && s * s == r * r;
    assert (s - r) * (s + r) == s * s - r * r;
    FactorZero(s - r, s + r);
  }

  /**
   * With an exact square root the AndGate can be built, and its barrier
   * and its raised line come out with three blocks each, so block 1 is the
   * middle one of each; nine blocks in all.
   */
  lemma AndGateShape(geo: Geo, pose: Pose)
    requires geo.Lawful()
    ensures AndGatePlan(geo, pose).Ok?
    ensures var p := AndGatePlan(geo, pose).value;
      && WellKeyed(p) && DistinctNames(p.ports) && PlanLeaves(p) == 9
      && |p.parts[0].1.plan.parts| == 3 && |p.parts[2].1.plan.parts| == 3
  {
    SqrtOf(geo, SX * 2.0);
    SqrtOf(geo, SX * 4.0);
    assert Distance(geo, Point(0.0, SX), Point(0.0, -SX)) == SX * 2.0 by {
      assert (0.0 - 0.0) * (0.0 - 0.0) + (SX - -SX) * (SX - -SX) == (SX * 2.0) * (SX * 2.0);
    }
    assert Distance(geo, Point(SY + SX * 4.0, 0.0), Point(SY, 0.0)) == SX * 4.0 by {
      assert (SY + SX * 4.0 - SY) * (SY + SX * 4.0 - SY) + (0.0 - 0.0) * (0.0 - 0.0) == (SX * 4.0) * (SX * 4.0);
    }
    assert Intervals(SX * 2.0, SX) == 2;
    assert Intervals(SX * 4.0, SX * 2.0) == 2;
    var barrier := LinePlan(geo, Point(0.0, -SX), Point(0.0, SX), (true, true), SX, 0.0, false);
    var highline := LinePlan(geo, Point(SY, 0.0), Point(SY + SX * 4.0, 0.0), (true, true), SX * 2.0, SX * 3.0, false);
    LineLayout(geo, Point(0.0, -SX), Point(0.0, SX), (true, true), SX, 0.0, false);
    LineLayout(geo, Point(SY, 0.0), Point(SY + SX * 4.0, 0.0), (true, true), SX * 2.0, SX * 3.0, false);
    var base := PilePlan(3, Pose(Point((SX + SY + SZ) / 2.0, 0.0), 0.0));
    PileStacks(3, Pose(Point((SX + SY + SZ) / 2.0, 0.0), 0.0));
    BlocksAfter(barrier.value, 0, 3);
    BlocksAfter(base, 0, 3);
    BlocksAfter(highline.value, 0, 3);
    var p := AndGatePlan(geo, pose).value;
    assert PartLeaves(p.parts[0].1) == PartsLeaves(barrier.value, 3) == 3;
    assert PartLeaves(p.parts[1].1) == PartsLeaves(base, 3) == 3;
    assert PartLeaves(p.parts[2].1) == PartsLeaves(highline.value, 3) == 3;
    assert PartsLeaves(p, 3) == PartsLeaves(p, 2) + 3 == PartsLeaves(p, 1) + 6 == 9;
  }
}
