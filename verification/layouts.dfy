/**
 * The closed-form placement rules of the concrete components, as plans:
 * PileDomino, LineDomino and MultiBranch compute their blocks from their
 * arguments (Components.py:108-143, 275-286); TapButton, SideBranch,
 * UTurn, ConditionGate, OrGate and AndGate are fixed arrangements
 * (Components.py:244-300, 336-376). Every plan is turned into objects by
 * `Plans.Build`.
 */
module Layouts {
  import opened Geometry
  import opened ComponentTree
  import opened Components
  import opened Text
  import opened Plans

  /** Python's int() on a float: the integer part, rounding toward zero. */
  function Trunc(v: real): (n: int)
    ensures 0.0 <= v ==> n as real <= v < n as real + 1.0
    ensures v < 0.0 ==> n as real - 1.0 < v <= n as real
  {
    if 0.0 <= v then v.Floor else -((-v).Floor)
  }

  /** sum(contain): how many of the two ends carry a block. */
  function Ends(contain: (bool, bool)): nat
  {
    (if contain.0 then 1 else 0) + (if contain.1 then 1 else 0)
  }

  // ---------------------------------------------------------------------
  // PileDomino
  // ---------------------------------------------------------------------

  /** Height of the centre of block i of a pile: the blocks lie flat, SX thick (Components.py:112-113). */
  function PileZ(i: nat): real
  {
    SX * (i as real + 0.5)
  }

  /**
   * PileDomino(N, pose) (Components.py:108-113): N blocks keyed 0 .. N-1,
   * lying flat one on another; a negative N gives no block, as range(N).
   */
  function PilePlan(n: int, pose: Pose): (p: Plan)
    ensures OnFloorAt(p, pose)
    ensures |p.parts| == (if n < 0 then 0 else n) && p.ports == []
    ensures forall i :: 0 <= i < |p.parts| ==> p.parts[i].0 == Index(i) && p.parts[i].1.Block?
  {
    var count := if n < 0 then 0 else n;
    Plan(Floor(pose), Yaw(pose.angle),
         seq(count, i requires 0 <= i < count => (Index(i), Aligned(Vec3(0.0, 0.0, PileZ(i)), ZYX))),
         [])
  }

  /** The blocks of a pile stand on the floor and on each other, every one lying flat. */
  lemma PileStacks(n: int, pose: Pose)
    ensures var p := PilePlan(n, pose);
      && WellKeyed(p)
      && (|p.parts| > 0 ==> p.parts[0].1.xyz.z == SX / 2.0)
      && (forall i :: 0 < i < |p.parts| ==> p.parts[i].1.xyz.z - p.parts[i - 1].1.xyz.z == SX)
      && (forall i :: 0 <= i < |p.parts| ==> p.parts[i].1.rpy == Vec3(0.0, PI / 2.0, 0.0))
  {
  }

  // ---------------------------------------------------------------------
  // LineDomino
  // ---------------------------------------------------------------------

  /** Upright blocks are SZ tall, blocks on their side SY (Components.py:126). */
  function LineHeight(side: bool): real
  {
    if side then SY else SZ
  }

  /** A negative interval asks for the default, the height over INTERVAL_RATIO 1.5 (Components.py:121, 128-129). */
  function LineStep(interval: real, side: bool): real
  {
    if interval < 0.0 then LineHeight(side) / 1.5 else interval
  }

  /** Position of block i along the line, `spacing` apart, the first one at 0 when the start is contained. */
  function LineX(spacing: real, contain: (bool, bool), i: int): real
  {
    spacing * ((i + 1) as real - (if contain.0 then 1.0 else 0.0))
  }

  /** N = int(distance / interval + 0.5): the number of intervals, rounded (Components.py:131). */
  function Intervals(distance: real, step: real): int
    requires step != 0.0
  {
    Trunc(distance / step + 0.5)
  }

  /** Blocks keyed 0 .. count-1 at LineX along the x axis of the line. */
  function LineBlocks(spacing: real, contain: (bool, bool), count: nat, z: real, side: bool): (parts: seq<(Key, Part)>)
    ensures |parts| == count
    ensures forall i :: 0 <= i < count ==>
      parts[i] == (Index(i), Block(Vec3(LineX(spacing, contain, i), 0.0, z), (if side then XZY else XYZ).Turns()))
  {
    var orient := if side then XZY else XYZ;
    seq(count, i requires 0 <= i < count => (Index(i), Aligned(Vec3(LineX(spacing, contain, i), 0.0, z), orient)))
  }

  /**
   * LineDomino(start, end, contain, interval, base_z, side)
   * (Components.py:122-139): the component sits at `start` facing `end`;
   * the distance is cut into N = int(distance / interval + 0.5) equal
   * intervals, with a block between each two and one at each contained
   * end. Dividing by a zero interval or by N = 0 is a ZeroDivisionError; a
   * line left without blocks fails on x[0], an IndexError.
   */
  function LinePlan(geo: Geo, start: Point, end: Point, contain: (bool, bool), interval: real, baseZ: real, side: bool): (r: Result<Plan>)
    ensures LineStep(interval, side) == 0.0 ==> r == Err(ZeroDivision)
    ensures LineStep(interval, side) != 0.0 ==>
      var n := Intervals(Distance(geo, end, start), LineStep(interval, side));
      && (n == 0 ==> r == Err(ZeroDivision))
      && (n != 0 && n - 1 + Ends(contain) <= 0 ==> r == Err(IndexOutOfRange))
      && (r.Ok? <==> n != 0 && n - 1 + Ends(contain) > 0)
  {
    var step := LineStep(interval, side);
    var distance := Distance(geo, end, start);
    if step == 0.0 then Err(ZeroDivision)
    else
      var n := Intervals(distance, step);
      if n == 0 then Err(ZeroDivision)
      else
        var spacing := distance / n as real;
        var count := n - 1 + Ends(contain);
        if count <= 0 then Err(IndexOutOfRange)
        else
          Ok(Plan(Vec3(start.x, start.y, 0.0), Yaw(Angle(geo, start, end)),
                  LineBlocks(spacing, contain, count, baseZ + LineHeight(side) / 2.0, side),
                  [("in", Pose(Point(LineX(spacing, contain, 0) - SY, 0.0), 0.0)),
                   ("out", Pose(Point(LineX(spacing, contain, count - 1) + SY, 0.0), 0.0))]))
  }

  /**
   * A line that can be built has N >= 1 intervals and N - 1 + sum(contain)
   * blocks keyed 0, 1, ... in order, all upright at one height on the
   * line's axis; its ports lie SY before the first block and SY after the
   * last one.
   */
  lemma LineLayout(geo: Geo, start: Point, end: Point, contain: (bool, bool), interval: real, baseZ: real, side: bool)
    requires LinePlan(geo, start, end, contain, interval, baseZ, side).Ok?
    ensures var p := LinePlan(geo, start, end, contain, interval, baseZ, side).value;
      var n := Intervals(Distance(geo, end, start), LineStep(interval, side));
      var count := |p.parts|;
      && n >= 1
      && count == n - 1 + Ends(contain)
      && WellKeyed(p)
      && (forall i :: 0 <= i < count ==>
            && p.parts[i].0 == Index(i) && p.parts[i].1.Block?
            && p.parts[i].1.xyz.y == 0.0 && p.parts[i].1.xyz.z == baseZ + LineHeight(side) / 2.0)
      && p.ports == [("in", Pose(Point(p.parts[0].1.xyz.x - SY, 0.0), 0.0)),
                     ("out", Pose(Point(p.parts[count - 1].1.xyz.x + SY, 0.0), 0.0))]
  {
  }

  /**
   * The blocks of a line that can be built are distance / N apart; the
   * first is at the start exactly when the start is contained, and the last
   * at the end exactly when the end is contained.
   */
  lemma LineSpacing(geo: Geo, start: Point, end: Point, contain: (bool, bool), interval: real, baseZ: real, side: bool)
    requires LinePlan(geo, start, end, contain, interval, baseZ, side).Ok?
    ensures var p := LinePlan(geo, start, end, contain, interval, baseZ, side).value;
      var distance := Distance(geo, end, start);
      var n := Intervals(distance, LineStep(interval, side));
      var count := |p.parts|;
      && (forall i :: 0 < i < count ==> p.parts[i].1.xyz.x - p.parts[i - 1].1.xyz.x == distance / n as real)
      && (p.parts[0].1.xyz.x == 0.0 <==> contain.0)
      && (p.parts[count - 1].1.xyz.x == distance <==> contain.1)
  {
    var step := LineStep(interval, side);
    var distance := Distance(geo, end, start);
    var n := Intervals(distance, step);
    IntervalsNeedDistance(distance, step);
    LineBlocksSpacing(distance / n as real, contain, n - 1 + Ends(contain), baseZ + LineHeight(side) / 2.0, side);
    LineLast(distance, n, contain);
  }

  /** Rounding distance / step + 0.5 gives a non-zero count only for a non-zero distance. */
  lemma IntervalsNeedDistance(distance: real, step: real)
    requires step != 0.0 && Intervals(distance, step) != 0
    ensures distance != 0.0
  {
  }

  lemma LineBlocksSpacing(spacing: real, contain: (bool, bool), count: nat, z: real, side: bool)
    ensures var parts := LineBlocks(spacing, contain, count, z, side);
      && (forall i :: 0 < i < count ==> parts[i].1.xyz.x - parts[i - 1].1.xyz.x == spacing)
      && (count > 0 && spacing != 0.0 ==> (parts[0].1.xyz.x == 0.0 <==> contain.0))
  {
    var parts := LineBlocks(spacing, contain, count, z, side);
    forall i | 0 < i < count
      ensures parts[i].1.xyz.x - parts[i - 1].1.xyz.x == spacing
    {
      LineGap(spacing, contain, i);
    }
  }

  lemma LineGap(spacing: real, contain: (bool, bool), i: int)
    ensures LineX(spacing, contain, i) - LineX(spacing, contain, i - 1) == spacing
  {
  }

  /** The last block sits at N - 1 + contain[1] intervals, which is the whole distance exactly when the end is contained. */
  lemma LineLast(distance: real, n: int, contain: (bool, bool))
    requires n >= 1 && distance != 0.0
    ensures LineX(distance / n as real, contain, n - 2 + Ends(contain)) == distance <==> contain.1
  {
    var spacing := distance / n as real;
    var last := n - 2 + Ends(contain);
    assert LineX(spacing, contain, last) == spacing * ((n - 1) as real + (if contain.1 then 1.0 else 0.0));
    assert spacing * n as real == distance;
    assert spacing != 0.0;
  }

  // ---------------------------------------------------------------------
  // MultiBranch
  // ---------------------------------------------------------------------

  /** Row i stands SZ / 1.5 further along than row i - 1 (Components.py:280). */
  function BranchX(i: nat): real
  {
    SZ / 1.5 * i as real
  }

  /** Block j of row i, the rows centred on the axis, gap + SY apart (Components.py:282). */
  function BranchY(i: nat, j: nat, gap: real): real
  {
    (i as real / 2.0 - j as real) * (gap + SY)
  }

  /** Row i: i + 1 upright blocks keyed "i_j" (Components.py:281-285). */
  function BranchRow(i: nat, gap: real): (row: seq<(Key, Part)>)
    ensures |row| == i + 1
    ensures forall j :: 0 <= j <= i ==> row[j].0 == Name(PairKey(i, j))
    ensures forall j :: 0 <= j <= i ==> row[j].1 == Block(Vec3(BranchX(i), BranchY(i, j, gap), SZ / 2.0), ORIGIN)
  {
    seq(i + 1, j requires 0 <= j <= i => (Name(PairKey(i, j)), Aligned(Vec3(BranchX(i), BranchY(i, j, gap), SZ / 2.0), XYZ)))
  }

  /** The first `rows` rows, row after row. */
  function BranchRows(rows: nat, gap: real): seq<(Key, Part)>
  {
    if rows == 0 then [] else BranchRows(rows - 1, gap) + BranchRow(rows - 1, gap)
  }

  /** 0 + 1 + ... + n. */
  function Triangle(n: nat): nat
  {
    if n == 0 then 0 else Triangle(n - 1) + n
  }

  /** The ports "out0" ... facing along the axis SY beyond the blocks of the last row (Components.py:286-287). */
  function BranchOuts(rows: nat, gap: real): (ports: seq<(string, Pose)>)
    ensures |ports| == rows
    ensures forall j :: 0 <= j < rows ==> ports[j].0 == "out" + IntToString(j)
    ensures rows > 0 ==> forall j :: 0 <= j < rows ==>
      BranchRow(rows - 1, gap)[j].1.Block? &&
      ports[j].1.at == Point(BranchRow(rows - 1, gap)[j].1.xyz.x + SY, BranchRow(rows - 1, gap)[j].1.xyz.y)
    ensures forall j :: 0 <= j < rows ==> ports[j].1.angle == 0.0
  {
    if rows == 0 then []
    else
      var row := BranchRow(rows - 1, gap);
      assert forall j :: 0 <= j < rows ==> row[j].1.xyz == Vec3(BranchX(rows - 1), BranchY(rows - 1, j, gap), SZ / 2.0);
      seq(rows, j requires 0 <= j < rows => ("out" + IntToString(j), Pose(Point(BranchX(rows - 1) + SY, BranchY(rows - 1, j, gap)), 0.0)))
  }

  /**
   * MultiBranch(N, pose, gap) (Components.py:277-288): rows 0 .. N-1 of
   * 1, 2, ..., N blocks fanning out from the input port "in"; the last row
   * has an output port in front of every block.
   */
  function MultiBranchPlan(n: int, pose: Pose, gap: real): (p: Plan)
    ensures OnFloorAt(p, pose)
    ensures var rows := if n < 0 then 0 else n;
      |p.ports| == rows + 1 && p.ports[rows] == ("in", Pose(Point(-SY, 0.0), 0.0))
      && forall j :: 0 <= j < rows ==> p.ports[j].1.at.x == BranchX(rows - 1) + SY && p.ports[j].1.angle == 0.0
  {
    var rows := if n < 0 then 0 else n;
    Plan(Floor(pose), Yaw(pose.angle), BranchRows(rows, gap),
         BranchOuts(rows, gap) + [("in", Pose(Point(-SY, 0.0), 0.0))])
  }

  /**
   * Out port j of an N-row multi-branch is named "out" + str(j) and stands
   * SY in front of block j of the last row, the part stored under "(N-1)_j"
   * (Components.py:283-287).
   */
  lemma MultiBranchOuts(n: nat, pose: Pose, gap: real)
    ensures var p := MultiBranchPlan(n, pose, gap);
      |p.parts| >= n && var last := p.parts[|p.parts| - n..];
      forall j :: 0 <= j < n ==>
        last[j].0 == Name(PairKey(n - 1, j)) && last[j].1.Block?
        && p.ports[j].0 == "out" + IntToString(j)
        && p.ports[j].1.at == Point(last[j].1.xyz.x + SY, last[j].1.xyz.y) && p.ports[j].1.angle == 0.0
  {
    var p := MultiBranchPlan(n, pose, gap);
    MultiBranchSlices(n, pose, gap);
    var last := p.parts[|p.parts| - n..];
    forall j | 0 <= j < n
      ensures last[j].0 == Name(PairKey(n - 1, j)) && last[j].1.Block?
      ensures p.ports[j].0 == "out" + IntToString(j)
      ensures p.ports[j].1.at == Point(last[j].1.xyz.x + SY, last[j].1.xyz.y) && p.ports[j].1.angle == 0.0
    {
      assert p.ports[j] == p.ports[..n][j];
    }
  }

  /** A multi-branch stores its last row last, and its out ports first. */
  lemma MultiBranchSlices(n: nat, pose: Pose, gap: real)
    ensures var p := MultiBranchPlan(n, pose, gap);
      |p.parts| >= n && |p.ports| > n && p.ports[..n] == BranchOuts(n, gap)
      && (n > 0 ==> p.parts[|p.parts| - n..] == BranchRow(n - 1, gap))
  {
    BranchRowsEndWithLast(n, gap);
    var outs := BranchOuts(n, gap);
    assert (outs + [("in", Pose(Point(-SY, 0.0), 0.0))])[..n] == outs;
  }

  /** The last `rows` parts of the rows are the last row, in order. */
  lemma BranchRowsEndWithLast(rows: nat, gap: real)
    ensures |BranchRows(rows, gap)| >= rows
    ensures rows > 0 ==> BranchRows(rows, gap)[|BranchRows(rows, gap)| - rows..] == BranchRow(rows - 1, gap)
  {
    if rows > 0 {
      var before, row := BranchRows(rows - 1, gap), BranchRow(rows - 1, gap);
      assert BranchRows(rows, gap) == before + row;
      assert (before + row)[|before|..] == row;
    }
  }

  /** The keys of row i, "i_0" ... "i_i". */
  function BranchRowKeys(i: nat): (keys: seq<Key>)
    ensures |keys| == i + 1 && forall j :: 0 <= j <= i ==> keys[j] == Name(PairKey(i, j))
  {
    seq(i + 1, j requires 0 <= j <= i => Name(PairKey(i, j)))
  }

  function BranchKeys(rows: nat): seq<Key>
  {
    if rows == 0 then [] else BranchKeys(rows - 1) + BranchRowKeys(rows - 1)
  }

  /** No key of the first `rows` rows names a later row. */
  lemma {:induction false} BranchKeysBelow(rows: nat)
    ensures |BranchKeys(rows)| == Triangle(rows)
    ensures forall p, r: nat, j: nat :: 0 <= p < |BranchKeys(rows)| && rows <= r ==> BranchKeys(rows)[p] != Name(PairKey(r, j))
  {
    if rows > 0 {
      var before := BranchKeys(rows - 1);
      var row := BranchRowKeys(rows - 1);
      BranchKeysBelow(rows - 1);
      forall p, r: nat, j: nat | 0 <= p < |before| + |row| && rows <= r
        ensures (before + row)[p] != Name(PairKey(r, j))
      {
        if p >= |before| {
          assert (before + row)[p] == Name(PairKey(rows - 1, p - |before|));
          if (before + row)[p] == Name(PairKey(r, j)) {
            PairKeyInjective(rows - 1, p - |before|, r, j);
          }
        } else {
          assert (before + row)[p] == before[p];
        }
      }
    }
  }

  /** The keys of the first `rows` rows are all different. */
  lemma {:induction false} BranchKeysDistinct(rows: nat)
    ensures UniqueKeys(BranchKeys(rows))
  {
    if rows > 0 {
      var before := BranchKeys(rows - 1);
      var row := BranchRowKeys(rows - 1);
      var all := before + row;
      BranchKeysDistinct(rows - 1);
      BranchKeysBelow(rows - 1);
      RowKeysDistinct(rows - 1);
      forall a, b | 0 <= a < b < |all|
        ensures all[a] != all[b]
      {
        if b < |before| {
          assert all[a] == before[a] && all[b] == before[b];
        } else if a < |before| {
          assert all[a] == before[a] && all[b] == row[b - |before|];
        } else {
          assert all[a] == row[a - |before|] && all[b] == row[b - |before|];
        }
      }
      assert BranchKeys(rows) == all;
    }
  }

  /** The keys of one row differ from each other. */
  lemma RowKeysDistinct(i: nat)
    ensures UniqueKeys(BranchRowKeys(i))
  {
    var row := BranchRowKeys(i);
    forall a, b | 0 <= a < b < |row|
      ensures row[a] != row[b]
    {
      if row[a] == row[b] {
        PairKeyInjective(i, a, i, b);
      }
    }
  }

  /** The parts of the first `rows` rows carry the keys BranchKeys(rows), in order. */
  lemma {:induction false} BranchRowsKeyed(rows: nat, gap: real)
    ensures |BranchRows(rows, gap)| == |BranchKeys(rows)|
    ensures forall p :: 0 <= p < |BranchKeys(rows)| ==> BranchRows(rows, gap)[p].0 == BranchKeys(rows)[p]
  {
    if rows > 0 {
      BranchRowsKeyed(rows - 1, gap);
      var before: seq<(Key, Part)>, row: seq<(Key, Part)> := BranchRows(rows - 1, gap), BranchRow(rows - 1, gap);
      var keys := BranchKeys(rows - 1);
      forall p | 0 <= p < |before| + |row|
        ensures (before + row)[p].0 == (keys + BranchRowKeys(rows - 1))[p]
      {
        if p >= |before| {
          assert (before + row)[p] == row[p - |before|];
        }
      }
    }
  }

  /** Every part of the rows is a SingleDomino. */
  lemma {:induction false} BranchRowsBlocks(rows: nat, gap: real)
    ensures forall p :: 0 <= p < |BranchRows(rows, gap)| ==> BranchRows(rows, gap)[p].1.Block?
  {
    if rows > 0 {
      BranchRowsBlocks(rows - 1, gap);
      var before: seq<(Key, Part)>, row: seq<(Key, Part)> := BranchRows(rows - 1, gap), BranchRow(rows - 1, gap);
      forall p | 0 <= p < |before| + |row|
        ensures (before + row)[p].1.Block?
      {
        if p >= |before| {
          assert (before + row)[p] == row[p - |before|];
        } else {
          assert (before + row)[p] == before[p];
        }
      }
    }
  }

  /** A multi-branch of N rows holds N (N + 1) / 2 blocks under distinct keys. */
  lemma MultiBranchCount(n: nat, pose: Pose, gap: real)
    ensures var p := MultiBranchPlan(n, pose, gap);
      WellKeyed(p) && |p.parts| == n * (n + 1) / 2 && PlanLeaves(p) == n * (n + 1) / 2
  {
    BranchPartsCount(MultiBranchPlan(n, pose, gap), n, gap);
  }

  /** Any plan whose parts are the first n rows holds n (n + 1) / 2 blocks under distinct keys. */
  lemma BranchPartsCount(p: Plan, n: nat, gap: real)
    requires p.parts == BranchRows(n, gap)
    ensures WellKeyed(p) && |p.parts| == n * (n + 1) / 2 && PlanLeaves(p) == n * (n + 1) / 2
  {
    BranchKeysBelow(n);
    BranchKeysDistinct(n);
    BranchRowsKeyed(n, gap);
    BranchRowsBlocks(n, gap);
    TriangleClosedForm(n);
    BlocksAfter(p, 0, |p.parts|);
  }

  lemma {:induction false} TriangleClosedForm(n: nat)
    ensures Triangle(n) == n * (n + 1) / 2
  {
    if n > 0 {
      TriangleClosedForm(n - 1);
      assert n * (n + 1) == (n - 1) * n + 2 * n;
    }
  }

  /** SingleDominoes from part k on add one block each to the count. */
  lemma {:induction false} BlocksAfter(p: Plan, k: nat, n: nat)
    requires k <= n <= |p.parts|
    requires forall i :: k <= i < n ==> p.parts[i].1.Block?
    ensures PartsLeaves(p, n) == PartsLeaves(p, k) + (n - k)
  {
    if k < n {
      BlocksAfter(p, k, n - 1);
    }
  }

  /**
   * Each row is symmetric about the axis of the branch: block j and block
   * i - j of row i have the same x and opposite y, and neighbours in a row
   * are gap + SY apart.
   */
  lemma BranchRowSymmetric(i: nat, gap: real)
    ensures var row := BranchRow(i, gap);
      && (forall j :: 0 <= j <= i ==>
            row[j].1.xyz.x == row[i - j].1.xyz.x && row[j].1.xyz.y == -row[i - j].1.xyz.y)
      && (forall j :: 0 < j <= i ==> row[j - 1].1.xyz.y - row[j].1.xyz.y == gap + SY)
  {
    forall j | 0 <= j <= i
      ensures BranchY(i, j, gap) == -BranchY(i, i - j, gap)
    {
      Mirror(i as real / 2.0 - j as real, gap + SY);
    }
    forall j | 0 < j <= i
      ensures BranchY(i, j - 1, gap) - BranchY(i, j, gap) == gap + SY
    {
      NextOver(i as real / 2.0 - j as real, gap + SY);
    }
  }

  // The two products below are nonlinear for the solver; proved apart, they
  // keep BranchRowSymmetric small.

  lemma Mirror(a: real, g: real)
    ensures (-a) * g == -(a * g)
  {
  }

  lemma NextOver(a: real, g: real)
    ensures (a + 1.0) * g - a * g == g
  {
  }
}
