# Domino layouts, modelled in Dafny

The repository lays out dominoes for a physics simulation.

- A layout is a tree of `Component`s. A `SingleDomino` leaf becomes one rigid body when the tree is created. A composite holds named children in insertion order and named planar ports: `((x, y), angle)` descriptors in its own frame.
- Concrete components fill themselves in their constructors:
  - a pile of flat blocks;
  - a straight line of evenly spaced blocks;
  - a triangular multi-branch;
  - fixed assemblies (TapButton, SideBranch, UTurn, ConditionGate, OrGate, AndGate);
  - a curve of blocks between two poses (CurveDomino).
- CurveDomino builds its curve in three steps:
  1. a bracketed five-point search picks the Bezier control radius whose sampled curve has the least peak curvature;
  2. De Casteljau's construction samples that curve at 101 parameters;
  3. the constructor walks the samples and places a block every `total / (N - 1)` of arc length.
- During simulation, a recorded buffer of world snapshots is kept. Snapshots are sampled at an interval, evicted after a time span, and found by binary search on the time stamp. The auto-terminate plugin stops the engine once every body has been at rest for a window.

The project models these pieces, one Dafny module per concern:

| file | module | what it holds |
|---|---|---|
| geometry.dfy | `Geometry` | points, poses, `Interpolate`, `Distance`, `Curvature`; sqrt, atan2, cos and sin as fields of a `Geo` value |
| tree.dfy | `ComponentTree` | the `Tree` value of a component, `Create` on it, `AllIds`, `Id`, `Promote`, `__call__` |
| components.dfy | `Components` | the `Component` class: the objects, with `Create`, `__getitem__`, `__setitem__`, `Id`, `AllIds`, `Promote` and `__call__` proved against the tree functions |
| plans.dfy | `Plans` | a constructor's sequence of stores as a `Plan` value, and `Build`, which runs it on the objects |
| layouts.dfy | `Layouts` | PileDomino, LineDomino and MultiBranch |
| assemblies.dfy | `Assemblies` | the fixed assemblies |
| text.dfy | `Text` | `str()` of an integer, and the `i_j` keys |
| bezier.dfy | `Bezier` | `GetBizierCurve` |
| search.dfy | `CurveSearch` | `SearchMinCurvature` |
| resample.dfy | `Resample` | the arc-length walk of the CurveDomino constructor |
| curves.dfy | `Curves` | the whole CurveDomino constructor |
| connect.dfy | `Connections` | `Component.Connect` |
| record.dfy | `Records` | `RecordedState` |
| plugins.dfy | `AutoTermination` | `AutoTerminatePlugin.OnUpdateRecord` |

State that the source changes in place is modelled as classes:

- a `Component`'s children, ports, `created` flag and body id;
- the snapshot deque of a `Record`;
- the engine's `terminate` flag.

Each class method is proved against a function on values. The properties are lemmas about those functions.

A few modelling choices:

- **The physics library.** Pose composition and Euler-to-quaternion conversion are fields of a `Physics` value. The library's body ids are a counter passed in and out of `Create`.
- **Transcendentals.** sqrt, atan2, cos and sin are fields of a `Geo` value. Lemmas that need exact square roots say so with `Geo.Lawful()`.
- **Connect.** `Connections.Connect` takes the constructor of the new child as a parameter (`Maker`). `Connections.CurveDomino(geo)` is the constructor the source passes. The generic lemmas hold for any constructor; `CurveTooShort` and `CurveJoinsPorts` state what the curve constructor adds.
- **`__call__`** is a method, `Component.Call`. It is proved against `CallOf` on the tree.
- **The record.** The engine (Engine.py:11-44) has no record and never calls `OnUpdateRecord`. So the plugin takes the record as an argument, and the engine as a class with only its `terminate` flag (Engine.py:12).
- **Snapshot differences.** `WorldState.Difference` is a function parameter (`Difference`). Its `acos` and the physics queries behind it are outside the model.

## Model

| member | source | states |
|---|---|---|
| Geometry.Interpolate | Components.py:205-206 | t = 1 gives the first point and t = 0 the second; the result lies t of the way from the second point to the first, coordinate by coordinate |
| Geometry.ReflectThrough | Components.py:151 | interpolating with t = -1 reflects the second-last point through the last one |
| Geometry.Distance | Components.py:216-217 | with an exact sqrt the distance is non-negative and its square is the sum of the squared coordinate differences |
| Geometry.Angle | Components.py:214-215 | with exact polar coordinates, the distance times the cosine and sine of the heading gives back the segment from the first point to the second |
| Geometry.Curvature | Components.py:207-213 | with an exact sqrt, a triple with two equal corners scores the degenerate 1.0E100 instead of dividing by zero, and every score is non-negative |
| Geometry.DistanceToSelf | Components.py:216-217 | with an exact sqrt a point is at distance 0 from itself |
| Geometry.DistinctCorners | Components.py:207-210 | with an exact sqrt, a triple that passes the zero-side guard has three distinct corners |
| Geometry.DistanceZero | Components.py:216-217 | with an exact sqrt the distance is 0 exactly when the points coincide |
| Text.NatToString | Components.py:58 | `%s` of a natural is a non-empty string of digits, one digit exactly when n < 10 |
| Text.IntToString | Components.py:58 | `%s` of an integer is non-empty and starts with a digit exactly when the integer is non-negative |
| Text.NatToStringInjective | Components.py:58 | different naturals print differently |
| Text.PairKey | Components.py:285 | the key `str(i) + '_' + str(j)` has its separator right after the row number |
| Text.PairKeyInjective | Components.py:285 | a key `i_j` determines both i and j |
| ComponentTree.KeysOf | Components.py:15 | the keys of the children dict, in insertion order |
| ComponentTree.Find | Components.py:26-32 | a dict lookup finds a key exactly when it is present, at its first position |
| ComponentTree.FindUnique | Components.py:31-32 | in a dict the position found for a key is its only position |
| ComponentTree.PutKidSpec | Components.py:31-32 | `children[k] = node` keeps the keys unique and in order, appends k only when it is new, maps k to node and leaves every other key's child as it was |
| ComponentTree.CreateTree | Components.py:18-25 | after Create the node is created and the id counter has not gone back; a created node is returned unchanged (also lines 77-95) |
| ComponentTree.CreateKids | Components.py:23-24 | creating the first n children keeps their keys in order and never moves the id counter back |
| ComponentTree.CreateKidsByStarts | Components.py:23-24 | creating the children one after the other, each from the id the previous one left, is the loop of Create |
| ComponentTree.CreateMarksAll | Components.py:18-25 | on a tree whose created nodes all have created descendants, the first Create marks every node created (also lines 77-95) |
| ComponentTree.CreateKidsMarkAll | Components.py:23-24 | the loop over the children marks every child subtree created |
| ComponentTree.CreateKeepsLayout | Components.py:18-25 | Create changes only created flags, body ids and placements: keys, children order, poses and ports are kept (also lines 77-95) |
| ComponentTree.CreateKidsKeepLayout | Components.py:23-24 | the same, child by child |
| ComponentTree.CreateIdempotent | Components.py:19-20 | a second Create returns at once, whatever frame, physics and id it is given, and changes no flag or body id (also lines 78-79) |
| ComponentTree.IdsCount | Components.py:38-42 | AllIds lists one id per SingleDomino in the subtree (also lines 98-99) |
| ComponentTree.IdsUpToCount | Components.py:38-42 | the children's ids, concatenated in dict order, number the leaves of those children |
| ComponentTree.IdsUpToPrefix | Components.py:38-42 | AllIds over a prefix of the children depends only on that prefix |
| ComponentTree.CreateFreshIds | Components.py:18-25 | creating a fresh tree gives its blocks the consecutive ids next, next + 1, ..., in AllIds order, one body per block (also lines 82-95) |
| ComponentTree.CreateCount | Components.py:18-25 | creating a fresh tree uses exactly as many body ids as it has blocks |
| ComponentTree.CreateKidsCount | Components.py:23-24 | the same for the loop over the children |
| ComponentTree.CreateKidsFreshIds | Components.py:23-24 | the same for the loop over the children |
| ComponentTree.KidIdsWithin | Components.py:38-42 | every id of a child is listed by its parent's AllIds |
| ComponentTree.IdIsListed | Components.py:33-37 | Id answers -1 for a block not yet created, or an id that AllIds lists; once everything is created it is always listed (also lines 96-97) |
| ComponentTree.IdOf | Components.py:33-37 | a name given to a block is a TypeError and nothing else is; a name a composite lacks is a KeyError and nothing else is; no name on a composite with zero or several children fails the assertion (also lines 96-97) |
| ComponentTree.ChildId | Components.py:114-117 | `children[k].Id()`, as BottomId and TopId ask it (and StartId and EndId at lines 140-143): KeyError exactly when k is missing; a block child answers its own id, -1 before Create; what comes back is -1 or an id AllIds lists |
| ComponentTree.Promoted | Components.py:43-53 | the promoted angle is the port's angle plus the component's yaw; an unturned component only shifts the port by its position |
| ComponentTree.PolarUnturned | Components.py:45-51 | with exact polar coordinates and no yaw, the rotation at Components.py:45-51 leaves the port's offset as it was |
| ComponentTree.PromoteOf | Components.py:43-53 | KeyError exactly when the port is missing; otherwise the promoted angle is the port's angle plus the component's yaw, and with exact polar coordinates and no yaw the point is the port shifted by the component's position |
| ComponentTree.CallOf | Components.py:54-55 | `parent(child, port)` is a KeyError exactly when the child or its port is missing; otherwise its angle is the port's angle plus the child's yaw, and an unturned child with exact polar coordinates only shifts the port by the child's position |
| Components.Alias | Components.py:63-69 | an alias is accepted exactly when it is one of the six names; each angle it gives is 0 or pi/2 (also lines 72-73) |
| Components.AliasesDistinct | Components.py:63-69 | the six aliases give six different orientations |
| Components.OrientationSpelled | Components.py:63-69 | each orientation value is the one its alias names |
| Components.Component.KeysAgree | Components.py:15 | the keys of the object's model are the object's own keys |
| Components.Component.Composite | Components.py:12-17 | a new composite has no children, no ports, and is not created |
| Components.Component.Leaf | Components.py:70-76 | a new SingleDomino at its pose has body id -1 and is not created |
| Components.Component.Create | Components.py:18-25 | Create on the objects is CreateTree on the model; the footprint is unchanged (also lines 77-95) |
| Components.Component.Place | Components.py:82-95 | a block takes its body id and world frame and is marked created |
| Components.Component.MarkCreated | Components.py:25 | only the created flag changes |
| Components.Component.CreateChildren | Components.py:23-24 | the loop of Create is CreateKids on the model; keys, nodes, ports and own fields are unchanged |
| Components.Component.CreateChild | Components.py:24 | creating child i changes only that child's subtree |
| Components.Component.SetChild | Components.py:31-32 | `children[name] = value` is PutKid on the model; an existing key keeps its place |
| Components.Component.ReplaceChild | Components.py:31-32 | storing under an existing key replaces only that child |
| Components.Component.AppendChild | Components.py:31-32 | storing under a new key appends it last |
| Components.Component.SetPort | Components.py:16 | `port[name] = p` changes only that port (also lines 138-139) |
| Components.Component.Get | Components.py:26-30 | `component[name]` is the child when the key is a child, otherwise the port of that name, otherwise KeyError |
| Components.Component.Id | Components.py:33-37 | Id on the objects is IdOf on the model (also lines 96-97) |
| Components.Component.AllIds | Components.py:38-42 | the loop over the children computes Ids of the model (also lines 98-99) |
| Components.Component.Promote | Components.py:43-53 | Promote on the objects is PromoteOf on the model |
| Components.Component.Call | Components.py:54-55 | `component(child, port)` on the objects is CallOf on the model |
| Plans.Build | Components.py:12-17 | running a constructor's stores gives a valid, fresh component whose model is the plan's tree (also lines 31-32) |
| Plans.BuildKids | Components.py:31-32 | storing the first n parts in order on an empty component gives the children of the first n stores |
| Plans.AddPart | Components.py:31-32 | storing part i of the plan on a component holding parts 0 .. i - 1 gives the children of i + 1 stores; only new objects join the footprint |
| Plans.BuildPart | Components.py:70-76 | a part becomes a new SingleDomino or a new sub-component |
| Plans.PlannedKidsInOrder | Components.py:31-32 | with distinct keys the tree has the plan's children in the plan's order |
| Plans.PlannedNoneCreated | Components.py:12-17 | a freshly built component has nothing created (also line 76) |
| Plans.PlannedKidsNoneCreated | Components.py:12-17 | the same for its children |
| Plans.PartNoneCreated | Components.py:70-76 | the same for one part |
| Plans.PlannedLeafCount | Components.py:38-42 | a well-keyed plan builds one body per block it lays out (also lines 98-99) |
| Plans.PlannedLeafCountUpTo | Components.py:38-42 | the same, child by child |
| Plans.PartLeafCount | Components.py:98-99 | the same for one part |
| Plans.PortsListed | Components.py:257-258 | setting distinct port names gives each name its pose and no other name (also lines 271-275) |
| Layouts.Trunc | Components.py:131 | `int()` of a float rounds toward zero (also line 157) |
| Layouts.PilePlan | Components.py:108-113 | the pile stands on the floor at the pose; N blocks keyed 0..N-1 and no ports; a negative N gives no block |
| Layouts.PileStacks | Components.py:112-113 | the bottom block lies at SX/2, each block one SX above the last, all lying flat |
| Layouts.LineBlocks | Components.py:135-137 | `count` blocks keyed 0.., block i at x = spacing * (i + 1 - contain[0]) |
| Layouts.LinePlan | Components.py:122-139 | a zero step or a zero interval count divides by zero; no block to take the port from is an IndexError; the line is built exactly otherwise |
| Layouts.LineLayout | Components.py:122-139 | a built line has N >= 1 intervals and N - 1 + contain[0] + contain[1] upright blocks keyed 0..; the ports sit SY before the first block and SY after the last |
| Layouts.LineSpacing | Components.py:131-137 | consecutive blocks are distance/N apart; the first is at 0 exactly when the start is contained, the last at the distance exactly when the end is |
| Layouts.IntervalsNeedDistance | Components.py:131-132 | a non-zero interval count needs a non-zero distance |
| Layouts.LineBlocksSpacing | Components.py:135-137 | the blocks are `spacing` apart, and the first is at 0 exactly when the start is contained |
| Layouts.LineGap | Components.py:135 | neighbouring block positions differ by the spacing |
| Layouts.LineLast | Components.py:133-135 | the last block is at the full distance exactly when the end is contained |
| Layouts.BranchRow | Components.py:281-285 | row i has i + 1 upright blocks keyed `i_j` |
| Layouts.BranchOuts | Components.py:286-287 | out port j is named `out` + str(j) and stands SY beyond block j of the last row, at that block's y, facing along the axis (angle 0) |
| Layouts.BranchRowKeys | Components.py:283-285 | the keys of row i are `i_0` .. `i_i` |
| Layouts.BranchKeysBelow | Components.py:281-285 | the first rows hold a triangular number of keys, none naming a later row |
| Layouts.BranchKeysDistinct | Components.py:281-285 | all multi-branch keys differ |
| Layouts.RowKeysDistinct | Components.py:283-285 | the keys `i_0` .. `i_i` of one row differ from each other |
| Layouts.BranchRowsKeyed | Components.py:281-285 | the stored parts carry those keys in order |
| Layouts.BranchRowsBlocks | Components.py:285 | every part of a multi-branch is a SingleDomino |
| Layouts.MultiBranchCount | Components.py:278-288 | N rows hold N(N+1)/2 blocks under distinct keys |
| Layouts.BranchPartsCount | Components.py:281-285 | any plan holding the first N rows has N(N+1)/2 SingleDominoes under distinct keys |
| Layouts.MultiBranchPlan | Components.py:277-288 | the branch stands on the floor at the pose; N `out` ports at the last row's x plus SY, facing along the axis, then the `in` port SY before the first block |
| Layouts.MultiBranchOuts | Components.py:283-287 | out port j is named `out` + str(j) and stands SY in front of the stored block keyed `(N-1)_j`, at that block's y, facing along the axis |
| Layouts.MultiBranchSlices | Components.py:281-288 | the last row's blocks are stored last and the out ports come before `in` |
| Layouts.BranchRowsEndWithLast | Components.py:281-285 | the last row's blocks are the last parts stored, in order |
| Layouts.TriangleClosedForm | Components.py:281-283 | 1 + 2 + ... + n = n(n+1)/2 |
| Layouts.BlocksAfter | Components.py:281-285 | each SingleDomino part adds one body |
| Layouts.BranchRowSymmetric | Components.py:282-285 | every row is symmetric about the branch axis, neighbours gap + SY apart |
| Assemblies.TapButtonPlan | Components.py:245-258 | the TapButton stands on the floor at the pose, with five children and two ports |
| Assemblies.TapButtonShape | Components.py:245-258 | five blocks under distinct keys; lever and support on the base, the cover on them, the trigger on the cover |
| Assemblies.SideBranchPlan | Components.py:260-275 | the SideBranch stands on the floor at the pose, with four children and five ports |
| Assemblies.SideBranchShape | Components.py:260-275 | four blocks under distinct keys; both sides can be passed either way |
| Assemblies.UTurnPlan | Components.py:290-303 | the UTurn stands on the floor at the pose, with six children and four ports |
| Assemblies.UTurnShape | Components.py:290-303 | six blocks under distinct keys; the two triggers mirror each other |
| Assemblies.UTurnPorts | Components.py:290-303 | both sides of the UTurn can be entered and left |
| Assemblies.ConditionGatePlan | Components.py:337-354 | the ConditionGate stands on the floor at the pose, with nine children (one a pile) and five ports |
| Assemblies.ConditionGateKeys | Components.py:337-354 | the gate's children and the blocks of its pile are under distinct keys |
| Assemblies.ConditionGateShape | Components.py:337-354 | thirteen blocks; the connection lies flat on top of the pile |
| Assemblies.ConditionGatePorts | Components.py:337-354 | both ways through the gate can be taken in either direction |
| Assemblies.OrGatePlan | Components.py:356-365 | the OrGate stands on the floor at the pose, with three children and three ports |
| Assemblies.OrGateShape | Components.py:356-365 | three blocks; the inputs mirror each other and each input port lies on its block's line |
| Assemblies.AndGatePlan | Components.py:367-376 | the AndGate fails only as its lines do, with ZeroDivisionError or IndexError; built, it stands on the floor at the pose with three sub-components and three ports |
| Assemblies.AndGateShape | Components.py:367-376 | with an exact sqrt the AndGate builds, and its barrier and raised line have three blocks each |
| Bezier.Step | Components.py:202 | one round interpolates every pair of neighbours and is one point shorter |
| Bezier.Collapse | Components.py:200-202 | the rounds leave exactly one point of a non-empty list |
| Bezier.SamplesUpTo | Components.py:198-203 | n samples for non-empty control points |
| Bezier.GetBizierCurve | Components.py:196-204 | the loop computes the sampled curve: 101 points from the first control point to the last |
| Bezier.StepAtEnds | Components.py:202 | t = 1 drops the last point of a round, t = 0 the first (also lines 205-206) |
| Bezier.CollapseAtEnds | Components.py:200-202 | t = 1 collapses to the first control point, t = 0 to the last |
| Bezier.SampleAt | Components.py:198-203 | sample i is the collapse at parameter i / SAMPLE_COUNT |
| Bezier.CurveEnds | Components.py:196-204 | the curve starts at the first control point and ends at the last |
| Bezier.CubicCoordinate | Components.py:200-202 | three rounds on one coordinate give the cubic Bernstein polynomial |
| Bezier.InterpolateByCoordinate | Components.py:205-206 | Interpolate works coordinate by coordinate |
| Bezier.ChainCoordinates | Components.py:200-202 | the three rounds, coordinate by coordinate |
| Bezier.CubicCollapse | Components.py:200-202 | three rounds collapse four control points to one |
| Bezier.CubicIsBernstein | Components.py:196-204 | for four control points the sample is the cubic Bernstein point with weight t on the first control point |
| CurveSearch.Candidates | Components.py:171 | five radii from lower to upper, a quarter of the bracket apart |
| CurveSearch.CandidatesInBracket | Components.py:171 | all candidates lie in the bracket, in increasing order |
| CurveSearch.Controls | Components.py:176-183 | four control points from the start point to the end point |
| CurveSearch.Padded | Components.py:185 | the padded curve has SAMPLE_COUNT + 3 points |
| CurveSearch.Curvatures | Components.py:186 | one curvature per inner point |
| CurveSearch.MaxOf | Components.py:187 | `max` of a non-empty list is an element and bounds every element |
| CurveSearch.RepeatedPointScoresDegenerate | Components.py:186-187 | a padded curve through the same point twice in a row scores at least 1.0E100 (also lines 209-210) |
| CurveSearch.FirstMinIndex | Components.py:189 | `index(min(...))` is the first position of the least score |
| CurveSearch.Narrow | Components.py:190-193 | the next bracket lies inside the old one around the winner: half as wide for an interior winner, a quarter for an edge one |
| CurveSearch.WinnerAtMidpoint | Components.py:190-194 | the middle of the narrowed bracket is the winner itself for an inner winner, and an eighth of the old bracket inside it for an edge winner |
| CurveSearch.Scores | Components.py:172-188 | one score per candidate radius |
| CurveSearch.SearchWith | Components.py:169-195 | the radius returned lies strictly inside the starting bracket |
| CurveSearch.SearchFinal | Components.py:189-195 | the search ends on a round with a bracket nested in the first one whose narrowed bracket is under MIN_BRACKET wide; it returns that bracket's midpoint and the curve of the round's first least-scoring candidate, which scores no worse than every candidate and better than those before it |
| CurveSearch.Search | Components.py:169-195 | for the max-curvature score: the radius is strictly inside the starting bracket, and the result is the midpoint and the least-scoring candidate's curve of a last round as SearchFinal states |
| CurveSearch.SearchCurve | Components.py:189-195 | the curve returned was sampled at a radius in the starting bracket less than MIN_BRACKET/2 from the radius returned |
| CurveSearch.LastRoundNear | Components.py:190-194 | the last round's winning candidate lies in its narrowed bracket, so within half that bracket of the midpoint returned |
| CurveSearch.SearchCurveEnds | Components.py:169-195 | the curve returned has 101 points from the start point to the end point |
| Resample.PrefixMonotone | Components.py:154 | with non-negative lengths, walking further never walks less (also line 163) |
| Resample.PyAt | Components.py:151 | Python indexing with a negative index counts from the end (also line 163) |
| Resample.Reach | Components.py:161-163 | the first segment from k on whose end reaches the walked length |
| Resample.Locate | Components.py:161-166 | a walked length lies on one positive-length sampled segment, at a fraction t in [0, 1) |
| Resample.LocateSplits | Components.py:161-165 | the walked length is the segment's start plus 1 - t of its length |
| Resample.LocateEnd | Components.py:158-166 | walking the whole sampled length stops at fraction 0, with no length after that segment |
| Resample.AlongEnd | Components.py:165-166 | the block at the whole sampled length stands at the end of that segment |
| Resample.ReachOnCurve | Components.py:161-163 | the walk never passes the last sampled segment |
| Resample.LocateUnique | Components.py:161-163 | the segment found is the only one that starts before the mark and reaches it |
| Resample.MarkIsMultiple | Components.py:158-164 | block i is placed at walked length i * interval |
| Resample.MarkIncreasing | Components.py:158-164 | with a positive interval the marks strictly increase |
| Resample.Walk | Components.py:159-168 | N spots; spot 0 is the first point with the first heading, and spot i is at walked length i * interval |
| Resample.Place | Components.py:160-168 | one pass of the loop keeps the walk's invariant and places block i at its mark |
| Resample.PlacedExtend | Components.py:160-168 | a correctly placed spot extends a correctly placed list |
| Resample.Advance | Components.py:161-163 | the inner loop stops on a segment reaching the mark and never passes the sampled part |
| Resample.FirstSpot | Components.py:159-166 | the first step, from index -1 where length[-1] is the radius, puts block 0 on the first point |
| Resample.Spot | Components.py:165-167 | with nothing left over (L = 0) the block stands at the segment's end with the next heading; with a full segment left over it stands at the segment's start with that segment's heading |
| Resample.WalkedTo | Components.py:165-167 | every divisor `length[ci]` is non-zero, and the block is the one at that walked length |
| Curves.Extend | Components.py:151 | the curve gains one point, the second-last reflected through the last |
| Curves.CurveStep | Components.py:155-156 | a negative interval becomes the positive default, a non-negative one is kept, so the step is zero exactly when the interval is |
| Curves.CurveCount | Components.py:157 | N - 1 is total / interval rounded half up, so a non-negative ratio gives at least one block |
| Curves.Headings | Components.py:152 | one heading per segment, then the end heading |
| Curves.Lengths | Components.py:153 | one length per segment, then the radius; non-negative with an exact sqrt |
| Curves.Standing | Components.py:168 | a block standing at a spot is upright at height SZ/2 and turned to its heading |
| Curves.Measure | Components.py:150-153 | the extended curve, its headings and lengths; usable for the walk when the radius is positive |
| Curves.Measurement | Components.py:150-153 | the measured search curve runs from the start point to the end point and its lengths are distances |
| Curves.Blocks | Components.py:160-168 | n blocks |
| Curves.BlocksAt | Components.py:168 | block i is keyed i and stands at spot i |
| Curves.Spot | Components.py:159-168 | every block stands on a sampled segment of the curve, never on the extension |
| Curves.StandAll | Components.py:160-168 | storing a block at every spot in turn gives Blocks |
| Curves.Laid | Components.py:154-168 | the only error is ZeroDivisionError; a laid curve sits at the origin, unturned, with no ports |
| Curves.CurveLayout | Components.py:148-168 | a CurveDomino fails only with ZeroDivisionError, always for a zero interval; built, it sits at the origin, unturned, with no ports |
| Curves.LayAlong | Components.py:154-168 | the constructor's count and walk compute Laid |
| Curves.CurvePlan | Components.py:148-168 | the whole constructor computes CurveLayout |
| Curves.WalkedSpots | Components.py:159-168 | the spots the walk returns are the ones Spot describes |
| Curves.CountedSpacing | Components.py:157-158 | a count other than 1 is at least 2 and its spacing adds up to the total |
| Curves.LaidErrors | Components.py:155-158 | a zero interval divides by zero, and so does a curve shorter than half the interval (N = 1); any other curve lays blocks |
| Curves.LaidParts | Components.py:157-168 | N >= 2 parts at the origin, no ports, block i standing at spot i (also line 149) |
| Curves.LaidBlocks | Components.py:157-168 | N >= 2 blocks keyed 0..N-1, upright at height SZ/2, one body each |
| Curves.SpotsPlaced | Components.py:159-168 | block 0 is on the first point and block i at walked length i * spacing |
| Curves.SpotPlaced | Components.py:160-168 | each block after the first lands at its mark on the sampled curve |
| Curves.AlongToEnd | Components.py:160-167 | walking the whole sampled length ends on the last sampled point (also line 154) |
| Curves.FlatTail | Components.py:163 | segments that add no length join equal points |
| Curves.MeasuredTight | Components.py:153 | a measured segment of length 0 joins equal points |
| Curves.SpotsEnds | Components.py:159-168 | the first block stands on the first point, the last block on the last sampled point |
| Curves.LaidEnds | Components.py:157-168 | the same for a laid curve |
| Curves.SpotAtEnd | Components.py:158-166 | the last block's mark is the total length |
| Curves.CurveEnds | Components.py:148-168 | a CurveDomino's first block stands on the start point, its last on the end point |
| Connections.ConnectionKey | Components.py:57-58 | the given name, or `'%s_%s_to_%s_%s'` of the four arguments |
| Connections.KeyText | Components.py:58 | `%s` prints a name as it is and an index in decimal, with a digit first exactly when it is non-negative |
| Connections.CurveDomino | Components.py:148 | the constructor Connect calls, with the default interval, accepts every pair of poses (also line 59) |
| Connections.Connect | Components.py:56-59 | on failure, Connect gives Connected's error and leaves the parent unchanged; on success the parent's model is Connected's tree |
| Connections.Join | Components.py:59 | a constructor error leaves the parent unchanged; otherwise the new component is stored under the key |
| Connections.Connected | Components.py:56-59 | a successful Connect needs both ports to exist, keeps the parent's kind, pose and ports, and adds at most one child |
| Connections.ConnectedMissing | Components.py:59 | a missing child or port is a KeyError |
| Connections.ConnectedFails | Components.py:59 | between existing ports, Connect fails exactly when the constructor does |
| Connections.ConnectedAdds | Components.py:56-59 | a successful Connect adds exactly the new child under its key and keeps every other child, the ports and the pose |
| Connections.CurveTooShort | Components.py:155-158 | with the curve constructor, Connect fails with ZeroDivisionError exactly when the curve is shorter than half the default interval (also line 59) |
| Connections.CurveJoinsPorts | Components.py:148-168 | the new curve's first block stands on the first promoted port and its last on the second (also line 59) |
| Records.Updated | Utilities.py:41-45 | Update changes the deque's length by at most one and holds only old snapshots and the new one; a sampled snapshot ends the deque; the deque empties only from one snapshot, when it is not sampled and is evicted, which a span shorter than the interval allows |
| Records.Appends | Utilities.py:42 | an empty deque always samples; with a non-negative interval, a snapshot no later than the last one is never sampled |
| Records.UpdateRules | Utilities.py:41-45 | Update appends exactly when the deque is empty or the last snapshot is older than the interval, then drops at most the oldest snapshot, exactly when the span is positive and exceeded |
| Records.UpdatedIncreasing | Utilities.py:41-45 | with a clock that never goes back and a non-negative interval, time stamps stay strictly increasing |
| Records.Record.constructor | Utilities.py:32-36 | an empty deque with the given interval and span |
| Records.Record.Initialize | Utilities.py:39-40 | appends exactly one snapshot, which GetLatest then returns |
| Records.Record.Update | Utilities.py:41-45 | the deque becomes Updated of the old one |
| Records.Record.GetLatest | Utilities.py:46-47 | the newest snapshot, which on an ordered deque has the greatest stamp; IndexError when empty |
| Records.Record.BinarySearch | Utilities.py:48-56 | given stamp[lower] <= q < stamp[upper], it returns k with stamp[k] <= q < stamp[k + 1] |
| Records.Record.Get | Utilities.py:57-66 | None exactly when empty or q is outside [first, last]; the last snapshot at q = last; otherwise a snapshot at or before q whose successor is after q |
| Records.Record.GetLatestBefore | Utilities.py:57-66 | on an ordered deque, Get finds the latest snapshot at or before q |
| Records.Record.GetRecorded | Utilities.py:57-66 | on an ordered deque, Get at a recorded stamp finds that snapshot |
| AutoTermination.Engine.constructor | Engine.py:12 | the terminate flag starts false |
| AutoTermination.Verdict | Plugins.py:54-65 | IndexError on an empty record; no stop when the latest stamp is within the window; AttributeError exactly when Get finds nothing a window back |
| AutoTermination.StopsAtRest | Plugins.py:58-65 | a stop needs snapshots at least a window apart with every body at rest; the thresholds are then positive when the window is |
| AutoTermination.OneMovingBody | Plugins.py:60-64 | one body over either threshold keeps the engine running |
| AutoTermination.AtRest | Plugins.py:60-64 | an empty list of bodies is at rest; with a negative interval only negative moves would pass both thresholds |
| AutoTermination.RestLonger | Plugins.py:60-64 | bodies at rest over an interval are at rest over any longer one |
| AutoTermination.AutoTerminatePlugin.constructor | Plugins.py:51-53 | the plugin keeps its window |
| AutoTermination.AutoTerminatePlugin.OnUpdateRecord | Plugins.py:54-65 | the loop sets terminate exactly when the verdict is to stop, never clears it, and raises the verdict's error |

## Left out

- **Physics.** pybullet body creation, dynamics and stepping (Components.py:14, 21-22, 82-94) are outside the model. Their results are parameters: a pose composition, an Euler-to-quaternion conversion, and a body-id counter. `body_id` is modelled as the id handed out; `createMultiBody`'s result is discarded, as in the source.
- **Numerics.** sqrt, atan2, cos and sin are uninterpreted fields of `Geo`. Reals are exact: float rounding is not modelled. `PI` is the float literal's decimal value.
- **Angle blending.** The blend of headings at Components.py:167 has no wrap-around at ±pi, and nothing is stated about it.
- **Curves.Spot:** the walk's result is stated only for walked lengths on the sampled curve, which is where the constructor places every block.
- **TargetDomino, LeanTrigger, EdgeTrigger** (Components.py:101-106, 223-243): one- and two-block start and end pieces. LeanTrigger's pose needs atan and cos. They are built like the assemblies above, but are not part of this model.
- **Crossing and GenerateCrossingProfile** (Components.py:305-335): these use a foreign numeric solver at module load.
- **FastPropagation** (Components.py:378-411): its placement loop stops on a floating-point geometry test.
- **BodyState, WorldState and their Difference** (Utilities.py:8-29): physics queries and acos. A snapshot holds its time stamp and the body data, and the differences are a function parameter.
- **The Engine class** (Engine.py) beyond its `terminate` flag, PrintPlugin and KeyboardEventPlugin: physics set-up, the stepping loop, sleeping and console or keyboard I/O.
- **Aliasing.** Components are stored as separate objects: a component stored under two keys, or in two parents, is not modelled. `SetChild` requires the new child to share nothing with the parent.
- **Float and other keys.** A child key is a string or an integer (`Key`). Python also accepts floats such as `0.1` and any other hashable value as a key or connection name; those are not modelled.
- **Connections.Connect** takes the new child's constructor as a parameter; the source always calls CurveDomino, which is `Connections.CurveDomino(geo)` here.
