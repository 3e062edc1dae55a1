# semaforr plan and agenda bookkeeping in Dafny

This project models two parts of the semaforr robot controller: the navigation-plan
bookkeeping of `Task` and the agenda bookkeeping of `AgentState`.

**Task** (`task.dfy`, class `Tasks.Task`) holds a target, a plan and some logs. The plan
takes one of three forms, chosen by the planner name:

- **flat**: any other name. The plan is a list of points plus a second-tier list.
- **skeleton**: a list of plan steps (`sk_waypoint`, the datatype `Waypoints.Waypoint`), made
  of regions joined by edge paths.
- **hallway** (`"hallwayskel"`): also a list of plan steps, made of:
  - a prologue and an epilogue of regions and edge paths;
  - "bridges" of small regions between the parts;
  - a body of intersections joined by passages.

The model covers these parts of the `Task` code:

- **Plan building** (`generateWaypointsFromInds`, `plan_build.dfy`). Each building loop is a
  method proved against the function that describes what it emits.
- **Progression** (`setupNearestWaypoint`, `progress.dfy`). One step has three parts:
  - a scan for the farthest reached step;
  - the move of a prefix into the finished list;
  - the trim of a partly travelled path.

  The scan and the trim are module-level methods proved against specification functions
  (`Farthest`, `SubIndex`, `AdvanceWith`). The lemmas then state what one step does:
  - which steps leave the plan;
  - that a well-formed plan stays well formed;
  - that the points still to visit are a suffix of those before.
- **The aim-point getters** and the read-only reach test `isAnyWaypointComplete`.
- **Ad-hoc waypoint insertion** (`createNewWaypoint`).
- **The 200 x 200 plan-positions grid** (`plan_grid.dfy` and the class). This covers its
  clamped updates.
- **The passage metadata** set by `setPassageValues` (`passage_meta.dfy`): the averaged
  passage centres and the orientation table built from integer bounding boxes.
- **The append-only decision and sensor logs.**

**AgentState** (`agent_state.dfy`, class `Agent.AgentState`) holds:

- the three fixed action sets built by its constructor;
- the movement and rotation value tables;
- the de-duplicated position history;
- the agenda of tasks with the current-task pointer. `finishTask` and `skipTask` remove the
  current task from the agenda.

The model follows the code as written, including these behaviours:

- **Flat mode, reached head.** The head of the second-tier list is never erased when only
  the head is reached (f == 0). The source compares `begin()` iterators of two different
  vectors there, and that comparison never holds.
- **Erase counts.** When the farthest reached step f is past the head, the erase counts are
  one short of what is pushed to the finished list:
  - A reached region or intersection ends up both as the last finished entry and as the
    new head.
  - A partly reached path trims step f-1, the step that ends up first, not step f.
- **Sub-index bound.** The sub-index of a reached path is at most its length minus two, so
  the "whole path consumed" branches never fire.
- **Reach test.** `isAnyWaypointComplete` is true exactly when the scan of
  `setupNearestWaypoint` would find a reached step.
- **Bridges.**
  - The prologue bridge starts from the last prologue region with its x and y swapped.
  - The epilogue bridge runs from the first epilogue node back to the last intersection.
- **Repeated builds.** `generateWaypointsFromInds` appends to the plan steps already present
  and does not clear them.

When no row of `passage_graph` links two consecutive intersections, the code raises no error
and leaves `passage12` uninitialised (`Task.h` 504-519). The model treats that case as
undefined and excludes it by the precondition `BodyDefined`.

Distances are compared without square roots: `Within(a, b, r)` means the squared distance is
below `r * r`. Two external predicates come in as uninterpreted functions of a `Sensing`
value:

- the laser line-of-sight test `canAccessPoint`;
- the region membership test `FORRRegion::inRegion`.

Graph node lookup and edge paths are functions of a `Graph` value.

## Model

| member | source | states |
|---|---|---|
| Waypoints.WithPath | semaforr/include/semaforr/Task.h:42 | `setPath` replaces only the point list: a sub-path or passage keeps every other field (label, centroid, orientation, grid cells), any other step comes back unchanged |
| Progress.ModeOf | semaforr/include/semaforr/Task.h:366-436 | the plan is a skeleton plan iff the planner is named "skeleton", a hallway plan iff it is named "hallwayskel", flat otherwise |
| Progress.FlatFarthest | semaforr/include/semaforr/Task.h:668-676 | the flat scan's result is -1 or an index whose point is within 0.75 of the robot, and no later point is |
| Progress.ScanFlat | semaforr/include/semaforr/Task.h:668-676 | the flat scan loop returns the last index within 0.75 of the robot (FlatFarthest) |
| Progress.Without | semaforr/include/semaforr/Task.h:684-690 | erase-remove of one point leaves no copy of it and changes nothing when it is absent |
| Progress.WithoutMembers | semaforr/include/semaforr/Task.h:684-690 | after erase-remove of p, a point is present iff it was present before and differs from p |
| Progress.WithoutCounts | semaforr/include/semaforr/Task.h:684-690 | erase-remove of p keeps every other point with its multiplicity and drops all copies of p |
| Progress.WithoutAll | semaforr/include/semaforr/Task.h:683-691 | removing each of the passed points from the second tier leaves exactly the points not among them |
| Progress.WithoutAllCounts | semaforr/include/semaforr/Task.h:683-691 | the multiplicity of a point after the removals is zero if it was passed, else unchanged |
| Progress.EraseOneOccurrence | semaforr/include/semaforr/Task.h:684-690 | erasing one occurrence of p first and then all copies gives the same list as erasing all copies |
| Progress.EraseEvery | semaforr/include/semaforr/Task.h:684-690 | the erase loop removes all copies of the point and nothing else (Without) |
| Progress.FlatAdvanceFacts | semaforr/include/semaforr/Task.h:666-705 | flat step: f = -1 changes nothing; f = 0 drops only the head; f > 0 drops the first f points so the reached point is the new head; the second tier loses exactly the passed points; no point after the new head is within reach |
| Progress.StepFlat | semaforr/include/semaforr/Task.h:666-692 | the flat scan and erasures yield the lists FlatAdvance describes |
| Progress.LastVertex | semaforr/include/semaforr/Task.h:722-728 | the path scan gives -1 or a vertex within 0.5 that sees the next vertex, and no later vertex below size-1 qualifies |
| Progress.SubIndex | semaforr/include/semaforr/Task.h:722-728 | the sub-index of a path is at most its length minus two, so it never equals size-1 |
| Progress.ScanPath | semaforr/include/semaforr/Task.h:719-728 | the inner path loop computes SubIndex |
| Progress.Farthest | semaforr/include/semaforr/Task.h:711-736 | the scan result is -1 or the index of a reached step, and no later step is reached |
| Progress.LastPathSubAtFarthest | semaforr/include/semaforr/Task.h:729-733 | the farthest_path left by the scan is the sub-index of the farthest step when that step is a path |
| Progress.ScanPlan | semaforr/include/semaforr/Task.h:798-863 | the skeleton and hallway scan loop computes Farthest and the matching farthest_path |
| Progress.Drop | semaforr/include/semaforr/Task.h:746-750 | copying a path from index k keeps exactly its suffix from k, nothing when k is past the end |
| Progress.CopySuffix | semaforr/include/semaforr/Task.h:746-750 | the new_path copy loop computes Drop |
| Progress.PushPrefix | semaforr/include/semaforr/Task.h:753-756 | the push loop copies exactly the first n steps to the finished list |
| Progress.ApplyAdvance | semaforr/include/semaforr/Task.h:739-780 | the erase and trim branches produce the active and finished lists AdvanceWith describes |
| Progress.StepPlan | semaforr/include/semaforr/Task.h:707-780 | one skeleton or hallway step yields exactly AdvancePlan of the old plan |
| Progress.AnyReachedIffProgress | semaforr/include/semaforr/Task.h:993-1060 | some step passes the reach test iff the progression scan finds f >= 0 |
| Progress.FlatAnyReachedIffProgress | semaforr/include/semaforr/Task.h:984-992 | some flat point is within 0.75 iff the flat scan finds f >= 0 |
| Progress.AdvanceToPoint | semaforr/include/semaforr/Task.h:739-758 | reaching a region or intersection at f = 0 retires only the head; at f > 0 it retires steps 0..f while only 0..f-1 leave, so the reached step is both the last finished entry and the new head |
| Progress.AdvanceWithPath | semaforr/include/semaforr/Task.h:744-780 | a partly reached path at f = 0 is replaced by its non-empty suffix after the sub-index; at f > 0 steps 0..f-1 retire, 0..f-2 leave, and step f-1 is trimmed |
| Progress.AdvanceToPath | semaforr/include/semaforr/Task.h:759-780 | a reached path is never fully consumed: the step keeps a non-empty remainder; with only the last point near, the path is unchanged |
| Progress.ShapedSuffix | semaforr/include/semaforr/Task.h:753-757 | erasing a prefix keeps a well-formed plan well formed |
| Progress.ShapedTrimHead | semaforr/include/semaforr/Task.h:746-750 | trimming the head path to a non-empty suffix keeps a well-formed plan well formed |
| Progress.AdvanceWithPreservesShape | semaforr/include/semaforr/Task.h:739-780 | every branch of the trimming keeps the plan well formed and never lengthens it |
| Progress.AdvancePreservesShape | semaforr/include/semaforr/Task.h:707-960 | one progression step keeps a well-formed plan well formed, never lengthens it, and is defined on it |
| Progress.PlanShapedAppend | semaforr/include/semaforr/Task.h:389-428 | appending two well-formed plans whose junction is not two paths gives a well-formed plan |
| Progress.FlattenAppend | semaforr/include/semaforr/Task.h:202-248 | the flattened points of a concatenation are the concatenation of the flattened parts |
| Progress.DropIsSuffix | semaforr/include/semaforr/Task.h:753-757 | the points of an erased-prefix plan are a suffix of the points before |
| Progress.TrimPointsSuffix | semaforr/include/semaforr/Task.h:746-750 | a trimmed step's points are a suffix of its points before |
| Progress.TrimIsSuffix | semaforr/include/semaforr/Task.h:770-778 | erasing a prefix and trimming the new head leaves a suffix of the flattened plan |
| Progress.AdvanceListsSuffix | semaforr/include/semaforr/Task.h:707-960 | after a progression step the points still to visit are a suffix of those before: progression only consumes |
| Progress.AdvanceWithListsSuffix | semaforr/include/semaforr/Task.h:739-780 | every trimming branch leaves a suffix of the flattened plan |
| Progress.StepStart | semaforr/include/semaforr/Task.h:739-780 | the active list after a step is a suffix of the old list, or such a suffix with its head trimmed |
| Progress.FlattenMembers | semaforr/include/semaforr/Task.h:202-248 | a point is in the flattened plan iff some step carries it |
| PassageMeta.AveragePoint | semaforr/include/semaforr/Task.h:1157-1164 | a non-empty average row gives its two centimetre values in metres, an empty row the origin |
| PassageMeta.Averages | semaforr/include/semaforr/Task.h:1157-1164 | one average point per row, in order |
| PassageMeta.AppendAverages | semaforr/include/semaforr/Task.h:1157-1164 | the averages loop appends Averages(ap) to the existing list |
| PassageMeta.BoxOf | semaforr/include/semaforr/Task.h:1168-1182 | the min/max scan from the initial 100000/0 bounds encloses every cell scanned so far |
| PassageMeta.BoxAttained | semaforr/include/semaforr/Task.h:1168-1182 | each bound is the initial value or some cell's coordinate |
| PassageMeta.BoundingBox | semaforr/include/semaforr/Task.h:1168-1182 | the min/max loop computes BoxOf over all cells |
| PassageMeta.Orientation | semaforr/include/semaforr/Task.h:1183-1188 | a passage is horizontal (1) iff its box is wider than tall, else vertical (0); a passage with no cells is vertical |
| PassageMeta.PassageOrientation | semaforr/include/semaforr/Task.h:1167-1188 | one loop iteration computes the orientation of one passage's cells |
| PassageMeta.OrientationTableNamed | semaforr/include/semaforr/Task.h:1166-1188 | every passage named by a graph row gets the orientation of its own cells |
| PassageMeta.OrientationTableKept | semaforr/include/semaforr/Task.h:1166-1188 | table entries no row names are kept as they were, and no others appear |
| PassageMeta.BuildOrientation | semaforr/include/semaforr/Task.h:1166-1188 | the orientation loop computes OrientationTable over all rows |
| PlanGrid.Ceil | semaforr/include/semaforr/Task.h:1076-1077 | ceil(p) is the least integer not below p |
| PlanGrid.LowBound | semaforr/include/semaforr/Task.h:1074-1081 | the first marked row is floor(p) - 1 clamped at 0 |
| PlanGrid.HighBound | semaforr/include/semaforr/Task.h:1076-1085 | the last marked row is ceil(p) + 1, or 199 when that is out of range (negative values included, by the unsigned comparison) |
| PlanGrid.BoxInGrid | semaforr/include/semaforr/Task.h:1078-1091 | every cell updatePlanPositions writes lies inside the grid |
| PlanGrid.BoxCoversFloor | semaforr/include/semaforr/Task.h:1074-1091 | the marked rectangle contains the floor cell of an in-grid position |
| PlanGrid.FarNegativeCoversAxis | semaforr/include/semaforr/Task.h:1076-1085 | a coordinate of -2 or less marks the whole axis, through the unsigned clamp |
| PlanGrid.Corners | semaforr/include/semaforr/Task.h:1106-1132 | the lookup tests four corner cells, the floor cell among them |
| PlanBuild.Reverse | semaforr/include/semaforr/Task.h:416-419 | std::reverse: same length, element i is element n-1-i of the input |
| PlanBuild.ReverseIsPermutation | semaforr/include/semaforr/Task.h:416-419 | reversing keeps the same points with the same multiplicities |
| PlanBuild.OrientedEdge | semaforr/include/semaforr/Task.h:411-420 | the edge path is kept when its first point is inside the preceding region, else reversed end to end; always a permutation of it |
| PlanBuild.EdgeStep | semaforr/include/semaforr/Task.h:411-420 | each edge step is a sub-path as long as the edge's non-empty trail |
| PlanBuild.SegmentEmittedShape | semaforr/include/semaforr/Task.h:389-428 | after k nodes the segment has 2k or 2k-1 steps: node regions at even offsets, oriented edge paths at odd offsets |
| PlanBuild.SegmentEmittedKinds | semaforr/include/semaforr/Task.h:389-428 | even offsets of a segment are regions and odd offsets non-empty sub-paths |
| PlanBuild.SegmentEmittedShaped | semaforr/include/semaforr/Task.h:389-428 | a built segment is a well-formed plan that starts with a region |
| PlanBuild.SegmentEndsAtRegion | semaforr/include/semaforr/Task.h:389-428 | a segment from n >= 1 nodes ends with the region of the last node |
| PlanBuild.BuildSegment | semaforr/include/semaforr/Task.h:389-428 | the skeleton build loop emits exactly Segment(ids) |
| PlanBuild.Bridge | semaforr/include/semaforr/Task.h:466-477 | a bridge is 11 radius-0.5 regions from the start point to the end point |
| PlanBuild.BuildBridge | semaforr/include/semaforr/Task.h:473-477 | the bridge loop emits exactly Bridge(start, end) |
| PlanBuild.BridgeShaped | semaforr/include/semaforr/Task.h:473-477 | a bridge is a well-formed plan |
| PlanBuild.FirstRow | semaforr/include/semaforr/Task.h:504-519 | the matched passage row links the two intersections forwards, or backwards and not forwards |
| PlanBuild.FirstRowIsFirst | semaforr/include/semaforr/Task.h:504-519 | no row before the matched one links the two intersections in either direction |
| PlanBuild.FindPassage | semaforr/include/semaforr/Task.h:504-519 | the search loop returns the first matching row and its direction (FirstRow) |
| PlanBuild.PassageStep | semaforr/include/semaforr/Task.h:520-524 | the passage step carries the row's label, its averaged centre and the row's trail, unreversed for a forward match |
| PlanBuild.PassageAt | semaforr/include/semaforr/Task.h:499-524 | the step between two consecutive intersections is a passage with a non-empty path when all trails are non-empty |
| PlanBuild.IntersectionStep | semaforr/include/semaforr/Task.h:489-494 | each node gives an intersection step labelled with its intersection and centred on that intersection's average |
| PlanBuild.BodyEmittedShape | semaforr/include/semaforr/Task.h:486-527 | after k nodes the body has 2k or 2k-1 steps: intersections at even offsets, passages between consecutive ones at odd offsets |
| PlanBuild.BodyEmittedKinds | semaforr/include/semaforr/Task.h:486-527 | even body offsets are intersections with a valid label, odd ones passages with non-empty paths |
| PlanBuild.BodyEmittedShaped | semaforr/include/semaforr/Task.h:486-527 | the hallway body is a well-formed plan |
| PlanBuild.BodyEndsClear | semaforr/include/semaforr/Task.h:486-527 | the body starts and ends with an intersection, never with a path |
| PlanBuild.BodyPassage | semaforr/include/semaforr/Task.h:499-524 | the passage search and construction yield PassageAt |
| PlanBuild.BuildBody | semaforr/include/semaforr/Task.h:486-527 | the body loop emits exactly BodyEmitted over all nodes |
| PlanBuild.FlatPoints | semaforr/include/semaforr/Task.h:366-388 | one point per node index, each the node position in metres |
| PlanBuild.BuildFlat | semaforr/include/semaforr/Task.h:367-376 | the flat build loop emits FlatPoints |
| PlanBuild.BridgeOutRunsBackward | semaforr/include/semaforr/Task.h:547-558 | the epilogue bridge starts at the first epilogue node and ends at the last intersection's centre |
| PlanBuild.BridgeInStartsSwapped | semaforr/include/semaforr/Task.h:466-477 | the prologue bridge starts at the last prologue region's centre with x and y swapped and ends at the first intersection's centre |
| PlanBuild.Join | semaforr/include/semaforr/Task.h:436-590 | joining two well-formed hallway parts whose junction holds no path stays well formed |
| PlanBuild.HallwayPlanShaped | semaforr/include/semaforr/Task.h:432-590 | the whole hallway plan (prologue, bridges, body, epilogue) is well formed |
| PlanBuild.BridgeClear | semaforr/include/semaforr/Task.h:466-562 | both bridges are well formed and begin and end with regions |
| Tasks.BuildHallway | semaforr/include/semaforr/Task.h:432-590 | the hallway build emits exactly HallwayPlan |
| Tasks.Task.constructor | semaforr/include/semaforr/Task.h:56-79 | a new task aims at its target with no plan, empty logs and an all-zero grid |
| Tasks.Task.Aim | semaforr/include/semaforr/Task.h:84-150 | getX/getY give the target when no plan is active, the flat aim point in flat mode, the region centre, the last path point, or the intersection centroid |
| Tasks.Task.IsTaskComplete | semaforr/include/semaforr/Task.h:963-971 | the task is complete iff the robot is less than 1 from the target |
| Tasks.Task.GetWaypoints | semaforr/include/semaforr/Task.h:202-248 | flat mode lists the flat plan; otherwise a point is listed iff some plan step carries it |
| Tasks.Task.GetPlanSize | semaforr/include/semaforr/Task.h:250-257 | flat mode counts the listed points, the other modes count plan steps; size 0 means nothing is listed |
| Tasks.Task.IsAnyWaypointComplete | semaforr/include/semaforr/Task.h:982-1065 | false with no active plan; otherwise true iff the progression scan would find a reached step |
| Tasks.Task.SetupNearestWaypoint | semaforr/include/semaforr/Task.h:664-960 | one progression step: the plan becomes AdvancePlan (or FlatAdvance), retired steps are appended to the finished list, the plan is active iff non-empty and the aim is its head |
| Tasks.Task.SetupFlat | semaforr/include/semaforr/Task.h:666-706 | the flat branch sets the lists to FlatAdvance, aims at the new head and completes the plan once the second tier is empty |
| Tasks.Task.SetupSkeleton | semaforr/include/semaforr/Task.h:707-960 | the skeleton and hallway branches set the plan to AdvancePlan and the aim to the new head |
| Tasks.Task.GenerateWaypointsFromInds | semaforr/include/semaforr/Task.h:351-604 | building records the indices, graph and planner name, appends the built steps to the plan present and then makes one progression step |
| Tasks.Task.GenerateFlat | semaforr/include/semaforr/Task.h:366-388 | a flat build sets both lists to the node points and then makes one flat step |
| Tasks.Task.LayOutFlat | semaforr/include/semaforr/Task.h:353-388 | the flat build fills both lists with the node points and activates a plan built from at least one index |
| Tasks.Task.GenerateSkeleton | semaforr/include/semaforr/Task.h:389-604 | a skeleton or hallway build appends the built steps and makes one progression step |
| Tasks.Task.LayOutSkeleton | semaforr/include/semaforr/Task.h:389-598 | the build appends the built steps to the old ones and activates a non-empty plan |
| Tasks.Task.CreateNewWaypoint | semaforr/include/semaforr/Task.h:638-662 | nothing changes when the point is already a flat waypoint and the insertion is not forced; otherwise exactly one step is prepended and becomes the active aim |
| Tasks.Task.GetPlanPositionValue | semaforr/include/semaforr/Task.h:1106-1134 | true iff one of the four in-grid corner cells is marked |
| Tasks.Task.UpdatePlanPositions | semaforr/include/semaforr/Task.h:1072-1105 | exactly the clamped rectangle is set to 1, the rest is unchanged, and the position then reads as marked |
| Tasks.Task.ResetPlanPositions | semaforr/include/semaforr/Task.h:1135-1147 | the grid is all zero and no position reads as marked |
| Tasks.Task.SetPassageValues | semaforr/include/semaforr/Task.h:1149-1191 | the tables are replaced, averages are appended and the orientation table is updated for every row |
| Tasks.Task.IncrementDecisionCount | semaforr/include/semaforr/Task.h:166 | the decision count grows by one |
| Tasks.Task.SaveDecision | semaforr/include/semaforr/Task.h:172-175 | the decision is appended to the log |
| Tasks.Task.SaveSensor | semaforr/include/semaforr/Task.h:181-195 | the pose, laser endpoints and scan are each appended to their logs |
| Tasks.Task.ClearWaypoints | semaforr/include/semaforr/Task.h:261-266 | all point lists are emptied, so the plan lists nothing and has size 0 |
| Agent.Turns | semaforr/include/semaforr/AgentState.h:43-48 | the turn set holds only left and right turns with parameters 1 .. n-1 |
| Agent.Forwards | semaforr/include/semaforr/AgentState.h:49-52 | the forward set holds only forward moves with parameters 1 .. n-1 |
| Agent.TurnsComplete | semaforr/include/semaforr/AgentState.h:43-48 | every left and right turn with a parameter in 1 .. n-1 is present |
| Agent.ForwardsComplete | semaforr/include/semaforr/AgentState.h:49-52 | every forward move with a parameter in 1 .. n-1 is present |
| Agent.TurnsCount | semaforr/include/semaforr/AgentState.h:43-48 | the turn loop contributes two actions per parameter |
| Agent.ForwardsCount | semaforr/include/semaforr/AgentState.h:49-52 | the forward loop contributes one action per parameter |
| Agent.AllActionsSize | semaforr/include/semaforr/AgentState.h:43-54 | the action set has 2(tb-1) + fb members |
| Agent.ActionSetsShape | semaforr/include/semaforr/AgentState.h:43-54 | the action set has 14 members, the rotation set 8 and the forward set 6; both smaller sets lie inside the action set and are disjoint |
| Agent.ActionSetMembers | semaforr/include/semaforr/AgentState.h:43-54 | an action is in the action set iff it is a turn 1..4, a forward move 1..5 or the pause |
| Agent.Saved | semaforr/include/semaforr/AgentState.h:74-83 | savePosition appends the position unless it equals the last entry; the history then ends with it and never gains two equal neighbours |
| Agent.Removed | semaforr/include/semaforr/AgentState.h:130-144 | list::remove drops every entry equal to the task and keeps the others with their multiplicities |
| Agent.RemovedMembers | semaforr/include/semaforr/AgentState.h:130-144 | every entry that stays was on the agenda and differs from the task, and every other entry stays |
| Agent.RemovedAppend | semaforr/include/semaforr/AgentState.h:130-144 | removal keeps the relative order of the remaining entries |
| Agent.InsertTurns | semaforr/include/semaforr/AgentState.h:43-48 | the turn loop fills the action and rotation sets with Turns |
| Agent.InsertForwards | semaforr/include/semaforr/AgentState.h:49-52 | the forward loop adds Forwards to the action set and fills the forward set with it |
| Agent.BuildActionSets | semaforr/include/semaforr/AgentState.h:43-54 | the constructor loops build exactly the three fixed action sets |
| Agent.FillTable | semaforr/include/semaforr/AgentState.h:58-59 | the copy loop fills a fresh array with the given values |
| Agent.AgentState.constructor | semaforr/include/semaforr/AgentState.h:36-61 | no current task, empty agenda and history, the three action sets and the two value tables |
| Agent.AgentState.ClearPositionHistory | semaforr/include/semaforr/AgentState.h:72 | the history becomes empty |
| Agent.AgentState.SavePosition | semaforr/include/semaforr/AgentState.h:74-83 | the history becomes Saved(old history, current position) and keeps no equal neighbours |
| Agent.AgentState.SetCurrentPosition | semaforr/include/semaforr/AgentState.h:105-108 | the pose is set and then saved to the history |
| Agent.AgentState.SetCurrentTask | semaforr/include/semaforr/AgentState.h:112-114 | the current task becomes the given one |
| Agent.AgentState.SetCurrentLaserScan | semaforr/include/semaforr/AgentState.h:155-158 | the current scan becomes the given one |
| Agent.AgentState.AddTask | semaforr/include/semaforr/AgentState.h:120-123 | exactly one fresh task at the given target is appended; earlier entries are unchanged |
| Agent.AgentState.GetNextTask | semaforr/include/semaforr/AgentState.h:125 | the next task is the agenda's front |
| Agent.AgentState.FinishTask | semaforr/include/semaforr/AgentState.h:130-136 | a current task is removed from the agenda entirely, the current task is cleared and so is the history |
| Agent.AgentState.SkipTask | semaforr/include/semaforr/AgentState.h:138-144 | the same effect as finishTask |
| Agent.AgentState.IsMissionComplete | semaforr/include/semaforr/AgentState.h:146-152 | the mission is complete iff the agenda is empty and there is no current task |
| Agent.AgentState.GetDistanceToForwardObstacle | semaforr/include/semaforr/AgentState.h:176-181 | 25 when the scan has no ranges, else the middle range |
| Agent.AgentState.GetMovement | semaforr/include/semaforr/AgentState.h:191 | the movement table entry for the parameter |
| Agent.AgentState.GetRotation | semaforr/include/semaforr/AgentState.h:192 | the rotation table entry for the parameter |

## Left out

- Tasks.Task.Aim: requires `AimDefined`, which excludes the cases where `getX`/`getY` are undefined:
  - In skeleton mode every step other than a region goes to `getPathEnd()` (`Task.h` 92-98, 122-128). That is an out-of-bounds read of an empty point list for a blank step (type -1), an intersection, or a sub-path or passage whose path is empty.
  - In hallway mode a blank step falls off the end of the function without a return value (`Task.h` 99-113).
  - In hallway mode a sub-path or passage with an empty path hits the same `getPathEnd()` read.
- Tasks.Task.SetupNearestWaypoint: requires `SetupDefined`. The source reads `waypoints[0]` after a flat step that can empty the list, and `size()-1` of an empty path; both are undefined and excluded.
- Tasks.Task.GenerateWaypointsFromInds: requires every passage-graph row to be a triple and a row to link every two consecutive intersections (`BodyDefined`). The source leaves `passage12` uninitialised otherwise.
- The flat branch compares `begin()` iterators of `waypoints` and `tierTwoWaypoints`. Two distinct vectors never compare equal there, so that comparison is modelled as false.
- The through-intersection splice (`Task.h` 531-545) is not modelled. Its writes go into the copy that `getPath()` returns, so they leave the plan unchanged. Its reads are not harmless, though:
  - The hallway body holds 2n-1 steps for n intersections.
  - When n leaves remainder 2 on division by 3 (n = 2, for example), the loop's last pass has `i = end_passage-2`.
  - The guards at `Task.h` 533 and 539 then read `skeleton_waypoints[i+2]`, one past the end of the plan. This happens whenever a `graph_through_intersections` row matches the first two labels.
  - That out-of-bounds read is undefined behaviour. The model neither captures nor excludes it: `HallwayDefined` admits such plans, and the model builds them as if the read were harmless.
- PlanBuild.Bridge: models the `j += 0.1` loop as 11 exact steps k/10. The real count depends on floating-point rounding.
- The hallway branches keep `farthest_path` and `farthest_passage` apart. Both hold the sub-index of the farthest step whenever they are used, so the model keeps one value.
- Tasks.Task.SetPassageValues: `average_passage` is appended to and never cleared, as in the source. The default insertion of `std::map::operator[]` on a missing key is modelled as a lookup with a default value; it is not observable through the modelled operations.
- `sk_waypoint`'s `original_path` field is not modelled: no modelled operation reads it.
- Integer overflow in the `(int)` casts of `updatePlanPositions`/`getPlanPositionValue`, and the float-to-double conversion in `addTask`, are not modelled. Reals are exact.
- Tasks.Task.IncrementDecisionCount and Tasks.Task.SaveDecision: the source declares return values it never returns. The model returns nothing.
- `generateWaypoints`, `generateOriginalWaypoints`, `planCost`, path-cost fields and all planner calls are left out. They only call the path planner. `origPlansInds` and `origNavGraph`, which they set, are plain fields here.
- Position equality is taken to be structural. `Position.h`, `FORRAction.h`, `FORRGeometry.h` and `PathPlanner.h` are not part of this model.
- `canAccessPoint`, `FORRRegion::inRegion` and graph lookups are uninterpreted. `get_distance` is compared squared.
- AgentState: these operations are left out because they are declared without a body:
  - `transformToEndpoints` (called by `setCurrentLaserScan`);
  - `moveTowards`, `getExpectedPositionAfterAction`, `getDistanceToNearestObstacle`, `getDistanceToObstacle`, `maxForwardAction`;
  - the `canSee*` functions.
- AgentState: the vetoed-action set is also left out.
- `getDistanceToTarget` and `isDestinationReached` are left out, because they use square roots on doubles.
- Logging to `cout` is left out. Laser scans keep only their range readings.
- The heap ownership of `new`-allocated tasks and sets is not modelled (they are never deleted). The agenda holds references to `Task` objects.
