/**
 * Task: a navigation target with its plan, the plan's progression and the logs
 * kept while the robot pursues it.
 */
module Tasks {
  import opened Geometry
  import opened Actions
  import opened Waypoints
  import opened Progress
  import opened PassageMeta
  import opened PlanBuild
  import opened PlanGrid

  function NoGraph(): Graph
  {
    Graph(_ => Node(0.0, 0.0, 0.0, 0), (_, _) => [])
  }

  function NoTables(): PassageTables
  {
    PassageTables([], map[], map[], map[], [], [], [], [], [])
  }

  /** The hallway branch of generateWaypointsFromInds, on the list it appends. */
  method BuildHallway(g: Graph, og: Graph, t: PassageTables, inRegion: (Region, Point) -> bool,
                      ids: seq<int>, pro: seq<int>, epi: seq<int>) returns (r: seq<Waypoint>)
    requires HallwayDefined(g, og, t, ids, pro, epi)
    ensures r == HallwayPlan(g, og, t, inRegion, ids, pro, epi)
  {
    var prologue := BuildSegment(og, inRegion, pro);
    var bridgeIn: seq<Waypoint> := [];
    if |pro| > 0 && |ids| > 0 {
      SegmentEndsAtRegion(og, inRegion, pro);
      var center := prologue[|prologue| - 1].region.center;
      var passage := t.averagePassage[IntersectionOf(g, ids[0]) - 1];
      if Dist2(center, passage) > 25.0 {
        bridgeIn := BuildBridge(Point(center.y, center.x), passage);
      }
    }
    assert bridgeIn == BridgeIn(g, og, t, ids, pro);
    var body := BuildBody(g, t, ids);
    var bridgeOut: seq<Waypoint> := [];
    if |epi| > 0 && |ids| > 0 {
      BodyEndsClear(g, t, ids);
      var start := NodePoint(og.node(epi[0]));
      var end := body[|body| - 1].centroid;
      if Dist2(start, end) > 25.0 {
        bridgeOut := BuildBridge(start, end);
      }
    }
    assert bridgeOut == BridgeOut(g, og, t, ids, epi);
    var epilogue := BuildSegment(og, inRegion, epi);
    r := prologue + bridgeIn + body + bridgeOut + epilogue;
  }

  class Task {
    /** The target. */
    var x: real
    var y: real
    /** The aim point of a flat plan. */
    var wx: real
    var wy: real
    /** The aim step of a skeleton or hallway plan. */
    var wr: Waypoint

    var decisionCount: int
    var decisions: seq<Action>
    var posHist: seq<Position>
    var laserHist: seq<seq<Point>>
    var laserScanHist: seq<LaserScan>

    var isPlanActive: bool
    var isPlanComplete: bool
    var plannerName: string

    /** The flat plan and its second tier. */
    var waypoints: seq<Point>
    var tierTwoWaypoints: seq<Point>
    var origWaypoints: seq<Point>

    /** The skeleton or hallway plan, and the steps already passed. */
    var skeletonWaypoints: seq<Waypoint>
    var finishedSkWaypoints: seq<Waypoint>

    /** The passage tables set by setPassageValues. */
    var passages: PassageTables

    var waypointInd: seq<int>
    var plansInds: seq<seq<int>>
    var origPlansInds: seq<seq<int>>
    var navGraph: Graph
    var origNavGraph: Graph

    /** The 200 x 200 plan-positions grid; every cell is 0 or 1. */
    var planPositions: array2<int>

    predicate Valid()
      reads this, planPositions
    {
      && planPositions.Length0 == Dimension && planPositions.Length1 == Dimension
      && forall i, j | 0 <= i < Dimension && 0 <= j < Dimension :: planPositions[i, j] == 0 || planPositions[i, j] == 1
    }

    function Mode(): Mode
      reads this`plannerName
    {
      ModeOf(plannerName)
    }

    constructor (xIn: real, yIn: real)
      ensures Valid() && fresh(planPositions)
      ensures x == xIn && y == yIn && wx == xIn && wy == yIn && wr == Blank
      ensures decisionCount == 0 && decisions == [] && posHist == [] && laserHist == [] && laserScanHist == []
      ensures !isPlanActive && isPlanComplete && plannerName == "none"
      ensures waypoints == [] && tierTwoWaypoints == [] && origWaypoints == []
      ensures skeletonWaypoints == [] && finishedSkWaypoints == []
      ensures forall i, j | 0 <= i < Dimension && 0 <= j < Dimension :: planPositions[i, j] == 0
    {
      x, y := xIn, yIn;
      wx, wy := xIn, yIn;
      wr := Blank;
      decisionCount := 0;
      decisions, posHist, laserHist, laserScanHist := [], [], [], [];
      isPlanActive := false;
      isPlanComplete := true;
      plannerName := "none";
      waypoints, tierTwoWaypoints, origWaypoints := [], [], [];
      skeletonWaypoints, finishedSkWaypoints := [], [];
      passages := NoTables();
      waypointInd, plansInds, origPlansInds := [], [], [];
      navGraph, origNavGraph := NoGraph(), NoGraph();
      planPositions := new int[Dimension, Dimension]((i, j) => 0);
    }

    // ------------------------------------------------------------ reads

    /** getX/getY are defined: an active skeleton or hallway plan aims at a step that has an aim point. */
    predicate AimDefined()
      reads this`isPlanActive, this`plannerName, this`wr
    {
      isPlanActive ==> AimOk(Mode(), wr)
    }

    /**
     * getX and getY together: the target when no plan is active, otherwise the
     * flat aim point, a region's centre, a path's or passage's last point, or an
     * intersection's centroid.
     */
    function Aim(): (p: Point)
      reads this`isPlanActive, this`plannerName, this`wr, this`x, this`y, this`wx, this`wy
      requires AimDefined()
      ensures !isPlanActive ==> p == Point(x, y)
      ensures isPlanActive && Mode() == Flat ==> p == Point(wx, wy)
      ensures isPlanActive && Mode() != Flat && wr.RegionStop? ==> p == wr.region.center
      ensures isPlanActive && Mode() != Flat && wr.IsPathLike() ==> p == PathEnd(wr)
      ensures isPlanActive && Mode() == Hallway && wr.Intersection? ==> p == wr.centroid
    {
      if !isPlanActive then Point(x, y)
      else if Mode() == Flat then Point(wx, wy)
      else if wr.RegionStop? then wr.region.center
      else if Mode() == Hallway && wr.Intersection? then wr.centroid
      else PathEnd(wr)
    }

    /** isTaskComplete: the robot is within 1 of the target. */
    function IsTaskComplete(pos: Point): (r: bool)
      reads this`x, this`y
      ensures r <==> Dist2(pos, Point(x, y)) < 1.0
    {
      Within(pos, Point(x, y), 1.0)
    }

    /**
     * getWaypoints: the flat plan, or every point of the skeleton or hallway plan in
     * order; a point is listed exactly when some step contributes it.
     */
    function GetWaypoints(): (r: seq<Point>)
      reads this`plannerName, this`waypoints, this`skeletonWaypoints
      ensures Mode() == Flat ==> r == waypoints
      ensures Mode() != Flat ==> forall p :: p in r <==> exists i | 0 <= i < |skeletonWaypoints| :: p in PointsOf(Mode(), skeletonWaypoints[i])
    {
      if Mode() == Flat then waypoints
      else
        FlattenMembers(Mode(), skeletonWaypoints);
        Flatten(Mode(), skeletonWaypoints)
    }

    /** getPlanSize: the number of flat points listed, or of plan steps; an empty plan lists nothing. */
    function GetPlanSize(): (r: int)
      reads this`plannerName, this`waypoints, this`skeletonWaypoints
      ensures Mode() == Flat ==> r == |GetWaypoints()|
      ensures r == 0 ==> GetWaypoints() == []
    {
      if Mode() == Flat then |waypoints| else |skeletonWaypoints|
    }

    /** The reach tests of an active plan read nothing undefined. */
    predicate ScanDefined()
      reads this`isPlanActive, this`plannerName, this`skeletonWaypoints, this`passages
    {
      isPlanActive && Mode() != Flat ==> PlanOk(Mode(), skeletonWaypoints, passages.averagePassage)
    }

    /**
     * isAnyWaypointComplete: false for an inactive plan; otherwise true exactly when
     * the scan of setupNearestWaypoint would find a reached step.
     */
    function IsAnyWaypointComplete(s: Sensing): (r: bool)
      reads this`isPlanActive, this`plannerName, this`waypoints, this`skeletonWaypoints, this`passages
      requires ScanDefined()
      ensures !isPlanActive ==> !r
      ensures isPlanActive && Mode() == Flat ==> (r <==> FlatFarthest(waypoints, s.pos, |waypoints|) >= 0)
      ensures isPlanActive && Mode() != Flat ==>
        (r <==> Farthest(Mode(), skeletonWaypoints, s, passages.averagePassage, |skeletonWaypoints|) >= 0)
    {
      if !isPlanActive then false
      else if Mode() == Flat then
        FlatAnyReachedIffProgress(waypoints, s.pos);
        exists i | 0 <= i < |waypoints| :: Within(s.pos, waypoints[i], 0.75)
      else
        AnyReachedIffProgress(Mode(), skeletonWaypoints, s, passages.averagePassage);
        AnyReached(Mode(), skeletonWaypoints, s, passages.averagePassage)
    }

    // ------------------------------------------------------------ progression

    /**
     * setupNearestWaypoint reads nothing undefined: a flat plan keeps a head after
     * the step; a skeleton or hallway plan can be scanned and its new head, if any,
     * has an aim point.
     */
    predicate SetupDefined(s: Sensing)
      reads this`plannerName, this`waypoints, this`tierTwoWaypoints, this`skeletonWaypoints, this`passages
    {
      if Mode() == Flat then |FlatAdvance(waypoints, tierTwoWaypoints, s.pos).waypoints| > 0
      else AdvanceDefined(Mode(), skeletonWaypoints, s, passages.averagePassage)
    }

    /** setupNearestWaypoint: one progression step of the plan from the robot's sensing. */
    method SetupNearestWaypoint(s: Sensing)
      requires SetupDefined(s)
      modifies this`waypoints, this`tierTwoWaypoints, this`wx, this`wy, this`isPlanActive, this`isPlanComplete
      modifies this`skeletonWaypoints, this`finishedSkWaypoints, this`wr
      ensures Mode() == Flat ==>
        var st := FlatAdvance(old(waypoints), old(tierTwoWaypoints), s.pos);
        && waypoints == st.waypoints && tierTwoWaypoints == st.tierTwo
        && wx == waypoints[0].x && wy == waypoints[0].y
        && isPlanActive
        && isPlanComplete == (old(isPlanComplete) || |tierTwoWaypoints| == 0)
        && skeletonWaypoints == old(skeletonWaypoints) && finishedSkWaypoints == old(finishedSkWaypoints) && wr == old(wr)
      ensures Mode() != Flat ==>
        var st := AdvancePlan(Mode(), old(skeletonWaypoints), s, passages.averagePassage);
        && skeletonWaypoints == st.active
        && finishedSkWaypoints == old(finishedSkWaypoints) + st.retired
        && isPlanActive == (|skeletonWaypoints| > 0)
        && wr == (if |skeletonWaypoints| > 0 then skeletonWaypoints[0] else old(wr))
        && AimDefined()
        && waypoints == old(waypoints) && tierTwoWaypoints == old(tierTwoWaypoints)
        && wx == old(wx) && wy == old(wy) && isPlanComplete == old(isPlanComplete)
    {
      if Mode() == Flat {
        SetupFlat(s);
      } else {
        SetupSkeleton(s);
      }
    }

    /** The flat branch of setupNearestWaypoint. */
    method SetupFlat(s: Sensing)
      requires Mode() == Flat && |FlatAdvance(waypoints, tierTwoWaypoints, s.pos).waypoints| > 0
      modifies this`waypoints, this`tierTwoWaypoints, this`wx, this`wy, this`isPlanActive, this`isPlanComplete
      ensures var st := FlatAdvance(old(waypoints), old(tierTwoWaypoints), s.pos);
        && waypoints == st.waypoints && tierTwoWaypoints == st.tierTwo
        && wx == waypoints[0].x && wy == waypoints[0].y
        && isPlanActive
        && isPlanComplete == (old(isPlanComplete) || |tierTwoWaypoints| == 0)
    {
      waypoints, tierTwoWaypoints := StepFlat(waypoints, tierTwoWaypoints, s.pos);
      wx := waypoints[0].x;
      wy := waypoints[0].y;
      isPlanActive := |waypoints| > 0;
      if |tierTwoWaypoints| == 0 {
        isPlanComplete := true;
      }
    }

    /** The skeleton and hallway branches of setupNearestWaypoint. */
    method SetupSkeleton(s: Sensing)
      requires AdvanceDefined(Mode(), skeletonWaypoints, s, passages.averagePassage)
      modifies this`isPlanActive, this`skeletonWaypoints, this`finishedSkWaypoints, this`wr
      ensures var st := AdvancePlan(Mode(), old(skeletonWaypoints), s, passages.averagePassage);
        && skeletonWaypoints == st.active
        && finishedSkWaypoints == old(finishedSkWaypoints) + st.retired
        && isPlanActive == (|skeletonWaypoints| > 0)
        && wr == (if |skeletonWaypoints| > 0 then skeletonWaypoints[0] else old(wr))
        && AimDefined()
    {
      var active, retired := StepPlan(Mode(), skeletonWaypoints, s, passages.averagePassage);
      finishedSkWaypoints := finishedSkWaypoints + retired;
      skeletonWaypoints := active;
      if |skeletonWaypoints| > 0 {
        wr := skeletonWaypoints[0];
        isPlanActive := true;
      } else {
        isPlanActive := false;
      }
    }

    // ------------------------------------------------------------ building

    /** The steps the skeleton or hallway branch of generateWaypointsFromInds reads nothing undefined for. */
    predicate BuildDefined(planner: Planner, ids: seq<int>)
      reads this`origPlansInds, this`origNavGraph, this`passages
    {
      match ModeOf(planner.name)
      case Flat => true
      case Skeleton => EdgesDefined(planner.graph, ids)
      case Hallway =>
        |origPlansInds| >= 2 && HallwayDefined(planner.graph, origNavGraph, passages, ids, origPlansInds[0], origPlansInds[1])
    }

    /** The steps the skeleton or hallway branch appends to skeleton_waypoints. */
    function Built(planner: Planner, inRegion: (Region, Point) -> bool, ids: seq<int>): seq<Waypoint>
      reads this`origPlansInds, this`origNavGraph, this`passages
      requires BuildDefined(planner, ids)
    {
      match ModeOf(planner.name)
      case Flat => []
      case Skeleton => Segment(planner.graph, inRegion, ids)
      case Hallway => HallwayPlan(planner.graph, origNavGraph, passages, inRegion, ids, origPlansInds[0], origPlansInds[1])
    }

    /** generateWaypointsFromInds reads nothing undefined, including in the setupNearestWaypoint call it ends with. */
    predicate GenerateDefined(s: Sensing, planner: Planner, ids: seq<int>)
      reads this`skeletonWaypoints, this`passages, this`origPlansInds, this`origNavGraph
    {
      && BuildDefined(planner, ids)
      && (ModeOf(planner.name) == Flat ==>
            |FlatAdvance(FlatPoints(planner.graph, ids), FlatPoints(planner.graph, ids), s.pos).waypoints| > 0)
      && (ModeOf(planner.name) != Flat ==>
            AdvanceDefined(ModeOf(planner.name), skeletonWaypoints + Built(planner, s.inRegion, ids), s, passages.averagePassage))
    }

    /**
     * generateWaypointsFromInds: build the plan for the given node indices, appending
     * to whatever skeleton_waypoints already holds, then take one progression step.
     */
    method GenerateWaypointsFromInds(s: Sensing, planner: Planner, indices: seq<int>)
      requires GenerateDefined(s, planner, indices)
      modifies this`waypoints, this`tierTwoWaypoints, this`wx, this`wy, this`isPlanActive, this`isPlanComplete
      modifies this`skeletonWaypoints, this`finishedSkWaypoints, this`wr
      modifies this`waypointInd, this`navGraph, this`plannerName
      ensures waypointInd == indices && navGraph == planner.graph && plannerName == planner.name
      ensures Mode() == Flat ==>
        var pts := FlatPoints(planner.graph, indices);
        var st := FlatAdvance(pts, pts, s.pos);
        && waypoints == st.waypoints && tierTwoWaypoints == st.tierTwo
        && wx == waypoints[0].x && wy == waypoints[0].y
        && isPlanActive && isPlanComplete == (|tierTwoWaypoints| == 0)
        && skeletonWaypoints == old(skeletonWaypoints) && finishedSkWaypoints == old(finishedSkWaypoints)
      ensures Mode() != Flat ==>
        var plan := old(skeletonWaypoints) + old(Built(planner, s.inRegion, indices));
        var st := AdvancePlan(Mode(), plan, s, passages.averagePassage);
        && waypoints == [] && tierTwoWaypoints == []
        && skeletonWaypoints == st.active
        && finishedSkWaypoints == old(finishedSkWaypoints) + st.retired
        && isPlanActive == (|skeletonWaypoints| > 0)
        && (|skeletonWaypoints| > 0 ==> wr == skeletonWaypoints[0])
        && isPlanComplete == (if |plan| > 0 then false else old(isPlanComplete))
    {
      if ModeOf(planner.name) == Flat {
        GenerateFlat(s, planner, indices);
      } else {
        GenerateSkeleton(s, planner, indices);
      }
    }

    /** generateWaypointsFromInds for a flat planner. */
    method GenerateFlat(s: Sensing, planner: Planner, indices: seq<int>)
      requires ModeOf(planner.name) == Flat && GenerateDefined(s, planner, indices)
      modifies this`waypoints, this`tierTwoWaypoints, this`wx, this`wy, this`isPlanActive, this`isPlanComplete
      modifies this`skeletonWaypoints, this`finishedSkWaypoints, this`wr
      modifies this`waypointInd, this`navGraph, this`plannerName
      ensures waypointInd == indices && navGraph == planner.graph && plannerName == planner.name
      ensures var pts := FlatPoints(planner.graph, indices);
        var st := FlatAdvance(pts, pts, s.pos);
        && waypoints == st.waypoints && tierTwoWaypoints == st.tierTwo
        && wx == waypoints[0].x && wy == waypoints[0].y
        && isPlanActive && isPlanComplete == (|tierTwoWaypoints| == 0)
        && skeletonWaypoints == old(skeletonWaypoints) && finishedSkWaypoints == old(finishedSkWaypoints)
    {
      LayOutFlat(planner, indices);
      SetupNearestWaypoint(s);
    }

    /** The flat branch of generateWaypointsFromInds up to its setupNearestWaypoint call. */
    method LayOutFlat(planner: Planner, indices: seq<int>)
      requires ModeOf(planner.name) == Flat
      modifies this`waypoints, this`tierTwoWaypoints, this`isPlanActive, this`isPlanComplete
      modifies this`waypointInd, this`navGraph, this`plannerName
      ensures waypointInd == indices && navGraph == planner.graph && plannerName == planner.name
      ensures waypoints == FlatPoints(planner.graph, indices) && tierTwoWaypoints == waypoints
      ensures isPlanActive == (old(isPlanActive) || |indices| > 0)
      ensures isPlanComplete == (old(isPlanComplete) && |indices| == 0)
    {
      waypoints := [];
      tierTwoWaypoints := [];
      waypointInd := indices;
      navGraph := planner.graph;
      plannerName := planner.name;
      waypoints := BuildFlat(navGraph, waypointInd);
      if |waypointInd| > 0 {
        isPlanActive := true;
        isPlanComplete := false;
      }
      tierTwoWaypoints := waypoints;
    }

    /** generateWaypointsFromInds for a skeleton or hallway planner. */
    method GenerateSkeleton(s: Sensing, planner: Planner, indices: seq<int>)
      requires ModeOf(planner.name) != Flat && GenerateDefined(s, planner, indices)
      modifies this`waypoints, this`tierTwoWaypoints, this`wx, this`wy, this`isPlanActive, this`isPlanComplete
      modifies this`skeletonWaypoints, this`finishedSkWaypoints, this`wr
      modifies this`waypointInd, this`navGraph, this`plannerName
      ensures waypointInd == indices && navGraph == planner.graph && plannerName == planner.name
      ensures var plan := old(skeletonWaypoints) + old(Built(planner, s.inRegion, indices));
        var st := AdvancePlan(Mode(), plan, s, passages.averagePassage);
        && waypoints == [] && tierTwoWaypoints == []
        && skeletonWaypoints == st.active
        && finishedSkWaypoints == old(finishedSkWaypoints) + st.retired
        && isPlanActive == (|skeletonWaypoints| > 0)
        && (|skeletonWaypoints| > 0 ==> wr == skeletonWaypoints[0])
        && isPlanComplete == (if |plan| > 0 then false else old(isPlanComplete))
    {
      LayOutSkeleton(s.inRegion, planner, indices);
      SetupNearestWaypoint(s);
    }

    /** The skeleton and hallway branches of generateWaypointsFromInds up to the setupNearestWaypoint call. */
    method LayOutSkeleton(inRegion: (Region, Point) -> bool, planner: Planner, indices: seq<int>)
      requires ModeOf(planner.name) != Flat && BuildDefined(planner, indices)
      modifies this`waypoints, this`tierTwoWaypoints, this`isPlanActive, this`isPlanComplete
      modifies this`skeletonWaypoints, this`waypointInd, this`navGraph, this`plannerName
      ensures waypointInd == indices && navGraph == planner.graph && plannerName == planner.name
      ensures waypoints == [] && tierTwoWaypoints == []
      ensures skeletonWaypoints == old(skeletonWaypoints) + old(Built(planner, inRegion, indices))
      ensures isPlanActive == (old(isPlanActive) || |skeletonWaypoints| > 0)
      ensures isPlanComplete == (old(isPlanComplete) && |skeletonWaypoints| == 0)
    {
      var built := Built(planner, inRegion, indices);
      waypoints := [];
      tierTwoWaypoints := [];
      waypointInd := indices;
      navGraph := planner.graph;
      plannerName := planner.name;
      var plan;
      if Mode() == Skeleton {
        plan := BuildSegment(navGraph, inRegion, waypointInd);
      } else {
        plan := BuildHallway(navGraph, origNavGraph, passages, inRegion, waypointInd, origPlansInds[0], origPlansInds[1]);
      }
      assert plan == built;
      skeletonWaypoints := skeletonWaypoints + plan;
      assert skeletonWaypoints == old(skeletonWaypoints) + built;
      if |skeletonWaypoints| > 0 {
        isPlanActive := true;
        isPlanComplete := false;
      }
    }

    /**
     * createNewWaypoint: unless the point is already in the flat list and addAnyway is
     * false, put it in front of the plan (as a radius-0.5 region outside flat mode)
     * and aim at it.
     */
    method CreateNewWaypoint(newPoint: Point, addAnyway: bool)
      modifies this`waypoints, this`isPlanActive, this`wx, this`wy, this`skeletonWaypoints, this`wr
      ensures newPoint in old(waypoints) && !addAnyway ==>
        && waypoints == old(waypoints) && skeletonWaypoints == old(skeletonWaypoints)
        && isPlanActive == old(isPlanActive) && wx == old(wx) && wy == old(wy) && wr == old(wr)
      ensures !(newPoint in old(waypoints) && !addAnyway) && Mode() == Flat ==>
        && waypoints == [newPoint] + old(waypoints) && skeletonWaypoints == old(skeletonWaypoints)
        && wr == old(wr)
      ensures !(newPoint in old(waypoints) && !addAnyway) && Mode() != Flat ==>
        && skeletonWaypoints == [RegionStop(Region(newPoint, 0.5))] + old(skeletonWaypoints)
        && waypoints == old(waypoints) && wx == old(wx) && wy == old(wy)
      ensures !(newPoint in old(waypoints) && !addAnyway) ==> isPlanActive && AimDefined() && Aim() == newPoint
    {
      var found := false;
      var i := 0;
      while i < |waypoints|
        invariant 0 <= i <= |waypoints|
        invariant found <==> newPoint in waypoints[..i]
      {
        if waypoints[i] == newPoint {
          found := true;
          break;
        }
        i := i + 1;
      }
      assert !found ==> waypoints[..i] == waypoints;
      if !found || addAnyway {
        if Mode() == Flat {
          waypoints := [newPoint] + waypoints;
          isPlanActive := true;
          wx := newPoint.x;
          wy := newPoint.y;
        } else {
          skeletonWaypoints := [RegionStop(Region(newPoint, 0.5))] + skeletonWaypoints;
          isPlanActive := true;
          wr := skeletonWaypoints[0];
        }
      }
    }

    // ------------------------------------------------------------ grid

    /** getPlanPositionValue: whether one of the in-grid floor/ceil corners of (px, py) is marked. */
    function GetPlanPositionValue(px: real, py: real): (r: bool)
      reads this, planPositions
      requires Valid()
      ensures r <==> exists c | c in Corners(px, py) :: InGrid(c.0, c.1) && planPositions[c.0, c.1] == 1
    {
      var fx, fy, cx, cy := Floor(px), Floor(py), Ceil(px), Ceil(py);
      var cs := Corners(px, py);
      assert cs[0] == (fx, fy) && cs[1] == (fx, cy) && cs[2] == (cx, fy) && cs[3] == (cx, cy);
      || (InGrid(fx, fy) && planPositions[fx, fy] == 1)
      || (InGrid(fx, cy) && planPositions[fx, cy] == 1)
      || (InGrid(cx, fy) && planPositions[cx, fy] == 1)
      || (InGrid(cx, cy) && planPositions[cx, cy] == 1)
    }

    /**
     * updatePlanPositions: mark every cell of the clamped rectangle around (px, py)
     * with 1 and nothing else; a position whose floor is in the grid then reads as marked.
     */
    method UpdatePlanPositions(px: real, py: real)
      requires Valid()
      modifies planPositions
      ensures Valid()
      ensures forall i, j | 0 <= i < Dimension && 0 <= j < Dimension ::
        planPositions[i, j] == if InBox(px, py, i, j) then 1 else old(planPositions[i, j])
      ensures 0 <= Floor(px) < Dimension && 0 <= Floor(py) < Dimension ==> GetPlanPositionValue(px, py)
    {
      var floorX := Floor(px) - 1;
      var floorY := Floor(py) - 1;
      var ceilX := Ceil(px) + 1;
      var ceilY := Ceil(py) + 1;
      if floorX < 0 { floorX := 0; }
      if floorY < 0 { floorY := 0; }
      // ceil_x >= planPositions[0].size() compares as unsigned, so a negative value is caught too.
      if ceilX < 0 || ceilX >= Dimension { ceilX := Dimension - 1; }
      if ceilY < 0 || ceilY >= Dimension { ceilY := Dimension - 1; }
      assert floorX == LowBound(px) && floorY == LowBound(py) && ceilX == HighBound(px) && ceilY == HighBound(py);
      var i := floorX;
      while i <= ceilX
        invariant floorX <= i && (i <= ceilX + 1 || i == floorX)
        invariant forall a, b | 0 <= a < Dimension && 0 <= b < Dimension ::
          planPositions[a, b] == if floorX <= a < i && floorY <= b <= ceilY then 1 else old(planPositions[a, b])
      {
        var j := floorY;
        while j <= ceilY
          invariant floorY <= j && (j <= ceilY + 1 || j == floorY)
          invariant forall a, b | 0 <= a < Dimension && 0 <= b < Dimension ::
            planPositions[a, b] == if (floorX <= a < i && floorY <= b <= ceilY) || (a == i && floorY <= b < j) then 1 else old(planPositions[a, b])
        {
          planPositions[i, j] := 1;
          j := j + 1;
        }
        i := i + 1;
      }
      if 0 <= Floor(px) < Dimension && 0 <= Floor(py) < Dimension {
        BoxCoversFloor(px);
        BoxCoversFloor(py);
        assert planPositions[Floor(px), Floor(py)] == 1;
        assert (Floor(px), Floor(py)) in Corners(px, py);
      }
    }

    /** resetPlanPositions: a fresh all-zero grid, on which no position reads as marked. */
    method ResetPlanPositions()
      modifies this`planPositions
      ensures Valid() && fresh(planPositions)
      ensures forall i, j | 0 <= i < Dimension && 0 <= j < Dimension :: planPositions[i, j] == 0
      ensures forall px, py :: !GetPlanPositionValue(px, py)
    {
      planPositions := new int[Dimension, Dimension]((i, j) => 0);
    }

    // ------------------------------------------------------------ metadata and logs

    /**
     * setPassageValues: store the tables, append one average point per row of ap,
     * and record the orientation of every passage named in passage_graph.
     */
    method SetPassageValues(pg: seq<seq<int>>, pgn: map<int, seq<seq<int>>>, pge: map<int, seq<seq<int>>>,
                            pgr: seq<seq<int>>, ap: seq<seq<int>>, gt: seq<seq<Point>>,
                            gti: seq<seq<int>>, git: seq<seq<Point>>)
      requires forall i | 0 <= i < |ap| :: AverageRowOk(ap[i])
      requires RowsOk(pgr, pge)
      modifies this`passages
      ensures passages == PassageTables(pg, pgn, pge, OrientationTable(old(passages.edgeOrientation), pgr, pge, |pgr|),
                                        pgr, old(passages.averagePassage) + Averages(ap), gt, gti, git)
    {
      var averages := AppendAverages(passages.averagePassage, ap);
      var orientation := BuildOrientation(passages.edgeOrientation, pgr, pge);
      passages := PassageTables(pg, pgn, pge, orientation, pgr, averages, gt, gti, git);
    }

    method IncrementDecisionCount()
      modifies this`decisionCount
      ensures decisionCount == old(decisionCount) + 1
    {
      decisionCount := decisionCount + 1;
    }

    /** saveDecision: append to the decision log. */
    method SaveDecision(decision: Action)
      modifies this`decisions
      ensures decisions == old(decisions) + [decision]
    {
      decisions := decisions + [decision];
    }

    /** saveSensor: append the pose, the laser endpoints and the scan to their histories, which stay in step. */
    method SaveSensor(pos: Position, laserEndpoints: seq<Point>, scan: LaserScan)
      modifies this`posHist, this`laserHist, this`laserScanHist
      ensures posHist == old(posHist) + [pos]
      ensures laserHist == old(laserHist) + [laserEndpoints]
      ensures laserScanHist == old(laserScanHist) + [scan]
    {
      posHist := posHist + [pos];
      laserHist := laserHist + [laserEndpoints];
      laserScanHist := laserScanHist + [scan];
    }

    /** clearWaypoints: every plan list is emptied; the finished list is kept. */
    method ClearWaypoints()
      modifies this`waypoints, this`skeletonWaypoints, this`tierTwoWaypoints, this`origWaypoints
      ensures waypoints == [] && skeletonWaypoints == [] && tierTwoWaypoints == [] && origWaypoints == []
      ensures GetWaypoints() == [] && GetPlanSize() == 0
    {
      waypoints := [];
      skeletonWaypoints := [];
      tierTwoWaypoints := [];
      origWaypoints := [];
    }
  }
}
