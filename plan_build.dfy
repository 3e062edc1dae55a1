/**
 * The plan builder of Task::generateWaypointsFromInds: how a list of graph node
 * indices becomes skeleton steps (regions joined by edge paths) or hallway steps
 * (intersections joined by passages, with a prologue, an epilogue and straight
 * "bridges" of small regions between them). Each building loop is a method
 * proved against the function that describes what it emits.
 */
module PlanBuild {
  import opened Geometry
  import opened Waypoints
  import opened Progress
  import opened PassageMeta

  /** A navigation-graph node; coordinates are in centimetres. */
  datatype Node = Node(x: real, y: real, radius: real, intersectionId: int)

  /** Node lookup and the trail stored on the edge between two nodes (getEdge(a, b)->getEdgePath(true)). */
  datatype Graph = Graph(node: int -> Node, edgePath: (int, int) -> seq<Point>)

  /** A node's position in metres. */
  function NodePoint(n: Node): Point
  {
    Point(n.x / 100.0, n.y / 100.0)
  }

  function NodeRegion(g: Graph, id: int): Region
  {
    Region(NodePoint(g.node(id)), g.node(id).radius)
  }

  /** std::reverse on a point list. */
  function Reverse(p: seq<Point>): (r: seq<Point>)
    ensures |r| == |p|
    ensures forall i | 0 <= i < |p| :: r[i] == p[|p| - 1 - i]
  {
    if p == [] then [] else Reverse(p[1..]) + [p[0]]
  }

  /** Consecutive indices of ids have a non-empty edge trail (path_from_edge[0] is read). */
  predicate EdgesDefined(g: Graph, ids: seq<int>)
  {
    forall k | 0 <= k < |ids| - 1 :: EdgeAt(g, ids, k)
  }

  /** The edge from index k to index k + 1 has a non-empty trail. */
  predicate EdgeAt(g: Graph, ids: seq<int>, k: int)
    requires 0 <= k < |ids| - 1
  {
    |g.edgePath(ids[k], ids[k + 1])| > 0
  }

  /** The edge trail from a to b, reversed unless its first point lies in a's region. */
  function OrientedEdge(g: Graph, inRegion: (Region, Point) -> bool, a: int, b: int): (r: seq<Point>)
    requires |g.edgePath(a, b)| > 0
    ensures var e := g.edgePath(a, b);
      && |r| == |e| && multiset(r) == multiset(e)
      && (inRegion(NodeRegion(g, a), e[0]) ==> r == e)
      && (!inRegion(NodeRegion(g, a), e[0]) ==> r[0] == e[|e| - 1] && r[|r| - 1] == e[0])
  {
    var e := g.edgePath(a, b);
    if inRegion(NodeRegion(g, a), e[0]) then e
    else
      ReverseIsPermutation(e);
      Reverse(e)
  }

  lemma {:induction false} ReverseIsPermutation(p: seq<Point>)
    ensures multiset(Reverse(p)) == multiset(p)
  {
    if p != [] {
      ReverseIsPermutation(p[1..]);
      assert p == [p[0]] + p[1..];
    }
  }

  /** What the segment loop emits for index k: its node's region, then the edge to the next node if any. */
  function SegmentStep(g: Graph, inRegion: (Region, Point) -> bool, ids: seq<int>, k: nat): seq<Waypoint>
    requires k < |ids| && EdgesDefined(g, ids)
  {
    [RegionStop(NodeRegion(g, ids[k]))]
      + (if k + 1 < |ids| then [EdgeStep(g, inRegion, ids, k)] else [])
  }

  /** The sub-path step from index k to index k + 1: the oriented edge trail, never empty. */
  function EdgeStep(g: Graph, inRegion: (Region, Point) -> bool, ids: seq<int>, k: nat): (w: Waypoint)
    requires k < |ids| - 1 && EdgesDefined(g, ids)
    ensures w.SubPath? && |w.path| == |g.edgePath(ids[k], ids[k + 1])| > 0
  {
    assert EdgeAt(g, ids, k);
    SubPath(OrientedEdge(g, inRegion, ids[k], ids[k + 1]))
  }

  /** What the segment loop emits for the first k indices. */
  function SegmentEmitted(g: Graph, inRegion: (Region, Point) -> bool, ids: seq<int>, k: nat): seq<Waypoint>
    requires k <= |ids| && EdgesDefined(g, ids)
  {
    if k == 0 then [] else SegmentEmitted(g, inRegion, ids, k - 1) + SegmentStep(g, inRegion, ids, k - 1)
  }

  /** A skeleton segment (the skeleton plan, the hallway prologue or epilogue). */
  function Segment(g: Graph, inRegion: (Region, Point) -> bool, ids: seq<int>): seq<Waypoint>
    requires EdgesDefined(g, ids)
  {
    SegmentEmitted(g, inRegion, ids, |ids|)
  }

  /**
   * The first k indices emit 2k steps, one fewer when they include the last index;
   * regions sit at even offsets and oriented edge trails at odd ones.
   */
  lemma {:induction false} SegmentEmittedShape(g: Graph, inRegion: (Region, Point) -> bool, ids: seq<int>, k: nat)
    requires k <= |ids| && EdgesDefined(g, ids)
    ensures var e := SegmentEmitted(g, inRegion, ids, k);
      && |e| == (if k == |ids| && k > 0 then 2 * k - 1 else 2 * k)
      && (forall i | 0 <= i < |e| && i % 2 == 0 :: e[i] == RegionStop(NodeRegion(g, ids[i / 2])))
      && (forall i | 0 <= i < |e| && i % 2 == 1 ::
            i / 2 + 1 < |ids| && e[i] == EdgeStep(g, inRegion, ids, i / 2))
  {
    if k > 0 {
      SegmentEmittedShape(g, inRegion, ids, k - 1);
      var prev := SegmentEmitted(g, inRegion, ids, k - 1);
      var step := SegmentStep(g, inRegion, ids, k - 1);
      var e := prev + step;
      assert |prev| == 2 * (k - 1);
      forall i | 0 <= i < |e|
        ensures i % 2 == 0 ==> e[i] == RegionStop(NodeRegion(g, ids[i / 2]))
        ensures i % 2 == 1 ==> i / 2 + 1 < |ids| && e[i] == EdgeStep(g, inRegion, ids, i / 2)
      {
        if i < |prev| {
          assert e[i] == prev[i];
        } else {
          assert e[i] == step[i - |prev|];
          assert i / 2 == k - 1;
        }
      }
    }
  }

  /** A segment laid out by the builder is a plan the progression engine can run on, in either mode, and it starts with a region. */
  lemma SegmentEmittedShaped(mode: Mode, g: Graph, inRegion: (Region, Point) -> bool, ids: seq<int>, k: nat, ap: seq<Point>)
    requires mode != Flat && k <= |ids| && EdgesDefined(g, ids)
    ensures PlanShaped(mode, SegmentEmitted(g, inRegion, ids, k), ap)
    ensures k > 0 ==> SegmentEmitted(g, inRegion, ids, k)[0].RegionStop?
  {
    SegmentEmittedKinds(g, inRegion, ids, k);
    var e := SegmentEmitted(g, inRegion, ids, k);
    forall i | 0 <= i < |e| ensures WaypointOk(mode, e[i], ap) && AimOk(mode, e[i]) {
      if i % 2 == 0 {
        assert e[i].RegionStop?;
      } else {
        assert e[i].SubPath? && |e[i].path| > 0;
      }
    }
    forall i, j | 0 <= i < |e| && j == i + 1 && j < |e| ensures e[i].IsPathLike() ==> !e[j].IsPathLike() {
      if i % 2 == 1 {
        assert j % 2 == 0 && e[j].RegionStop?;
      } else {
        assert e[i].RegionStop?;
      }
    }
    if k > 0 {
      assert e[0].RegionStop?;
    }
  }

  /** Regions sit at the even offsets of a segment, non-empty sub-paths at the odd ones. */
  lemma SegmentEmittedKinds(g: Graph, inRegion: (Region, Point) -> bool, ids: seq<int>, k: nat)
    requires k <= |ids| && EdgesDefined(g, ids)
    ensures forall i | 0 <= i < |SegmentEmitted(g, inRegion, ids, k)| && i % 2 == 0 ::
      SegmentEmitted(g, inRegion, ids, k)[i].RegionStop?
    ensures forall i | 0 <= i < |SegmentEmitted(g, inRegion, ids, k)| && i % 2 == 1 ::
      SegmentEmitted(g, inRegion, ids, k)[i].SubPath? && |SegmentEmitted(g, inRegion, ids, k)[i].path| > 0
  {
    SegmentEmittedShape(g, inRegion, ids, k);
    var e := SegmentEmitted(g, inRegion, ids, k);
    forall i | 0 <= i < |e| && i % 2 == 1 ensures e[i].SubPath? && |e[i].path| > 0 {
      assert e[i] == EdgeStep(g, inRegion, ids, i / 2);
    }
    forall i | 0 <= i < |e| && i % 2 == 0 ensures e[i].RegionStop? {
    }
  }

  /** A whole segment ends with the region of its last index. */
  lemma SegmentEndsAtRegion(g: Graph, inRegion: (Region, Point) -> bool, ids: seq<int>)
    requires |ids| > 0 && EdgesDefined(g, ids)
    ensures var e := Segment(g, inRegion, ids); |e| > 0 && e[|e| - 1] == RegionStop(NodeRegion(g, ids[|ids| - 1]))
  {
    SegmentEmittedShape(g, inRegion, ids, |ids|);
    assert (2 * |ids| - 2) % 2 == 0;
  }

  /** The segment loop: one region per index, and the oriented edge to the next index. */
  method BuildSegment(g: Graph, inRegion: (Region, Point) -> bool, ids: seq<int>) returns (r: seq<Waypoint>)
    requires EdgesDefined(g, ids)
    ensures r == Segment(g, inRegion, ids)
  {
    r := [];
    var step := 0;
    while step < |ids|
      invariant 0 <= step <= |ids|
      invariant r == SegmentEmitted(g, inRegion, ids, step)
    {
      var region := NodeRegion(g, ids[step]);
      r := r + [RegionStop(region)];
      if step + 1 <= |ids| - 1 {
        assert EdgeAt(g, ids, step);
        var pathFromEdge := g.edgePath(ids[step], ids[step + 1]);
        if !inRegion(region, pathFromEdge[0]) {
          pathFromEdge := Reverse(pathFromEdge);
        }
        r := r + [SubPath(pathFromEdge)];
      }
      step := step + 1;
    }
  }

  // ------------------------------------------------------------------ bridges

  /** The k-th of the eleven interpolation points from start (k = 0) to end (k = 10). */
  function Lerp(start: Point, end: Point, k: nat): Point
  {
    var j := k as real / 10.0;
    Point(end.x * j + start.x * (1.0 - j), end.y * j + start.y * (1.0 - j))
  }

  /** The bridge: radius-0.5 regions at j = 0, 0.1, ..., 1 along the segment from start to end. */
  function Bridge(start: Point, end: Point): (r: seq<Waypoint>)
    ensures |r| == 11
    ensures forall i | 0 <= i < 11 :: r[i].RegionStop? && r[i].region.radius == 0.5
    ensures r[0].region.center == start && r[10].region.center == end
  {
    seq(11, k requires 0 <= k => RegionStop(Region(Lerp(start, end, k), 0.5)))
  }

  /** The bridge loop. */
  method BuildBridge(start: Point, end: Point) returns (r: seq<Waypoint>)
    ensures r == Bridge(start, end)
  {
    r := [];
    var k := 0;
    while k <= 10
      invariant 0 <= k <= 11
      invariant |r| == k
      invariant forall i | 0 <= i < k :: r[i] == RegionStop(Region(Lerp(start, end, i), 0.5))
    {
      r := r + [RegionStop(Region(Lerp(start, end, k), 0.5))];
      k := k + 1;
    }
  }

  /** A bridge is made of regions only, so it is a shaped plan in either mode. */
  lemma BridgeShaped(mode: Mode, start: Point, end: Point, ap: seq<Point>)
    requires mode != Flat
    ensures PlanShaped(mode, Bridge(start, end), ap)
  {
    var b := Bridge(start, end);
    assert forall i | 0 <= i < |b| :: b[i].RegionStop?;
  }

  // ----------------------------------------------------------- passage plans

  /** Every passage_graph row holds (intersection, passage, intersection). */
  predicate Triples(rows: seq<seq<int>>)
  {
    forall i | 0 <= i < |rows| :: |rows[i]| >= 3
  }

  datatype RowMatch = NoRow | Row(index: nat, reversed: bool)

  predicate Forward(rows: seq<seq<int>>, i: nat, a: int, b: int)
    requires i < |rows| && Triples(rows)
  {
    rows[i][0] == a && rows[i][2] == b
  }

  predicate Backward(rows: seq<seq<int>>, i: nat, a: int, b: int)
    requires i < |rows| && Triples(rows)
  {
    rows[i][0] == b && rows[i][2] == a
  }

  /** The first row from index i on joining a and b, either way round; a forward match wins within a row. */
  function FirstRow(rows: seq<seq<int>>, a: int, b: int, i: nat): (m: RowMatch)
    requires Triples(rows)
    ensures m.Row? ==> i <= m.index < |rows|
    ensures m.Row? ==> (if m.reversed then Backward(rows, m.index, a, b) && !Forward(rows, m.index, a, b)
                        else Forward(rows, m.index, a, b))
    decreases |rows| - i
  {
    if i >= |rows| then NoRow
    else if Forward(rows, i, a, b) then Row(i, false)
    else if Backward(rows, i, a, b) then Row(i, true)
    else FirstRow(rows, a, b, i + 1)
  }

  /** No row before the one found joins a and b; with no row found, none does. */
  lemma {:induction false} FirstRowIsFirst(rows: seq<seq<int>>, a: int, b: int, i: nat, j: nat)
    requires Triples(rows) && i <= j < |rows|
    requires FirstRow(rows, a, b, i).NoRow? || j < FirstRow(rows, a, b, i).index
    ensures !Forward(rows, j, a, b) && !Backward(rows, j, a, b)
    decreases |rows| - i
  {
    if j > i {
      FirstRowIsFirst(rows, a, b, i + 1, j);
    }
  }

  /** The search loop over passage_graph. */
  method FindPassage(rows: seq<seq<int>>, a: int, b: int) returns (m: RowMatch)
    requires Triples(rows)
    ensures m == FirstRow(rows, a, b, 0)
  {
    m := NoRow;
    var i := 0;
    while i < |rows|
      invariant 0 <= i <= |rows|
      invariant FirstRow(rows, a, b, 0) == FirstRow(rows, a, b, i)
    {
      if rows[i][0] == a && rows[i][2] == b {
        m := Row(i, false);
        return;
      } else if rows[i][0] == b && rows[i][2] == a {
        m := Row(i, true);
        return;
      }
      i := i + 1;
    }
  }

  function IntersectionOf(g: Graph, id: int): int
  {
    g.node(id).intersectionId
  }

  /**
   * The body loop reads nothing undefined: every intersection label indexes
   * average_passage, and between consecutive intersections a passage_graph row
   * exists whose trail and label are in range (passage12 would be uninitialised).
   */
  predicate BodyDefined(g: Graph, t: PassageTables, ids: seq<int>)
  {
    && Triples(t.passageGraph)
    && (forall k | 0 <= k < |ids| :: 1 <= IntersectionOf(g, ids[k]) <= |t.averagePassage|)
    && (forall k | 0 <= k < |ids| - 1 :: LinkAt(g, t, ids, k))
  }

  /** Intersections k and k + 1 are joined by a usable passage_graph row. */
  predicate LinkAt(g: Graph, t: PassageTables, ids: seq<int>, k: int)
    requires Triples(t.passageGraph) && 0 <= k < |ids| - 1
  {
    LinkDefined(t, IntersectionOf(g, ids[k]), IntersectionOf(g, ids[k + 1]))
  }

  /** A row joins intersections a and b, and its trail and passage label are in range. */
  predicate LinkDefined(t: PassageTables, a: int, b: int)
    requires Triples(t.passageGraph)
  {
    var m := FirstRow(t.passageGraph, a, b, 0);
    && m.Row?
    && m.index < |t.trails|
    && 1 <= t.passageGraph[m.index][1] <= |t.averagePassage|
  }

  /** The passage step between intersections a and b found at row m. */
  function PassageStep(t: PassageTables, m: RowMatch): (w: Waypoint)
    requires Triples(t.passageGraph) && m.Row? && m.index < |t.passageGraph| && m.index < |t.trails|
    requires 1 <= t.passageGraph[m.index][1] <= |t.averagePassage|
    ensures w.Passage? && w.passageLabel == t.passageGraph[m.index][1]
    ensures w.centroid == t.averagePassage[w.passageLabel - 1]
    ensures |w.path| == |t.trails[m.index]|
    ensures !m.reversed ==> w.path == t.trails[m.index]
  {
    var passage12 := t.passageGraph[m.index][1];
    var trail := t.trails[m.index];
    Passage(if m.reversed then Reverse(trail) else trail, passage12, t.averagePassage[passage12 - 1],
            OrientationOf(t.edgeOrientation, passage12), Cells(t.graphEdges, passage12))
  }

  /** What the body loop emits for index k: the intersection, then the passage to the next one if any. */
  function BodyStep(g: Graph, t: PassageTables, ids: seq<int>, k: nat): seq<Waypoint>
    requires k < |ids| && BodyDefined(g, t, ids)
  {
    [IntersectionStep(g, t, ids, k)]
      + (if k + 1 < |ids| then [PassageAt(g, t, ids, k)] else [])
  }

  /** The passage step between intersections k and k + 1, from the first passage_graph row joining them. */
  function PassageAt(g: Graph, t: PassageTables, ids: seq<int>, k: nat): (w: Waypoint)
    requires k < |ids| - 1 && BodyDefined(g, t, ids)
    ensures w.Passage?
    ensures TrailsNonEmpty(g, t, ids) ==> |w.path| > 0
  {
    assert LinkAt(g, t, ids, k);
    assert TrailsNonEmpty(g, t, ids) ==> TrailAt(g, t, ids, k);
    PassageStep(t, FirstRow(t.passageGraph, IntersectionOf(g, ids[k]), IntersectionOf(g, ids[k + 1]), 0))
  }

  /** The intersection step for index k: its label, the passage centroid and the grid cells of the intersection. */
  function IntersectionStep(g: Graph, t: PassageTables, ids: seq<int>, k: nat): (w: Waypoint)
    requires k < |ids| && BodyDefined(g, t, ids)
    ensures w.Intersection? && w.passageLabel == IntersectionOf(g, ids[k])
    ensures w.centroid == t.averagePassage[w.passageLabel - 1]
  {
    var i1 := IntersectionOf(g, ids[k]);
    Intersection(i1, t.averagePassage[i1 - 1], Cells(t.graphNodes, i1))
  }

  function BodyEmitted(g: Graph, t: PassageTables, ids: seq<int>, k: nat): seq<Waypoint>
    requires k <= |ids| && BodyDefined(g, t, ids)
  {
    if k == 0 then [] else BodyEmitted(g, t, ids, k - 1) + BodyStep(g, t, ids, k - 1)
  }

  /**
   * The body alternates intersections (even offsets) and passages (odd offsets),
   * 2k-1 steps for all k indices; the intersections carry their own centroid.
   */
  lemma {:induction false} BodyEmittedShape(g: Graph, t: PassageTables, ids: seq<int>, k: nat)
    requires k <= |ids| && BodyDefined(g, t, ids)
    ensures var e := BodyEmitted(g, t, ids, k);
      && |e| == (if k == |ids| && k > 0 then 2 * k - 1 else 2 * k)
      && (forall i | 0 <= i < |e| && i % 2 == 0 ::
            e[i] == IntersectionStep(g, t, ids, i / 2))
      && (forall i | 0 <= i < |e| && i % 2 == 1 :: i / 2 + 1 < |ids| && e[i] == PassageAt(g, t, ids, i / 2))
  {
    if k > 0 {
      BodyEmittedShape(g, t, ids, k - 1);
      var prev := BodyEmitted(g, t, ids, k - 1);
      var step := BodyStep(g, t, ids, k - 1);
      var e := prev + step;
      assert |prev| == 2 * (k - 1);
      assert step[0] == IntersectionStep(g, t, ids, k - 1);
      assert |step| == 2 ==> step[1] == PassageAt(g, t, ids, k - 1);
      forall i | 0 <= i < |e|
        ensures i % 2 == 0 ==> e[i] == IntersectionStep(g, t, ids, i / 2)
        ensures i % 2 == 1 ==> i / 2 + 1 < |ids| && e[i] == PassageAt(g, t, ids, i / 2)
      {
        if i < |prev| {
          assert e[i] == prev[i];
        } else if i == |prev| {
          assert e[i] == step[0];
          assert i % 2 == 0 && i / 2 == k - 1;
        } else {
          assert e[i] == step[1];
          assert i % 2 == 1;
        }
      }
    }
  }

  /** Every passage used has a non-empty trail. */
  predicate TrailsNonEmpty(g: Graph, t: PassageTables, ids: seq<int>)
    requires BodyDefined(g, t, ids)
  {
    forall k | 0 <= k < |ids| - 1 :: TrailAt(g, t, ids, k)
  }

  /** The passage between intersections k and k + 1 has a non-empty trail. */
  predicate TrailAt(g: Graph, t: PassageTables, ids: seq<int>, k: int)
    requires BodyDefined(g, t, ids) && 0 <= k < |ids| - 1
  {
    assert LinkAt(g, t, ids, k);
    |t.trails[FirstRow(t.passageGraph, IntersectionOf(g, ids[k]), IntersectionOf(g, ids[k + 1]), 0).index]| > 0
  }

  /** With non-empty trails the body is a hallway plan the progression engine can run on. */
  lemma BodyEmittedShaped(g: Graph, t: PassageTables, ids: seq<int>, k: nat)
    requires k <= |ids| && BodyDefined(g, t, ids) && TrailsNonEmpty(g, t, ids)
    ensures PlanShaped(Hallway, BodyEmitted(g, t, ids, k), t.averagePassage)
  {
    BodyEmittedKinds(g, t, ids, k);
    var e := BodyEmitted(g, t, ids, k);
    forall i | 0 <= i < |e| ensures WaypointOk(Hallway, e[i], t.averagePassage) && AimOk(Hallway, e[i]) {
      if i % 2 == 0 {
        assert e[i].Intersection?;
      } else {
        assert e[i].Passage? && |e[i].path| > 0;
      }
    }
    forall i, j | 0 <= i < |e| && j == i + 1 && j < |e| ensures e[i].IsPathLike() ==> !e[j].IsPathLike() {
      if i % 2 == 1 {
        assert j % 2 == 0 && e[j].Intersection?;
      } else {
        assert e[i].Intersection?;
      }
    }
  }

  /** Intersections with a label in range sit at the even offsets of the body, passages with a non-empty trail at the odd ones. */
  lemma BodyEmittedKinds(g: Graph, t: PassageTables, ids: seq<int>, k: nat)
    requires k <= |ids| && BodyDefined(g, t, ids) && TrailsNonEmpty(g, t, ids)
    ensures forall i | 0 <= i < |BodyEmitted(g, t, ids, k)| && i % 2 == 0 ::
      BodyEmitted(g, t, ids, k)[i].Intersection? && 1 <= BodyEmitted(g, t, ids, k)[i].passageLabel <= |t.averagePassage|
    ensures forall i | 0 <= i < |BodyEmitted(g, t, ids, k)| && i % 2 == 1 ::
      BodyEmitted(g, t, ids, k)[i].Passage? && |BodyEmitted(g, t, ids, k)[i].path| > 0
  {
    BodyEmittedShape(g, t, ids, k);
    var e := BodyEmitted(g, t, ids, k);
    forall i | 0 <= i < |e|
      ensures if i % 2 == 0 then e[i].Intersection? && 1 <= e[i].passageLabel <= |t.averagePassage|
        else e[i].Passage? && |e[i].path| > 0
    {
      if i % 2 == 0 {
        assert e[i] == IntersectionStep(g, t, ids, i / 2);
      } else {
        assert e[i] == PassageAt(g, t, ids, i / 2);
      }
    }
  }

  /** The passage search of the body loop between intersections k and k + 1, with the trail reversed when the row runs backward. */
  method BodyPassage(g: Graph, t: PassageTables, ids: seq<int>, k: nat) returns (w: Waypoint)
    requires k < |ids| - 1 && BodyDefined(g, t, ids)
    ensures w == PassageAt(g, t, ids, k)
  {
    var intersection1 := IntersectionOf(g, ids[k]);
    var intersection2 := IntersectionOf(g, ids[k + 1]);
    assert LinkAt(g, t, ids, k);
    var m := FindPassage(t.passageGraph, intersection1, intersection2);
    var passage12 := t.passageGraph[m.index][1];
    var passagePath := t.trails[m.index];
    if m.reversed {
      passagePath := Reverse(passagePath);
    }
    w := Passage(passagePath, passage12, t.averagePassage[passage12 - 1],
                 OrientationOf(t.edgeOrientation, passage12), Cells(t.graphEdges, passage12));
  }

  /** The body loop, with the passage search inside it. */
  method BuildBody(g: Graph, t: PassageTables, ids: seq<int>) returns (r: seq<Waypoint>)
    requires BodyDefined(g, t, ids)
    ensures r == BodyEmitted(g, t, ids, |ids|)
  {
    r := [];
    var step := 0;
    while step < |ids|
      invariant 0 <= step <= |ids|
      invariant r == BodyEmitted(g, t, ids, step)
    {
      var intersection1 := IntersectionOf(g, ids[step]);
      r := r + [Intersection(intersection1, t.averagePassage[intersection1 - 1], Cells(t.graphNodes, intersection1))];
      if step + 1 <= |ids| - 1 {
        var passage := BodyPassage(g, t, ids, step);
        r := r + [passage];
      }
      step := step + 1;
    }
  }

  // ----------------------------------------------------------- the whole plan

  /** The planner's results that generateWaypointsFromInds reads: its name and graph. */
  datatype Planner = Planner(name: string, graph: Graph)

  /** The flat plan: one point per node index. */
  function FlatPoints(g: Graph, ids: seq<int>): (r: seq<Point>)
    ensures |r| == |ids|
    ensures forall k | 0 <= k < |ids| :: r[k] == NodePoint(g.node(ids[k]))
  {
    if ids == [] then [] else FlatPoints(g, ids[..|ids| - 1]) + [NodePoint(g.node(ids[|ids| - 1]))]
  }

  /** The flat loop. */
  method BuildFlat(g: Graph, ids: seq<int>) returns (r: seq<Point>)
    ensures r == FlatPoints(g, ids)
  {
    r := [];
    var i := 0;
    while i < |ids|
      invariant 0 <= i <= |ids|
      invariant r == FlatPoints(g, ids[..i])
    {
      assert ids[..i + 1][..i] == ids[..i];
      r := r + [NodePoint(g.node(ids[i]))];
      i := i + 1;
    }
    assert ids[..|ids|] == ids;
  }

  /** The bridge's start in the prologue has its coordinates swapped. */
  function Swapped(p: Point): Point
  {
    Point(p.y, p.x)
  }

  /** The hallway plan reads nothing undefined. */
  predicate HallwayDefined(g: Graph, og: Graph, t: PassageTables, ids: seq<int>, pro: seq<int>, epi: seq<int>)
  {
    && EdgesDefined(og, pro) && EdgesDefined(og, epi)
    && BodyDefined(g, t, ids)
  }

  /** The prologue bridge: added when the prologue's last region is more than 5 from the first intersection. */
  function BridgeIn(g: Graph, og: Graph, t: PassageTables, ids: seq<int>, pro: seq<int>): seq<Waypoint>
    requires BodyDefined(g, t, ids)
  {
    if |pro| > 0 && |ids| > 0 then
      var last := NodePoint(og.node(pro[|pro| - 1]));
      var first := t.averagePassage[IntersectionOf(g, ids[0]) - 1];
      if Dist2(last, first) > 25.0 then Bridge(Swapped(last), first) else []
    else []
  }

  /** The epilogue bridge: from the epilogue's first node to the body's last intersection, when they are more than 5 apart. */
  function BridgeOut(g: Graph, og: Graph, t: PassageTables, ids: seq<int>, epi: seq<int>): seq<Waypoint>
    requires BodyDefined(g, t, ids)
  {
    if |epi| > 0 && |ids| > 0 then
      var start := NodePoint(og.node(epi[0]));
      var end := t.averagePassage[IntersectionOf(g, ids[|ids| - 1]) - 1];
      if Dist2(start, end) > 25.0 then Bridge(start, end) else []
    else []
  }

  /** The steps the hallway branch appends: prologue, bridge, body, bridge, epilogue. */
  function HallwayPlan(g: Graph, og: Graph, t: PassageTables, inRegion: (Region, Point) -> bool,
                       ids: seq<int>, pro: seq<int>, epi: seq<int>): seq<Waypoint>
    requires HallwayDefined(g, og, t, ids, pro, epi)
  {
    Segment(og, inRegion, pro) + BridgeIn(g, og, t, ids, pro) + BodyEmitted(g, t, ids, |ids|)
      + BridgeOut(g, og, t, ids, epi) + Segment(og, inRegion, epi)
  }

  /**
   * The epilogue bridge runs backwards: its first region is centred on the
   * epilogue's first node and its last on the body's final intersection, so the
   * robot is led from the epilogue back towards the body.
   */
  lemma BridgeOutRunsBackward(g: Graph, og: Graph, t: PassageTables, ids: seq<int>, epi: seq<int>)
    requires BodyDefined(g, t, ids)
    requires |BridgeOut(g, og, t, ids, epi)| > 0
    ensures var b := BridgeOut(g, og, t, ids, epi);
      && b[0].region.center == NodePoint(og.node(epi[0]))
      && b[|b| - 1].region.center == t.averagePassage[IntersectionOf(g, ids[|ids| - 1]) - 1]
  {
  }

  /**
   * The prologue bridge starts from the prologue's last node with x and y swapped,
   * and ends on the first intersection's centroid.
   */
  lemma BridgeInStartsSwapped(g: Graph, og: Graph, t: PassageTables, ids: seq<int>, pro: seq<int>)
    requires BodyDefined(g, t, ids)
    requires |BridgeIn(g, og, t, ids, pro)| > 0
    ensures var b := BridgeIn(g, og, t, ids, pro);
      var last := NodePoint(og.node(pro[|pro| - 1]));
      && b[0].region.center == Point(last.y, last.x)
      && b[|b| - 1].region.center == t.averagePassage[IntersectionOf(g, ids[0]) - 1]
  {
  }

  /** The plan is empty or ends with a step that is not a path. */
  predicate EndsClear(a: seq<Waypoint>)
  {
    |a| == 0 || !a[|a| - 1].IsPathLike()
  }

  lemma Join(a: seq<Waypoint>, b: seq<Waypoint>, ap: seq<Point>)
    requires PlanShaped(Hallway, a, ap) && PlanShaped(Hallway, b, ap) && EndsClear(a)
    ensures PlanShaped(Hallway, a + b, ap)
    ensures EndsClear(b) ==> EndsClear(a + b)
  {
    PlanShapedAppend(Hallway, a, b, ap);
    if |b| > 0 { assert (a + b)[|a + b| - 1] == b[|b| - 1]; } else { assert a + b == a; }
  }

  /** The body ends with the intersection of its last index. */
  lemma BodyEndsClear(g: Graph, t: PassageTables, ids: seq<int>)
    requires BodyDefined(g, t, ids)
    ensures EndsClear(BodyEmitted(g, t, ids, |ids|))
    ensures |ids| > 0 ==> var e := BodyEmitted(g, t, ids, |ids|);
      |e| > 0 && e[|e| - 1] == IntersectionStep(g, t, ids, |ids| - 1)
  {
    BodyEmittedShape(g, t, ids, |ids|);
    if |ids| > 0 {
      var e := BodyEmitted(g, t, ids, |ids|);
      assert (|e| - 1) % 2 == 0;
    }
  }

  /** With non-empty edge and passage trails the whole hallway plan is one the progression engine can run on. */
  lemma HallwayPlanShaped(g: Graph, og: Graph, t: PassageTables, inRegion: (Region, Point) -> bool,
                          ids: seq<int>, pro: seq<int>, epi: seq<int>)
    requires HallwayDefined(g, og, t, ids, pro, epi) && TrailsNonEmpty(g, t, ids)
    ensures PlanShaped(Hallway, HallwayPlan(g, og, t, inRegion, ids, pro, epi), t.averagePassage)
  {
    var ap := t.averagePassage;
    var p := Segment(og, inRegion, pro);
    var bi := BridgeIn(g, og, t, ids, pro);
    var body := BodyEmitted(g, t, ids, |ids|);
    var bo := BridgeOut(g, og, t, ids, epi);
    var e := Segment(og, inRegion, epi);
    SegmentEmittedShaped(Hallway, og, inRegion, pro, |pro|, ap);
    SegmentEmittedShaped(Hallway, og, inRegion, epi, |epi|, ap);
    if |pro| > 0 { SegmentEndsAtRegion(og, inRegion, pro); }
    BodyEmittedShaped(g, t, ids, |ids|);
    BodyEndsClear(g, t, ids);
    BridgeClear(g, og, t, ids, pro, epi);
    Join(p, bi, ap);
    Join(p + bi, body, ap);
    Join(p + bi + body, bo, ap);
    Join(p + bi + body + bo, e, ap);
  }

  /** Both bridges consist of regions only. */
  lemma BridgeClear(g: Graph, og: Graph, t: PassageTables, ids: seq<int>, pro: seq<int>, epi: seq<int>)
    requires BodyDefined(g, t, ids)
    ensures var bi := BridgeIn(g, og, t, ids, pro);
      PlanShaped(Hallway, bi, t.averagePassage) && EndsClear(bi)
    ensures var bo := BridgeOut(g, og, t, ids, epi);
      PlanShaped(Hallway, bo, t.averagePassage) && EndsClear(bo)
  {
    var ap := t.averagePassage;
    if |pro| > 0 && |ids| > 0 {
      BridgeShaped(Hallway, Swapped(NodePoint(og.node(pro[|pro| - 1]))), ap[IntersectionOf(g, ids[0]) - 1], ap);
    }
    if |epi| > 0 && |ids| > 0 {
      BridgeShaped(Hallway, NodePoint(og.node(epi[0])), ap[IntersectionOf(g, ids[|ids| - 1]) - 1], ap);
    }
  }
}
