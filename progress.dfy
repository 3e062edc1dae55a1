/**
 * The plan progression engine (Task::setupNearestWaypoint and Task::isAnyWaypointComplete),
 * stated as functions of the plan and the robot's sensing. The methods that run the
 * source's loops are proved against these functions; the lemmas state what one
 * progression step does to a plan.
 */
module Progress {
  import opened Geometry
  import opened Waypoints

  /** The plan representation, chosen by the planner's name. */
  datatype Mode = Flat | Skeleton | Hallway

  function ModeOf(plannerName: string): (m: Mode)
    ensures m == Skeleton <==> plannerName == "skeleton"
    ensures m == Hallway <==> plannerName == "hallwayskel"
  {
    if plannerName == "skeleton" then Skeleton
    else if plannerName == "hallwayskel" then Hallway
    else Flat
  }

  // ---------------------------------------------------------------- flat plans

  /** The last index below n whose point is within 0.75 of the robot, or -1. */
  function FlatFarthest(ws: seq<Point>, pos: Point, n: nat): (f: int)
    requires n <= |ws|
    ensures -1 <= f < n
    ensures f >= 0 ==> Within(pos, ws[f], 0.75)
    ensures forall i | f < i < n :: !Within(pos, ws[i], 0.75)
  {
    if n == 0 then -1
    else if Within(pos, ws[n - 1], 0.75) then n - 1
    else FlatFarthest(ws, pos, n - 1)
  }

  /** t with every element equal to p erased, the others kept in order. */
  function Without(t: seq<Point>, p: Point): (r: seq<Point>)
    ensures p !in r
    ensures p !in t ==> r == t
  {
    if t == [] then []
    else (if t[0] == p then [] else [t[0]]) + Without(t[1..], p)
  }

  /** Erasing p keeps exactly the other points. */
  lemma {:induction false} WithoutMembers(t: seq<Point>, p: Point)
    ensures forall q :: q in Without(t, p) <==> q in t && q != p
  {
    if t != [] {
      WithoutMembers(t[1..], p);
      assert t == [t[0]] + t[1..];
    }
  }

  /** Erasing p keeps every other point as often as it occurred. */
  lemma {:induction false} WithoutCounts(t: seq<Point>, p: Point)
    ensures multiset(Without(t, p)) == multiset(t)[p := 0]
  {
    if t != [] {
      WithoutCounts(t[1..], p);
      assert t == [t[0]] + t[1..];
    }
  }

  /** t with every element equal to one of rs erased, one point of rs after the other. */
  function WithoutAll(t: seq<Point>, rs: seq<Point>): (r: seq<Point>)
    ensures forall q :: q in r <==> q in t && q !in rs
    decreases |rs|
  {
    if rs == [] then t
    else
      assert forall q :: q in rs <==> q in rs[..|rs| - 1] || q == rs[|rs| - 1];
      WithoutMembers(WithoutAll(t, rs[..|rs| - 1]), rs[|rs| - 1]);
      Without(WithoutAll(t, rs[..|rs| - 1]), rs[|rs| - 1])
  }

  /** Erasing the points of rs keeps every other point as often as it occurred. */
  lemma {:induction false} WithoutAllCounts(t: seq<Point>, rs: seq<Point>, q: Point)
    ensures multiset(WithoutAll(t, rs))[q] == if q in rs then 0 else multiset(t)[q]
    decreases |rs|
  {
    if rs != [] {
      var last := rs[|rs| - 1];
      WithoutAllCounts(t, rs[..|rs| - 1], q);
      WithoutCounts(WithoutAll(t, rs[..|rs| - 1]), last);
      assert q in rs <==> q in rs[..|rs| - 1] || q == last;
    }
  }

  /** Erasing one occurrence of p, then all of them, is erasing all of them. */
  lemma {:induction false} EraseOneOccurrence(t: seq<Point>, j: nat, p: Point)
    requires j < |t| && t[j] == p
    ensures Without(t[..j] + t[j + 1..], p) == Without(t, p)
  {
    var u := t[..j] + t[j + 1..];
    if j == 0 {
      assert u == t[1..];
    } else {
      var rest := t[1..];
      assert u[0] == t[0];
      assert u[1..] == rest[..j - 1] + rest[j..];
      EraseOneOccurrence(rest, j - 1, p);
    }
  }

  /**
   * The inner loop of the flat branch of setupNearestWaypoint: erase every
   * element of t equal to p, stepping j back after each erase.
   */
  method EraseEvery(t: seq<Point>, p: Point) returns (r: seq<Point>)
    ensures r == Without(t, p)
  {
    r := t;
    var j := 0;
    while j < |r|
      invariant 0 <= j <= |r|
      invariant forall k | 0 <= k < j :: r[k] != p
      invariant Without(r, p) == Without(t, p)
    {
      if r[j] == p {
        EraseOneOccurrence(r, j, p);
        r := r[..j] + r[j + 1..];
      } else {
        j := j + 1;
      }
    }
    assert p !in r;
  }

  /** What one step leaves of a flat plan: the waypoints and the second-tier list. */
  datatype FlatStep = FlatStep(waypoints: seq<Point>, tierTwo: seq<Point>)

  /**
   * The flat branch after the scan found f. With f == 0 only the head goes: the
   * source erases the head of tierTwoWaypoints only when the two lists' begin()
   * iterators are equal, which for two distinct vectors never happens.
   */
  function FlatAdvanceWith(ws: seq<Point>, t: seq<Point>, f: int): FlatStep
    requires -1 <= f < |ws|
  {
    if f == 0 then FlatStep(ws[1..], t)
    else if f > 0 then FlatStep(ws[f..], WithoutAll(t, ws[..f + 1]))
    else FlatStep(ws, t)
  }

  function FlatAdvance(ws: seq<Point>, t: seq<Point>, pos: Point): FlatStep
  {
    FlatAdvanceWith(ws, t, FlatFarthest(ws, pos, |ws|))
  }

  /** One flat step: what is kept, what becomes the head, and what leaves the second tier. */
  lemma FlatAdvanceFacts(ws: seq<Point>, t: seq<Point>, pos: Point)
    ensures var f, r := FlatFarthest(ws, pos, |ws|), FlatAdvance(ws, t, pos);
      && (f == -1 ==> r == FlatStep(ws, t))
      && (f == 0 ==> r == FlatStep(ws[1..], t))
      && (f > 0 ==> r.waypoints == ws[f..] && r.waypoints[0] == ws[f] && Within(pos, r.waypoints[0], 0.75))
      && (f > 0 ==> forall q :: q in r.tierTwo <==> q in t && q !in ws[..f + 1])
      && (forall i | 0 < i < |r.waypoints| :: !Within(pos, r.waypoints[i], 0.75))
  {
    var f, r := FlatFarthest(ws, pos, |ws|), FlatAdvance(ws, t, pos);
    forall i | 0 < i < |r.waypoints| ensures !Within(pos, r.waypoints[i], 0.75) {
      if f > 0 { assert r.waypoints[i] == ws[f + i]; }
      else if f == 0 { assert r.waypoints[i] == ws[i + 1]; }
    }
  }

  /** The flat scan: the index of the farthest point within 0.75, or -1. */
  method ScanFlat(ws: seq<Point>, pos: Point) returns (farthest: int)
    ensures farthest == FlatFarthest(ws, pos, |ws|)
  {
    farthest := -1;
    var i := 0;
    while i < |ws|
      invariant 0 <= i <= |ws|
      invariant farthest == FlatFarthest(ws, pos, i)
    {
      if Within(pos, ws[i], 0.75) {
        farthest := i;
      }
      i := i + 1;
    }
  }

  // ------------------------------------------------------ skeleton and hallway

  /** Vertex j of a path is passed: the robot is within 0.5 of it and can see vertex j + 1. */
  predicate VertexReached(path: seq<Point>, j: int, s: Sensing)
    requires 0 <= j < |path| - 1
  {
    Within(s.pos, path[j], 0.5) && s.canAccess(path[j + 1])
  }

  /** The last passed vertex below n, or -1. */
  function LastVertex(path: seq<Point>, s: Sensing, n: nat): (r: int)
    requires n <= |path| - 1
    ensures -1 <= r < n
    ensures r >= 0 ==> VertexReached(path, r, s)
    ensures forall j | r < j < n :: !VertexReached(path, j, s)
  {
    if n == 0 then -1
    else if VertexReached(path, n - 1, s) then n - 1
    else LastVertex(path, s, n - 1)
  }

  /** farthest_here: the scan runs j < size-1, so it is at most size-2. */
  function SubIndex(path: seq<Point>, s: Sensing): (r: int)
    requires |path| > 0
    ensures -1 <= r <= |path| - 2
    ensures r >= 0 ==> VertexReached(path, r, s)
    ensures forall j | r < j < |path| - 1 :: !VertexReached(path, j, s)
  {
    LastVertex(path, s, |path| - 1)
  }

  /** A sub-path or passage counts as reached: some vertex is passed, or the last point is within 0.5. */
  predicate PathReached(path: seq<Point>, s: Sensing)
    requires |path| > 0
  {
    SubIndex(path, s) > -1 || Within(s.pos, path[|path| - 1], 0.5)
  }

  /** A region counts as reached: the robot is inside it and within 0.75 of its centre. */
  predicate RegionReached(r: Region, s: Sensing)
  {
    s.inRegion(r, s.pos) && Within(r.center, s.pos, 0.75)
  }

  /**
   * The steps the scan can examine without undefined behaviour: every step that the
   * scan reads a path from has a non-empty one (size()-1 would wrap around), an
   * intersection's label indexes average_passage. The skeleton scan treats every
   * step that is not a region as a path, so there an intersection or a blank step
   * (whose path is empty) is excluded; the hallway scan passes over a blank step.
   */
  predicate WaypointOk(mode: Mode, w: Waypoint, ap: seq<Point>)
  {
    match mode
    case Flat => true
    case Skeleton => w.RegionStop? || |PathOf(w)| > 0
    case Hallway =>
      && (w.IsPathLike() ==> |PathOf(w)| > 0)
      && (w.Intersection? ==> 1 <= w.passageLabel <= |ap|)
  }

  predicate PlanOk(mode: Mode, ws: seq<Waypoint>, ap: seq<Point>)
  {
    forall i | 0 <= i < |ws| :: WaypointOk(mode, ws[i], ap)
  }

  /** The reach test both setupNearestWaypoint and isAnyWaypointComplete apply to one step. */
  predicate Reached(mode: Mode, w: Waypoint, s: Sensing, ap: seq<Point>)
    requires mode != Flat && WaypointOk(mode, w, ap)
  {
    if w.RegionStop? then RegionReached(w.region, s)
    else if w.Intersection? then Within(ap[w.passageLabel - 1], s.pos, 0.75)
    else if w.Blank? then false
    else PathReached(PathOf(w), s)
  }

  /** The farthest reached step below n, or -1. */
  function Farthest(mode: Mode, ws: seq<Waypoint>, s: Sensing, ap: seq<Point>, n: nat): (f: int)
    requires mode != Flat && n <= |ws| && PlanOk(mode, ws, ap)
    ensures -1 <= f < n
    ensures f >= 0 ==> Reached(mode, ws[f], s, ap)
    ensures forall i | f < i < n :: !Reached(mode, ws[i], s, ap)
  {
    if n == 0 then -1
    else if Reached(mode, ws[n - 1], s, ap) then n - 1
    else Farthest(mode, ws, s, ap, n - 1)
  }

  /** farthest_path as the scan leaves it: the sub-index of the last reached path-like step below n, or -1. */
  function LastPathSub(mode: Mode, ws: seq<Waypoint>, s: Sensing, ap: seq<Point>, n: nat): (r: int)
    requires mode != Flat && n <= |ws| && PlanOk(mode, ws, ap)
    ensures r >= -1
  {
    if n == 0 then -1
    else if ws[n - 1].IsPathLike() && Reached(mode, ws[n - 1], s, ap) then SubIndex(PathOf(ws[n - 1]), s)
    else LastPathSub(mode, ws, s, ap, n - 1)
  }

  /** When the farthest reached step is path-like, farthest_path is that step's own sub-index. */
  lemma {:induction false} LastPathSubAtFarthest(mode: Mode, ws: seq<Waypoint>, s: Sensing, ap: seq<Point>, n: nat)
    requires mode != Flat && n <= |ws| && PlanOk(mode, ws, ap)
    requires Farthest(mode, ws, s, ap, n) >= 0 && ws[Farthest(mode, ws, s, ap, n)].IsPathLike()
    ensures LastPathSub(mode, ws, s, ap, n) == SubIndex(PathOf(ws[Farthest(mode, ws, s, ap, n)]), s)
  {
    if !Reached(mode, ws[n - 1], s, ap) {
      LastPathSubAtFarthest(mode, ws, s, ap, n - 1);
    }
  }

  /** A plan step: the new active list and what it appends to finished_sk_waypoints. */
  datatype Step = Step(active: seq<Waypoint>, retired: seq<Waypoint>)

  /** The points from index k on; empty when k is past the end (the copy loop runs no iteration). */
  function Drop(p: seq<Point>, k: nat): (r: seq<Point>)
    ensures k <= |p| ==> r == p[k..]
    ensures k >= |p| ==> r == []
  {
    if k <= |p| then p[k..] else []
  }

  /** setPath(path[k..]) on a step. */
  function Trim(w: Waypoint, k: nat): Waypoint
  {
    WithPath(w, Drop(PathOf(w), k))
  }

  /**
   * The trimming of setupNearestWaypoint once the scan found f and farthest_path sub.
   * As in the source, when f > 0 the erase counts are one short of what is pushed to
   * the finished list, and a partly reached path trims the step that ends up first,
   * which is step f-1, not step f.
   */
  function AdvanceWith(ws: seq<Waypoint>, f: int, sub: int): Step
    requires -1 <= f < |ws| && sub >= -1
  {
    if f < 0 then Step(ws, [])
    else if f == 0 && (!ws[0].IsPathLike() || sub == |PathOf(ws[0])| - 1) then Step(ws[1..], [ws[0]])
    else if f == 0 then Step([Trim(ws[0], sub + 1)] + ws[1..], [])
    else if !ws[f].IsPathLike() || sub == |PathOf(ws[f])| - 1 then Step(ws[f..], ws[..f + 1])
    else Step([Trim(ws[f - 1], sub + 1)] + ws[f..], ws[..f])
  }

  /** The sub-index the trimming uses: that of the farthest step when it is path-like. */
  function FarthestSub(mode: Mode, ws: seq<Waypoint>, s: Sensing, ap: seq<Point>): (r: int)
    requires mode != Flat && PlanOk(mode, ws, ap)
    ensures r >= -1
  {
    var f := Farthest(mode, ws, s, ap, |ws|);
    if f >= 0 && ws[f].IsPathLike() then SubIndex(PathOf(ws[f]), s) else -1
  }

  /** One progression step of a skeleton or hallway plan. */
  function AdvancePlan(mode: Mode, ws: seq<Waypoint>, s: Sensing, ap: seq<Point>): Step
    requires mode != Flat && PlanOk(mode, ws, ap)
  {
    AdvanceWith(ws, Farthest(mode, ws, s, ap, |ws|), FarthestSub(mode, ws, s, ap))
  }

  /** The step can be made the aim point: getX/getY return a value for it. */
  predicate AimOk(mode: Mode, w: Waypoint)
  {
    match mode
    case Flat => true
    case Skeleton => w.RegionStop? || |PathOf(w)| > 0
    case Hallway => w.RegionStop? || w.Intersection? || (w.IsPathLike() && |PathOf(w)| > 0)
  }

  /** setupNearestWaypoint is defined on this plan: the scan is, and so is the aim it sets. */
  predicate AdvanceDefined(mode: Mode, ws: seq<Waypoint>, s: Sensing, ap: seq<Point>)
  {
    && mode != Flat
    && PlanOk(mode, ws, ap)
    && var st := AdvancePlan(mode, ws, s, ap);
       |st.active| > 0 ==> AimOk(mode, st.active[0])
  }

  /** The scan over one path: farthest_here. */
  method ScanPath(path: seq<Point>, s: Sensing) returns (farthestHere: int)
    requires |path| > 0
    ensures farthestHere == SubIndex(path, s)
  {
    farthestHere := -1;
    var j := 0;
    while j < |path| - 1
      invariant 0 <= j <= |path| - 1
      invariant farthestHere == LastVertex(path, s, j)
    {
      if Within(s.pos, path[j], 0.5) && s.canAccess(path[j + 1]) {
        farthestHere := j;
      }
      j := j + 1;
    }
  }

  /** The scan of setupNearestWaypoint over a skeleton or hallway plan. */
  method ScanPlan(mode: Mode, ws: seq<Waypoint>, s: Sensing, ap: seq<Point>) returns (farthest: int, farthestPath: int)
    requires mode != Flat && PlanOk(mode, ws, ap)
    ensures farthest == Farthest(mode, ws, s, ap, |ws|)
    ensures farthestPath == LastPathSub(mode, ws, s, ap, |ws|)
  {
    farthest, farthestPath := -1, -1;
    var i := 0;
    while i < |ws|
      invariant 0 <= i <= |ws|
      invariant farthest == Farthest(mode, ws, s, ap, i)
      invariant farthestPath == LastPathSub(mode, ws, s, ap, i)
    {
      var w := ws[i];
      if w.RegionStop? {
        if s.inRegion(w.region, s.pos) && Within(w.region.center, s.pos, 0.75) {
          farthest := i;
        }
      } else if w.Intersection? {
        if Within(ap[w.passageLabel - 1], s.pos, 0.75) {
          farthest := i;
        }
      } else if w.Blank? {
      } else {
        var path := PathOf(w);
        var farthestHere := ScanPath(path, s);
        if farthestHere > -1 || Within(s.pos, path[|path| - 1], 0.5) {
          farthest := i;
          farthestPath := farthestHere;
        }
      }
      i := i + 1;
    }
  }

  /** The copy loop that builds the trimmed point list: the points from index k on. */
  method CopySuffix(p: seq<Point>, k: nat) returns (r: seq<Point>)
    ensures r == Drop(p, k)
  {
    r := [];
    var i := k;
    while i < |p|
      invariant k <= i || (i == k && k >= |p|)
      invariant i <= |p| ==> r == p[k..i]
      invariant i > |p| ==> r == [] && i == k
    {
      r := r + [p[i]];
      i := i + 1;
    }
  }

  /** The flat branch of setupNearestWaypoint on the two lists: scan, purge the second tier, erase the prefix. */
  method StepFlat(ws: seq<Point>, t: seq<Point>, pos: Point) returns (active: seq<Point>, tierTwo: seq<Point>)
    ensures FlatStep(active, tierTwo) == FlatAdvance(ws, t, pos)
  {
    var farthest := ScanFlat(ws, pos);
    active, tierTwo := ws, t;
    if farthest == 0 {
      active := ws[1..];
    } else if farthest > 0 {
      var i := 0;
      while i <= farthest
        invariant 0 <= i <= farthest + 1
        invariant tierTwo == WithoutAll(t, ws[..i])
      {
        assert ws[..i + 1][..i] == ws[..i];
        tierTwo := EraseEvery(tierTwo, ws[i]);
        i := i + 1;
      }
      active := ws[farthest..];
    }
  }

  /**
   * The skeleton and hallway branches of setupNearestWaypoint on the plan: scan,
   * push the passed prefix to the finished list, erase it and trim the new head.
   */
  method StepPlan(mode: Mode, ws: seq<Waypoint>, s: Sensing, ap: seq<Point>) returns (active: seq<Waypoint>, retired: seq<Waypoint>)
    requires mode != Flat && PlanOk(mode, ws, ap)
    ensures Step(active, retired) == AdvancePlan(mode, ws, s, ap)
  {
    var farthest, farthestPath := ScanPlan(mode, ws, s, ap);
    if farthest >= 0 && ws[farthest].IsPathLike() {
      LastPathSubAtFarthest(mode, ws, s, ap, |ws|);
    }
    active, retired := ApplyAdvance(ws, farthest, farthestPath);
  }

  /** The push loop: the steps before index n, one at a time, onto the finished list. */
  method PushPrefix(ws: seq<Waypoint>, n: nat) returns (retired: seq<Waypoint>)
    requires n <= |ws|
    ensures retired == ws[..n]
  {
    retired := [];
    var i := 0;
    while i < n
      invariant 0 <= i <= n
      invariant retired == ws[..i]
    {
      assert ws[..i + 1] == ws[..i] + [ws[i]];
      retired := retired + [ws[i]];
      i := i + 1;
    }
  }

  /** The trimming half of the skeleton and hallway branches, once the scan has found f and sub. */
  method ApplyAdvance(ws: seq<Waypoint>, f: int, sub: int) returns (active: seq<Waypoint>, retired: seq<Waypoint>)
    requires -1 <= f < |ws| && sub >= -1
    ensures Step(active, retired) == AdvanceWith(ws, f, sub)
  {
    active, retired := ws, [];
    if f == 0 && (!ws[0].IsPathLike() || sub == |PathOf(ws[0])| - 1) {
      retired := [ws[0]];
      active := ws[1..];
    } else if f == 0 {
      var newPath := CopySuffix(PathOf(ws[0]), sub + 1);
      active := [WithPath(ws[0], newPath)] + ws[1..];
    } else if f > 0 {
      var full := !ws[f].IsPathLike() || sub == |PathOf(ws[f])| - 1;
      var last := if full then f else f - 1;
      retired := PushPrefix(ws, last + 1);
      active := ws[last..];
      if !full {
        var newPath := CopySuffix(PathOf(ws[f - 1]), sub + 1);
        active := [WithPath(ws[f - 1], newPath)] + ws[f..];
      }
    }
  }

  // ------------------------------------------------------ what one step does

  /** Whether some step counts as reached: what isAnyWaypointComplete reports. */
  predicate AnyReached(mode: Mode, ws: seq<Waypoint>, s: Sensing, ap: seq<Point>)
    requires mode != Flat && PlanOk(mode, ws, ap)
  {
    exists i | 0 <= i < |ws| :: Reached(mode, ws[i], s, ap)
  }

  /** isAnyWaypointComplete holds exactly when setupNearestWaypoint would find something to advance to. */
  lemma AnyReachedIffProgress(mode: Mode, ws: seq<Waypoint>, s: Sensing, ap: seq<Point>)
    requires mode != Flat && PlanOk(mode, ws, ap)
    ensures AnyReached(mode, ws, s, ap) <==> Farthest(mode, ws, s, ap, |ws|) >= 0
  {
    var f := Farthest(mode, ws, s, ap, |ws|);
    if f >= 0 {
      assert Reached(mode, ws[f], s, ap);
    }
  }

  /** The flat counterpart: some point is within 0.75 exactly when the flat scan finds one. */
  lemma FlatAnyReachedIffProgress(ws: seq<Point>, pos: Point)
    ensures (exists i | 0 <= i < |ws| :: Within(pos, ws[i], 0.75)) <==> FlatFarthest(ws, pos, |ws|) >= 0
  {
    var f := FlatFarthest(ws, pos, |ws|);
    if f >= 0 {
      assert Within(pos, ws[f], 0.75);
    }
  }

  /**
   * The farthest reached step is a region or an intersection: the steps before it
   * leave the plan, it stays as the new head, and the finished list receives it as
   * well, so the last finished step and the new head are the same step.
   */
  lemma AdvanceToPoint(mode: Mode, ws: seq<Waypoint>, s: Sensing, ap: seq<Point>)
    requires mode != Flat && PlanOk(mode, ws, ap)
    requires Farthest(mode, ws, s, ap, |ws|) >= 0 && !ws[Farthest(mode, ws, s, ap, |ws|)].IsPathLike()
    ensures var f, st := Farthest(mode, ws, s, ap, |ws|), AdvancePlan(mode, ws, s, ap);
      && (f == 0 ==> st.active == ws[1..] && st.retired == [ws[0]])
      && (f > 0 ==> st.active == ws[f..] && st.retired == ws[..f + 1] && st.retired[f] == st.active[0])
  {
  }

  /**
   * The trimming once the farthest step f is path-like with a sub-index below its
   * last vertex: a step at the head keeps a non-empty suffix of its path; a later
   * step leaves the step before it as the head, trimmed, and retires the ones before.
   */
  lemma AdvanceWithPath(ws: seq<Waypoint>, f: nat, sub: int)
    requires f < |ws| && ws[f].IsPathLike() && -1 <= sub <= |PathOf(ws[f])| - 2
    ensures var st := AdvanceWith(ws, f, sub);
      && (f == 0 ==> st.active == [Trim(ws[0], sub + 1)] + ws[1..] && st.retired == []
                     && PathOf(st.active[0]) == PathOf(ws[0])[sub + 1..] && |PathOf(st.active[0])| > 0)
      && (f > 0 ==> st.active == [Trim(ws[f - 1], sub + 1)] + ws[f..] && st.retired == ws[..f])
      && (f > 0 && !ws[f - 1].IsPathLike() ==> st.active == ws[f - 1..])
  {
    if f > 0 && !ws[f - 1].IsPathLike() {
      assert Trim(ws[f - 1], sub + 1) == ws[f - 1];
      assert ws[f - 1..] == [ws[f - 1]] + ws[f..];
    }
  }

  /**
   * The farthest reached step is a path or a passage. Its sub-index is at most
   * size-2, so the branch that retires a path passed to its end never runs: the
   * path is trimmed instead, as AdvanceWithPath describes.
   */
  lemma AdvanceToPath(mode: Mode, ws: seq<Waypoint>, s: Sensing, ap: seq<Point>)
    requires mode != Flat && PlanOk(mode, ws, ap)
    requires Farthest(mode, ws, s, ap, |ws|) >= 0 && ws[Farthest(mode, ws, s, ap, |ws|)].IsPathLike()
    ensures var f := Farthest(mode, ws, s, ap, |ws|);
      var sub := SubIndex(PathOf(ws[f]), s);
      && FarthestSub(mode, ws, s, ap) == sub <= |PathOf(ws[f])| - 2
      && AdvancePlan(mode, ws, s, ap) == AdvanceWith(ws, f, sub)
  {
  }

  /** No two path-like steps are next to each other, as the plan builders lay them out. */
  predicate NoAdjacentPaths(ws: seq<Waypoint>)
  {
    forall i, j | 0 <= i < |ws| && j == i + 1 && j < |ws| :: ws[i].IsPathLike() ==> !ws[j].IsPathLike()
  }

  /** Every step is well formed for the scan and can be made the aim point. */
  predicate PlanShaped(mode: Mode, ws: seq<Waypoint>, ap: seq<Point>)
  {
    && mode != Flat
    && PlanOk(mode, ws, ap)
    && NoAdjacentPaths(ws)
    && forall i | 0 <= i < |ws| :: AimOk(mode, ws[i])
  }

  lemma ShapedSuffix(mode: Mode, ws: seq<Waypoint>, ap: seq<Point>, j: nat)
    requires PlanShaped(mode, ws, ap) && j <= |ws|
    ensures PlanShaped(mode, ws[j..], ap)
  {
    var r := ws[j..];
    assert forall i | 0 <= i < |r| :: r[i] == ws[j + i];
  }

  /** Trimming the head of a shaped plan by less than its whole path keeps it shaped. */
  lemma ShapedTrimHead(mode: Mode, ws: seq<Waypoint>, ap: seq<Point>, k: nat)
    requires PlanShaped(mode, ws, ap) && |ws| > 0
    requires ws[0].IsPathLike() ==> k < |PathOf(ws[0])|
    ensures PlanShaped(mode, [Trim(ws[0], k)] + ws[1..], ap)
  {
    var t := Trim(ws[0], k);
    var r := [t] + ws[1..];
    assert t.TypeCode() == ws[0].TypeCode();
    assert t.IsPathLike() == ws[0].IsPathLike();
    assert t.RegionStop? == ws[0].RegionStop? && t.Intersection? == ws[0].Intersection? && t.Blank? == ws[0].Blank?;
    assert t.Intersection? ==> t.passageLabel == ws[0].passageLabel;
    assert WaypointOk(mode, ws[0], ap) && AimOk(mode, ws[0]);
    assert WaypointOk(mode, t, ap) && AimOk(mode, t);
    assert forall i | 0 < i < |r| :: r[i] == ws[i];
  }

  /** The trimming, applied as the scan allows, keeps a shaped plan shaped and never lengthens it. */
  lemma AdvanceWithPreservesShape(mode: Mode, ws: seq<Waypoint>, ap: seq<Point>, f: int, sub: int)
    requires PlanShaped(mode, ws, ap) && -1 <= f < |ws| && sub >= -1
    requires f >= 0 && ws[f].IsPathLike() ==> sub <= |PathOf(ws[f])| - 2
    ensures PlanShaped(mode, AdvanceWith(ws, f, sub).active, ap)
    ensures |AdvanceWith(ws, f, sub).active| <= |ws|
  {
    if f < 0 {
    } else if !ws[f].IsPathLike() {
      ShapedSuffix(mode, ws, ap, if f == 0 then 1 else f);
    } else if f == 0 {
      ShapedTrimHead(mode, ws, ap, sub + 1);
    } else {
      AdvanceWithPath(ws, f, sub);
      assert !ws[f - 1].IsPathLike();
      ShapedSuffix(mode, ws, ap, f - 1);
    }
  }

  /**
   * A plan laid out as the builders do stays so after a step, never grows, and
   * setupNearestWaypoint is defined on it (the new head can be made the aim).
   */
  lemma AdvancePreservesShape(mode: Mode, ws: seq<Waypoint>, s: Sensing, ap: seq<Point>)
    requires PlanShaped(mode, ws, ap)
    ensures var st := AdvancePlan(mode, ws, s, ap);
      && PlanShaped(mode, st.active, ap)
      && |st.active| <= |ws|
      && AdvanceDefined(mode, ws, s, ap)
  {
    var f := Farthest(mode, ws, s, ap, |ws|);
    if f >= 0 && ws[f].IsPathLike() {
      AdvanceToPath(mode, ws, s, ap);
    }
    AdvanceWithPreservesShape(mode, ws, ap, f, FarthestSub(mode, ws, s, ap));
  }

  /** Two shaped plans laid end to end stay shaped unless a path would meet a path at the seam. */
  lemma PlanShapedAppend(mode: Mode, a: seq<Waypoint>, b: seq<Waypoint>, ap: seq<Point>)
    requires PlanShaped(mode, a, ap) && PlanShaped(mode, b, ap)
    requires |a| > 0 && |b| > 0 ==> !(a[|a| - 1].IsPathLike() && b[0].IsPathLike())
    ensures PlanShaped(mode, a + b, ap)
  {
    var r := a + b;
    forall i | 0 <= i < |r| ensures WaypointOk(mode, r[i], ap) && AimOk(mode, r[i]) {
      if i < |a| { assert r[i] == a[i]; } else { assert r[i] == b[i - |a|]; }
    }
    forall i, j | 0 <= i && j == i + 1 && j < |r| ensures r[i].IsPathLike() ==> !r[j].IsPathLike() {
      if j < |a| {
        assert r[i] == a[i] && r[j] == a[j];
      } else if j == |a| {
        assert r[i] == a[|a| - 1] && r[j] == b[0];
      } else {
        assert r[i] == b[i - |a|] && r[j] == b[j - |a|];
      }
    }
  }

  /** b ends with a. */
  predicate IsSuffix(a: seq<Point>, b: seq<Point>)
  {
    |a| <= |b| && b[|b| - |a|..] == a
  }

  /** The points a step contributes to the getWaypoints listing. */
  function PointsOf(mode: Mode, w: Waypoint): seq<Point>
  {
    if w.RegionStop? then [w.region.center]
    else if w.Intersection? && mode == Hallway then [w.centroid]
    else PathOf(w)
  }

  /** The getWaypoints listing of a skeleton or hallway plan. */
  function Flatten(mode: Mode, ws: seq<Waypoint>): seq<Point>
  {
    if ws == [] then [] else PointsOf(mode, ws[0]) + Flatten(mode, ws[1..])
  }

  lemma {:induction false} FlattenAppend(mode: Mode, a: seq<Waypoint>, b: seq<Waypoint>)
    ensures Flatten(mode, a + b) == Flatten(mode, a) + Flatten(mode, b)
    decreases |a|
  {
    if a == [] {
      assert a + b == b;
    } else {
      assert (a + b)[0] == a[0];
      assert (a + b)[1..] == a[1..] + b;
      FlattenAppend(mode, a[1..], b);
    }
  }

  /** Dropping the first j steps leaves a suffix of the listing. */
  lemma DropIsSuffix(mode: Mode, ws: seq<Waypoint>, j: nat)
    requires j <= |ws|
    ensures IsSuffix(Flatten(mode, ws[j..]), Flatten(mode, ws))
  {
    assert ws == ws[..j] + ws[j..];
    FlattenAppend(mode, ws[..j], ws[j..]);
  }

  /** Trimming a step leaves a suffix of its points. */
  lemma TrimPointsSuffix(mode: Mode, w: Waypoint, k: nat)
    ensures IsSuffix(PointsOf(mode, Trim(w, k)), PointsOf(mode, w))
  {
    if !w.IsPathLike() {
      assert Trim(w, k) == w;
    }
  }

  lemma SuffixExtends(a: seq<Point>, b: seq<Point>, c: seq<Point>)
    requires IsSuffix(a, b)
    ensures IsSuffix(a + c, b + c)
  {
    assert (b + c)[|b + c| - |a + c|..] == b[|b| - |a|..] + c;
  }

  lemma SuffixTransitive(a: seq<Point>, b: seq<Point>, c: seq<Point>)
    requires IsSuffix(a, b) && IsSuffix(b, c)
    ensures IsSuffix(a, c)
  {
    assert c[|c| - |a|..] == c[|c| - |b|..][|b| - |a|..];
  }

  /** Dropping the first j steps and trimming the next one leaves a suffix of the listing. */
  lemma TrimIsSuffix(mode: Mode, ws: seq<Waypoint>, j: nat, k: nat)
    requires j < |ws|
    ensures IsSuffix(Flatten(mode, [Trim(ws[j], k)] + ws[j + 1..]), Flatten(mode, ws))
  {
    var trimmed := [Trim(ws[j], k)] + ws[j + 1..];
    var rest := Flatten(mode, ws[j + 1..]);
    assert ws[j..][0] == ws[j] && ws[j..][1..] == ws[j + 1..];
    assert Flatten(mode, ws[j..]) == PointsOf(mode, ws[j]) + rest;
    assert trimmed[0] == Trim(ws[j], k) && trimmed[1..] == ws[j + 1..];
    assert Flatten(mode, trimmed) == PointsOf(mode, Trim(ws[j], k)) + rest;
    TrimPointsSuffix(mode, ws[j], k);
    SuffixExtends(PointsOf(mode, Trim(ws[j], k)), PointsOf(mode, ws[j]), rest);
    DropIsSuffix(mode, ws, j);
    SuffixTransitive(Flatten(mode, trimmed), Flatten(mode, ws[j..]), Flatten(mode, ws));
  }

  /**
   * Progress only ever consumes the plan from the front: the listing after a step
   * is a suffix of the listing before it.
   */
  lemma AdvanceListsSuffix(mode: Mode, ws: seq<Waypoint>, s: Sensing, ap: seq<Point>)
    requires mode != Flat && PlanOk(mode, ws, ap)
    ensures IsSuffix(Flatten(mode, AdvancePlan(mode, ws, s, ap).active), Flatten(mode, ws))
  {
    AdvanceWithListsSuffix(mode, ws, Farthest(mode, ws, s, ap, |ws|), FarthestSub(mode, ws, s, ap));
  }

  /** The same for the trimming alone, whatever the scan found. */
  lemma AdvanceWithListsSuffix(mode: Mode, ws: seq<Waypoint>, f: int, sub: int)
    requires -1 <= f < |ws| && sub >= -1
    ensures IsSuffix(Flatten(mode, AdvanceWith(ws, f, sub).active), Flatten(mode, ws))
  {
    var j := StepStart(ws, f, sub);
    if AdvanceWith(ws, f, sub).active != ws[j..] {
      TrimIsSuffix(mode, ws, j, sub + 1);
    } else {
      DropIsSuffix(mode, ws, j);
    }
  }

  /**
   * Where the new plan starts in the old one: the trimming either drops the first
   * j steps, or drops them and trims step j.
   */
  function StepStart(ws: seq<Waypoint>, f: int, sub: int): (j: nat)
    requires -1 <= f < |ws| && sub >= -1
    ensures j <= |ws|
    ensures var active := AdvanceWith(ws, f, sub).active;
      active == ws[j..] || (j < |ws| && active == [Trim(ws[j], sub + 1)] + ws[j + 1..])
  {
    if f < 0 then 0
    else if f == 0 && (!ws[0].IsPathLike() || sub == |PathOf(ws[0])| - 1) then 1
    else if f == 0 then 0
    else if !ws[f].IsPathLike() || sub == |PathOf(ws[f])| - 1 then f
    else f - 1
  }

  /** A point is listed exactly when some step contributes it. */
  lemma {:induction false} FlattenMembers(mode: Mode, ws: seq<Waypoint>)
    ensures forall p :: p in Flatten(mode, ws) <==> exists i | 0 <= i < |ws| :: p in PointsOf(mode, ws[i])
  {
    if ws != [] {
      FlattenMembers(mode, ws[1..]);
      forall p ensures p in Flatten(mode, ws) <==> exists i | 0 <= i < |ws| :: p in PointsOf(mode, ws[i]) {
        if p in Flatten(mode, ws[1..]) {
          var i :| 0 <= i < |ws[1..]| && p in PointsOf(mode, ws[1..][i]);
          assert p in PointsOf(mode, ws[i + 1]);
        }
        if exists i | 0 <= i < |ws| :: p in PointsOf(mode, ws[i]) {
          var i :| 0 <= i < |ws| && p in PointsOf(mode, ws[i]);
          if i > 0 { assert ws[1..][i - 1] == ws[i]; }
        }
      }
    }
  }
}
