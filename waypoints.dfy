/**
 * The plan step of a navigation plan (sk_waypoint), one constructor per type code.
 * In the source every step carries a path; for a region, an intersection and a
 * default-constructed step that path is always empty, so only sub-paths and
 * passages carry one here.
 */
module Waypoints {
  import opened Geometry

  datatype Waypoint =
    | Blank                                   // type -1: sk_waypoint()
    | RegionStop(region: Region)              // type 0: a disc to enter
    | SubPath(path: seq<Point>)               // type 1: a corridor traversed vertex by vertex
    | Intersection(passageLabel: int, centroid: Point, gridPoints: seq<seq<int>>)  // type 2
    | Passage(path: seq<Point>, passageLabel: int, centroid: Point, orientation: int, gridPoints: seq<seq<int>>)  // type 3
  {
    /** The source's `type` field. */
    function TypeCode(): int
    {
      match this
      case Blank => -1
      case RegionStop(_) => 0
      case SubPath(_) => 1
      case Intersection(_, _, _) => 2
      case Passage(_, _, _, _, _) => 3
    }

    /** Steps that are consumed vertex by vertex (types 1 and 3). */
    predicate IsPathLike()
    {
      SubPath? || Passage?
    }
  }

  /** `getPath()`: the step's point list, empty for the kinds that have none. */
  function PathOf(w: Waypoint): seq<Point>
  {
    if w.IsPathLike() then w.path else []
  }

  /** `setPath(p)`: replaces the point list of a sub-path or passage; the other kinds keep their empty list. */
  function WithPath(w: Waypoint, p: seq<Point>): (r: Waypoint)
    requires w.IsPathLike() || p == []
    ensures r.TypeCode() == w.TypeCode() && PathOf(r) == p
    ensures w.SubPath? ==> r == SubPath(p)
    ensures w.Passage? ==> r == w.(path := p)
    ensures !w.IsPathLike() ==> r == w
  {
    match w
    case SubPath(_) => SubPath(p)
    case Passage(_, lab, c, o, g) => Passage(p, lab, c, o, g)
    case _ => w
  }

  /** `getPathEnd()`: the last point of a non-empty point list. */
  function PathEnd(w: Waypoint): Point
    requires |PathOf(w)| > 0
  {
    PathOf(w)[|PathOf(w)| - 1]
  }
}
