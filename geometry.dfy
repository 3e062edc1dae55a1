/**
 * Plane geometry and the robot's per-cycle sensing, as the plan core consumes them.
 * Distances are compared without square roots: `distance(a, b) < r` with r >= 0
 * is the same as `Dist2(a, b) < r * r` over the reals.
 */
module Geometry {

  /** A point in the plane, in metres (CartesianPoint). */
  datatype Point = Point(x: real, y: real)

  /** A disc (FORRRegion): a centre and a radius. */
  datatype Region = Region(center: Point, radius: real)

  /** A robot pose (Position): a location and a heading. */
  datatype Position = Position(x: real, y: real, theta: real)

  /** A laser scan (sensor_msgs::LaserScan); only its range readings are modelled. */
  datatype LaserScan = LaserScan(ranges: seq<real>)

  /** The squared Euclidean distance. */
  function Dist2(a: Point, b: Point): real
  {
    (a.x - b.x) * (a.x - b.x) + (a.y - b.y) * (a.y - b.y)
  }

  /** `a.get_distance(b) < r` for a non-negative threshold r. */
  predicate Within(a: Point, b: Point, r: real)
  {
    Dist2(a, b) < r * r
  }

  /** The location part of a pose. */
  function Location(p: Position): Point
  {
    Point(p.x, p.y)
  }

  /**
   * What the geometry and perception modules tell the plan core in one control cycle:
   * the robot's location, the line-of-sight test from there with the current laser
   * endpoints (`canAccessPoint(laserEndpoints, position, target, 20)`), and the
   * region membership test (`FORRRegion::inRegion`). The last two are external and
   * stay uninterpreted.
   */
  datatype Sensing = Sensing(pos: Point, canAccess: Point -> bool, inRegion: (Region, Point) -> bool)
}

/** Motor actions (FORRAction): an action type and an integer parameter. */
module Actions {

  datatype ActionType = Forward | LeftTurn | RightTurn | Pause

  datatype Action = Action(kind: ActionType, param: int)
}
