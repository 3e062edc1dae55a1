/**
 * Index arithmetic of the 200 x 200 plan-positions grid (Task::updatePlanPositions
 * and Task::getPlanPositionValue): which rectangle an update marks and which
 * corner cells a query reads. The grid itself is an array field of Tasks.Task.
 */
module PlanGrid {
  /** The side of the grid. */
  const Dimension: int := 200

  /** (int)floor(r) and (int)ceil(r). */
  function Floor(r: real): int { r.Floor }

  function Ceil(r: real): (c: int)
    ensures (c - 1) as real < r <= c as real
  {
    -((-r).Floor)
  }

  predicate InGrid(i: int, j: int)
  {
    0 <= i < Dimension && 0 <= j < Dimension
  }

  /** The first row or column an update marks: floor - 1, raised to 0. */
  function LowBound(p: real): (b: int)
    ensures b >= 0
    ensures b == Floor(p) - 1 || (b == 0 && Floor(p) - 1 < 0)
  {
    var f := Floor(p) - 1;
    if f < 0 then 0 else f
  }

  /**
   * The last row or column an update marks: ceil + 1, lowered to 199. The source
   * compares the signed value with the unsigned grid size, so a negative value
   * also turns into 199.
   */
  function HighBound(p: real): (b: int)
    ensures 0 <= b < Dimension
    ensures 0 <= Ceil(p) + 1 < Dimension ==> b == Ceil(p) + 1
    ensures !(0 <= Ceil(p) + 1 < Dimension) ==> b == Dimension - 1
  {
    var c := Ceil(p) + 1;
    if c < 0 || c >= Dimension then Dimension - 1 else c
  }

  /** Cell (i, j) lies in the rectangle updatePlanPositions(px, py) marks. */
  predicate InBox(px: real, py: real, i: int, j: int)
  {
    LowBound(px) <= i <= HighBound(px) && LowBound(py) <= j <= HighBound(py)
  }

  /** Every cell an update marks is inside the grid. */
  lemma BoxInGrid(px: real, py: real, i: int, j: int)
    requires InBox(px, py, i, j)
    ensures InGrid(i, j)
  {
  }

  /** A position whose floor is inside the grid lies in the rectangle its own update marks. */
  lemma BoxCoversFloor(p: real)
    requires 0 <= Floor(p) < Dimension
    ensures LowBound(p) <= Floor(p) <= HighBound(p)
  {
    assert Floor(p) as real <= p;
  }

  /**
   * The signed/unsigned comparison at work: from -2 down, the rectangle stretches
   * over the whole axis, rows 0 to 199.
   */
  lemma FarNegativeCoversAxis(p: real)
    requires p <= -2.0
    ensures LowBound(p) == 0 && HighBound(p) == Dimension - 1
  {
    assert Floor(p) as real <= p;
    assert Ceil(p) <= -2;
  }

  /** The four corners getPlanPositionValue reads, in the order it reads them. */
  function Corners(px: real, py: real): (cs: seq<(int, int)>)
    ensures |cs| == 4
    ensures (Floor(px), Floor(py)) in cs
  {
    [(Floor(px), Floor(py)), (Floor(px), Ceil(py)), (Ceil(px), Floor(py)), (Ceil(px), Ceil(py))]
  }
}
