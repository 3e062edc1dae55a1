/**
 * The passage metadata Task::setPassageValues derives from the tables it is
 * given: the average point of each passage, in metres, and the orientation of
 * each passage from the integer bounding box of its grid cells.
 */
module PassageMeta {
  import opened Geometry

  /** A row of ap is empty (no average known) or holds at least an x and a y in centimetres. */
  predicate AverageRowOk(row: seq<int>)
  {
    |row| == 0 || |row| >= 2
  }

  /** One average_passage entry: the row's point in metres, or the origin for an empty row. */
  function AveragePoint(row: seq<int>): (p: Point)
    requires AverageRowOk(row)
    ensures |row| == 0 ==> p == Point(0.0, 0.0)
    ensures |row| > 0 ==> p.x * 100.0 == row[0] as real && p.y * 100.0 == row[1] as real
  {
    if |row| > 0 then Point(row[0] as real / 100.0, row[1] as real / 100.0) else Point(0.0, 0.0)
  }

  /** The entries the conversion loop appends, one per row. */
  function Averages(ap: seq<seq<int>>): (r: seq<Point>)
    requires forall i | 0 <= i < |ap| :: AverageRowOk(ap[i])
    ensures |r| == |ap|
    ensures forall i | 0 <= i < |ap| :: r[i] == AveragePoint(ap[i])
  {
    if ap == [] then [] else Averages(ap[..|ap| - 1]) + [AveragePoint(ap[|ap| - 1])]
  }

  /** Every grid cell holds at least an x and a y. */
  predicate CellsOk(cells: seq<seq<int>>)
  {
    forall j | 0 <= j < |cells| :: |cells[j]| >= 2
  }

  /** The bounding box the min/max loop computes; it starts from min 100000 and max 0. */
  datatype Box = Box(minX: int, maxX: int, minY: int, maxY: int)

  /** The box over the first n cells. */
  function BoxOf(cells: seq<seq<int>>, n: nat): (b: Box)
    requires n <= |cells| && CellsOk(cells)
    ensures b.minX <= 100000 && b.minY <= 100000 && b.maxX >= 0 && b.maxY >= 0
    ensures forall j | 0 <= j < n :: b.minX <= cells[j][0] && b.minY <= cells[j][1]
    ensures forall j | 0 <= j < n :: cells[j][0] <= b.maxX && cells[j][1] <= b.maxY
  {
    if n == 0 then Box(100000, 0, 100000, 0)
    else
      var b := BoxOf(cells, n - 1);
      var c := cells[n - 1];
      Box(if c[0] < b.minX then c[0] else b.minX, if c[0] > b.maxX then c[0] else b.maxX,
          if c[1] < b.minY then c[1] else b.minY, if c[1] > b.maxY then c[1] else b.maxY)
  }

  /** Each bound is its starting value or the coordinate of some cell. */
  lemma {:induction false} BoxAttained(cells: seq<seq<int>>, n: nat)
    requires n <= |cells| && CellsOk(cells)
    ensures var b := BoxOf(cells, n);
      && (b.minX == 100000 || exists j | 0 <= j < n :: b.minX == cells[j][0])
      && (b.maxX == 0 || exists j | 0 <= j < n :: b.maxX == cells[j][0])
      && (b.minY == 100000 || exists j | 0 <= j < n :: b.minY == cells[j][1])
      && (b.maxY == 0 || exists j | 0 <= j < n :: b.maxY == cells[j][1])
  {
    if n > 0 {
      BoxAttained(cells, n - 1);
    }
  }

  /** 1 (horizontal) when the box is wider than it is tall, else 0 (vertical). */
  function Orientation(cells: seq<seq<int>>): (o: int)
    requires CellsOk(cells)
    ensures o == 0 || o == 1
    ensures var b := BoxOf(cells, |cells|); o == 1 <==> b.maxX - b.minX > b.maxY - b.minY
    ensures cells == [] ==> o == 0
  {
    var b := BoxOf(cells, |cells|);
    if b.maxX - b.minX > b.maxY - b.minY then 1 else 0
  }

  /** The min/max loop. */
  method BoundingBox(cells: seq<seq<int>>) returns (minX: int, maxX: int, minY: int, maxY: int)
    requires CellsOk(cells)
    ensures Box(minX, maxX, minY, maxY) == BoxOf(cells, |cells|)
  {
    minX, maxX, minY, maxY := 100000, 0, 100000, 0;
    var j := 0;
    while j < |cells|
      invariant 0 <= j <= |cells|
      invariant Box(minX, maxX, minY, maxY) == BoxOf(cells, j)
    {
      if cells[j][0] < minX { minX := cells[j][0]; }
      if cells[j][0] > maxX { maxX := cells[j][0]; }
      if cells[j][1] < minY { minY := cells[j][1]; }
      if cells[j][1] > maxY { maxY := cells[j][1]; }
      j := j + 1;
    }
  }

  /** The passage tables handed to setPassageValues, with the ones derived from them. */
  datatype PassageTables = PassageTables(
    grid: seq<seq<int>>,
    graphNodes: map<int, seq<seq<int>>>,
    graphEdges: map<int, seq<seq<int>>>,
    edgeOrientation: map<int, int>,
    passageGraph: seq<seq<int>>,
    averagePassage: seq<Point>,
    trails: seq<seq<Point>>,
    throughIntersections: seq<seq<int>>,
    intersectionTrails: seq<seq<Point>>)

  /** std::map::operator[] on a table that is only ever read: a missing key reads as the default value. */
  function Cells(m: map<int, seq<seq<int>>>, key: int): seq<seq<int>>
  {
    if key in m then m[key] else []
  }

  function OrientationOf(m: map<int, int>, key: int): int
  {
    if key in m then m[key] else 0
  }

  /** Every row names a passage in its second entry, and that passage's cells hold an x and a y each. */
  predicate RowsOk(rows: seq<seq<int>>, edges: map<int, seq<seq<int>>>)
  {
    forall i | 0 <= i < |rows| :: |rows[i]| >= 2 && CellsOk(Cells(edges, rows[i][1]))
  }

  /** The orientation table after the loop has handled the first n rows of passage_graph. */
  function OrientationTable(m: map<int, int>, rows: seq<seq<int>>, edges: map<int, seq<seq<int>>>, n: nat): map<int, int>
    requires n <= |rows| && RowsOk(rows, edges)
  {
    if n == 0 then m
    else OrientationTable(m, rows, edges, n - 1)[rows[n - 1][1] := Orientation(Cells(edges, rows[n - 1][1]))]
  }

  /** After the loop every passage named by one of the first n rows maps to the orientation of its own cells. */
  lemma {:induction false} OrientationTableNamed(m: map<int, int>, rows: seq<seq<int>>, edges: map<int, seq<seq<int>>>, n: nat, i: nat)
    requires n <= |rows| && RowsOk(rows, edges) && i < n
    ensures var t := OrientationTable(m, rows, edges, n);
      rows[i][1] in t && t[rows[i][1]] == Orientation(Cells(edges, rows[i][1]))
  {
    if i < n - 1 {
      OrientationTableNamed(m, rows, edges, n - 1, i);
    }
  }

  /** A key no row names keeps what the table held before the loop, present or absent. */
  lemma {:induction false} OrientationTableKept(m: map<int, int>, rows: seq<seq<int>>, edges: map<int, seq<seq<int>>>, n: nat, key: int)
    requires n <= |rows| && RowsOk(rows, edges)
    requires forall i | 0 <= i < n :: rows[i][1] != key
    ensures var t := OrientationTable(m, rows, edges, n);
      (key in t <==> key in m) && (key in m ==> t[key] == m[key])
  {
    if n > 0 {
      OrientationTableKept(m, rows, edges, n - 1, key);
    }
  }

  /** The conversion loop of setPassageValues: one average point per row, appended to what was there. */
  method AppendAverages(prev: seq<Point>, ap: seq<seq<int>>) returns (r: seq<Point>)
    requires forall i | 0 <= i < |ap| :: AverageRowOk(ap[i])
    ensures r == prev + Averages(ap)
  {
    r := prev;
    var i := 0;
    while i < |ap|
      invariant 0 <= i <= |ap|
      invariant r == prev + Averages(ap[..i])
    {
      assert ap[..i + 1][..i] == ap[..i];
      var p := if |ap[i]| > 0 then Point(ap[i][0] as real / 100.0, ap[i][1] as real / 100.0) else Point(0.0, 0.0);
      r := r + [p];
      i := i + 1;
    }
    assert ap[..|ap|] == ap;
  }

  /** The orientation setPassageValues stores for one passage, from the bounding box of its cells. */
  method PassageOrientation(cells: seq<seq<int>>) returns (o: int)
    requires CellsOk(cells)
    ensures o == Orientation(cells)
  {
    var minX, maxX, minY, maxY := BoundingBox(cells);
    o := if maxX - minX > maxY - minY then 1 else 0;
  }

  /** The orientation loop of setPassageValues over every row of passage_graph. */
  method BuildOrientation(m: map<int, int>, rows: seq<seq<int>>, edges: map<int, seq<seq<int>>>) returns (t: map<int, int>)
    requires RowsOk(rows, edges)
    ensures t == OrientationTable(m, rows, edges, |rows|)
  {
    t := m;
    var k := 0;
    while k < |rows|
      invariant 0 <= k <= |rows|
      invariant t == OrientationTable(m, rows, edges, k)
    {
      var o := PassageOrientation(Cells(edges, rows[k][1]));
      t := t[rows[k][1] := o];
      k := k + 1;
    }
  }
}
