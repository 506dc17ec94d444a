/**
 Grid densification of watergeo.js: `compareNum`, `minMax` and `girlPoint2D`.
 The polygon's own vertices come first, then the points of a spacing-10
 lattice over its integer-rounded bounding box that test inside the polygon,
 in row-major order (x outer, y inner).
 */
module Lattice {

  import opened Wrappers
  import opened Geometry
  import opened RayCasting

  /** The lattice spacing `interval`. */
  const Interval: int := 10

  /** `compareNum`, the comparator `minMax` sorts with. */
  function CompareNum(a: real, b: real): (c: int)
    ensures c == -1 <==> a < b
    ensures c == 1 <==> a > b
    ensures c == 0 <==> a == b
  {
    if a < b then -1 else if a > b then 1 else 0
  }

  /** `compareNum` is a consistent comparator: antisymmetric, transitive, and zero only on equal values. */
  lemma CompareNumIsComparator(a: real, b: real, c: real)
    ensures CompareNum(a, b) == -CompareNum(b, a)
    ensures CompareNum(a, b) <= 0 && CompareNum(b, c) <= 0 ==> CompareNum(a, c) <= 0
    ensures CompareNum(a, b) == 0 ==> a == b
  {
  }

  /** Integer bounds of a set of coordinates. */
  datatype Bounds = Bounds(lo: int, hi: int)

  /**
   `minMax`: after sorting with `compareNum`, the floor of the first element and
   the ceiling of the last, i.e. of the smallest and the largest. An empty
   array has no bounds (JavaScript gives NaN for both).
   */
  function MinMax(arr: seq<real>): (b: Option<Bounds>)
    ensures b.None? <==> |arr| == 0
    ensures b.Some? ==> forall k :: 0 <= k < |arr| ==> b.value.lo as real <= arr[k] <= b.value.hi as real
    ensures b.Some? ==> exists k :: 0 <= k < |arr| && arr[k] < b.value.lo as real + 1.0
    ensures b.Some? ==> exists k :: 0 <= k < |arr| && arr[k] > b.value.hi as real - 1.0
  {
    if |arr| == 0 then None
    else
      var lo := SeqMin(arr);
      var hi := SeqMax(arr);
      assert exists k :: 0 <= k < |arr| && arr[k] == lo;
      assert exists k :: 0 <= k < |arr| && arr[k] == hi;
      Some(Bounds(Floor(lo), Ceil(hi)))
  }

  /** The lattice over a polygon's bounding box: origin, and `row` + 1 by `col` + 1 points. */
  datatype Grid = Grid(lon: Bounds, lat: Bounds, row: nat, col: nat)

  /** The number of spacing-10 steps needed to get from `lo` to at least `hi`: `Math.ceil((hi - lo) / interval)`. */
  function Steps(b: Bounds): (n: nat)
    requires b.lo <= b.hi
    ensures b.lo + Interval * n >= b.hi
    ensures n > 0 ==> b.lo + Interval * (n - 1) < b.hi
  {
    Ceil((b.hi - b.lo) as real / Interval as real)
  }

  /** The grid `girlPoint2D` lays over a polygon; none for the empty polygon. */
  function GridOf(poly: Polygon): (g: Option<Grid>)
    ensures g.None? <==> |poly| == 0
    ensures g.Some? ==> g.value.lon.lo <= g.value.lon.hi && g.value.lat.lo <= g.value.lat.hi
    ensures g.Some? ==> Some(g.value.lon) == MinMax(Xs(poly)) && Some(g.value.lat) == MinMax(Ys(poly))
    ensures g.Some? ==> g.value.row == Steps(g.value.lon) && g.value.col == Steps(g.value.lat)
  {
    match (MinMax(Xs(poly)), MinMax(Ys(poly)))
    case (Some(lon), Some(lat)) =>
      assert lon.lo as real <= Xs(poly)[0] <= lon.hi as real;
      assert lat.lo as real <= Ys(poly)[0] <= lat.hi as real;
      Some(Grid(lon, lat, Steps(lon), Steps(lat)))
    case _ => None
  }

  /** Lattice point (i, j): `[lonMin + i * interval, latMin + j * interval]`. */
  function LatticePoint(g: Grid, i: int, j: int): Point
  {
    Point((g.lon.lo + Interval * i) as real, (g.lat.lo + Interval * j) as real)
  }

  /** Row i of the lattice: the points (i, 0), ..., (i, col). */
  function Row(g: Grid, i: int): (r: seq<Point>)
    ensures |r| == g.col + 1
    ensures forall j :: 0 <= j <= g.col ==> r[j] == LatticePoint(g, i, j)
  {
    seq(g.col + 1, j requires 0 <= j <= g.col => LatticePoint(g, i, j))
  }

  /** Rows 0 .. n - 1, one after the other. */
  function Rows(g: Grid, n: nat): seq<Point>
  {
    if n == 0 then [] else Rows(g, n - 1) + Row(g, n - 1)
  }

  /**
   The candidate points of `girlPoint2D`: rows 0 .. `row` of the lattice, so
   the x index runs in the outer loop and the y index in the inner one.
   */
  function Candidates(g: Grid): seq<Point>
  {
    Rows(g, g.row + 1)
  }

  lemma {:induction false} RowsLength(g: Grid, n: nat)
    ensures |Rows(g, n)| == n * (g.col + 1)
  {
    if n > 0 {
      RowsLength(g, n - 1);
      assert n * (g.col + 1) == (n - 1) * (g.col + 1) + (g.col + 1);
    }
  }

  /** Within the first n rows, lattice point (i, j) sits at row-major position i * (col + 1) + j. */
  lemma {:induction false} RowsIndex(g: Grid, n: nat, i: nat, j: nat)
    requires i < n && j <= g.col
    ensures i * (g.col + 1) + j < |Rows(g, n)|
    ensures Rows(g, n)[i * (g.col + 1) + j] == LatticePoint(g, i, j)
  {
    var m := g.col + 1;
    RowsLength(g, n - 1);
    RowsLength(g, n);
    if i == n - 1 {
      assert Rows(g, n) == Rows(g, n - 1) + Row(g, n - 1);
      assert i * m + j == |Rows(g, n - 1)| + j;
    } else {
      RowsIndex(g, n - 1, i, j);
      assert i * m + j < |Rows(g, n - 1)|;
    }
  }

  /** The candidate list has exactly (row + 1) * (col + 1) points. */
  lemma CandidateCount(g: Grid)
    ensures |Candidates(g)| == (g.row + 1) * (g.col + 1)
  {
    RowsLength(g, g.row + 1);
  }

  /** Candidate (i, j) is (lonMin + 10 i, latMin + 10 j), at row-major position i * (col + 1) + j. */
  lemma CandidateLayout(g: Grid, i: nat, j: nat)
    requires i <= g.row && j <= g.col
    ensures i * (g.col + 1) + j < |Candidates(g)|
    ensures Candidates(g)[i * (g.col + 1) + j] == LatticePoint(g, i, j)
  {
    RowsIndex(g, g.row + 1, i, j);
  }

  /** The last lattice row and column reach the rounded upper bounds. */
  lemma LatticeReachesBounds(g: Grid)
    requires g.lon.lo <= g.lon.hi && g.lat.lo <= g.lat.hi
    requires g.row == Steps(g.lon) && g.col == Steps(g.lat)
    ensures LatticePoint(g, g.row, g.col).x >= g.lon.hi as real
    ensures LatticePoint(g, g.row, g.col).y >= g.lat.hi as real
    ensures LatticePoint(g, 0, 0) == Point(g.lon.lo as real, g.lat.lo as real)
  {
  }

  /** The source's nested loops that fill `rectPointsArr`, i outer and j inner. */
  method BuildCandidates(g: Grid) returns (rect: seq<Point>)
    ensures rect == Candidates(g)
  {
    rect := [];
    var i := 0;
    while i < g.row + 1
      invariant 0 <= i <= g.row + 1
      invariant rect == Rows(g, i)
    {
      var j := 0;
      while j < g.col + 1
        invariant 0 <= j <= g.col + 1
        invariant rect == Rows(g, i) + Row(g, i)[..j]
      {
        assert Row(g, i)[..j + 1] == Row(g, i)[..j] + [LatticePoint(g, i, j)];
        rect := rect + [LatticePoint(g, i, j)];
        j := j + 1;
      }
      assert Row(g, i)[..g.col + 1] == Row(g, i);
      i := i + 1;
    }
  }

  /** The candidates that test inside the polygon, in candidate order (the `forEach` filter). */
  function InsideOnly(cands: seq<Point>, poly: Polygon): (kept: seq<Point>)
    ensures |kept| <= |cands|
    ensures forall q :: q in kept ==> q in cands && PointInPolygon(q, poly)
    ensures forall q :: q in cands && PointInPolygon(q, poly) ==> q in kept
  {
    if |cands| == 0 then []
    else
      (if PointInPolygon(cands[0], poly) then [cands[0]] else []) + InsideOnly(cands[1..], poly)
  }

  /** The filter keeps candidate order: filtering a concatenation filters each part in turn. */
  lemma {:induction false} InsideOnlyConcat(a: seq<Point>, b: seq<Point>, poly: Polygon)
    ensures InsideOnly(a + b, poly) == InsideOnly(a, poly) + InsideOnly(b, poly)
  {
    if |a| == 0 {
      assert a + b == b;
    } else {
      assert (a + b)[0] == a[0];
      assert (a + b)[1..] == a[1..] + b;
      InsideOnlyConcat(a[1..], b, poly);
    }
  }

  /** `girlPoint2D`: the polygon followed by the interior lattice points. */
  function GirlPoint2D(poly: Polygon): (pts: seq<Point>)
    ensures |poly| <= |pts|
    ensures pts[..|poly|] == poly
    ensures forall k :: |poly| <= k < |pts| ==> PointInPolygon(pts[k], poly)
    ensures |poly| == 0 ==> pts == []
  {
    match GridOf(poly)
    case None => poly
    case Some(g) =>
      var inner := InsideOnly(Candidates(g), poly);
      var pts := poly + inner;
      assert forall k :: |poly| <= k < |pts| ==> pts[k] in inner;
      pts
  }

  /** Each point after the polygon's own vertices is a lattice point (i, j) of its grid. */
  lemma GirlPointIsLatticePoint(poly: Polygon, g: Grid, k: nat) returns (i: nat, j: nat)
    requires GridOf(poly) == Some(g)
    requires |poly| <= k < |GirlPoint2D(poly)|
    ensures i <= g.row && j <= g.col
    ensures GirlPoint2D(poly)[k] == LatticePoint(g, i, j)
  {
    var pts := GirlPoint2D(poly);
    var inner := InsideOnly(Candidates(g), poly);
    assert pts == poly + inner;
    assert pts[k] == inner[k - |poly|];
    assert pts[k] in Candidates(g);
    var c :| 0 <= c < |Candidates(g)| && Candidates(g)[c] == pts[k];
    i, j := CandidateIndices(g, c);
  }

  /** Every lattice point (i, j) of the grid that tests inside the polygon follows the polygon's vertices. */
  lemma InsideLatticePointsKept(poly: Polygon, g: Grid, i: nat, j: nat)
    requires GridOf(poly) == Some(g)
    requires i <= g.row && j <= g.col
    requires PointInPolygon(LatticePoint(g, i, j), poly)
    ensures LatticePoint(g, i, j) in GirlPoint2D(poly)[|poly|..]
  {
    var pts := GirlPoint2D(poly);
    var inner := InsideOnly(Candidates(g), poly);
    assert pts == poly + inner;
    assert pts[|poly|..] == inner;
    RowsContain(g, g.row + 1, i, j);
  }

  lemma {:induction false} RowsContain(g: Grid, n: nat, i: nat, j: nat)
    requires i < n && j <= g.col
    ensures LatticePoint(g, i, j) in Rows(g, n)
  {
    assert Rows(g, n) == Rows(g, n - 1) + Row(g, n - 1);
    if i == n - 1 {
      assert Row(g, i)[j] == LatticePoint(g, i, j);
    } else {
      RowsContain(g, n - 1, i, j);
    }
  }

  /** Every candidate is a lattice point (i, j) of the grid. */
  lemma CandidateIndices(g: Grid, c: nat) returns (i: nat, j: nat)
    requires c < |Candidates(g)|
    ensures i <= g.row && j <= g.col
    ensures Candidates(g)[c] == LatticePoint(g, i, j)
  {
    i, j := RowsMember(g, g.row + 1, c);
  }

  lemma {:induction false} RowsMember(g: Grid, n: nat, c: nat) returns (i: nat, j: nat)
    requires c < |Rows(g, n)|
    ensures i < n && j <= g.col
    ensures Rows(g, n)[c] == LatticePoint(g, i, j)
  {
    var prefix := Rows(g, n - 1);
    assert Rows(g, n) == prefix + Row(g, n - 1);
    if c < |prefix| {
      i, j := RowsMember(g, n - 1, c);
    } else {
      i, j := n - 1, c - |prefix|;
    }
  }
}
