/**
 A worked example: the 100 x 100 square, already in the planar frame,
 densified at spacing 10.
 */
module Scenarios {

  import opened Wrappers
  import opened Geometry
  import opened RayCasting
  import opened Lattice

  /** The square `[[0,0],[0,100],[100,100],[100,0]]`. */
  function Square(): (poly: Polygon)
    ensures |poly| == 4
  {
    [Point(0.0, 0.0), Point(0.0, 100.0), Point(100.0, 100.0), Point(100.0, 0.0)]
  }

  /** When the smallest and largest values are integers, `minMax` returns them unchanged. */
  lemma IntegralExtremes(arr: seq<real>, lo: int, hi: int, i: nat, j: nat)
    requires i < |arr| && j < |arr| && arr[i] == lo as real && arr[j] == hi as real
    requires forall k :: 0 <= k < |arr| ==> lo as real <= arr[k] <= hi as real
    ensures MinMax(arr) == Some(Bounds(lo, hi))
  {
    var b := MinMax(arr).value;
    assert b.lo as real <= lo as real && hi as real <= b.hi as real;
    var k :| 0 <= k < |arr| && arr[k] < b.lo as real + 1.0;
    var m :| 0 <= m < |arr| && arr[m] > b.hi as real - 1.0;
    assert (lo - 1) as real < b.lo as real && b.hi as real < (hi + 1) as real;
    assert lo - 1 < b.lo <= lo && hi <= b.hi < hi + 1;
  }

  /** The square's integer bounds are exactly 0 and 100 on both axes. */
  lemma SquareBounds()
    ensures MinMax(Xs(Square())) == Some(Bounds(0, 100))
    ensures MinMax(Ys(Square())) == Some(Bounds(0, 100))
  {
    var sq := Square();
    AxisBounds(Xs(sq), 0.0, 0.0, 100.0, 100.0);
    AxisBounds(Ys(sq), 0.0, 100.0, 100.0, 0.0);
  }

  /** The bounds of four coordinates that take only the values 0 and 100, both of them. */
  lemma AxisBounds(arr: seq<real>, a: real, b: real, c: real, d: real)
    requires arr == [a, b, c, d]
    requires a == 0.0 && c == 100.0
    requires b == 0.0 || b == 100.0
    requires d == 0.0 || d == 100.0
    ensures MinMax(arr) == Some(Bounds(0, 100))
  {
    forall k | 0 <= k < 4
      ensures 0.0 <= arr[k] <= 100.0
    {
      assert k == 0 || k == 1 || k == 2 || k == 3;
    }
    IntegralExtremes(arr, 0, 100, 0, 2);
  }

  /**
   The square gets a 10 x 10 step grid from (0, 0): 121 candidates, the last
   one the far corner (100, 100).
   */
  lemma SquareGrid()
    ensures GridOf(Square()) == Some(Grid(Bounds(0, 100), Bounds(0, 100), 10, 10))
    ensures |Candidates(GridOf(Square()).value)| == 121
    ensures LatticePoint(GridOf(Square()).value, 10, 10) == Point(100.0, 100.0)
  {
    var g := Grid(Bounds(0, 100), Bounds(0, 100), 10, 10);
    SquareGridOf();
    CandidateCount(g);
    assert LatticePoint(g, 10, 10) == Point(100.0, 100.0);
  }

  /** The grid of the square: bounds [0, 100] on both axes, ten steps each. */
  lemma SquareGridOf()
    ensures GridOf(Square()) == Some(Grid(Bounds(0, 100), Bounds(0, 100), 10, 10))
  {
    SquareBounds();
    var b := Bounds(0, 100);
    assert Steps(b) == 10;
    var r := GridOf(Square());
    assert r.Some? && r.value.lon == b && r.value.lat == b;
  }

  /** The centre of the square tests inside; a point to its right tests outside. */
  lemma SquareMembership()
    ensures PointInPolygon(Point(50.0, 50.0), Square())
    ensures !PointInPolygon(Point(150.0, 50.0), Square())
  {
    var sq := Square();
    assert Crossings(Point(50.0, 50.0), sq) == 1 by {
      assert !EdgeCrosses(Point(50.0, 50.0), sq, 0);
      assert !EdgeCrosses(Point(50.0, 50.0), sq, 1);
      assert !EdgeCrosses(Point(50.0, 50.0), sq, 2);
      assert EdgeCrosses(Point(50.0, 50.0), sq, 3);
    }
    assert Crossings(Point(150.0, 50.0), sq) == 0 by {
      assert !EdgeCrosses(Point(150.0, 50.0), sq, 0);
      assert !EdgeCrosses(Point(150.0, 50.0), sq, 1);
      assert !EdgeCrosses(Point(150.0, 50.0), sq, 2);
      assert !EdgeCrosses(Point(150.0, 50.0), sq, 3);
    }
  }
}
