/**
 The even-odd ray-casting test of `pointInPolygon` in Hydro3DJS.js. The same
 predicate stands in for the `point-in-polygon` package the mesher imports,
 which implements the same algorithm.
 */
module RayCasting {

  import opened Geometry

  /**
   The vertex `j` paired with vertex `i` in the source's loop: `j` starts at
   n - 1 and afterwards trails `i` by one, so iteration `i` visits edge (i, j).
   */
  function Prev(n: nat, i: nat): (j: nat)
    requires i < n
    ensures j < n
  {
    if i == 0 then n - 1 else i - 1
  }

  /**
   The loop body's `intersect`: the edge from `a` (= polygon[i]) to `b`
   (= polygon[j]) straddles the horizontal line through `p`, and meets it
   strictly to the right of `p`. The straddle test is evaluated first and
   short-circuits, so the division only happens when a.y != b.y.
   */
  predicate Crosses(p: Point, a: Point, b: Point)
  {
    (a.y > p.y) != (b.y > p.y) && p.x < (b.x - a.x) * (p.y - a.y) / (b.y - a.y) + a.x
  }

  /** Iteration `i` of the loop finds a crossing. */
  predicate EdgeCrosses(p: Point, poly: Polygon, i: nat)
    requires i < |poly|
  {
    Crosses(p, poly[i], poly[Prev(|poly|, i)])
  }

  /** How many of the edges visited from iteration `i` on are crossed by the ray from `p`. */
  function CrossingsFrom(p: Point, poly: Polygon, i: nat): nat
    requires i <= |poly|
    decreases |poly| - i
  {
    if i == |poly| then 0
    else (if EdgeCrosses(p, poly, i) then 1 else 0) + CrossingsFrom(p, poly, i + 1)
  }

  /** The number of ring edges the ray from `p` to +x infinity crosses. */
  function Crossings(p: Point, poly: Polygon): nat
  {
    CrossingsFrom(p, poly, 0)
  }

  /** The even-odd rule: inside exactly when the ray crosses the ring an odd number of times. */
  predicate OddCrossings(p: Point, poly: Polygon)
  {
    Crossings(p, poly) % 2 == 1
  }

  /**
   The source's loop from iteration `i` on, with `isInside` equal to `acc`:
   each crossing flips the flag.
   */
  function ToggleFrom(p: Point, poly: Polygon, i: nat, acc: bool): (isInside: bool)
    requires i <= |poly|
    ensures isInside <==> (acc != (CrossingsFrom(p, poly, i) % 2 == 1))
    decreases |poly| - i
  {
    if i == |poly| then acc
    else ToggleFrom(p, poly, i + 1, if EdgeCrosses(p, poly, i) then !acc else acc)
  }

  /** `pointInPolygon(point, polygon)`: the flag starts false and the loop visits every edge once. */
  function PointInPolygon(p: Point, poly: Polygon): (isInside: bool)
    ensures isInside <==> OddCrossings(p, poly)
    ensures |poly| == 0 ==> !isInside
  {
    ToggleFrom(p, poly, 0, false)
  }

  /** A horizontal edge never counts as a crossing. */
  lemma HorizontalEdgeNeverCrosses(p: Point, a: Point, b: Point)
    requires a.y == b.y
    ensures !Crosses(p, a, b)
  {
  }

  /**
   The crossing test does not depend on the direction an edge is walked in:
   over exact reals both orientations compute the same x-intercept.
   */
  lemma CrossesSymmetric(p: Point, a: Point, b: Point)
    ensures Crosses(p, a, b) <==> Crosses(p, b, a)
  {
    if (a.y > p.y) != (b.y > p.y) {
      var d := b.y - a.y;
      var dx := b.x - a.x;
      var u := dx * (p.y - a.y) / d;
      var v := (a.x - b.x) * (p.y - b.y) / (a.y - b.y);
      assert v == dx * (p.y - b.y) / d;
      assert u - dx * (p.y - b.y) / d == dx * ((p.y - a.y) - (p.y - b.y)) / d;
      assert dx * ((p.y - a.y) - (p.y - b.y)) / d == dx;
      assert u + a.x == v + b.x;
    }
  }

  /** The iteration whose trailing vertex `j` is `v`. */
  function Next(n: nat, v: nat): nat
    requires v < n
  {
    if v + 1 == n then 0 else v + 1
  }

  /** Every vertex closes exactly one visited edge, and iteration 0 visits the closing edge (0, n-1). */
  lemma EachEdgeVisitedOnce(n: nat)
    ensures forall i, k :: 0 <= i < n && 0 <= k < n && Prev(n, i) == Prev(n, k) ==> i == k
    ensures forall v :: 0 <= v < n ==> Next(n, v) < n && Prev(n, Next(n, v)) == v
    ensures n > 0 ==> Prev(n, 0) == n - 1
  {
  }

  /** The ring with its first vertex moved to the end: the same closed ring, started one vertex later. */
  function Rotate(poly: Polygon): (r: Polygon)
    requires |poly| > 0
    ensures |r| == |poly|
    ensures forall k :: 0 <= k < |poly| - 1 ==> r[k] == poly[k + 1]
    ensures r[|poly| - 1] == poly[0]
  {
    poly[1..] + [poly[0]]
  }

  lemma {:induction false} RotatedCrossingsFrom(p: Point, poly: Polygon, k: nat)
    requires |poly| > 0
    requires k <= |poly| - 1
    ensures CrossingsFrom(p, Rotate(poly), k)
            == CrossingsFrom(p, poly, k + 1) + (if EdgeCrosses(p, poly, 0) then 1 else 0)
    decreases |poly| - k
  {
    var n := |poly|;
    var r := Rotate(poly);
    if k == n - 1 {
      assert r[k] == poly[0];
      assert r[Prev(n, k)] == poly[Prev(n, 0)];
      assert EdgeCrosses(p, r, k) == EdgeCrosses(p, poly, 0);
    } else {
      assert r[k] == poly[k + 1];
      assert r[Prev(n, k)] == poly[Prev(n, k + 1)];
      assert EdgeCrosses(p, r, k) == EdgeCrosses(p, poly, k + 1);
      RotatedCrossingsFrom(p, poly, k + 1);
    }
  }

  /**
   Starting the ring at a different vertex does not change the verdict: the
   loop's closing edge makes the test depend on the ring, not on where it starts.
   */
  lemma {:induction false} RotationInvariant(p: Point, poly: Polygon)
    requires |poly| > 0
    ensures PointInPolygon(p, Rotate(poly)) == PointInPolygon(p, poly)
  {
    RotatedCrossingsFrom(p, poly, 0);
  }
}
