/**
 Shared value types of the water-surface mesher: planar points, THREE.Vector3
 values, and the rounding and extremum helpers the mesher and the scene code use.
 All numbers are exact reals; floating point is not modelled.
 */
module Geometry {

  /** A planar `[x, y]` pair, as the mesher passes points around. */
  datatype Point = Point(x: real, y: real)

  /** A THREE.Vector3. */
  datatype Vec3 = Vec3(x: real, y: real, z: real)

  /** A ring of vertices; the closing edge from the last vertex back to the first is implied. */
  type Polygon = seq<Point>

  /** Math.floor on an exact real. */
  function Floor(r: real): (f: int)
    ensures f as real <= r < f as real + 1.0
  {
    r.Floor
  }

  /** Math.ceil on an exact real. */
  function Ceil(r: real): (c: int)
    ensures c as real - 1.0 < r <= c as real
  {
    -((-r).Floor)
  }

  /** The smallest element of a non-empty sequence. */
  function SeqMin(s: seq<real>): (m: real)
    requires |s| > 0
    ensures m in s
    ensures forall k :: 0 <= k < |s| ==> m <= s[k]
  {
    if |s| == 1 then s[0]
    else
      var rest := SeqMin(s[1..]);
      if s[0] <= rest then s[0] else rest
  }

  /** The largest element of a non-empty sequence. */
  function SeqMax(s: seq<real>): (m: real)
    requires |s| > 0
    ensures m in s
    ensures forall k :: 0 <= k < |s| ==> s[k] <= m
  {
    if |s| == 1 then s[0]
    else
      var rest := SeqMax(s[1..]);
      if s[0] >= rest then s[0] else rest
  }

  /** The x coordinates of a polygon's vertices, in vertex order. */
  function Xs(poly: Polygon): (xs: seq<real>)
    ensures |xs| == |poly|
    ensures forall k :: 0 <= k < |poly| ==> xs[k] == poly[k].x
  {
    seq(|poly|, k requires 0 <= k < |poly| => poly[k].x)
  }

  /** The y coordinates of a polygon's vertices, in vertex order. */
  function Ys(poly: Polygon): (ys: seq<real>)
    ensures |ys| == |poly|
    ensures forall k :: 0 <= k < |poly| ==> ys[k] == poly[k].y
  {
    seq(|poly|, k requires 0 <= k < |poly| => poly[k].y)
  }
}
