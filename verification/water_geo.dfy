/**
 Triangulation filtering and buffer emission of watergeo.js: `delaunay`,
 the buffers of `water_plane`, and the position buffers of
 `cross_section_plane`.

 The triangulators (Delaunator and delaunay-triangulate) are foreign code:
 they are parameters whose type states the only thing the mesher relies on,
 that they return whole triangles of in-range point indices.
 */
module WaterGeo {

  import opened Wrappers
  import opened Geometry
  import opened RayCasting
  import opened Projection
  import opened Lattice

  /** Three point indices. */
  datatype Triangle = Triangle(a: nat, b: nat, c: nat)

  /** All three corners index one of `n` points. */
  predicate InRange(t: Triangle, n: nat)
  {
    t.a < n && t.b < n && t.c < n
  }

  /** A flat index list of whole triangles over `n` points, as `Delaunator.triangles` is. */
  predicate IsTriangleBuffer(idx: seq<nat>, n: nat)
  {
    |idx| % 3 == 0 && forall k :: 0 <= k < |idx| ==> idx[k] < n
  }

  /** Delaunator: any function returning a flat triangle buffer over the points it is given. */
  type Triangulator = f: seq<Point> -> seq<nat> | forall ps :: IsTriangleBuffer(f(ps), |ps|)
    witness (ps: seq<Point>) => []

  /** delaunay-triangulate: any function returning in-range triangles (cells) over the points it is given. */
  type CellTriangulator = f: seq<Point> -> seq<Triangle> | forall ps, t :: t in f(ps) ==> InRange(t, |ps|)
    witness (ps: seq<Point>) => []

  /** Consecutive index triples, read as triangles. */
  function Group(idx: seq<nat>): (ts: seq<Triangle>)
    requires |idx| % 3 == 0
    ensures 3 * |ts| == |idx|
    ensures forall k :: 0 <= k < |ts| ==> ts[k] == Triangle(idx[3 * k], idx[3 * k + 1], idx[3 * k + 2])
  {
    if |idx| == 0 then []
    else [Triangle(idx[0], idx[1], idx[2])] + Group(idx[3..])
  }

  /** A non-empty index list groups into its first triple followed by the grouping of the rest. */
  lemma GroupCons(idx: seq<nat>)
    requires |idx| % 3 == 0 && |idx| > 0
    ensures Group(idx) == [Triangle(idx[0], idx[1], idx[2])] + Group(idx[3..])
  {
  }

  /** Triangles written out as a flat index list. */
  function Flatten(ts: seq<Triangle>): (idx: seq<nat>)
    ensures |idx| == 3 * |ts|
    ensures forall k :: 0 <= k < |ts| ==> idx[3 * k] == ts[k].a && idx[3 * k + 1] == ts[k].b && idx[3 * k + 2] == ts[k].c
  {
    if |ts| == 0 then []
    else [ts[0].a, ts[0].b, ts[0].c] + Flatten(ts[1..])
  }

  /** Grouping undoes flattening. */
  lemma GroupFlatten(ts: seq<Triangle>)
    ensures Group(Flatten(ts)) == ts
  {
  }

  /** Flattening undoes grouping. */
  lemma {:induction false} FlattenGroup(idx: seq<nat>)
    requires |idx| % 3 == 0
    ensures Flatten(Group(idx)) == idx
  {
    if |idx| > 0 {
      var t := Triangle(idx[0], idx[1], idx[2]);
      GroupCons(idx);
      assert Group(idx)[0] == t && Group(idx)[1..] == Group(idx[3..]);
      FlattenGroup(idx[3..]);
      assert idx == [idx[0], idx[1], idx[2]] + idx[3..];
    }
  }

  /** `triangleCenter`: the centroid of three points. */
  function Centroid(p1: Point, p2: Point, p3: Point): Point
  {
    Point((p1.x + p2.x + p3.x) / 3.0, (p1.y + p2.y + p3.y) / 3.0)
  }

  /** A triangle of `pts` whose centroid tests inside `poly`. */
  predicate CentroidInside(pts: seq<Point>, poly: Polygon, t: Triangle)
    requires InRange(t, |pts|)
  {
    PointInPolygon(Centroid(pts[t.a], pts[t.b], pts[t.c]), poly)
  }

  /** The test `delaunay` applies to each triangle of `pts`. */
  function CentroidTest(pts: seq<Point>, poly: Polygon): (keep: Triangle -> bool)
    ensures forall t :: InRange(t, |pts|) ==> (keep(t) <==> CentroidInside(pts, poly, t))
  {
    t => InRange(t, |pts|) && CentroidInside(pts, poly, t)
  }

  /**
   The loop of `delaunay`, for any triangle test: walks a flat index list
   three indices at a time and keeps a triple, unchanged, when its triangle
   passes `keep`.
   */
  function KeepTriples(idx: seq<nat>, keep: Triangle -> bool): (kept: seq<nat>)
    requires |idx| % 3 == 0
    ensures |kept| % 3 == 0 && |kept| <= |idx|
    ensures forall k :: 0 <= k < |kept| ==> kept[k] in idx
  {
    if |idx| == 0 then []
    else
      var rest := idx[3..];
      var tail := KeepTriples(rest, keep);
      assert forall k :: 0 <= k < |tail| ==> tail[k] in idx by {
        forall k | 0 <= k < |tail|
          ensures tail[k] in idx
        {
          var m :| 0 <= m < |rest| && rest[m] == tail[k];
          assert idx[m + 3] == rest[m];
        }
      }
      (if keep(Triangle(idx[0], idx[1], idx[2])) then [idx[0], idx[1], idx[2]] else []) + tail
  }

  /**
   `delaunay(polygonPointsArr, polygonData)` after triangulation: the triples
   whose centroid tests inside the polygon. The result is again a triangle
   buffer over the same points.
   */
  function KeepInterior(pts: seq<Point>, poly: Polygon, idx: seq<nat>): (kept: seq<nat>)
    requires IsTriangleBuffer(idx, |pts|)
    ensures IsTriangleBuffer(kept, |pts|)
    ensures |kept| <= |idx|
  {
    var kept := KeepTriples(idx, CentroidTest(pts, poly));
    assert forall k :: 0 <= k < |kept| ==> kept[k] < |pts| by {
      forall k | 0 <= k < |kept|
        ensures kept[k] < |pts|
      {
        var m :| 0 <= m < |idx| && idx[m] == kept[k];
      }
    }
    kept
  }

  /** The reference filter on whole triangles. */
  function FilterTriangles(ts: seq<Triangle>, keep: Triangle -> bool): (kept: seq<Triangle>)
    ensures forall t :: t in kept <==> t in ts && keep(t)
  {
    if |ts| == 0 then []
    else (if keep(ts[0]) then [ts[0]] else []) + FilterTriangles(ts[1..], keep)
  }

  /** The triangles of a triangle buffer over n points are in range. */
  lemma GroupInRange(idx: seq<nat>, n: nat)
    requires IsTriangleBuffer(idx, n)
    ensures forall t :: t in Group(idx) ==> InRange(t, n)
  {
    var ts := Group(idx);
    forall t | t in ts
      ensures InRange(t, n)
    {
      var k :| 0 <= k < |ts| && ts[k] == t;
      assert idx[3 * k] < n && idx[3 * k + 1] < n && idx[3 * k + 2] < n;
    }
  }

  /** Flattening in-range triangles gives a triangle buffer. */
  lemma {:induction false} FlattenInRange(ts: seq<Triangle>, n: nat)
    requires forall t :: t in ts ==> InRange(t, n)
    ensures IsTriangleBuffer(Flatten(ts), n)
  {
    if |ts| > 0 {
      assert ts[0] in ts;
      FlattenInRange(ts[1..], n);
      assert Flatten(ts) == [ts[0].a, ts[0].b, ts[0].c] + Flatten(ts[1..]);
    }
  }

  /**
   The loop keeps whole triples, in their original order and with their
   vertex order unchanged: it is the triangle filter, flattened.
   */
  lemma {:induction false} KeepTriplesFiltersTriangles(idx: seq<nat>, keep: Triangle -> bool)
    requires |idx| % 3 == 0
    ensures KeepTriples(idx, keep) == Flatten(FilterTriangles(Group(idx), keep))
  {
    if |idx| > 0 {
      var ts := Group(idx);
      var rest := idx[3..];
      var t := Triangle(idx[0], idx[1], idx[2]);
      GroupCons(idx);
      assert ts[0] == t && ts[1..] == Group(rest);
      KeepTriplesFiltersTriangles(rest, keep);
      var head := if keep(t) then [t] else [];
      assert FilterTriangles(ts, keep) == head + FilterTriangles(Group(rest), keep);
      FlattenConcat(head, FilterTriangles(Group(rest), keep));
    }
  }

  lemma {:induction false} FlattenConcat(a: seq<Triangle>, b: seq<Triangle>)
    ensures Flatten(a + b) == Flatten(a) + Flatten(b)
  {
    if |a| > 0 {
      assert (a + b)[0] == a[0];
      assert (a + b)[1..] == a[1..] + b;
      FlattenConcat(a[1..], b);
    } else {
      assert a + b == b;
    }
  }

  /** The kept triples, read as triangles, are exactly the triangles that pass the test. */
  lemma KeptTriangles(idx: seq<nat>, keep: Triangle -> bool, t: Triangle)
    requires |idx| % 3 == 0
    ensures t in Group(KeepTriples(idx, keep)) <==> t in Group(idx) && keep(t)
  {
    KeepTriplesFiltersTriangles(idx, keep);
    GroupFlatten(FilterTriangles(Group(idx), keep));
  }

  /**
   Filter soundness and completeness: a triangle of the triangulation is
   among the kept ones exactly when its centroid tests inside the polygon.
   */
  lemma KeptIffCentroidInside(pts: seq<Point>, poly: Polygon, idx: seq<nat>, t: Triangle)
    requires IsTriangleBuffer(idx, |pts|)
    requires t in Group(idx)
    ensures InRange(t, |pts|)
    ensures t in Group(KeepInterior(pts, poly, idx)) <==> CentroidInside(pts, poly, t)
  {
    GroupInRange(idx, |pts|);
    KeptTriangles(idx, CentroidTest(pts, poly), t);
  }

  /** Every kept triangle is a triangle of the triangulation whose centroid tests inside the polygon. */
  lemma KeptAreInterior(pts: seq<Point>, poly: Polygon, idx: seq<nat>, t: Triangle)
    requires IsTriangleBuffer(idx, |pts|)
    requires t in Group(KeepInterior(pts, poly, idx))
    ensures t in Group(idx) && InRange(t, |pts|) && CentroidInside(pts, poly, t)
  {
    KeptTriangles(idx, CentroidTest(pts, poly), t);
    GroupInRange(idx, |pts|);
  }

  /** Vertex `k` of a flat xyz buffer, as `BufferAttribute(arr, 3)` reads it. */
  function Vertex(buf: seq<real>, k: nat): Vec3
    requires 3 * k + 2 < |buf|
  {
    Vec3(buf[3 * k], buf[3 * k + 1], buf[3 * k + 2])
  }

  /** A flat xyz buffer: the coordinates of each vector in turn. */
  function VertexBuffer(vs: seq<Vec3>): (buf: seq<real>)
    ensures |buf| == 3 * |vs|
    ensures forall k :: 0 <= k < |vs| ==> buf[3 * k] == vs[k].x && buf[3 * k + 1] == vs[k].y && buf[3 * k + 2] == vs[k].z
    ensures forall k: nat :: k < |vs| ==> Vertex(buf, k) == vs[k]
  {
    if |vs| == 0 then []
    else [vs[0].x, vs[0].y, vs[0].z] + VertexBuffer(vs[1..])
  }

  /** Planar points placed on the ground plane: (x, y) becomes (x, 0, y). */
  function OnGround(pts: seq<Point>): (vs: seq<Vec3>)
    ensures |vs| == |pts|
    ensures forall k :: 0 <= k < |pts| ==> vs[k] == Vec3(pts[k].x, 0.0, pts[k].y)
  {
    seq(|pts|, k requires 0 <= k < |pts| => Vec3(pts[k].x, 0.0, pts[k].y))
  }

  /** Storing an index into a Uint16Array keeps it modulo 2^16. */
  function Uint16(k: nat): (u: nat)
    ensures u < 0x1_0000
    ensures k < 0x1_0000 ==> u == k
  {
    k % 0x1_0000
  }

  /** The geometry `water_plane` hands to the renderer. */
  datatype MeshBuffers = MeshBuffers(positions: seq<real>, indices: seq<nat>)

  /** A GeoJSON position `[lng, lat]`: longitude first. */
  datatype Position = Position(lng: real, lat: real)

  /** The object `{ lng: pts[i][0], lat: pts[i][1] }` that `water_plane` hands to the projection. */
  function AsLatLng(q: Position): LatLng
  {
    LatLng(q.lat, q.lng)
  }

  /** The first loop of `water_plane`: each ring vertex projected and offset by the map centre, as (x, z). */
  function PlanarRing(f: Transcendentals, ring: seq<Position>, mapCenter: Vec3): (poly: Polygon)
    ensures |poly| == |ring|
    ensures forall k :: 0 <= k < |ring| ==>
              poly[k].x + mapCenter.x == LatLngToVector3(f, AsLatLng(ring[k])).x &&
              poly[k].y + mapCenter.z == LatLngToVector3(f, AsLatLng(ring[k])).z
  {
    seq(|ring|, k requires 0 <= k < |ring| =>
      var v := LatLngToVector3(f, AsLatLng(ring[k]));
      Point(v.x - mapCenter.x, v.z - mapCenter.z))
  }

  /**
   Each planar ring vertex, moved back by the map centre and unprojected,
   is the GeoJSON position it came from (away from the poles): the first
   loop of `water_plane` loses nothing.
   */
  lemma PlanarRingUnprojects(f: Transcendentals, ring: seq<Position>, mapCenter: Vec3, k: nat)
    requires k < |ring| && OffPole(ring[k].lat)
    ensures var q := PlanarRing(f, ring, mapCenter)[k];
            Vector3ToLatLng(f, Vec3(q.x + mapCenter.x, 0.0, q.y + mapCenter.z)) == LatLng(ring[k].lat, ring[k].lng)
  {
    var p := AsLatLng(ring[k]);
    var q := PlanarRing(f, ring, mapCenter)[k];
    assert Vec3(q.x + mapCenter.x, 0.0, q.y + mapCenter.z) == LatLngToVector3(f, p);
    Vector3RoundTrip(f, p);
  }

  /** The 16-bit index buffer: each index stored modulo 2^16. */
  function IndexBuffer(idx: seq<nat>): (out: seq<nat>)
    ensures |out| == |idx|
    ensures forall k :: 0 <= k < |idx| ==> out[k] < 0x1_0000
    ensures forall k :: 0 <= k < |idx| && idx[k] < 0x1_0000 ==> out[k] == idx[k]
  {
    seq(|idx|, k requires 0 <= k < |idx| => Uint16(idx[k]))
  }

  /** The point set `water_plane` triangulates: the projected ring followed by its interior lattice points. */
  function MeshPoints(f: Transcendentals, ring: seq<Position>, mapCenter: Vec3): (pts: seq<Point>)
    ensures |pts| >= |ring|
    ensures pts[..|ring|] == PlanarRing(f, ring, mapCenter)
    ensures forall k :: 0 <= k < |ring| ==> pts[k] == PlanarRing(f, ring, mapCenter)[k]
  {
    GirlPoint2D(PlanarRing(f, ring, mapCenter))
  }

  /** The buffers of `water_plane` for planar mesh points `pts` cut by polygon `poly`. */
  function PlaneBuffers(triangulate: Triangulator, pts: seq<Point>, poly: Polygon): (mesh: MeshBuffers)
    ensures |mesh.positions| == 3 * |pts|
    ensures |mesh.indices| % 3 == 0
    ensures forall k :: 0 <= k < |mesh.indices| ==> mesh.indices[k] < 0x1_0000
    ensures |pts| <= 0x1_0000 ==> mesh.indices == KeepInterior(pts, poly, triangulate(pts))
  {
    var kept := KeepInterior(pts, poly, triangulate(pts));
    MeshBuffers(VertexBuffer(OnGround(pts)), IndexBuffer(kept))
  }

  /**
   `water_plane(data, mapCenter)`, with `data.coordinates[0]` as `ring`: the
   ring is projected, densified, triangulated, filtered, and emitted as a
   position buffer and a 16-bit index buffer.
   */
  function WaterPlane(f: Transcendentals, triangulate: Triangulator, ring: seq<Position>, mapCenter: Vec3): (mesh: MeshBuffers)
    ensures |mesh.positions| == 3 * |MeshPoints(f, ring, mapCenter)|
    ensures |mesh.indices| % 3 == 0
    ensures forall k :: 0 <= k < |mesh.indices| ==> mesh.indices[k] < 0x1_0000
  {
    PlaneBuffers(triangulate, MeshPoints(f, ring, mapCenter), PlanarRing(f, ring, mapCenter))
  }

  /** Vertex k of the position buffer is mesh point k placed on the ground plane. */
  lemma PlanePositions(triangulate: Triangulator, pts: seq<Point>, poly: Polygon)
    ensures var mesh := PlaneBuffers(triangulate, pts, poly);
            forall k: nat :: k < |pts| ==> Vertex(mesh.positions, k) == Vec3(pts[k].x, 0.0, pts[k].y)
  {
    assert PlaneBuffers(triangulate, pts, poly).positions == VertexBuffer(OnGround(pts));
  }

  /** Every vertex of the position buffer lies on the ground plane (y = 0). */
  lemma WaterPlaneFlat(f: Transcendentals, triangulate: Triangulator, ring: seq<Position>, mapCenter: Vec3)
    ensures var mesh := WaterPlane(f, triangulate, ring, mapCenter);
            forall k: nat :: k < |MeshPoints(f, ring, mapCenter)| ==> Vertex(mesh.positions, k).y == 0.0
  {
    PlanePositions(triangulate, MeshPoints(f, ring, mapCenter), PlanarRing(f, ring, mapCenter));
  }

  /**
   The ring's projected vertices come first in the position buffer, in ring
   order, as (x, z) relative to the map centre.
   */
  lemma WaterPlaneRingFirst(f: Transcendentals, triangulate: Triangulator, ring: seq<Position>, mapCenter: Vec3, k: nat)
    requires k < |ring|
    ensures var mesh := WaterPlane(f, triangulate, ring, mapCenter);
            && 3 * k + 2 < |mesh.positions|
            && Vertex(mesh.positions, k).x + mapCenter.x == LatLngToVector3(f, AsLatLng(ring[k])).x
            && Vertex(mesh.positions, k).z + mapCenter.z == LatLngToVector3(f, AsLatLng(ring[k])).z
  {
    var poly := PlanarRing(f, ring, mapCenter);
    var pts := MeshPoints(f, ring, mapCenter);
    PlanePositions(triangulate, pts, poly);
    assert Vertex(PlaneBuffers(triangulate, pts, poly).positions, k) == Vec3(pts[k].x, 0.0, pts[k].y);
    assert pts[k] == poly[k];
  }

  /**
   Index bounds: while the mesh has at most 2^16 points (so the Uint16Array
   does not wrap), every emitted index names one of its points.
   */
  lemma WaterPlaneIndicesInRange(f: Transcendentals, triangulate: Triangulator, ring: seq<Position>, mapCenter: Vec3)
    requires |MeshPoints(f, ring, mapCenter)| <= 0x1_0000
    ensures var mesh := WaterPlane(f, triangulate, ring, mapCenter);
            forall k :: 0 <= k < |mesh.indices| ==> mesh.indices[k] < |mesh.positions| / 3
  {
    var pts := MeshPoints(f, ring, mapCenter);
    var poly := PlanarRing(f, ring, mapCenter);
    assert IsTriangleBuffer(KeepInterior(pts, poly, triangulate(pts)), |pts|);
  }

  /** The filter at the planar level: kept triangles are in range and their centroids test inside. */
  lemma PlaneTrianglesInside(triangulate: Triangulator, pts: seq<Point>, poly: Polygon, t: Triangle)
    requires |pts| <= 0x1_0000
    requires t in Group(PlaneBuffers(triangulate, pts, poly).indices)
    ensures InRange(t, |pts|)
    ensures CentroidInside(pts, poly, t)
  {
    KeptAreInterior(pts, poly, triangulate(pts), t);
  }

  /**
   Every triangle of the index buffer, read back against the mesh points, has
   its centroid inside the projected ring (for meshes the Uint16Array holds).
   */
  lemma WaterPlaneTrianglesInside(f: Transcendentals, triangulate: Triangulator, ring: seq<Position>, mapCenter: Vec3, t: Triangle)
    requires |MeshPoints(f, ring, mapCenter)| <= 0x1_0000
    requires t in Group(WaterPlane(f, triangulate, ring, mapCenter).indices)
    ensures InRange(t, |MeshPoints(f, ring, mapCenter)|)
    ensures CentroidInside(MeshPoints(f, ring, mapCenter), PlanarRing(f, ring, mapCenter), t)
  {
    PlaneTrianglesInside(triangulate, MeshPoints(f, ring, mapCenter), PlanarRing(f, ring, mapCenter), t);
  }

  /** A cross-section vertex: longitude, latitude and altitude. */
  datatype GeoVertex = GeoVertex(lng: real, lat: real, alt: real)

  /** The first loop of `cross_section_plane`: `[x, alt, z]` relative to the map centre. */
  function SectionPoints(f: Transcendentals, pts: seq<GeoVertex>, mapCenter: Vec3): (points: seq<Vec3>)
    ensures |points| == |pts|
    ensures forall k :: 0 <= k < |pts| ==>
              points[k].x + mapCenter.x == LatLngToVector3(f, LatLng(pts[k].lat, pts[k].lng)).x &&
              points[k].y == pts[k].alt &&
              points[k].z + mapCenter.z == LatLngToVector3(f, LatLng(pts[k].lat, pts[k].lng)).z
  {
    seq(|pts|, k requires 0 <= k < |pts| =>
      var v := LatLngToVector3(f, LatLng(pts[k].lat, pts[k].lng));
      Vec3(v.x - mapCenter.x, pts[k].alt, v.z - mapCenter.z))
  }

  /**
   Each section point keeps its vertex's altitude, and its ground position,
   moved back by the map centre and unprojected, is the vertex's longitude
   and latitude (away from the poles).
   */
  lemma SectionPointsUnproject(f: Transcendentals, pts: seq<GeoVertex>, mapCenter: Vec3, k: nat)
    requires k < |pts| && OffPole(pts[k].lat)
    ensures var q := SectionPoints(f, pts, mapCenter)[k];
            && q.y == pts[k].alt
            && Vector3ToLatLng(f, Vec3(q.x + mapCenter.x, 0.0, q.z + mapCenter.z)) == LatLng(pts[k].lat, pts[k].lng)
  {
    var p := LatLng(pts[k].lat, pts[k].lng);
    var q := SectionPoints(f, pts, mapCenter)[k];
    assert Vec3(q.x + mapCenter.x, 0.0, q.z + mapCenter.z) == LatLngToVector3(f, p);
    Vector3RoundTrip(f, p);
  }

  /** The same points on the ground plane, `points2D`, which are what gets triangulated. */
  function Ground(points: seq<Vec3>): (ps: seq<Point>)
    ensures |ps| == |points|
    ensures forall k :: 0 <= k < |points| ==> ps[k] == Point(points[k].x, points[k].z)
  {
    seq(|points|, k requires 0 <= k < |points| => Point(points[k].x, points[k].z))
  }

  /** The fixed height `waterHeight` of the cross-section's water plane. */
  const WaterHeight: real := 50.0

  /** The two position buffers `cross_section_plane` builds. */
  datatype SectionBuffers = SectionBuffers(crossPlane: seq<real>, waterPlane: seq<real>)

  /** The corners of the triangles, in triangle order, as vertices. */
  function CornerPoints(points: seq<Vec3>, corners: seq<nat>): (vs: seq<Vec3>)
    requires forall k :: 0 <= k < |corners| ==> corners[k] < |points|
    ensures |vs| == |corners|
    ensures forall k :: 0 <= k < |corners| ==> vs[k] == points[corners[k]]
  {
    seq(|corners|, k requires 0 <= k < |corners| => points[corners[k]])
  }

  /** The same vertices moved to height h. */
  function AtHeight(vs: seq<Vec3>, h: real): (ws: seq<Vec3>)
    ensures |ws| == |vs|
    ensures forall k :: 0 <= k < |vs| ==> ws[k] == Vec3(vs[k].x, h, vs[k].z)
  {
    seq(|vs|, k requires 0 <= k < |vs| => Vec3(vs[k].x, h, vs[k].z))
  }

  /** The two buffers for section points `points` and in-range triangles `tris`. */
  function SectionSoup(points: seq<Vec3>, tris: seq<Triangle>): (b: SectionBuffers)
    requires forall t :: t in tris ==> InRange(t, |points|)
    ensures |b.crossPlane| == |b.waterPlane| == 9 * |tris|
    ensures forall k: nat :: k < 3 * |tris| ==>
              Vertex(b.waterPlane, k) == Vec3(Vertex(b.crossPlane, k).x, WaterHeight, Vertex(b.crossPlane, k).z)
  {
    FlattenInRange(tris, |points|);
    var corners := CornerPoints(points, Flatten(tris));
    SectionBuffers(VertexBuffer(corners), VertexBuffer(AtHeight(corners, WaterHeight)))
  }

  /** Slot layout of the soup: triangle i's corners are vertices 3 i, 3 i + 1 and 3 i + 2 of both buffers. */
  lemma SoupLayout(points: seq<Vec3>, tris: seq<Triangle>, i: nat)
    requires forall t :: t in tris ==> InRange(t, |points|)
    requires i < |tris|
    ensures var t := tris[i];
            var b := SectionSoup(points, tris);
            && InRange(t, |points|)
            && Vertex(b.crossPlane, 3 * i) == points[t.a]
            && Vertex(b.crossPlane, 3 * i + 1) == points[t.b]
            && Vertex(b.crossPlane, 3 * i + 2) == points[t.c]
            && Vertex(b.waterPlane, 3 * i) == Vec3(points[t.a].x, WaterHeight, points[t.a].z)
            && Vertex(b.waterPlane, 3 * i + 1) == Vec3(points[t.b].x, WaterHeight, points[t.b].z)
            && Vertex(b.waterPlane, 3 * i + 2) == Vec3(points[t.c].x, WaterHeight, points[t.c].z)
  {
    var t := tris[i];
    assert t in tris;
    FlattenInRange(tris, |points|);
    var flat := Flatten(tris);
    var corners := CornerPoints(points, flat);
    assert flat[3 * i] == t.a && flat[3 * i + 1] == t.b && flat[3 * i + 2] == t.c;
    assert corners[3 * i] == points[t.a] && corners[3 * i + 1] == points[t.b] && corners[3 * i + 2] == points[t.c];
    var b := SectionSoup(points, tris);
    assert b.crossPlane == VertexBuffer(corners);
    assert b.waterPlane == VertexBuffer(AtHeight(corners, WaterHeight));
  }

  /**
   `cross_section_plane`'s buffers: nine slots per triangle, (x, y, z) of each
   corner in turn, once at the vertices' altitudes for the section surface and
   once at height 50 for the water plane.
   */
  function CrossSectionPlane(f: Transcendentals, triangulate: CellTriangulator, pts: seq<GeoVertex>, mapCenter: Vec3): (b: SectionBuffers)
    ensures |b.crossPlane| == |b.waterPlane| == 9 * |triangulate(Ground(SectionPoints(f, pts, mapCenter)))|
    ensures forall k: nat :: k < |b.waterPlane| / 3 ==>
              Vertex(b.waterPlane, k) == Vec3(Vertex(b.crossPlane, k).x, WaterHeight, Vertex(b.crossPlane, k).z)
  {
    var points := SectionPoints(f, pts, mapCenter);
    SectionSoup(points, triangulate(Ground(points)))
  }

  /**
   Slot layout: triangle i's corners are vertices 3 i, 3 i + 1 and 3 i + 2 of
   both buffers, copied from the section points (at height 50 in the water
   plane).
   */
  lemma CrossSectionLayout(f: Transcendentals, triangulate: CellTriangulator, pts: seq<GeoVertex>, mapCenter: Vec3, i: nat)
    requires i < |triangulate(Ground(SectionPoints(f, pts, mapCenter)))|
    ensures var points := SectionPoints(f, pts, mapCenter);
            var t := triangulate(Ground(points))[i];
            var b := CrossSectionPlane(f, triangulate, pts, mapCenter);
            && InRange(t, |points|)
            && Vertex(b.crossPlane, 3 * i) == points[t.a]
            && Vertex(b.crossPlane, 3 * i + 1) == points[t.b]
            && Vertex(b.crossPlane, 3 * i + 2) == points[t.c]
            && Vertex(b.waterPlane, 3 * i) == Vec3(points[t.a].x, WaterHeight, points[t.a].z)
            && Vertex(b.waterPlane, 3 * i + 1) == Vec3(points[t.b].x, WaterHeight, points[t.b].z)
            && Vertex(b.waterPlane, 3 * i + 2) == Vec3(points[t.c].x, WaterHeight, points[t.c].z)
  {
    var points := SectionPoints(f, pts, mapCenter);
    SoupLayout(points, triangulate(Ground(points)), i);
  }
}
