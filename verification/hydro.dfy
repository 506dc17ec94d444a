/**
 The scene-object glue of Hydro3DJS.js and utils.js that the mesher feeds:
 random placement inside a polygon, map-centre placement of objects and
 icons, level-indexed selection of water geometries, and the per-level
 generation of water planes.

 `Math.random` becomes a parameter: the sequence of draws the rejection
 loop would consume.
 */
module Hydro {

  import opened Wrappers
  import opened Geometry
  import opened RayCasting
  import opened Projection
  import opened WaterGeo

  // ---------------------------------------------------------------------
  // randomPointInPolygon
  // ---------------------------------------------------------------------

  /** An axis-aligned box, `[minX, maxX] x [minY, maxY]`. */
  datatype Box = Box(minX: real, minY: real, maxX: real, maxY: real)

  /** The point lies in the closed box. */
  predicate InBox(p: Point, b: Box)
  {
    b.minX <= p.x <= b.maxX && b.minY <= p.y <= b.maxY
  }

  /**
   The `forEach` of `randomPointInPolygon`: the tight bounding box of the
   vertices. With no vertices the JavaScript bounds stay at +/-Infinity;
   that case is `None`.
   */
  function BoundingBox(poly: Polygon): (box: Option<Box>)
    ensures box.None? <==> |poly| == 0
    ensures box.Some? ==> forall k :: 0 <= k < |poly| ==> InBox(poly[k], box.value)
    ensures box.Some? ==>
              && (exists k :: 0 <= k < |poly| && poly[k].x == box.value.minX)
              && (exists k :: 0 <= k < |poly| && poly[k].x == box.value.maxX)
              && (exists k :: 0 <= k < |poly| && poly[k].y == box.value.minY)
              && (exists k :: 0 <= k < |poly| && poly[k].y == box.value.maxY)
  {
    if |poly| == 0 then None
    else
      var xs := Xs(poly);
      var ys := Ys(poly);
      Some(Box(SeqMin(xs), SeqMin(ys), SeqMax(xs), SeqMax(ys)))
  }

  /** A value of `Math.random()`: in `[0, 1)`. */
  type UnitReal = u: real | 0.0 <= u < 1.0

  /** The two `Math.random()` calls of one iteration of the rejection loop. */
  datatype Draw = Draw(u: UnitReal, v: UnitReal)

  /** `random * (hi - lo) + lo`: a point of `[lo, hi]` when `lo <= hi`. */
  function Spread(r: UnitReal, lo: real, hi: real): (x: real)
    ensures lo <= hi ==> lo <= x <= hi
  {
    var w := hi - lo;
    if w >= 0.0 then
      ScaleWithin(r, w);
      r * w + lo
    else
      r * w + lo
  }

  /** Scaling a width by a random value stays within the width. */
  lemma ScaleWithin(r: UnitReal, w: real)
    requires w >= 0.0
    ensures 0.0 <= r * w <= w
  {
    if w > 0.0 {
      assert r * w < w;
    }
  }

  /** The candidate point of one iteration of the rejection loop. */
  function Sample(b: Box, d: Draw): (p: Point)
    ensures b.minX <= b.maxX && b.minY <= b.maxY ==> InBox(p, b)
  {
    Point(Spread(d.u, b.minX, b.maxX), Spread(d.v, b.minY, b.maxY))
  }

  /** The loop condition: the candidate of draw `d` passes the ray-casting test. */
  predicate Accepted(poly: Polygon, b: Box, d: Draw)
  {
    PointInPolygon(Sample(b, d), poly)
  }

  /**
   `randomPointInPolygon`, given the draws `Math.random` would produce: the
   candidate of the first accepted draw. `None` stands for the loop not
   having stopped within the given draws (for an empty polygon it never
   stops).
   */
  method RandomPointInPolygon(poly: Polygon, draws: seq<Draw>) returns (r: Option<Point>)
    ensures |poly| == 0 ==> r.None?
    ensures r.Some? ==> |poly| > 0 && PointInPolygon(r.value, poly) && InBox(r.value, BoundingBox(poly).value)
    ensures r.Some? ==> exists i :: 0 <= i < |draws| && r.value == Sample(BoundingBox(poly).value, draws[i])
                                    && forall j :: 0 <= j < i ==> !Accepted(poly, BoundingBox(poly).value, draws[j])
    ensures r.None? && |poly| > 0 ==> forall j :: 0 <= j < |draws| ==> !Accepted(poly, BoundingBox(poly).value, draws[j])
  {
    var box := BoundingBox(poly);
    if box.None? {
      return None;
    }
    var b := box.value;
    assert b.minX <= poly[0].x <= b.maxX && b.minY <= poly[0].y <= b.maxY by {
      assert InBox(poly[0], b);
    }
    var k := FirstAccepted(draws, d => Accepted(poly, b, d));
    if k.None? {
      return None;
    }
    var i := k.value;
    var p := Sample(b, draws[i]);
    assert Accepted(poly, b, draws[i]);
    assert PointInPolygon(p, poly) && InBox(p, b);
    return Some(p);
  }

  /** The rejection loop over a finite run of draws: the index of the first accepted one, if any. */
  method FirstAccepted<D>(draws: seq<D>, accept: D -> bool) returns (k: Option<nat>)
    ensures k.Some? ==> k.value < |draws| && accept(draws[k.value])
    ensures k.Some? ==> forall j :: 0 <= j < k.value ==> !accept(draws[j])
    ensures k.None? ==> forall j :: 0 <= j < |draws| ==> !accept(draws[j])
  {
    var i := 0;
    while i < |draws|
      invariant 0 <= i <= |draws|
      invariant forall j :: 0 <= j < i ==> !accept(draws[j])
    {
      if accept(draws[i]) {
        return Some(i);
      }
      i := i + 1;
    }
    return None;
  }

  // ---------------------------------------------------------------------
  // Object and Icon placement
  // ---------------------------------------------------------------------

  /**
   `Object.setPosWLngLat(lng, lat)`: the projected position, offset by the map
   centre, on the ground plane.
   */
  function SetPosWLngLat(f: Transcendentals, mapCenter: Vec3, lng: real, lat: real): (pos: Vec3)
    ensures pos.y == 0.0
    ensures pos.x + mapCenter.x == LatLngToVector3(f, LatLng(lat, lng)).x
    ensures pos.z + mapCenter.z == LatLngToVector3(f, LatLng(lat, lng)).z
  {
    LatLngNumAgrees(f, lat, lng);
    var v := LatLngNumToVector3(f, lat, lng);
    Vec3(v.x - mapCenter.x, 0.0, v.z - mapCenter.z)
  }

  /** `Object.getPosWLngLat()`: the map centre added back, then unprojected. */
  function GetPosWLngLat(f: Transcendentals, mapCenter: Vec3, pos: Vec3): (p: LatLng)
    ensures LatLngToVector3(f, p) == Vec3(pos.x + mapCenter.x, 0.0, pos.z + mapCenter.z)
  {
    var v := Vec3(pos.x + mapCenter.x, 0.0, pos.z + mapCenter.z);
    Vector3InverseRoundTrip(f, v);
    Vector3ToLatLng(f, v)
  }

  /** Setting a position by longitude and latitude and reading it back gives them back, away from the poles. */
  lemma SetThenGet(f: Transcendentals, mapCenter: Vec3, lng: real, lat: real)
    requires OffPole(lat)
    ensures GetPosWLngLat(f, mapCenter, SetPosWLngLat(f, mapCenter, lng, lat)) == LatLng(lat, lng)
  {
    var pos := SetPosWLngLat(f, mapCenter, lng, lat);
    var w := LatLngToVector3(f, LatLng(lat, lng));
    assert Vec3(pos.x + mapCenter.x, 0.0, pos.z + mapCenter.z) == w;
    Vector3RoundTrip(f, LatLng(lat, lng));
  }

  /** Reading a ground position as longitude and latitude and setting it again restores the position. */
  lemma GetThenSet(f: Transcendentals, mapCenter: Vec3, pos: Vec3)
    requires pos.y == 0.0
    ensures var p := GetPosWLngLat(f, mapCenter, pos);
            SetPosWLngLat(f, mapCenter, p.lng, p.lat) == pos
  {
  }

  /** `Icon.setPosWLngLat(lng, lat)` as written: it passes `(lng, lat)` to `latLngNumToVector3(lat, lng)`. */
  function IconSetPosAsWritten(f: Transcendentals, mapCenter: Vec3, lng: real, lat: real): (pos: Vec3)
    ensures pos == SetPosWLngLat(f, mapCenter, lat, lng)
  {
    LatLngNumAgrees(f, lng, lat);
    var v := LatLngNumToVector3(f, lng, lat);
    Vec3(v.x - mapCenter.x, 0.0, v.z - mapCenter.z)
  }

  /**
   The swap is observable: an icon set at longitude 10, latitude 0 lands
   where an object set at longitude 0 would, not at longitude 10.
   */
  lemma IconSwapCounterexample(f: Transcendentals, mapCenter: Vec3)
    ensures IconSetPosAsWritten(f, mapCenter, 10.0, 0.0).x == 0.0 - mapCenter.x
    ensures IconSetPosAsWritten(f, mapCenter, 10.0, 0.0) != IconSetPos(f, mapCenter, 10.0, 0.0)
  {
    var asWritten := IconSetPosAsWritten(f, mapCenter, 10.0, 0.0);
    var intended := IconSetPos(f, mapCenter, 10.0, 0.0);
    assert asWritten.x == EarthRadius * DegToRad(0.0) - mapCenter.x;
    assert intended.x == EarthRadius * DegToRad(10.0) - mapCenter.x;
  }

  /** `Icon.setPosWLngLat(lng, lat)` with the arguments in the order `latLngNumToVector3` declares. */
  function IconSetPos(f: Transcendentals, mapCenter: Vec3, lng: real, lat: real): (pos: Vec3)
    ensures pos.y == 0.0
    ensures pos.x + mapCenter.x == LatLngToVector3(f, LatLng(lat, lng)).x
    ensures pos.z + mapCenter.z == LatLngToVector3(f, LatLng(lat, lng)).z
  {
    var v := LatLngNumToVector3(f, lat, lng);
    LatLngNumAgrees(f, lat, lng);
    Vec3(v.x - mapCenter.x, 0.0, v.z - mapCenter.z)
  }

  /** The corrected icon placement reads back, through the object getter, as the longitude and latitude it was given. */
  lemma IconSetPosRoundTrip(f: Transcendentals, mapCenter: Vec3, lng: real, lat: real)
    requires OffPole(lat)
    ensures GetPosWLngLat(f, mapCenter, IconSetPos(f, mapCenter, lng, lat)) == LatLng(lat, lng)
  {
    assert IconSetPos(f, mapCenter, lng, lat) == SetPosWLngLat(f, mapCenter, lng, lat);
    SetThenGet(f, mapCenter, lng, lat);
  }

  // ---------------------------------------------------------------------
  // WaterObject level selection
  // ---------------------------------------------------------------------

  /**
   `water_geometries[level - 1]`: levels count from 1. Outside `1..|geoms|`
   JavaScript yields `undefined`, here `None`.
   */
  function LevelGeometry<G>(geoms: seq<G>, level: int): (g: Option<G>)
    ensures g.Some? <==> 1 <= level <= |geoms|
    ensures forall k :: 0 <= k < |geoms| && level == k + 1 ==> g == Some(geoms[k])
  {
    if 1 <= level <= |geoms| then Some(geoms[level - 1]) else None
  }

  /** Distinct valid levels select the entries at distinct positions, in order. */
  lemma LevelsEnumerate<G>(geoms: seq<G>)
    ensures forall k :: 0 <= k < |geoms| ==> LevelGeometry(geoms, k + 1) == Some(geoms[k])
    ensures LevelGeometry(geoms, 0).None? && LevelGeometry(geoms, |geoms| + 1).None?
  {
  }

  /**
   What the water mesh holds as its geometry: a level's geometry; the empty
   geometry three.js's `Mesh` constructor substitutes when it is handed
   `undefined`; or `undefined` itself, assigned to an existing mesh.
   */
  datatype Shown<G> = LevelGeo(geo: G) | EmptyGeo | Undefined

  /** A `WaterObject`: its geometries per level, whether its mesh exists, and the geometry the mesh holds. */
  datatype WaterObject<G> = WaterObject(geometries: seq<G>, hasMesh: bool, shown: Shown<G>)

  /** `WaterObject.preload`: builds the mesh on the geometry of the configured level. */
  function Preload<G>(geoms: seq<G>, level: int): (w: WaterObject<G>)
    ensures w.geometries == geoms && w.hasMesh
    ensures w.shown.LevelGeo? <==> 1 <= level <= |geoms|
    ensures w.shown.LevelGeo? ==> w.shown.geo == geoms[level - 1]
    ensures !w.shown.LevelGeo? ==> w.shown.EmptyGeo?
  {
    var g := LevelGeometry(geoms, level);
    WaterObject(geoms, true, if g.Some? then LevelGeo(g.value) else EmptyGeo)
  }

  /** `WaterObject.animate`: while the mesh exists, it holds the geometry of the current UI level. */
  function Animate<G>(w: WaterObject<G>, uiLevel: int): (w': WaterObject<G>)
    ensures w'.geometries == w.geometries && w'.hasMesh == w.hasMesh
    ensures !w.hasMesh ==> w' == w
    ensures w.hasMesh ==> (w'.shown.LevelGeo? <==> 1 <= uiLevel <= |w.geometries|)
    ensures w.hasMesh && w'.shown.LevelGeo? ==> w'.shown.geo == w.geometries[uiLevel - 1]
    ensures w.hasMesh && !w'.shown.LevelGeo? ==> w'.shown.Undefined?
  {
    if w.hasMesh then
      var g := LevelGeometry(w.geometries, uiLevel);
      w.(shown := if g.Some? then LevelGeo(g.value) else Undefined)
    else w
  }

  /**
   Animating at the preloaded level changes nothing exactly when that level
   is in range: outside it, preload left the empty geometry and animate
   assigns `undefined`.
   */
  lemma AnimateAtPreloadLevel<G>(geoms: seq<G>, level: int)
    ensures Animate(Preload(geoms, level), level) == Preload(geoms, level) <==> 1 <= level <= |geoms|
  {
  }

  /** Only the latest UI level matters: animating twice is animating once at the second level. */
  lemma AnimateLastLevelWins<G>(w: WaterObject<G>, a: int, b: int)
    ensures Animate(Animate(w, a), b) == Animate(w, b)
  {
  }

  // ---------------------------------------------------------------------
  // generate_water_geos
  // ---------------------------------------------------------------------

  /**
   `generate_water_geos(array, mapCenter)`, with each element given by its
   outer ring: one water plane per level, in input order.
   */
  method GenerateWaterGeos(f: Transcendentals, triangulate: Triangulator, rings: seq<seq<Position>>, mapCenter: Vec3)
    returns (planes: seq<MeshBuffers>)
    ensures |planes| == |rings|
    ensures forall i :: 0 <= i < |rings| ==> planes[i] == WaterPlane(f, triangulate, rings[i], mapCenter)
  {
    planes := MapInOrder(ring => WaterPlane(f, triangulate, ring, mapCenter), rings);
  }

  /** The loop of `generate_water_geos`: `fn` applied to each element, pushed in input order. */
  method MapInOrder<X, Y>(fn: X -> Y, xs: seq<X>) returns (ys: seq<Y>)
    ensures |ys| == |xs|
    ensures forall i :: 0 <= i < |xs| ==> ys[i] == fn(xs[i])
  {
    ys := [];
    var i := 0;
    while i < |xs|
      invariant 0 <= i <= |xs|
      invariant |ys| == i
      invariant forall j :: 0 <= j < i ==> ys[j] == fn(xs[j])
    {
      ys := ys + [fn(xs[i])];
      i := i + 1;
    }
  }

  /**
   The planes of `generate_water_geos` fed to a `WaterObject`: level `k + 1`
   shows the plane of ring `k`.
   */
  lemma LevelShowsItsRing(f: Transcendentals, triangulate: Triangulator, rings: seq<seq<Position>>, mapCenter: Vec3,
                          planes: seq<MeshBuffers>, k: nat)
    requires |planes| == |rings|
    requires forall i :: 0 <= i < |rings| ==> planes[i] == WaterPlane(f, triangulate, rings[i], mapCenter)
    requires k < |rings|
    ensures Preload(planes, k + 1).shown == LevelGeo(WaterPlane(f, triangulate, rings[k], mapCenter))
  {
  }
}
