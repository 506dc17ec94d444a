# Hydro3DJS water-surface mesher, modelled in Dafny

Hydro3DJS draws flood extents on a 3D map. Its core is the water-surface
mesher. The mesher takes a flood polygon given in longitude and latitude and
projects it onto the scene's ground plane with spherical Mercator. It fills the
polygon with a lattice of spacing 10 and triangulates the points. Then it keeps
only the triangles whose centroid lies inside the polygon, and emits a position
buffer and a 16-bit index buffer. This project models that pipeline over exact
reals. It also models the glue around it: placing scene objects by longitude
and latitude relative to the map centre, picking a random point inside a
polygon, choosing the water geometry for the current level, and generating one
water plane per level.

Modules, in dependency order:

- `Wrappers` (wrappers.dfy): `Option`.
- `Geometry` (geometry.dfy): planar points, 3-vectors, floor and ceiling, sequence minimum and maximum.
- `RayCasting` (ray_casting.dfy): the even-odd point-in-polygon test of Hydro3DJS.js. The same predicate stands in for the `point-in-polygon` package that watergeo.js imports, which implements the same algorithm.
- `Projection` (projection.dfy): the Mercator conversions of utils.js. `Math.log/tan/atan/exp` are a parameter `f: Transcendentals`. This is a record of total functions, constrained only by the identities the projection needs, with Math.PI read as pi: tan and atan are inverse, exp and log are inverse, tan(pi/2 - t) = 1/tan(t), and exp(-u) = 1/exp(u). `LawfulModel` shows that the constraint can be satisfied.
- `Lattice` (lattice.dfy): `compareNum`, `minMax` and `girlPoint2D`.
- `WaterGeo` (water_geo.dfy): `delaunay`, and the buffers of `water_plane` and `cross_section_plane`. Delaunator and delaunay-triangulate are parameters. Their types (`Triangulator`, `CellTriangulator`) state the only thing the mesher relies on: whole triangles whose indices are in range.
- `Hydro` (hydro.dfy): `randomPointInPolygon`, `Object`/`Icon` placement, `WaterObject` level selection, and `generate_water_geos`.
- `Scenarios` (scenarios.dfy): the 100 x 100 square, worked through.

## Model

| member | source | states |
|---|---|---|
| RayCasting.PointInPolygon | src/core/Hydro3DJS.js:49-69 | The result is true exactly when an odd number of ring edges are crossed by the ray from the point towards +x. An empty polygon gives false. |
| RayCasting.ToggleFrom | src/core/Hydro3DJS.js:52-66 | Running the loop from iteration i with flag `acc` flips the flag once per crossing: the result is `acc` exactly when the number of remaining crossings is even. |
| RayCasting.HorizontalEdgeNeverCrosses | src/core/Hydro3DJS.js:60-61 | An edge with yi = yj never counts as a crossing. The straddle test fails first, so the division by yj - yi is never reached for such an edge. |
| RayCasting.CrossesSymmetric | src/core/Hydro3DJS.js:60-61 | The crossing test gives the same answer whichever end of the edge is taken as i. |
| RayCasting.EachEdgeVisitedOnce | src/core/Hydro3DJS.js:54 | With j trailing i, each vertex closes exactly one visited edge, and iteration 0 visits the closing edge (0, n-1). |
| RayCasting.RotationInvariant | src/core/Hydro3DJS.js:54-66 | Starting the ring at its second vertex does not change the verdict. |
| Lattice.CompareNum | src/core/watergeo.js:75-83 | The result is -1 exactly when a < b, 1 exactly when a > b, and 0 exactly when they are equal. |
| Lattice.CompareNumIsComparator | src/core/watergeo.js:75-83 | The comparator is antisymmetric and transitive, and it returns 0 only for equal values. |
| Lattice.MinMax | src/core/watergeo.js:70-73 | There are no bounds exactly when the array is empty. Otherwise both bounds are integers with lo <= every element <= hi. Some element is below lo + 1 and some is above hi - 1, so lo is the floor of the minimum and hi the ceiling of the maximum. |
| Lattice.Steps | src/core/watergeo.js:27-28 | The step count n = ceil((hi - lo) / 10) is the least n with lo + 10 n >= hi. |
| Lattice.GridOf | src/core/watergeo.js:18-28 | There is a grid exactly when the polygon is non-empty. Its bounds are minMax of the x and the y coordinates, and its row and col are the step counts. |
| Lattice.CandidateCount | src/core/watergeo.js:29-34 | There are exactly (row+1)(col+1) candidates. |
| Lattice.CandidateLayout | src/core/watergeo.js:29-34 | For every i <= row and j <= col, candidate i(col+1)+j exists and is (lonMin + 10 i, latMin + 10 j), with i outer and j inner. |
| Lattice.BuildCandidates | src/core/watergeo.js:29-34 | The nested loops push exactly the row-major candidate sequence. |
| Lattice.LatticeReachesBounds | src/core/watergeo.js:24-34 | The first candidate is (lonMin, latMin), and the last one reaches at least (lonMax, latMax). |
| Lattice.InsideOnly | src/core/watergeo.js:35-40 | The kept points are exactly the candidates that pass the point-in-polygon test. |
| Lattice.InsideOnlyConcat | src/core/watergeo.js:35-40 | The filter keeps candidate order: filtering a concatenation filters each part in turn. |
| Lattice.GirlPoint2D | src/core/watergeo.js:17-42 | The output starts with the polygon, unchanged and in order, and every later point tests inside. An empty polygon gives an empty output. |
| Lattice.GirlPointIsLatticePoint | src/core/watergeo.js:29-41 | Every point after the polygon's vertices is a lattice point (i, j) of the grid, with i <= row and j <= col. |
| Lattice.InsideLatticePointsKept | src/core/watergeo.js:29-41 | Every lattice point of the grid that tests inside appears after the polygon's vertices. |
| WaterGeo.GroupFlatten | src/core/watergeo.js:52-55 | Reading a flat index list as consecutive triples undoes writing the triples out. |
| WaterGeo.FlattenGroup | src/core/watergeo.js:52-55 | Writing the triples out undoes reading them from a flat list whose length is a multiple of 3. |
| WaterGeo.KeepTriples | src/core/watergeo.js:52-61 | The loop's output is a list of whole triples, no longer than its input, and every kept index comes from the input. |
| WaterGeo.KeepInterior | src/core/watergeo.js:50-63 | The output of `delaunay` is a triangle buffer over the same points: its length is a multiple of 3, every index is in range, and it is no longer than the triangulation. |
| WaterGeo.FilterTriangles | src/core/watergeo.js:54-60 | The reference filter on whole triangles: a triangle is in the output exactly when it is in the input and passes the test. |
| WaterGeo.KeepTriplesFiltersTriangles | src/core/watergeo.js:50-63 | The loop of `delaunay` equals the reference filter, flattened. Kept triples are whole triples of the triangulation, in their original order, with their vertex order unchanged. |
| WaterGeo.KeptTriangles | src/core/watergeo.js:52-61 | Read as triangles, the kept triples are exactly the input triangles that pass the test. |
| WaterGeo.KeptAreInterior | src/core/watergeo.js:50-63 | Every triangle `delaunay` keeps is a triangle of the triangulation, in range, with its centroid inside the polygon. |
| WaterGeo.KeptIffCentroidInside | src/core/watergeo.js:54-60 | A triangle of the triangulation is kept exactly when its centroid ((x1+x2+x3)/3, (y1+y2+y3)/3) tests inside the polygon. |
| WaterGeo.VertexBuffer | src/core/watergeo.js:109-112 | There are three slots per vertex, and reading vertex k back from the buffer gives vertex k. |
| WaterGeo.Uint16 | src/core/watergeo.js:115 | A stored index is below 2^16, and an index below 2^16 is stored unchanged. |
| WaterGeo.IndexBuffer | src/core/watergeo.js:115 | The index buffer has one entry per index. Every entry is below 2^16, and every index below 2^16 is kept unchanged. |
| WaterGeo.PlanarRingUnprojects | src/core/watergeo.js:92-97 | Each planar ring vertex, moved back by the map centre and unprojected, is the GeoJSON `[lng, lat]` position it came from, away from the poles. |
| WaterGeo.MeshPoints | src/core/watergeo.js:107 | The triangulated point set starts with the planar ring, vertex by vertex. |
| WaterGeo.WaterPlane | src/core/watergeo.js:91-118 | The position buffer has exactly 3 entries per mesh point. The index buffer's length is a multiple of 3, and every index is below 2^16. |
| WaterGeo.PlanePositions | src/core/watergeo.js:109-112 | Vertex k of the position buffer is (x_k, 0, y_k) for mesh point k. |
| WaterGeo.WaterPlaneFlat | src/core/watergeo.js:109-112 | Every vertex of the position buffer has y = 0. |
| WaterGeo.WaterPlaneRingFirst | src/core/watergeo.js:92-112 | The first vertices of the position buffer are the ring's projected vertices, in ring order, relative to the map centre. |
| WaterGeo.WaterPlaneIndicesInRange | src/core/watergeo.js:107-115 | When the mesh has at most 2^16 points, every emitted index names one of the buffer's vertices. |
| WaterGeo.PlaneTrianglesInside | src/core/watergeo.js:108-115 | When the mesh has at most 2^16 points, every emitted triangle is in range and its centroid tests inside the planar polygon. |
| WaterGeo.WaterPlaneTrianglesInside | src/core/watergeo.js:91-118 | The same property at the level of `water_plane`: the triangle's centroid tests inside the projected ring. |
| WaterGeo.SectionPointsUnproject | src/core/watergeo.js:131-137 | Each section point keeps its vertex's altitude as y, and its (x, z), moved back by the map centre and unprojected, is the vertex's longitude and latitude, away from the poles. |
| WaterGeo.SectionSoup | src/core/watergeo.js:213-227 | Both buffers have 9 slots per triangle. Each water-plane vertex has y = 50 and the x and z of the matching section vertex. |
| WaterGeo.SoupLayout | src/core/watergeo.js:148-158 | Triangle i's corners are vertices 3i, 3i+1 and 3i+2 of both buffers. They are copied from the section points, and moved to height 50 in the water plane. |
| WaterGeo.CrossSectionPlane | src/core/watergeo.js:213-227 | The water-plane buffer has 9 slots per triangle. Every y slot is 50, and the x and z slots equal those of the section surface. |
| WaterGeo.CrossSectionLayout | src/core/watergeo.js:144-158 | For the triangles returned by the triangulator, triangle i's corners fill vertices 3i to 3i+2 of the section surface, and the same corners at height 50 fill the water plane. |
| Projection.LatLngToVector3 | src/core/utils.js:29-32 | The projected vector lies on the ground plane (y = 0). |
| Projection.LatLngNumToVector3 | src/core/utils.js:64-70 | The separate-argument projection also lies on the ground plane. |
| Projection.LatLngNumAgrees | src/core/utils.js:64-70 | `latLngNumToVector3(lat, lng)` equals `latLngToVector3({lat, lng})` for every input. |
| Projection.LongitudeRoundTrip | src/core/utils.js:13-41 | Longitude round-trips exactly: radToDeg((R degToRad(lng)) / R) = lng, with R = 6371010. |
| Projection.LatitudeRoundTrip | src/core/utils.js:17-44 | Latitude strictly between the poles round-trips through y = -R log(tan((pi/2 - lat)/2)) and lat = 2 atan(exp(y/R)) - pi/2. |
| Projection.MetersRoundTrip | src/core/utils.js:13-46 | `metersToLatLng` undoes `latLngToMeters` away from the poles. |
| Projection.Vector3RoundTrip | src/core/utils.js:29-56 | `vector3ToLatLng` undoes `latLngToVector3` away from the poles. The sign flip z = -y is undone by y = -z. |
| Projection.Vector3InverseRoundTrip | src/core/utils.js:29-56 | Every vector is the projection of the position `vector3ToLatLng` returns for it, with y dropped to 0. |
| Projection.OriginProjectsToOrigin | src/core/utils.js:13-32 | Latitude 0, longitude 0 projects to the origin (0, 0, 0). |
| Hydro.BoundingBox | src/core/Hydro3DJS.js:19-31 | There is no box exactly when the polygon is empty. Every vertex lies in the box, and each of the four bounds is attained by some vertex. |
| Hydro.Spread | src/core/Hydro3DJS.js:33-37 | For r in [0, 1) and lo <= hi, r (hi - lo) + lo lies in [lo, hi]. |
| Hydro.Sample | src/core/Hydro3DJS.js:33-37 | Each candidate point lies in the bounding box. |
| Hydro.RandomPointInPolygon | src/core/Hydro3DJS.js:18-40 | A returned point passes the point-in-polygon test and lies in the bounding box. It is the candidate of the first accepted draw: every earlier draw was rejected. No point means every given draw was rejected. An empty polygon gives no point. |
| Hydro.FirstAccepted | src/core/Hydro3DJS.js:32-39 | The rejection loop returns the index of the first accepted draw, or none when every draw is rejected. |
| Hydro.SetPosWLngLat | src/core/Hydro3DJS.js:291-294 | The stored position is on the ground plane, and the position plus the map centre is the projection of (lat, lng). |
| Hydro.GetPosWLngLat | src/core/Hydro3DJS.js:298-301 | Projecting the returned longitude and latitude gives back the position plus the map centre. |
| Hydro.SetThenGet | src/core/Hydro3DJS.js:291-301 | Setting by longitude and latitude and then reading back returns them, away from the poles. The map-centre offset cancels exactly. |
| Hydro.GetThenSet | src/core/Hydro3DJS.js:291-301 | Reading a ground-plane position as longitude and latitude and setting it again restores the position. |
| Hydro.IconSetPosAsWritten | src/core/Hydro3DJS.js:405-408 | As written, `Icon.setPosWLngLat(lng, lat)` places the icon where `Object.setPosWLngLat(lat, lng)` would place an object, with the coordinates swapped. |
| Hydro.IconSwapCounterexample | src/core/Hydro3DJS.js:405-408 | An icon set at longitude 10, latitude 0 gets x = -mapCenter.x (longitude 0), which is not where the corrected placement puts it. |
| Hydro.IconSetPos | src/core/Hydro3DJS.js:405-408 | The corrected icon position is on the ground plane, and the position plus the map centre is the projection of (lat, lng). |
| Hydro.IconSetPosRoundTrip | src/core/Hydro3DJS.js:405-408 | Read back through the object getter, the corrected icon placement returns its longitude and latitude, away from the poles. |
| Hydro.LevelGeometry | src/core/Hydro3DJS.js:530-533 | A geometry is selected exactly when 1 <= level <= the number of geometries, and level k+1 selects entry k. |
| Hydro.LevelsEnumerate | src/core/Hydro3DJS.js:530-533 | Levels 1 to n select the entries in order, and levels 0 and n+1 select nothing. |
| Hydro.Preload | src/core/Hydro3DJS.js:530-534 | After preload the mesh exists. It holds `water_geometries[level - 1]` exactly when the level is in range, and otherwise the empty geometry the `Mesh` constructor substitutes for `undefined`. |
| Hydro.Animate | src/core/Hydro3DJS.js:565-568 | While the mesh exists, it holds the geometry of the current UI level, or `undefined` when the level is out of range. Without a mesh nothing changes. The geometries are never changed. |
| Hydro.AnimateAtPreloadLevel | src/core/Hydro3DJS.js:530-568 | Animating at the preloaded level leaves the object as preload built it exactly when the level is in range. Outside the range preload left the empty geometry and animate assigns `undefined`. |
| Hydro.AnimateLastLevelWins | src/core/Hydro3DJS.js:565-568 | Animating twice is the same as animating once at the second level. |
| Hydro.GenerateWaterGeos | src/core/utils.js:499-510 | There is exactly one plane per input element, in input order, and plane i is `water_plane` of element i. |
| Hydro.MapInOrder | src/core/utils.js:505-508 | The loop pushes f(array[i]) for i = 0 to n-1: the output has the input's length, and entry i is f of input i. |
| Hydro.LevelShowsItsRing | src/core/utils.js:499-510 | Fed to a `WaterObject`, the generated planes make level k+1 show the plane of element k. |
| Scenarios.IntegralExtremes | src/core/watergeo.js:70-73 | When the smallest and largest values are integers, `minMax` returns them unchanged. |
| Scenarios.SquareBounds | src/core/watergeo.js:70-73 | `minMax` of the square's x and of its y coordinates are both [0, 100]. |
| Scenarios.SquareGrid | src/core/watergeo.js:17-34 | The square [[0,0],[0,100],[100,100],[100,0]] gets a 10 x 10 step grid from (0, 0). There are 121 candidates, and the last one is (100, 100). |
| Scenarios.SquareMembership | src/core/Hydro3DJS.js:49-69 | The centre (50, 50) of the square tests inside, and (150, 50) tests outside. |

## Left out

- Delaunator and delaunay-triangulate internals (src/core/watergeo.js:3, 10, 51, 144): these are foreign libraries. The model takes them as parameters, and relies only on whole triangles with in-range indices. The Delaunay property is not modelled.
- IEEE-754 arithmetic: all coordinates are exact reals. The `Float32Array` narrowing of positions (src/core/watergeo.js:116) is not modelled.
- `Math.log/tan/atan/exp` are not computed. They are constrained by the identities listed above, so results are exact wherever those identities determine them.
- Projection at the poles: the code has no guard. At latitude +90 the tangent is 0 and the northing is infinite. At latitude -90 floating point gives a finite northing of about -2.4e8 m, because `Math.tan` of the rounded pi/2 is about 1.6e16. The round-trip lemmas require a latitude strictly between the poles.
- Math.PI is identified with pi. The laws of `Transcendentals` hold of the real tan and atan only when `HalfPi` is pi/2 itself, while the decimal literal 3.141592653589793 is about 2.4e-16 below pi. Evaluated exactly at the literal, the real functions miss these laws by about that much. So LatitudeRoundTrip, MetersRoundTrip, Vector3RoundTrip, Vector3InverseRoundTrip, SetThenGet, GetThenSet and IconSetPosRoundTrip are exact only under this identification. Floating point evaluation moves the results further.
- Projection.OriginProjectsToOrigin: the exact 0 rests on tan(pi/4) = 1. In JavaScript `Math.tan(Math.PI / 4)` is 0.9999999999999999, so the code gives z of about -7.1e-10 m rather than 0.
- `Math.random`: it becomes the sequence of draws the rejection loop would consume. For an empty polygon the original loop never terminates. The model returns no point in that case.
- The optional `target` vector that `latLngToVector3` writes into is not modelled: the model returns a fresh vector.
- Lattice.MinMax: the in-place sort of the coordinate array is modelled by its result (the floor of the smallest and the ceiling of the largest element), not as a sort. For an empty array JavaScript yields NaN bounds and the lattice loop runs zero times. The model yields no bounds, and the output is the (empty) polygon.
- In-place mutation of `data.coordinates[0]` and of the cross-section input in `water_plane` and `cross_section_plane`: modelled as pure functions of the input.
- The rest of `cross_section_plane`: the `heights`, the min/max-height uniforms, the normals buffer, the shader material and the scene insertion are not modelled. The call `hydro.addWater(waterPlane, true, 0.1)` is not modelled either, since `addWater` is scene code.
- WaterGeo.CrossSectionPlane: the triangles of delaunay-triangulate are taken as in range; a cell with out-of-range indices would read `undefined` in JavaScript.
- The scene graph, GLTF loading, rain particles (`RainObject`), `checkIfFlooded` (turf), lighting, GUI and map listeners in Hydro3DJS.js and utils.js: rendering, I/O and UI code.
- src/core/demo.js, src/core/overlay.js, src/core/Water.js, src/shaders/water_shader.js, src/ui/*.js, src/maps/main_creek.js and src/webpack.config.js: DOM, network, GPU shader, configuration and build code. They are outside the mesher.

## Findings

| source | as written | input that shows it | evidently intended | confidence | as-written member | corrected member |
|---|---|---|---|---|---|---|
| src/core/Hydro3DJS.js:405-408 | `Icon.setPosWLngLat(lng, lat)` calls `latLngNumToVector3(lng, lat)`, but that function's parameters are `(lat, lng)` | `setPosWLngLat(10, 0)` gives x = -mapCenter.x, the x of longitude 0 | the argument order of `Object.setPosWLngLat` (src/core/Hydro3DJS.js:291-294), `latLngNumToVector3(lat, lng)` | high (not executed) | Hydro.IconSetPosAsWritten, Hydro.IconSwapCounterexample | Hydro.IconSetPos, Hydro.IconSetPosRoundTrip |

Two behaviours a reader might expect are absent from the code, and the model follows the code. First, projecting a pole raises no error, so the round-trip lemmas carry a latitude precondition instead of an error result. Second, a polygon with fewer than three vertices does not get an empty mesh by a check of its own. Its mesh is whatever the triangulator returns, filtered as usual.
