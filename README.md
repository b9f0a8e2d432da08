# A small software renderer and a rope simulation, in Dafny

This project models two p5.js sketches.

`old_sketch.js` is a minimal 3D software renderer. A `Mesh` holds triangles over shared corner `Vector`s. Each frame, `apply_transformations` rotates every triangle and moves it to the mesh position. `project_triangle` culls the triangles that face away from the camera at the origin, and `project_vertex` maps the rest to screen coordinates with a perspective divide. `draw` then keeps the drawn triangles, sorts them by mean depth and hands them to the painter. Meshes come from two places: `make_cube` builds an axis-aligned cube from six `plane_to_triangles` squares, and the `load_meshes` loop parses OBJ text (`v` and `f` lines). `set_origin_to_center` scans the corner bounds and shifts the mesh.

`sketch.js` is a spring-mass `Rope`: point masses in a row, a spring between each pair of neighbours, and `update`, which runs three passes in place:
1. drift and damping;
2. Hooke's-law forces along each spring;
3. integration.

`moveEnd` drags the first mass. `setSpringConstant` retunes every spring.

Model of the source's entities:
- **Numbers:** modelled as mathematical reals. Every product of two variables goes through `Vectors.Mul`.
- **Vector sharing:** `Vector` objects are shared between triangles, so the mesh keeps them in a pool (`Mesh.vertices: array<Vec3>`). A `Triangle` holds pool indices, so two triangles that share a corner hold the same index. The transformed corners and normals belong to one triangle only, so they are plain values inside the `Triangle` datatype. That datatype sits in `Mesh.triangles: array<Triangle>`.
- **Zero-length unit vectors:** `vec_get_unit` of the zero vector computes `0/0` in every component. The `Vector` constructor replaces each falsy component, NaN included, by `0.0` (`old_sketch.js:14-16`). So the result is the zero vector, and `Vectors.Unit` returns `Zero` there. Triangle normals are therefore always plain vectors: with a true square root, a normal is zero exactly when the two edges are parallel (or one is zero), and has length 1 otherwise.
- **Rope state:** `Rope` is a class. Its `masses` and `springs` are `seq` fields that its methods reassign. A spring refers to its two masses by index, which models the object references `massA` and `massB`.
- **Math functions:** `Math.sqrt`, `Math.cosDeg`, `Math.sinDeg`, the focal factor `1 / tan(fov / 2)` and the string-to-number coercion of OBJ coordinates are parameters. A lemma that needs a true square root requires `IsSqrt(sqrt)`.

The perspective divide of `project_vertex` is guarded by the depth after it has been scaled by `q - q * z_near` (`old_sketch.js:353`), and `Geometry.ProjectVertex` tests that same scaled value. The factor is non-zero, so the guard holds exactly when the unscaled depth is non-zero.

Files:
- `results.dfy` — `Option` and `Result`.
- `vectors.dfy` — `Vector` and the `vec_*` helpers.
- `geometry.dfy` — `Triangle`, the rotation matrix, per-triangle transform, cull and projection.
- `depth_sort.dfy` — the filter and sort of `draw`.
- `mesh.dfy` — the `Mesh` class.
- `cube.dfy` — `plane_to_triangles`, `make_cube` and the two findings.
- `obj_loader.dfy` — the OBJ parse loop.
- `rope.dfy` — the `Rope` class.

## Model

| member | source | states |
|---|---|---|
| Vectors.Sub | old_sketch.js:38-40 | adding `b` back to `a - b` gives `a`; the difference is the zero vector exactly when `a == b` |
| Vectors.Cross | old_sketch.js:30-36 | the cross product is perpendicular to both arguments |
| Vectors.CrossLagrange | old_sketch.js:30-36 | Lagrange's identity: the squared length of `a x b` is `|a|^2 |b|^2 - (a . b)^2` |
| Vectors.LengthSqSign | old_sketch.js:19-21 | the radicand of `get_length` is never negative and is zero only for the zero vector |
| Vectors.Dot | old_sketch.js:26-28 | `vec_dot_product`, the sum of the componentwise products; symmetric by `DotCommutes`, zero against the zero vector by `DotZero` |
| Vectors.Unit | old_sketch.js:42-45 | `vec_get_unit`, with the constructor's falsy test turning a zero length into the zero vector; what it means is stated by `UnitProperties`, `UnitZero` and `UnitLength` |
| Vectors.UnitZero | old_sketch.js:14-16 | the unit vector of the zero vector is the zero vector, whatever the square root returns |
| Vectors.UnitProperties | old_sketch.js:42-45 | with a true square root, `vec_get_unit` yields the zero vector exactly for the zero vector, and otherwise divides every component by the positive length |
| Vectors.UnitLength | old_sketch.js:42-45 | with a true square root, the unit vector of a non-zero vector has squared length 1 |
| Vectors.UnitOfUnitLength | old_sketch.js:42-45 | with a true square root, `vec_get_unit` leaves a vector of length 1 unchanged |
| Vectors.DotCommutes | old_sketch.js:26-28 | the dot product is symmetric |
| Geometry.NewTriangle | old_sketch.js:127-144 | a new triangle refers to the three given corners, carries the normal of those corners, has zero transformed corners and normal, and starts out drawn |
| Geometry.NormalOf | old_sketch.js:135-139 | the constructor's normal; `NormalZeroIff`, `NormalZeroParallel`, `NormalUnitLength`, `NormalPerpendicular`, `RepeatedCornerZeroNormal` and `FlatTriangleNormal` state what it is |
| Geometry.NormalZeroIff | old_sketch.js:135-139 | with a true square root, the normal is zero exactly when the cross product of the unnormalised edges is zero |
| Geometry.NormalZeroParallel | old_sketch.js:135-139 | with a true square root, the normal is zero exactly when the edges meet Lagrange's identity with equality, `|e1|^2 |e2|^2 == (e1 . e2)^2` |
| Geometry.NormalUnitLength | old_sketch.js:135-139 | with a true square root, a non-zero normal has squared length 1 |
| Geometry.UnitEdgesNormal | old_sketch.js:135-139 | when both edges and their cross product have length 1, the normal is that cross product |
| Geometry.FlatTriangleNormal | old_sketch.js:135-139 | with a true square root, the corners (0,0,0), (1,0,0), (0,1,0) get the normal (0,0,1) |
| Geometry.NormalPerpendicular | old_sketch.js:135-139 | the normal is perpendicular to both edges from the first corner, for any square root |
| Geometry.RepeatedCornerZeroNormal | old_sketch.js:135-139 | a triangle with two equal corners gets the zero normal |
| Geometry.Rotation | old_sketch.js:66-76 | the nine entries `Axx` .. `Azz`; `RotationIsComposition` states that they form the product of the rotations about z, y and x, and `ZeroRotation` that zero angles give the identity |
| Geometry.RotationIsComposition | old_sketch.js:56-76 | the nine matrix entries are the product of the rotations about z, y and x |
| Geometry.ZeroRotation | old_sketch.js:56-76 | with all angles zero the matrix is the identity |
| Geometry.Transform | old_sketch.js:78-95 | one triangle of the transform loop; its meaning is stated by `TransformKeepsOriginals`, `TransformOverwrites`, `TransformIdentity` and `TransformTranslation` |
| Geometry.TransformKeepsOriginals | old_sketch.js:78-95 | transforming a triangle keeps its corners, normal and drawn flag |
| Geometry.TransformOverwrites | old_sketch.js:78-95 | every transformed slot is overwritten, so the result does not depend on old transformed values, and applying the transform twice is applying it once |
| Geometry.TransformIdentity | old_sketch.js:78-95 | the identity matrix at position zero copies the corners and the normal |
| Geometry.TransformTranslation | old_sketch.js:89-93 | the position shifts the transformed corners but not the transformed normal |
| Geometry.DepthScaleValue | old_sketch.js:340-351 | the depth factor of `project_vertex` with the canvas constants is -4/169 |
| Geometry.ProjectVertex | old_sketch.js:335-365 | the projected point in closed form, with and without the perspective divide, including the zero-depth branch |
| Geometry.ProjectOrigin | old_sketch.js:335-365 | the origin projects to the centre of the canvas at depth zero |
| Geometry.FacesCamera | old_sketch.js:314-317 | the cull test `diff > 0`; `CullCriterion` states which triangles pass it |
| Geometry.CullCriterion | old_sketch.js:312-325 | with a true square root a triangle passes the cull exactly when its first corner is not the camera and its transformed normal points against the direction from the camera to that corner |
| Geometry.ZeroNormalNeverDrawn | old_sketch.js:312-325 | a zero normal stays zero under every matrix, so such a triangle is never drawn |
| Geometry.CornerAtCameraCulled | old_sketch.js:314-317 | a triangle whose first transformed corner is at the camera is never drawn |
| Geometry.ProjectTriangle | old_sketch.js:312-325 | `project_triangle` on one triangle; `ProjectTriangleEffect` states what it writes |
| Geometry.ProjectTriangleEffect | old_sketch.js:312-325 | the drawn flag becomes the cull result and the corners are projected only when it passes; nothing else is written |
| Geometry.DepthKey | old_sketch.js:275-276 | the mean transformed depth the comparator computes; `ProjectedDepthOrder` relates it before and after projection, and `SortByDepth` orders by it |
| Geometry.ProjectedDepthOrder | old_sketch.js:274-278 | projection scales the sort key by the negative depth factor, so projected keys sort in the reverse order of the original depths |
| DepthSort.FilterDrawn | old_sketch.js:266-272 | the collected triangles are drawn triangles of the mesh |
| DepthSort.FilterDrawnCount | old_sketch.js:266-272 | each drawn triangle is collected as often as it occurs, no other is collected |
| DepthSort.FilterDrawnAppend | old_sketch.js:266-272 | collecting distributes over concatenation, so relative order is kept |
| DepthSort.Insert | old_sketch.js:274-278 | inserting into a depth-sorted sequence keeps it sorted and adds exactly one element |
| DepthSort.InsertAfterTies | old_sketch.js:274-278 | an inserted triangle goes after every element of equal or smaller key and before every larger one, and the others keep their order |
| DepthSort.SortByDepth | old_sketch.js:274-278 | the result is sorted by ascending mean depth and is a permutation of the input |
| DepthSort.DrawOrder | old_sketch.js:266-278 | the drawing order is sorted and holds each drawn triangle of the mesh exactly as often as it occurs, and nothing else |
| Renderer.Slots | old_sketch.js:103-104 | the nested loops visit three corner slots per triangle |
| Renderer.SlotAt | old_sketch.js:103-104 | slot `3i + k` is corner `k` of triangle `i` |
| Renderer.SlotsInPool | old_sketch.js:103-104 | every visited slot is a vector of the pool |
| Renderer.BoundsOf | old_sketch.js:99-114 | the six accumulators after the scan; `BoundsOfSound` states what they hold, and `BoundsTranslate` how they move with the pool |
| Renderer.BoundsOfSound | old_sketch.js:99-114 | the scan yields a box exactly when there is a corner; every scanned corner lies in the box, and each of its six bounds is attained by some corner |
| Renderer.ShiftEach | old_sketch.js:116-122 | the second double loop over the slots; `ShiftEachCount` states how often each pool vector moves |
| Renderer.ShiftEachCount | old_sketch.js:116-122 | a pool vector referenced from `n` corner slots is shifted `n` times; one referenced nowhere is unchanged |
| Renderer.BoundsTranslate | old_sketch.js:99-114 | moving the pool moves the scanned box by the same amount |
| Renderer.TranslateKeepsEdges | old_sketch.js:116-122 | a translation keeps every edge between pool vectors |
| Renderer.CenteredIsCentred | old_sketch.js:98-124 | after centring, the box is symmetric about the origin on every axis and every edge is unchanged |
| Renderer.Mesh.constructor | old_sketch.js:47-54 | the new mesh holds the given pool and triangles, at position and rotation zero |
| Renderer.Mesh.ApplyTransformations | old_sketch.js:56-96 | every triangle is replaced by its transform under the current rotation and position; the pool is not written |
| Renderer.Mesh.TransformOne | old_sketch.js:79-95 | one outer iteration replaces triangle `i` by its transform and leaves the other triangles alone |
| Renderer.Mesh.Bounds | old_sketch.js:99-114 | the double loop computes the scan over all corner slots |
| Renderer.Mesh.ScanCorners | old_sketch.js:104-113 | the inner loop widens the box by the three corners of one triangle |
| Renderer.Mesh.SetOriginToCenter | old_sketch.js:98-124 | as written: after the scan, half the extent is subtracted once per corner slot |
| Renderer.Mesh.ShiftCorners | old_sketch.js:116-122 | the second double loop subtracts the shift at every corner slot in order |
| Renderer.Mesh.ShiftTriangle | old_sketch.js:117-121 | the inner loop shifts the three corners of one triangle |
| Renderer.Mesh.CenterOnOrigin | old_sketch.js:98-124 | corrected: every pool vector is moved once, by the centre of the scanned box |
| Renderer.Mesh.TranslateAll | old_sketch.js:116-122 | corrected shifting pass: each pool vector is moved exactly once |
| Renderer.Mesh.RenderFrame | old_sketch.js:257-283 | one mesh of a frame: each triangle ends up transformed, then culled and projected, and the returned order is the depth sort of the drawn ones |
| Renderer.Mesh.ProjectAll | old_sketch.js:266-272 | each triangle is culled and projected in place, and the drawn ones are collected in mesh order |
| Cube.PlaneToTriangles | old_sketch.js:146-151 | a square becomes two triangles over its corners |
| Cube.PlaneSharesDiagonal | old_sketch.js:146-151 | the triangles are `(v1, v2, v4)` and `(v2, v3, v4)`, sharing the diagonal `v2`–`v4` |
| Cube.CubePool | old_sketch.js:153-202 | the 24 corner vectors in the order front, back, right, left, top, bottom |
| Cube.CubeFace | old_sketch.js:153-202 | face `k` uses pool vectors `4k` to `4k + 3` |
| Cube.CubeFaces | old_sketch.js:153-202 | the first `n` faces give `2n` triangles, and triangles `2k` and `2k + 1` are the two triangles of face `k`, in source order |
| Cube.CubeShape | old_sketch.js:153-202 | the cube has 12 triangles over its 24 vectors, and no vector is shared between faces |
| Cube.CubeCoordinates | old_sketch.js:153-202 | every coordinate of every corner is 0 or `size` |
| Cube.CubeBounds | old_sketch.js:99-114 | for a non-negative size the scanned box of the cube is `[0, size]` on every axis |
| Cube.MakeCube | old_sketch.js:153-207 | the returned mesh holds the cube's pool and triangles, at the origin, and is not centred (the call is commented out) |
| Cube.SquareBounds | old_sketch.js:99-114 | the scan of one `plane_to_triangles` square of side `s` yields `[0, s] x [0, s] x [0, 0]` |
| Cube.SquareShift | old_sketch.js:116-122 | on that square the shared diagonal ends are shifted twice and the others once |
| Cube.SharedCornerShiftedTwice | old_sketch.js:98-124 | as written, `set_origin_to_center` tears the square apart (an edge changes); centring yields the centred square |
| Cube.OffsetBounds | old_sketch.js:99-114 | the scan of a triangle with legs 2 starting at `x = a` |
| Cube.OffsetShift | old_sketch.js:116-122 | as written, its corners move by half the extent `(1, 1, 0)` |
| Cube.OffsetCentered | old_sketch.js:98-124 | centring moves them by the box centre `(a + 1, 1, 0)` |
| Cube.HalfExtentIsNotCentre | old_sketch.js:98-124 | as written and centred agree exactly when the box starts at `x = 0` |
| Cube.TranslateInjective | old_sketch.js:116-122 | two translations of a non-empty pool agree exactly when their offsets are equal |
| ObjLoader.Split | old_sketch.js:219-220 | `String.prototype.split` by one character returns at least one piece |
| ObjLoader.SplitJoin | old_sketch.js:219-220 | joining the pieces with the separator gives back the text |
| ObjLoader.SplitPieces | old_sketch.js:219-220 | no piece contains the separator, and there is one piece more than separators |
| ObjLoader.JoinSplit | old_sketch.js:219-220 | splitting a join of separator-free pieces gives back the pieces |
| ObjLoader.ParseIndex | old_sketch.js:224-226 | the index coercion `parts[i] - 1` of a decimal token; `ParseShow` states that it reads back every decimal index |
| ObjLoader.ShowValue | old_sketch.js:224-226 | the decimal digits of `n` have the value `n` |
| ObjLoader.ParseShow | old_sketch.js:224-226 | the index coercion reads back a decimal index, also with a trailing carriage return |
| ObjLoader.CoordOf | old_sketch.js:13-17 | a coordinate token that is missing or empty becomes 0; any other token is kept |
| ObjLoader.Lookup | old_sketch.js:224-226 | `vertices[parts[i] - 1]` is defined exactly when the token is an index from 1 to the vertex count |
| ObjLoader.Step | old_sketch.js:220-235 | one pass of the loop body; `StepEffect` and `FaceLineAppends` state what it does |
| ObjLoader.StepEffect | old_sketch.js:220-235 | a line fails exactly when it is a face line with an unresolved index; a `v` line appends its record, a face line appends one face, any other line changes nothing |
| ObjLoader.FaceRecord | old_sketch.js:224-234 | reference: the face of an `f i j k` line is the vertex records at 1-based positions `i`, `j`, `k`, coordinates converted as `new Vector` does |
| ObjLoader.FaceLineAppends | old_sketch.js:223-235 | a resolving face line appends exactly its reference face |
| ObjLoader.ParseLines | old_sketch.js:219-236 | the loop over the lines, ended by the first throwing line; `ParseLinesSound` states its result |
| ObjLoader.ParseText | old_sketch.js:219 | the loop over `t.split("\n")`; `LoadObj` computes it |
| ObjLoader.FaceRecords | old_sketch.js:223-235 | reference: the faces of the face lines, each over the vertex records declared above it |
| ObjLoader.FaceRecordsCount | old_sketch.js:223-235 | when no face line is bad, there are as many reference faces as face lines |
| ObjLoader.ParseLinesSound | old_sketch.js:217-236 | parsing succeeds exactly when no face line is bad; then the vertices are all `v` records in file order, and the faces are the reference faces of the face lines in file order, one per face line; otherwise the error names the first bad line |
| ObjLoader.ParseLastLine | old_sketch.js:219-235 | the last pass of the loop extends the reference vertices and faces, and fails exactly on a bad last line |
| ObjLoader.ParseLinesErrPrefix | old_sketch.js:217-236 | once a line fails, later lines do not matter |
| ObjLoader.LoadObj | old_sketch.js:217-236 | the loop over the lines computes the parse of the text, stopping at the first failure |
| ObjLoader.LoadedPoolAt | old_sketch.js:228-234 | face `i` contributes three fresh vectors at pool positions `3i` to `3i + 2` |
| ObjLoader.LoadedTriangles | old_sketch.js:228-234 | one triangle per face, over the pool |
| ObjLoader.LoadedUnshared | old_sketch.js:228-234 | in a loaded mesh every corner slot has its own vector, so no vector is shared |
| ObjLoader.LoadMesh | old_sketch.js:216-238 | a failed parse is reported; otherwise the new mesh is over the loaded pool and triangles |
| RopeSim.Drift | sketch.js:38-44 | the first loop body on one mass; `DriftAll` and `DriftTotals` state its effect |
| RopeSim.DriftAll | sketch.js:37-45 | every mass moves by its velocity, which is then damped |
| RopeSim.DriftTotals | sketch.js:37-45 | the total velocity is scaled by `1 - damping`, and accelerations are untouched |
| RopeSim.Force | sketch.js:49-55 | Hooke's-law force `(fx, fy)` of one spring; `RestLengthSpring` states that it vanishes at rest length, and `ApplySpringBalance` that it is applied with opposite signs |
| RopeSim.ApplySpring | sketch.js:48-59 | one spring changes only accelerations |
| RopeSim.ApplySpringUpdates | sketch.js:48-59 | for distinct ends the force is added to the acceleration of `massA` and subtracted from that of `massB`; for equal ends the two updates cancel; every other mass is unchanged |
| RopeSim.SpringPass | sketch.js:47-60 | the spring pass changes only accelerations |
| RopeSim.ApplySpringBalance | sketch.js:53-59 | a spring leaves the total acceleration unchanged |
| RopeSim.SpringPassBalance | sketch.js:47-60 | the whole spring pass leaves the total acceleration unchanged |
| RopeSim.RestLengthSpring | sketch.js:49-55 | a spring at rest length exerts no force and changes nothing |
| RopeSim.Integrate | sketch.js:63-67 | the third loop body on one mass; `IntegrateAll` and `IntegrateTotals` state its effect |
| RopeSim.IntegrateAll | sketch.js:62-68 | every mass gets its acceleration added to its velocity, and the acceleration is reset |
| RopeSim.IntegrateTotals | sketch.js:62-68 | the total velocity grows by the total acceleration |
| RopeSim.UpdateStep | sketch.js:36-69 | an update keeps the number of masses |
| RopeSim.MomentumBalance | sketch.js:36-69 | from rest, an update scales the total velocity by `1 - damping`; the springs contribute nothing |
| RopeSim.UpdateMotion | sketch.js:36-69 | after an update every mass is at rest and has moved by its old velocity |
| RopeSim.Rope.constructor | sketch.js:4-34 | mass `i` starts at `(i * segmentLength, 0)` at rest; spring `i` joins masses `i` and `i + 1` at rest length `segmentLength` |
| RopeSim.Rope.Update | sketch.js:36-69 | the masses become the three-pass update of the old masses, and the rope invariant is kept |
| RopeSim.Rope.DriftPass | sketch.js:37-45 | the first loop computes the drift of every mass |
| RopeSim.Rope.SpringForcePass | sketch.js:47-60 | the second loop computes the spring pass |
| RopeSim.Rope.ApplyOneSpring | sketch.js:48-59 | one iteration of the second loop applies one spring |
| RopeSim.Rope.IntegratePass | sketch.js:62-68 | the third loop integrates every mass |
| RopeSim.Rope.MoveEnd | sketch.js:71-74 | the first mass is set to `(x, y)` and nothing else changes; on an empty rope the call fails and nothing changes |
| RopeSim.Rope.SetSpringConstant | sketch.js:89-93 | every spring gets the new constant, and nothing else changes |

## Left out

- Drawing is left out: p5.js canvas calls, `draw_triangle`, its lighting, and `Rope.draw`. They only paint.
- Host services are left out: `fetch`, promises, `console.log`, `setup`, and the per-frame driver state (`rotation += 0.6`, `rope.update(0.5)`, `moveEnd(mouseX, mouseY)`). The append of a loaded mesh to `meshes`, with its `position.z += 50`, is left out too, because the scene list is not part of this model.
- `Math.sqrt`, `Math.cosDeg`, `Math.sinDeg` and `Math.tan` are supplied as parameters. Their numeric behaviour is not modelled, and `to_radians` and `to_degrees` are folded into them.
- Numbers are reals. IEEE rounding, overflow, infinities and NaN are not modelled. The NaN that `vec_get_unit` computes for a zero vector does not survive the `Vector` constructor, so `Vectors.Unit` returns the zero vector for a zero length.
- Vectors.Unit: a supplied square root that returns 0 for a non-zero vector would make the source divide a non-zero component by zero and get an infinity. `Unit` returns the zero vector in that case too. A true square root never does this (`UnitProperties`).
- ObjLoader.ParseIndex: reads only decimal digit strings with surrounding ASCII blanks (as `Number` trims them) as indices. JavaScript would also accept forms such as `+3`, `3.0` or `0x3`. Coordinate strings are converted by a supplied `num`.
- `Array.prototype.sort` is modelled as an insertion sort on sequences, not as the engine's in-place algorithm. Any sort with the same comparator gives the same key order. `InsertAfterTies` states where one insertion puts a tie; stability of the whole sort is not stated as a lemma.
- RopeSim.Rope.Update: requires every spring to have non-zero length after the drift pass. The source would divide by zero and produce NaN there, which this model does not represent.
- RopeSim.Rope.constructor: `numSegments` is an integer. A fractional count, which the source's loop would round up, is not modelled.
- A concrete end-to-end parse of a sample OBJ text is not stated as a lemma. The parse is covered by the all-inputs lemmas `ParseLinesSound` and `StepEffect`.

## Findings

| source | as written | input that shows it | evidently intended | confidence | as-written member | corrected member |
|---|---|---|---|---|---|---|
| old_sketch.js:116-122 | the second double loop subtracts the shift once per corner slot, and `plane_to_triangles` puts `v2` and `v4` into both triangles | the square of side `s > 0` from `plane_to_triangles`: its shared corners move twice, so the edge from `v1` to `v2` changes from `(0, s, 0)` to `(-s/2, s/2, 0)` | every corner vector moves exactly once, so the mesh keeps its shape | not executed | Cube.SharedCornerShiftedTwice | Renderer.Mesh.CenterOnOrigin |
| old_sketch.js:117-119 | the shift is half the extent, `(max - min) / 2` | a triangle whose box starts at `x = a != 0`: it moves by `(1, 1, 0)` instead of `(a + 1, 1, 0)` and its box becomes `[a - 1, a + 1]` | the shift is the box centre, `(min + max) / 2`, so the centre lands at the origin | not executed | Cube.HalfExtentIsNotCentre | Renderer.CenteredIsCentred |
