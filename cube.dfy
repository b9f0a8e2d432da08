/**
 * `plane_to_triangles` and `make_cube` of old_sketch.js, and what
 * `set_origin_to_center` does to one face of the cube.
 */
module Cube {
  import opened Results
  import opened Vectors
  import opened Geometry
  import opened Renderer

  /**
   * `plane_to_triangles(v1, v2, v3, v4)` over the pool entries `a`, `b`, `c`,
   * `d`: the triangles `(v1, v2, v4)` and `(v2, v3, v4)`.
   */
  function PlaneToTriangles(pool: seq<Vec3>, a: nat, b: nat, c: nat, d: nat, sqrt: real -> real): (r: seq<Triangle>)
    requires a < |pool| && b < |pool| && c < |pool| && d < |pool|
    ensures |r| == 2 && AllInPool(r, |pool|)
  {
    [NewTriangle(pool, a, b, d, sqrt), NewTriangle(pool, b, c, d, sqrt)]
  }

  /**
   * The two triangles of a quad cover its corners in the source's order and
   * share the `Vector` objects `v2` and `v4`, the ends of the diagonal.
   */
  lemma PlaneSharesDiagonal(pool: seq<Vec3>, a: nat, b: nat, c: nat, d: nat, sqrt: real -> real)
    requires a < |pool| && b < |pool| && c < |pool| && d < |pool|
    ensures var r := PlaneToTriangles(pool, a, b, c, d, sqrt);
      Corners(r[0]) == [a, b, d] && Corners(r[1]) == [b, c, d] &&
      r[0].v2 == r[1].v1 && r[0].v3 == r[1].v3 &&
      Slots(r) == [a, b, d, b, c, d]
  {
    var r := PlaneToTriangles(pool, a, b, c, d, sqrt);
    assert r[..1] == [r[0]];
    assert r[..1][..0] == [];
  }

  /** The 24 corner vectors `make_cube` creates, four per face, in the source's order. */
  function CubePool(size: real): (r: seq<Vec3>)
    ensures |r| == 24
  {
    var o, s := 0.0, size;
    [ // front
      Vec3(o, o, o), Vec3(o, s, o), Vec3(s, s, o), Vec3(s, o, o),
      // back
      Vec3(o, o, s), Vec3(s, o, s), Vec3(s, s, s), Vec3(o, s, s),
      // right
      Vec3(s, o, o), Vec3(s, s, o), Vec3(s, s, s), Vec3(s, o, s),
      // left
      Vec3(o, o, o), Vec3(o, o, s), Vec3(o, s, s), Vec3(o, s, o),
      // top
      Vec3(o, s, o), Vec3(o, s, s), Vec3(s, s, s), Vec3(s, s, o),
      // bottom
      Vec3(o, o, o), Vec3(s, o, o), Vec3(s, o, s), Vec3(o, o, s)
    ]
  }

  /** Face `k` of the cube: `plane_to_triangles` over pool entries `4k` .. `4k + 3`. */
  function CubeFace(pool: seq<Vec3>, k: nat, sqrt: real -> real): (r: seq<Triangle>)
    requires |pool| == 24 && k < 6
    ensures |r| == 2 && AllInPool(r, 24)
    ensures Corners(r[0]) == [4 * k, 4 * k + 1, 4 * k + 3] && Corners(r[1]) == [4 * k + 1, 4 * k + 2, 4 * k + 3]
  {
    PlaneToTriangles(pool, 4 * k, 4 * k + 1, 4 * k + 2, 4 * k + 3, sqrt)
  }

  /**
   * The triangles of the first `n` faces, face by face: triangles `2k` and
   * `2k + 1` are the two triangles of face `k`.
   */
  function CubeFaces(pool: seq<Vec3>, n: nat, sqrt: real -> real): (r: seq<Triangle>)
    requires |pool| == 24 && n <= 6
    ensures |r| == 2 * n
    ensures forall k :: 0 <= k < n ==>
      r[2 * k] == CubeFace(pool, k, sqrt)[0] && r[2 * k + 1] == CubeFace(pool, k, sqrt)[1]
  {
    if n == 0 then [] else CubeFaces(pool, n - 1, sqrt) + CubeFace(pool, n - 1, sqrt)
  }

  /** The triangles `make_cube` passes to `new Mesh`. */
  function CubeTriangles(size: real, sqrt: real -> real): seq<Triangle>
  {
    CubeFaces(CubePool(size), 6, sqrt)
  }

  /**
   * The cube has 12 triangles, two per face. Triangles `2k` and `2k + 1` form
   * face `k`: they use only that face's four pool vectors and share two of
   * them, so no vector is shared between faces.
   */
  lemma CubeShape(size: real, sqrt: real -> real)
    ensures var ts := CubeTriangles(size, sqrt);
      |ts| == 12 && AllInPool(ts, 24) &&
      forall k :: 0 <= k < 6 ==>
        Corners(ts[2 * k]) == [4 * k, 4 * k + 1, 4 * k + 3] &&
        Corners(ts[2 * k + 1]) == [4 * k + 1, 4 * k + 2, 4 * k + 3]
  {
    var ts := CubeTriangles(size, sqrt);
    forall k | 0 <= k < 6
      ensures Corners(ts[2 * k]) == [4 * k, 4 * k + 1, 4 * k + 3]
      ensures Corners(ts[2 * k + 1]) == [4 * k + 1, 4 * k + 2, 4 * k + 3]
      ensures InPool(ts[2 * k], 24) && InPool(ts[2 * k + 1], 24)
    {
      assert ts[2 * k] == CubeFace(CubePool(size), k, sqrt)[0];
    }
    forall i | 0 <= i < 12
      ensures InPool(ts[i], 24)
    {
      var k := i / 2;
      assert i == 2 * k || i == 2 * k + 1;
    }
  }

  /** Every coordinate of every corner of the cube is 0 or `size`. */
  lemma CubeCoordinates(size: real)
    ensures forall j :: 0 <= j < 24 ==> OnCorner(CubePool(size)[j], Vec3(size, size, size))
    ensures CubePool(size)[0] == Zero && CubePool(size)[6] == Vec3(size, size, size)
  {
  }

  /** Every coordinate of `v` is 0 or the same coordinate of `hi`. */
  ghost predicate OnCorner(v: Vec3, hi: Vec3)
  {
    (v.x == 0.0 || v.x == hi.x) && (v.y == 0.0 || v.y == hi.y) && (v.z == 0.0 || v.z == hi.z)
  }

  /**
   * Scanning vectors whose coordinates are all 0 or those of a non-negative
   * `hi`, among them the origin and `hi` itself, gives the box from the origin
   * to `hi`.
   */
  lemma BoundsOfCorners(pool: seq<Vec3>, slots: seq<nat>, hi: Vec3, i0: nat, i1: nat)
    requires 0.0 <= hi.x && 0.0 <= hi.y && 0.0 <= hi.z && SlotsIn(slots, |pool|)
    requires forall i :: 0 <= i < |slots| ==> OnCorner(pool[slots[i]], hi)
    requires i0 < |slots| && pool[slots[i0]] == Zero
    requires i1 < |slots| && pool[slots[i1]] == hi
    ensures BoundsOf(pool, slots) == Some(Box(Zero, hi))
  {
    BoundsOfSound(pool, slots);
    var b := BoundsOf(pool, slots).value;
    assert Within(b, pool[slots[i0]]) && Within(b, pool[slots[i1]]);
    var a :| 0 <= a < |slots| && pool[slots[a]].x == b.lo.x;
    var a' :| 0 <= a' < |slots| && pool[slots[a']].y == b.lo.y;
    var a'' :| 0 <= a'' < |slots| && pool[slots[a'']].z == b.lo.z;
    assert OnCorner(pool[slots[a]], hi) && OnCorner(pool[slots[a']], hi) && OnCorner(pool[slots[a'']], hi);
    var c :| 0 <= c < |slots| && pool[slots[c]].x == b.hi.x;
    var c' :| 0 <= c' < |slots| && pool[slots[c']].y == b.hi.y;
    var c'' :| 0 <= c'' < |slots| && pool[slots[c'']].z == b.hi.z;
    assert OnCorner(pool[slots[c]], hi) && OnCorner(pool[slots[c']], hi) && OnCorner(pool[slots[c'']], hi);
  }

  /** The first slot of the cube is the origin's; slot 10 is `(size, size, size)`'s. */
  lemma CubeSlots(size: real, sqrt: real -> real)
    ensures var slots := Slots(CubeTriangles(size, sqrt));
      SlotsIn(slots, 24) && |slots| == 36 && slots[0] == 0 && slots[10] == 6
  {
    var ts := CubeTriangles(size, sqrt);
    CubeShape(size, sqrt);
    SlotsInPool(ts, 24);
    SlotAt(ts, 0, 0);
    SlotAt(ts, 3, 1);
    assert ts[0] == CubeFace(CubePool(size), 0, sqrt)[0];
    assert ts[3] == CubeFace(CubePool(size), 1, sqrt)[1];
  }

  /** For a non-negative size the scanned box of the cube is `[0, size]` on every axis. */
  lemma CubeBounds(size: real, sqrt: real -> real)
    requires 0.0 <= size
    ensures SlotsIn(Slots(CubeTriangles(size, sqrt)), 24)
    ensures BoundsOf(CubePool(size), Slots(CubeTriangles(size, sqrt))) == Some(Box(Zero, Vec3(size, size, size)))
  {
    var pool, slots := CubePool(size), Slots(CubeTriangles(size, sqrt));
    CubeSlots(size, sqrt);
    CubeCoordinates(size);
    forall i | 0 <= i < |slots|
      ensures OnCorner(pool[slots[i]], Vec3(size, size, size))
    {
    }
    BoundsOfCorners(pool, slots, Vec3(size, size, size), 0, 10);
  }

  /** `make_cube(size)`: a mesh over the 24 corner vectors with the 12 triangles. */
  method MakeCube(size: real, sqrt: real -> real) returns (m: Mesh)
    ensures fresh(m) && fresh(m.vertices) && fresh(m.triangles) && m.Valid()
    ensures m.vertices[..] == CubePool(size) && m.triangles[..] == CubeTriangles(size, sqrt)
    ensures m.position == Zero && m.rotation == Zero
  {
    CubeShape(size, sqrt);
    m := new Mesh(CubePool(size), CubeTriangles(size, sqrt));
  }

  /** The front face of `make_cube(s)` alone: one square whose diagonal is shared. */
  function SquarePool(s: real): (r: seq<Vec3>)
    ensures r == CubePool(s)[..4]
  {
    [Zero, Vec3(0.0, s, 0.0), Vec3(s, s, 0.0), Vec3(s, 0.0, 0.0)]
  }

  /** The scan over the square's six corner slots finds the box `[0, s] x [0, s] x [0, 0]`. */
  lemma SquareBounds(s: real, slots: seq<nat>)
    requires 0.0 < s && slots == [0, 1, 3, 1, 2, 3]
    ensures SlotsIn(slots, 4) && BoundsOf(SquarePool(s), slots) == Some(Box(Zero, Vec3(s, s, 0.0)))
  {
    var pool, hi := SquarePool(s), Vec3(s, s, 0.0);
    forall i | 0 <= i < |slots|
      ensures OnCorner(pool[slots[i]], hi)
    {
    }
    BoundsOfCorners(pool, slots, hi, 0, 4);
  }

  /** The shifts of the second pass on the square: `v2` and `v4` are moved twice. */
  lemma SquareShift(s: real, slots: seq<nat>, shift: Vec3)
    requires slots == [0, 1, 3, 1, 2, 3] && shift == Vec3(s / 2.0, s / 2.0, 0.0)
    ensures SlotsIn(slots, 4)
    ensures var r := ShiftEach(SquarePool(s), slots, shift);
      r[0] == Vec3(0.0 - s / 2.0, 0.0 - s / 2.0, 0.0) && r[1] == Vec3(0.0 - s, 0.0, 0.0) &&
      r[2] == Vec3(s / 2.0, s / 2.0, 0.0) && r[3] == Vec3(0.0, 0.0 - s, 0.0)
  {
    var pool := SquarePool(s);
    assert multiset(slots)[0] == 1 && multiset(slots)[1] == 2;
    assert multiset(slots)[2] == 1 && multiset(slots)[3] == 2;
    ShiftEachCount(pool, slots, shift, 0);
    ShiftEachCount(pool, slots, shift, 1);
    ShiftEachCount(pool, slots, shift, 2);
    ShiftEachCount(pool, slots, shift, 3);
    assert ShiftTimes(pool[1], 1, shift) == Sub(pool[1], shift);
    assert ShiftTimes(pool[3], 1, shift) == Sub(pool[3], shift);
  }

  /**
   * `set_origin_to_center` on a square of side `s > 0` built by
   * `plane_to_triangles`, as written: the diagonal ends `v2` and `v4` are each
   * referenced by both triangles and are shifted twice, so the edge from `v1`
   * to `v2`, `(0, s, 0)`, becomes `(-s/2, s/2, 0)` and the square is torn
   * apart. Centring moves each corner once, to `[-s/2, s/2] x [-s/2, s/2]`.
   */
  lemma SharedCornerShiftedTwice(s: real, sqrt: real -> real)
    requires 0.0 < s
    ensures var pool := SquarePool(s);
      var slots := Slots(PlaneToTriangles(pool, 0, 1, 2, 3, sqrt));
      SlotsIn(slots, 4) &&
      (var r := ShiftAsWritten(pool, slots);
       r[0] == Vec3(0.0 - s / 2.0, 0.0 - s / 2.0, 0.0) && r[1] == Vec3(0.0 - s, 0.0, 0.0) &&
       r[2] == Vec3(s / 2.0, s / 2.0, 0.0) && r[3] == Vec3(0.0, 0.0 - s, 0.0) &&
       Sub(r[1], r[0]) != Sub(pool[1], pool[0])) &&
      (var c := Centered(pool, slots);
       c[0] == Vec3(0.0 - s / 2.0, 0.0 - s / 2.0, 0.0) && c[1] == Vec3(0.0 - s / 2.0, s / 2.0, 0.0) &&
       c[2] == Vec3(s / 2.0, s / 2.0, 0.0) && c[3] == Vec3(s / 2.0, 0.0 - s / 2.0, 0.0))
  {
    var pool := SquarePool(s);
    PlaneSharesDiagonal(pool, 0, 1, 2, 3, sqrt);
    var slots := Slots(PlaneToTriangles(pool, 0, 1, 2, 3, sqrt));
    SquareBounds(s, slots);
    SquareShift(s, slots, HalfExtent(Box(Zero, Vec3(s, s, 0.0))));
  }

  /** A right triangle with legs of length 2 whose box starts at `x = a`. */
  function OffsetPool(a: real): seq<Vec3>
  {
    [Vec3(a, 0.0, 0.0), Vec3(a + 2.0, 0.0, 0.0), Vec3(a, 2.0, 0.0)]
  }

  lemma OffsetBounds(a: real, slots: seq<nat>)
    requires slots == [0, 1, 2]
    ensures SlotsIn(slots, 3) && BoundsOf(OffsetPool(a), slots) == Some(Box(Vec3(a, 0.0, 0.0), Vec3(a + 2.0, 2.0, 0.0)))
  {
    var pool := OffsetPool(a);
    assert slots[..0] == [];
    BoundsOfStep(pool, slots, 0);
    BoundsOfStep(pool, slots, 1);
    BoundsOfStep(pool, slots, 2);
    assert slots[..3] == slots;
  }

  /** As written, each corner of the offset triangle moves by half the extent, `(1, 1, 0)`. */
  lemma OffsetShift(a: real, slots: seq<nat>)
    requires slots == [0, 1, 2]
    ensures SlotsIn(slots, 3)
    ensures ShiftAsWritten(OffsetPool(a), slots) == Translate(OffsetPool(a), Vec3(1.0, 1.0, 0.0))
  {
    var pool := OffsetPool(a);
    OffsetBounds(a, slots);
    var half := HalfExtent(Box(Vec3(a, 0.0, 0.0), Vec3(a + 2.0, 2.0, 0.0)));
    assert half == Vec3(1.0, 1.0, 0.0);
    assert multiset(slots)[0] == 1 && multiset(slots)[1] == 1 && multiset(slots)[2] == 1;
    forall j | 0 <= j < 3
      ensures ShiftEach(pool, slots, half)[j] == Sub(pool[j], half)
    {
      ShiftEachCount(pool, slots, half, j);
    }
  }

  /** Centring moves each corner of the offset triangle by the box's midpoint, `(a + 1, 1, 0)`. */
  lemma OffsetCentered(a: real, slots: seq<nat>)
    requires slots == [0, 1, 2]
    ensures SlotsIn(slots, 3)
    ensures Centered(OffsetPool(a), slots) == Translate(OffsetPool(a), Vec3(a + 1.0, 1.0, 0.0))
  {
    OffsetBounds(a, slots);
    CenteredIsTranslate(OffsetPool(a), slots);
    assert Midpoint(Box(Vec3(a, 0.0, 0.0), Vec3(a + 2.0, 2.0, 0.0))) == Vec3(a + 1.0, 1.0, 0.0);
  }

  /**
   * `set_origin_to_center` on that triangle, whose corners are each referenced
   * once, as written: every corner moves by half the extent, `(1, 1, 0)`,
   * while the centre of the box is `(a + 1, 1, 0)`. The two results agree
   * exactly when `a == 0`, the only case in which half the extent is the
   * centre; otherwise the box afterwards spans x in `[a - 1, a + 1]`.
   */
  lemma HalfExtentIsNotCentre(a: real, sqrt: real -> real)
    ensures var pool := OffsetPool(a);
      var slots := Slots([NewTriangle(pool, 0, 1, 2, sqrt)]);
      SlotsIn(slots, 3) &&
      ShiftAsWritten(pool, slots) == Translate(pool, Vec3(1.0, 1.0, 0.0)) &&
      Centered(pool, slots) == Translate(pool, Vec3(a + 1.0, 1.0, 0.0)) &&
      (ShiftAsWritten(pool, slots) == Centered(pool, slots) <==> a == 0.0)
  {
    var pool := OffsetPool(a);
    OffsetSlots(pool, sqrt);
    var slots := Slots([NewTriangle(pool, 0, 1, 2, sqrt)]);
    OffsetShift(a, slots);
    OffsetCentered(a, slots);
    TranslateInjective(pool, Vec3(1.0, 1.0, 0.0), Vec3(a + 1.0, 1.0, 0.0));
  }

  /** One triangle over the first three vertices has the slots `[0, 1, 2]`. */
  lemma OffsetSlots(pool: seq<Vec3>, sqrt: real -> real)
    requires 3 <= |pool|
    ensures Slots([NewTriangle(pool, 0, 1, 2, sqrt)]) == [0, 1, 2]
  {
    var ts := [NewTriangle(pool, 0, 1, 2, sqrt)];
    assert ts[..0] == [];
  }

  /** Translating a non-empty pool by two different offsets gives two different pools. */
  lemma TranslateInjective(pool: seq<Vec3>, d: Vec3, e: Vec3)
    requires pool != []
    ensures Translate(pool, d) == Translate(pool, e) <==> d == e
  {
    if Translate(pool, d) == Translate(pool, e) {
      assert Translate(pool, d)[0] == Translate(pool, e)[0];
    }
  }
}
