/**
 * The `Mesh` class of old_sketch.js: a pool of shared corner vectors, the
 * triangles over it, and the in-place operations `apply_transformations`,
 * `set_origin_to_center` and the per-frame projection and ordering of `draw`.
 */
module Renderer {
  import opened Results
  import opened Vectors
  import opened Geometry
  import opened DepthSort

  /** The pool index held in corner slot `k` (0, 1 or 2) of `t`. */
  function Corner(t: Triangle, k: nat): nat
    requires k < 3
  {
    if k == 0 then t.v1 else if k == 1 then t.v2 else t.v3
  }

  /** The corner slots of `t` in the order `[v1, v2, v3]` of the source's loops. */
  function Corners(t: Triangle): (r: seq<nat>)
    ensures |r| == 3 && forall k :: 0 <= k < 3 ==> r[k] == Corner(t, k)
  {
    [t.v1, t.v2, t.v3]
  }

  /** Every corner slot of every triangle, in the order the nested loops visit them. */
  function Slots(ts: seq<Triangle>): (r: seq<nat>)
    ensures |r| == 3 * |ts|
  {
    if ts == [] then [] else Slots(ts[..|ts| - 1]) + Corners(ts[|ts| - 1])
  }

  ghost predicate AllInPool(ts: seq<Triangle>, size: nat)
  {
    forall i :: 0 <= i < |ts| ==> InPool(ts[i], size)
  }

  ghost predicate SlotsIn(slots: seq<nat>, size: nat)
  {
    forall i :: 0 <= i < |slots| ==> slots[i] < size
  }

  lemma {:induction false} SlotsInPool(ts: seq<Triangle>, size: nat)
    requires AllInPool(ts, size)
    ensures SlotsIn(Slots(ts), size)
  {
    if ts != [] {
      SlotsInPool(ts[..|ts| - 1], size);
    }
  }

  /** Slot `k` of triangle `i` is element `3 * i + k` of the slot sequence. */
  lemma {:induction false} SlotAt(ts: seq<Triangle>, i: nat, k: nat)
    requires i < |ts| && k < 3
    ensures Slots(ts)[3 * i + k] == Corner(ts[i], k)
  {
    var init := ts[..|ts| - 1];
    if i < |init| {
      SlotAt(init, i, k);
      assert init[i] == ts[i];
    }
  }

  /** The six accumulators `min_x` .. `max_z` once they are no longer `null`. */
  datatype Box = Box(lo: Vec3, hi: Vec3)

  /**
   * One step of the scan: the first vector sets both bounds (the `== null`
   * test); after that a strictly larger or smaller coordinate replaces a bound.
   */
  function Widen(b: Option<Box>, v: Vec3): Box
  {
    match b
    case None => Box(v, v)
    case Some(bx) =>
      Box(Vec3(if v.x < bx.lo.x then v.x else bx.lo.x,
               if v.y < bx.lo.y then v.y else bx.lo.y,
               if v.z < bx.lo.z then v.z else bx.lo.z),
          Vec3(if v.x > bx.hi.x then v.x else bx.hi.x,
               if v.y > bx.hi.y then v.y else bx.hi.y,
               if v.z > bx.hi.z then v.z else bx.hi.z))
  }

  /** The accumulators after scanning the pool vectors at `slots`; `None` while all are `null`. */
  function BoundsOf(pool: seq<Vec3>, slots: seq<nat>): Option<Box>
    requires SlotsIn(slots, |pool|)
  {
    if slots == [] then None
    else Some(Widen(BoundsOf(pool, slots[..|slots| - 1]), pool[slots[|slots| - 1]]))
  }

  lemma BoundsOfStep(pool: seq<Vec3>, slots: seq<nat>, p: nat)
    requires SlotsIn(slots, |pool|) && p < |slots|
    ensures SlotsIn(slots[..p], |pool|) && SlotsIn(slots[..p + 1], |pool|)
    ensures BoundsOf(pool, slots[..p + 1]) == Some(Widen(BoundsOf(pool, slots[..p]), pool[slots[p]]))
  {
    assert slots[..p + 1][..p] == slots[..p];
  }

  ghost predicate Within(b: Box, v: Vec3)
  {
    b.lo.x <= v.x <= b.hi.x && b.lo.y <= v.y <= b.hi.y && b.lo.z <= v.z <= b.hi.z
  }

  /** Each of the six bounds is the coordinate of some scanned vector. */
  ghost predicate Attained(b: Box, pool: seq<Vec3>, slots: seq<nat>)
    requires SlotsIn(slots, |pool|)
  {
    (exists i :: 0 <= i < |slots| && pool[slots[i]].x == b.lo.x) &&
    (exists i :: 0 <= i < |slots| && pool[slots[i]].x == b.hi.x) &&
    (exists i :: 0 <= i < |slots| && pool[slots[i]].y == b.lo.y) &&
    (exists i :: 0 <= i < |slots| && pool[slots[i]].y == b.hi.y) &&
    (exists i :: 0 <= i < |slots| && pool[slots[i]].z == b.lo.z) &&
    (exists i :: 0 <= i < |slots| && pool[slots[i]].z == b.hi.z)
  }

  /**
   * After the first pass of `set_origin_to_center` the bounds exist exactly when
   * some slot was scanned, every scanned vector lies between them, and each
   * bound is attained by a scanned vector.
   */
  lemma {:induction false} BoundsOfSound(pool: seq<Vec3>, slots: seq<nat>)
    requires SlotsIn(slots, |pool|)
    ensures BoundsOf(pool, slots).Some? <==> slots != []
    ensures BoundsOf(pool, slots).Some? ==>
      (forall i :: 0 <= i < |slots| ==> Within(BoundsOf(pool, slots).value, pool[slots[i]])) &&
      Attained(BoundsOf(pool, slots).value, pool, slots)
  {
    if slots != [] {
      var init := slots[..|slots| - 1];
      var v := pool[slots[|slots| - 1]];
      BoundsOfSound(pool, init);
      var b := BoundsOf(pool, slots).value;
      forall i | 0 <= i < |slots|
        ensures Within(b, pool[slots[i]])
      {
        if i < |init| {
          assert slots[i] == init[i];
        }
      }
      AttainedStep(pool, slots);
    }
  }

  lemma AttainedStep(pool: seq<Vec3>, slots: seq<nat>)
    requires SlotsIn(slots, |pool|) && slots != []
    requires var init := slots[..|slots| - 1];
      init != [] ==> Attained(BoundsOf(pool, init).value, pool, init)
    ensures Attained(BoundsOf(pool, slots).value, pool, slots)
  {
    var init, last := slots[..|slots| - 1], |slots| - 1;
    var b := BoundsOf(pool, slots).value;
    if init == [] {
      assert BoundsOf(pool, init) == None;
      assert pool[slots[last]] == b.lo && pool[slots[last]] == b.hi;
    } else {
      var c := BoundsOf(pool, init).value;
      var v := pool[slots[last]];
      forall i | 0 <= i < |init|
        ensures pool[init[i]] == pool[slots[i]]
      {
      }
      assert (exists i :: 0 <= i < |slots| && pool[slots[i]].x == b.lo.x) by {
        if v.x < c.lo.x {
          assert pool[slots[last]].x == b.lo.x;
        } else {
          var i :| 0 <= i < |init| && pool[init[i]].x == c.lo.x;
          assert pool[slots[i]].x == b.lo.x;
        }
      }
      assert (exists i :: 0 <= i < |slots| && pool[slots[i]].x == b.hi.x) by {
        if v.x > c.hi.x {
          assert pool[slots[last]].x == b.hi.x;
        } else {
          var i :| 0 <= i < |init| && pool[init[i]].x == c.hi.x;
          assert pool[slots[i]].x == b.hi.x;
        }
      }
      assert (exists i :: 0 <= i < |slots| && pool[slots[i]].y == b.lo.y) by {
        if v.y < c.lo.y {
          assert pool[slots[last]].y == b.lo.y;
        } else {
          var i :| 0 <= i < |init| && pool[init[i]].y == c.lo.y;
          assert pool[slots[i]].y == b.lo.y;
        }
      }
      assert (exists i :: 0 <= i < |slots| && pool[slots[i]].y == b.hi.y) by {
        if v.y > c.hi.y {
          assert pool[slots[last]].y == b.hi.y;
        } else {
          var i :| 0 <= i < |init| && pool[init[i]].y == c.hi.y;
          assert pool[slots[i]].y == b.hi.y;
        }
      }
      assert (exists i :: 0 <= i < |slots| && pool[slots[i]].z == b.lo.z) by {
        if v.z < c.lo.z {
          assert pool[slots[last]].z == b.lo.z;
        } else {
          var i :| 0 <= i < |init| && pool[init[i]].z == c.lo.z;
          assert pool[slots[i]].z == b.lo.z;
        }
      }
      assert (exists i :: 0 <= i < |slots| && pool[slots[i]].z == b.hi.z) by {
        if v.z > c.hi.z {
          assert pool[slots[last]].z == b.hi.z;
        } else {
          var i :| 0 <= i < |init| && pool[init[i]].z == c.hi.z;
          assert pool[slots[i]].z == b.hi.z;
        }
      }
    }
  }

  /** The shift of the second pass as written: half the extent on each axis. */
  function HalfExtent(b: Box): Vec3
  {
    Vec3((b.hi.x - b.lo.x) / 2.0, (b.hi.y - b.lo.y) / 2.0, (b.hi.z - b.lo.z) / 2.0)
  }

  /** The centre of the box. */
  function Midpoint(b: Box): Vec3
  {
    Vec3((b.lo.x + b.hi.x) / 2.0, (b.lo.y + b.hi.y) / 2.0, (b.lo.z + b.hi.z) / 2.0)
  }

  /** The second pass: the pool vector of every slot, in order, has `shift` subtracted. */
  function ShiftEach(pool: seq<Vec3>, slots: seq<nat>, shift: Vec3): (r: seq<Vec3>)
    requires SlotsIn(slots, |pool|)
    ensures |r| == |pool|
  {
    if slots == [] then pool
    else
      var s, j := ShiftEach(pool, slots[..|slots| - 1], shift), slots[|slots| - 1];
      s[j := Sub(s[j], shift)]
  }

  lemma ShiftEachStep(pool: seq<Vec3>, slots: seq<nat>, shift: Vec3, p: nat)
    requires SlotsIn(slots, |pool|) && p < |slots|
    ensures SlotsIn(slots[..p], |pool|) && SlotsIn(slots[..p + 1], |pool|)
    ensures var s := ShiftEach(pool, slots[..p], shift);
      ShiftEach(pool, slots[..p + 1], shift) == s[slots[p] := Sub(s[slots[p]], shift)]
  {
    assert slots[..p + 1][..p] == slots[..p];
  }

  /** `v` with `shift` subtracted `n` times. */
  function ShiftTimes(v: Vec3, n: nat, shift: Vec3): Vec3
  {
    if n == 0 then v else Sub(ShiftTimes(v, n - 1, shift), shift)
  }

  /**
   * A pool vector referenced from `n` slots is shifted `n` times; a vector no
   * triangle references is left alone.
   */
  lemma {:induction false} ShiftEachCount(pool: seq<Vec3>, slots: seq<nat>, shift: Vec3, j: nat)
    requires SlotsIn(slots, |pool|) && j < |pool|
    ensures ShiftEach(pool, slots, shift)[j] == ShiftTimes(pool[j], multiset(slots)[j], shift)
  {
    if slots != [] {
      var init, last := slots[..|slots| - 1], slots[|slots| - 1];
      assert slots == init + [last];
      ShiftEachCount(pool, init, shift, j);
    }
  }

  /** `set_origin_to_center` as written, on the pool. */
  function ShiftAsWritten(pool: seq<Vec3>, slots: seq<nat>): (r: seq<Vec3>)
    requires SlotsIn(slots, |pool|)
  {
    match BoundsOf(pool, slots)
    case None => pool
    case Some(b) => ShiftEach(pool, slots, HalfExtent(b))
  }

  /** What `set_origin_to_center` evidently means to do: move the box centre to the origin. */
  function Centered(pool: seq<Vec3>, slots: seq<nat>): (r: seq<Vec3>)
    requires SlotsIn(slots, |pool|)
    ensures |r| == |pool|
  {
    match BoundsOf(pool, slots)
    case None => pool
    case Some(b) => seq(|pool|, j requires 0 <= j < |pool| => Sub(pool[j], Midpoint(b)))
  }

  /** The pool moved by `-d`. */
  function Translate(pool: seq<Vec3>, d: Vec3): (r: seq<Vec3>)
    ensures |r| == |pool| && forall j :: 0 <= j < |pool| ==> r[j] == Sub(pool[j], d)
  {
    seq(|pool|, j requires 0 <= j < |pool| => Sub(pool[j], d))
  }

  /** The box moved by `-d`. */
  function MoveBox(b: Option<Box>, d: Vec3): Option<Box>
  {
    match b
    case None => None
    case Some(bx) => Some(Box(Sub(bx.lo, d), Sub(bx.hi, d)))
  }

  /** Moving the pool moves the scanned bounds by the same amount. */
  lemma {:induction false} BoundsTranslate(pool: seq<Vec3>, slots: seq<nat>, d: Vec3)
    requires SlotsIn(slots, |pool|)
    ensures BoundsOf(Translate(pool, d), slots) == MoveBox(BoundsOf(pool, slots), d)
  {
    if slots != [] {
      var init := slots[..|slots| - 1];
      BoundsTranslate(pool, init, d);
      WidenTranslate(BoundsOf(pool, init), pool[slots[|slots| - 1]], d);
    }
  }

  /** Widening commutes with moving both the box and the vector by `-d`. */
  lemma WidenTranslate(b: Option<Box>, v: Vec3, d: Vec3)
    ensures Some(Widen(MoveBox(b, d), Sub(v, d))) == MoveBox(Some(Widen(b, v)), d)
  {
  }

  /** Centring translates the pool by the centre of its box. */
  lemma CenteredIsTranslate(pool: seq<Vec3>, slots: seq<nat>)
    requires SlotsIn(slots, |pool|) && BoundsOf(pool, slots).Some?
    ensures Centered(pool, slots) == Translate(pool, Midpoint(BoundsOf(pool, slots).value))
  {
  }

  /** A translation keeps every edge between two pool vectors. */
  lemma TranslateKeepsEdges(pool: seq<Vec3>, d: Vec3, i: nat, j: nat)
    requires i < |pool| && j < |pool|
    ensures Sub(Translate(pool, d)[i], Translate(pool, d)[j]) == Sub(pool[i], pool[j])
  {
  }

  /** One step of the scan, at corner slot `k` of triangle `i`. */
  lemma ScanStep(pool: seq<Vec3>, ts: seq<Triangle>, i: nat, k: nat)
    requires AllInPool(ts, |pool|) && i < |ts| && k < 3
    ensures SlotsIn(Slots(ts), |pool|)
    ensures var slots := Slots(ts);
      SlotsIn(slots[..3 * i + k], |pool|) && SlotsIn(slots[..3 * i + k + 1], |pool|) &&
      Corner(ts[i], k) < |pool| &&
      BoundsOf(pool, slots[..3 * i + k + 1]) == Some(Widen(BoundsOf(pool, slots[..3 * i + k]), pool[Corner(ts[i], k)]))
  {
    SlotsInPool(ts, |pool|);
    SlotAt(ts, i, k);
    BoundsOfStep(pool, Slots(ts), 3 * i + k);
  }

  /** One step of the shifting pass, at corner slot `k` of triangle `i`. */
  lemma ShiftStep(pool: seq<Vec3>, ts: seq<Triangle>, shift: Vec3, i: nat, k: nat)
    requires AllInPool(ts, |pool|) && i < |ts| && k < 3
    ensures SlotsIn(Slots(ts), |pool|)
    ensures var slots := Slots(ts);
      SlotsIn(slots[..3 * i + k], |pool|) && SlotsIn(slots[..3 * i + k + 1], |pool|) &&
      Corner(ts[i], k) < |pool| &&
      var s, j := ShiftEach(pool, slots[..3 * i + k], shift), Corner(ts[i], k);
      ShiftEach(pool, slots[..3 * i + k + 1], shift) == s[j := Sub(s[j], shift)]
  {
    SlotsInPool(ts, |pool|);
    SlotAt(ts, i, k);
    ShiftEachStep(pool, Slots(ts), shift, 3 * i + k);
  }

  /**
   * After centring, the bounds are symmetric about the origin on every axis,
   * and every edge between two pool vectors is unchanged.
   */
  lemma CenteredIsCentred(pool: seq<Vec3>, slots: seq<nat>)
    requires SlotsIn(slots, |pool|) && slots != []
    ensures BoundsOf(Centered(pool, slots), slots).Some?
    ensures var b := BoundsOf(Centered(pool, slots), slots).value;
      b.lo.x == 0.0 - b.hi.x && b.lo.y == 0.0 - b.hi.y && b.lo.z == 0.0 - b.hi.z
    ensures forall i, j :: 0 <= i < |pool| && 0 <= j < |pool| ==>
      Sub(Centered(pool, slots)[i], Centered(pool, slots)[j]) == Sub(pool[i], pool[j])
  {
    BoundsOfSound(pool, slots);
    var b := BoundsOf(pool, slots).value;
    CenteredIsTranslate(pool, slots);
    BoundsTranslate(pool, slots, Midpoint(b));
    forall i, j | 0 <= i < |pool| && 0 <= j < |pool|
      ensures Sub(Centered(pool, slots)[i], Centered(pool, slots)[j]) == Sub(pool[i], pool[j])
    {
      TranslateKeepsEdges(pool, Midpoint(b), i, j);
    }
  }

  class Mesh {
    /** The corner `Vector` objects; triangles refer to them by index. */
    var vertices: array<Vec3>
    var triangles: array<Triangle>
    var position: Vec3
    var rotation: Vec3

    ghost predicate Valid()
      reads this, triangles
    {
      forall i :: 0 <= i < triangles.Length ==> InPool(triangles[i], vertices.Length)
    }

    /** `new Mesh(...triangles)` over the pool of their corner vectors, at rest at the origin. */
    constructor (pool: seq<Vec3>, tris: seq<Triangle>)
      requires AllInPool(tris, |pool|)
      ensures Valid() && fresh(vertices) && fresh(triangles)
      ensures vertices[..] == pool && triangles[..] == tris
      ensures position == Zero && rotation == Zero
    {
      vertices := new Vec3[|pool|](j requires 0 <= j < |pool| => pool[j]);
      triangles := new Triangle[|tris|](i requires 0 <= i < |tris| => tris[i]);
      position := Zero;
      rotation := Zero;
    }

    /**
     * `apply_transformations`: every triangle's transformed slots are
     * recomputed from its corners and normal with the matrix of the current
     * rotation and the current position. The pool is not written.
     */
    method ApplyTransformations(cosDeg: real -> real, sinDeg: real -> real)
      requires Valid()
      modifies triangles
      ensures Valid()
      ensures forall i :: 0 <= i < triangles.Length ==>
        triangles[i] == Transform(old(triangles[i]), vertices[..], RotationOf(rotation, cosDeg, sinDeg), position)
    {
      var m := RotationOf(rotation, cosDeg, sinDeg);
      ghost var ts, pool := triangles[..], vertices[..];
      var i := 0;
      while i < triangles.Length
        invariant 0 <= i <= triangles.Length
        invariant forall k :: 0 <= k < i ==> triangles[k] == Transform(ts[k], pool, m, position)
        invariant forall k :: i <= k < triangles.Length ==> triangles[k] == ts[k]
        invariant Valid() && vertices[..] == pool
      {
        TransformOne(i, m);
        i := i + 1;
      }
    }

    /** One iteration of the outer loop of `apply_transformations`: triangle `i`. */
    method TransformOne(i: nat, m: Mat3)
      requires Valid() && i < triangles.Length
      modifies triangles
      ensures Valid()
      ensures triangles[i] == Transform(old(triangles[i]), vertices[..], m, position)
      ensures forall k :: 0 <= k < triangles.Length && k != i ==> triangles[k] == old(triangles[k])
    {
      TransformKeepsOriginals(triangles[i], vertices[..], m, position);
      triangles[i] := Transform(triangles[i], vertices[..], m, position);
    }

    /** The first pass of `set_origin_to_center`: the min/max scan over every corner slot. */
    method Bounds() returns (b: Option<Box>)
      requires Valid()
      ensures SlotsIn(Slots(triangles[..]), vertices.Length)
      ensures b == BoundsOf(vertices[..], Slots(triangles[..]))
    {
      ghost var slots := Slots(triangles[..]);
      SlotsInPool(triangles[..], vertices.Length);
      b := None;
      var i := 0;
      while i < triangles.Length
        invariant 0 <= i <= triangles.Length
        invariant SlotsIn(slots[..3 * i], vertices.Length)
        invariant b == BoundsOf(vertices[..], slots[..3 * i])
      {
        b := ScanCorners(i, b);
        i := i + 1;
      }
      assert slots[..3 * triangles.Length] == slots;
    }

    /** The inner loop of the scan: the three corners of triangle `i`. */
    method ScanCorners(i: nat, b: Option<Box>) returns (r: Option<Box>)
      requires Valid() && i < triangles.Length
      requires SlotsIn(Slots(triangles[..])[..3 * i], vertices.Length)
      requires b == BoundsOf(vertices[..], Slots(triangles[..])[..3 * i])
      ensures SlotsIn(Slots(triangles[..])[..3 * i + 3], vertices.Length)
      ensures r == BoundsOf(vertices[..], Slots(triangles[..])[..3 * i + 3])
    {
      ghost var pool, ts := vertices[..], triangles[..];
      ghost var slots := Slots(ts);
      var t := triangles[i];
      r := b;
      var k := 0;
      while k < 3
        invariant 0 <= k <= 3
        invariant SlotsIn(slots[..3 * i + k], |pool|)
        invariant r == BoundsOf(pool, slots[..3 * i + k])
      {
        ScanStep(pool, ts, i, k);
        r := Some(Widen(r, vertices[Corner(t, k)]));
        k := k + 1;
      }
    }

    /**
     * `set_origin_to_center` as written: after the scan, every corner slot of
     * every triangle has half the extent subtracted from its vector, so a
     * vector shared by several slots is shifted once per slot.
     */
    method SetOriginToCenter()
      requires Valid()
      modifies vertices
      ensures Valid()
      ensures SlotsIn(Slots(triangles[..]), vertices.Length)
      ensures vertices[..] == ShiftAsWritten(old(vertices[..]), Slots(triangles[..]))
    {
      var bounds := Bounds();
      if bounds.Some? {
        ShiftCorners(HalfExtent(bounds.value));
      } else {
        BoundsOfSound(vertices[..], Slots(triangles[..]));
      }
    }

    /** The second pass of `set_origin_to_center`: `shift` is subtracted at every corner slot. */
    method ShiftCorners(shift: Vec3)
      requires Valid()
      modifies vertices
      ensures Valid()
      ensures SlotsIn(Slots(triangles[..]), vertices.Length)
      ensures vertices[..] == ShiftEach(old(vertices[..]), Slots(triangles[..]), shift)
    {
      ghost var pool := vertices[..];
      ghost var slots := Slots(triangles[..]);
      SlotsInPool(triangles[..], |pool|);
      var i := 0;
      while i < triangles.Length
        invariant 0 <= i <= triangles.Length
        invariant SlotsIn(slots[..3 * i], |pool|)
        invariant vertices[..] == ShiftEach(pool, slots[..3 * i], shift)
      {
        ShiftTriangle(pool, i, shift);
        i := i + 1;
      }
      assert slots[..3 * triangles.Length] == slots;
    }

    /** The inner loop of the second pass: the three corners of triangle `i`. */
    method ShiftTriangle(ghost pool: seq<Vec3>, i: nat, shift: Vec3)
      requires Valid() && i < triangles.Length && |pool| == vertices.Length
      requires SlotsIn(Slots(triangles[..])[..3 * i], |pool|)
      requires vertices[..] == ShiftEach(pool, Slots(triangles[..])[..3 * i], shift)
      modifies vertices
      ensures SlotsIn(Slots(triangles[..])[..3 * i + 3], |pool|)
      ensures vertices[..] == ShiftEach(pool, Slots(triangles[..])[..3 * i + 3], shift)
    {
      ghost var ts := triangles[..];
      ghost var slots := Slots(ts);
      var t := triangles[i];
      var k := 0;
      while k < 3
        invariant 0 <= k <= 3
        invariant SlotsIn(slots[..3 * i + k], |pool|)
        invariant vertices[..] == ShiftEach(pool, slots[..3 * i + k], shift)
      {
        ShiftStep(pool, ts, shift, i, k);
        var j := Corner(t, k);
        vertices[j] := Sub(vertices[j], shift);
        k := k + 1;
      }
    }

    /**
     * The evident intent of `set_origin_to_center`: every pool vector is moved
     * once, by the centre of the scanned box.
     */
    method CenterOnOrigin()
      requires Valid()
      modifies vertices
      ensures Valid()
      ensures SlotsIn(Slots(triangles[..]), vertices.Length)
      ensures vertices[..] == Centered(old(vertices[..]), Slots(triangles[..]))
    {
      var bounds := Bounds();
      if bounds.Some? {
        CenteredIsTranslate(vertices[..], Slots(triangles[..]));
        TranslateAll(Midpoint(bounds.value));
      }
    }

    /** Every pool vector, once each, has `shift` subtracted. */
    method TranslateAll(shift: Vec3)
      requires Valid()
      modifies vertices
      ensures Valid()
      ensures vertices[..] == Translate(old(vertices[..]), shift)
    {
      var j := 0;
      while j < vertices.Length
        invariant 0 <= j <= vertices.Length
        invariant forall k :: 0 <= k < j ==> vertices[k] == Sub(old(vertices[k]), shift)
        invariant forall k :: j <= k < vertices.Length ==> vertices[k] == old(vertices[k])
      {
        vertices[j] := Sub(vertices[j], shift);
        j := j + 1;
      }
    }

    /**
     * One mesh in a frame of `draw`: transform, then cull and project each
     * triangle in place, collecting the drawn ones, then sort them by depth.
     * The result is the order in which `draw_triangle` is called.
     */
    method RenderFrame(cosDeg: real -> real, sinDeg: real -> real, f: real, sqrt: real -> real)
      returns (order: seq<Triangle>)
      requires Valid()
      modifies triangles
      ensures Valid()
      ensures forall i :: 0 <= i < triangles.Length ==>
        triangles[i] == ProjectTriangle(
          Transform(old(triangles[i]), vertices[..], RotationOf(rotation, cosDeg, sinDeg), position), f, sqrt)
      ensures order == SortByDepth(FilterDrawn(triangles[..]))
    {
      ApplyTransformations(cosDeg, sinDeg);
      var drawn := ProjectAll(f, sqrt);
      order := SortByDepth(drawn);
    }

    /** The projection loop of `draw`: each triangle is culled and projected, the drawn ones collected. */
    method ProjectAll(f: real, sqrt: real -> real) returns (drawn: seq<Triangle>)
      requires Valid()
      modifies triangles
      ensures Valid()
      ensures forall i :: 0 <= i < triangles.Length ==> triangles[i] == ProjectTriangle(old(triangles[i]), f, sqrt)
      ensures drawn == FilterDrawn(triangles[..])
    {
      drawn := [];
      var i := 0;
      while i < triangles.Length
        invariant 0 <= i <= triangles.Length
        invariant forall k :: 0 <= k < i ==> triangles[k] == ProjectTriangle(old(triangles[k]), f, sqrt)
        invariant forall k :: i <= k < triangles.Length ==> triangles[k] == old(triangles[k])
        invariant Valid()
        invariant drawn == FilterDrawn(triangles[..i])
      {
        ProjectTriangleEffect(triangles[i], f, sqrt);
        triangles[i] := ProjectTriangle(triangles[i], f, sqrt);
        assert triangles[..i + 1][..i] == triangles[..i];
        if triangles[i].isDrawn {
          drawn := drawn + [triangles[i]];
        }
        i := i + 1;
      }
      assert triangles[..triangles.Length] == triangles[..];
    }
  }
}
