/**
 * The per-triangle geometry of old_sketch.js: the `Triangle` record and its
 * constructor, the rotation matrix of `Mesh.apply_transformations` and what it
 * does to one triangle, and the backface cull and perspective projection of
 * `project_triangle` and `project_vertex`.
 */
module Geometry {
  import opened Vectors

  /**
   * A `Triangle`. Its corners `v1`, `v2`, `v3` are `Vector` objects that
   * several triangles may share, so they are indices into the mesh's vertex
   * pool. The transformed corners and normal belong to this triangle alone and
   * are plain values.
   */
  datatype Triangle = Triangle(
    v1: nat, v2: nat, v3: nat,
    normal: Vec3,
    transV1: Vec3, transV2: Vec3, transV3: Vec3,
    transNormal: Vec3,
    isDrawn: bool)

  /** The corners of `t` are vertices of a pool of `size` vertices. */
  predicate InPool(t: Triangle, size: nat)
  {
    t.v1 < size && t.v2 < size && t.v3 < size
  }

  /**
   * The constructor's normal: the unit vector of the cross product of the unit
   * edges `v2 - v1` and `v3 - v1`. A zero vector anywhere on the way stays the
   * zero vector (see `Unit`).
   */
  function NormalOf(a: Vec3, b: Vec3, c: Vec3, sqrt: real -> real): Vec3
  {
    Unit(Cross(Unit(Sub(b, a), sqrt), Unit(Sub(c, a), sqrt)), sqrt)
  }

  /** `new Triangle(v1, v2, v3)` over the pool entries `i`, `j`, `k`. */
  function NewTriangle(pool: seq<Vec3>, i: nat, j: nat, k: nat, sqrt: real -> real): (t: Triangle)
    requires i < |pool| && j < |pool| && k < |pool|
    ensures InPool(t, |pool|) && t.isDrawn
    ensures t.v1 == i && t.v2 == j && t.v3 == k
    ensures t.normal == NormalOf(pool[i], pool[j], pool[k], sqrt)
    ensures t.transV1 == Zero && t.transV2 == Zero && t.transV3 == Zero && t.transNormal == Zero
  {
    Triangle(i, j, k, NormalOf(pool[i], pool[j], pool[k], sqrt),
             Zero, Zero, Zero, Zero, true)
  }

  /**
   * The normal is perpendicular to both edges from the first corner, whatever
   * the square root returns (a zero normal trivially so).
   */
  lemma NormalPerpendicular(a: Vec3, b: Vec3, c: Vec3, sqrt: real -> real)
    ensures Dot(NormalOf(a, b, c, sqrt), Sub(b, a)) == 0.0
    ensures Dot(NormalOf(a, b, c, sqrt), Sub(c, a)) == 0.0
  {
    var d1, d2 := Sub(b, a), Sub(c, a);
    var e1, e2 := Unit(d1, sqrt), Unit(d2, sqrt);
    var cross := Cross(e1, e2);
    var l := sqrt(LengthSq(cross));
    if e1 == Zero || e2 == Zero {
      CrossZero(e1, e2);
      UnitZero(sqrt);
      DotZero(d1);
      DotZero(d2);
    } else if l == 0.0 {
      DotZero(d1);
      DotZero(d2);
    } else {
      var l1, l2 := sqrt(LengthSq(d1)), sqrt(LengthSq(d2));
      assert e1 == Vec3(d1.x / l1, d1.y / l1, d1.z / l1) && l1 != 0.0;
      assert e2 == Vec3(d2.x / l2, d2.y / l2, d2.z / l2) && l2 != 0.0;
      UnscaledPerpendicular(cross, d1, l1);
      UnscaledPerpendicular(cross, d2, l2);
      ScaledPerpendicular(cross, d1, l);
      ScaledPerpendicular(cross, d2, l);
    }
  }

  /** A cross product with a zero factor is zero. */
  lemma CrossZero(a: Vec3, b: Vec3)
    requires a == Zero || b == Zero
    ensures Cross(a, b) == Zero
  {
    MulZero(a.y, b.z);
    MulZero(a.z, b.y);
    MulZero(a.z, b.x);
    MulZero(a.x, b.z);
    MulZero(a.x, b.y);
    MulZero(a.y, b.x);
  }

  /** If `n` is perpendicular to `d / l`, it is perpendicular to `d`. */
  lemma UnscaledPerpendicular(n: Vec3, d: Vec3, l: real)
    requires l != 0.0 && Dot(n, Vec3(d.x / l, d.y / l, d.z / l)) == 0.0
    ensures Dot(n, d) == 0.0
  {
    DotDivide(n, d, l);
    DivideZero(Dot(n, d), l);
  }

  /** If `n` is perpendicular to `d`, so is `n / l`. */
  lemma ScaledPerpendicular(n: Vec3, d: Vec3, l: real)
    requires l != 0.0 && Dot(n, d) == 0.0
    ensures Dot(Vec3(n.x / l, n.y / l, n.z / l), d) == 0.0
  {
    DotDivide(d, n, l);
    DotCommutes(d, n);
    DotCommutes(d, Vec3(n.x / l, n.y / l, n.z / l));
  }

  /**
   * A repeated corner makes an edge zero or the two edges equal, so the cross
   * product, and with it the normal, is the zero vector.
   */
  lemma RepeatedCornerZeroNormal(a: Vec3, b: Vec3, c: Vec3, sqrt: real -> real)
    requires b == a || c == a || b == c
    ensures NormalOf(a, b, c, sqrt) == Zero
  {
    var e1, e2 := Unit(Sub(b, a), sqrt), Unit(Sub(c, a), sqrt);
    UnitZero(sqrt);
    if b == a || c == a {
      CrossZero(e1, e2);
    } else {
      MulCommutes(e1.y, e1.z);
      MulCommutes(e1.z, e1.x);
      MulCommutes(e1.x, e1.y);
    }
  }

  /** The stored normal is zero exactly when the two unnormalised edges are parallel
      (or one of them is zero): normalising the edges first changes neither case. */
  lemma NormalZeroIff(a: Vec3, b: Vec3, c: Vec3, sqrt: real -> real)
    requires IsSqrt(sqrt)
    ensures NormalOf(a, b, c, sqrt) == Zero <==> Cross(Sub(b, a), Sub(c, a)) == Zero
  {
    var d1, d2 := Sub(b, a), Sub(c, a);
    var e1, e2 := Unit(d1, sqrt), Unit(d2, sqrt);
    UnitProperties(Cross(e1, e2), sqrt);
    if d1 == Zero || d2 == Zero {
      UnitZero(sqrt);
      CrossZero(d1, d2);
      CrossZero(e1, e2);
    } else {
      UnitProperties(d1, sqrt);
      UnitProperties(d2, sqrt);
      var l1, l2 := sqrt(LengthSq(d1)), sqrt(LengthSq(d2));
      CrossScale(d1, d2, l1, l2);
      ScaledZero(Cross(d1, d2), l1 * l2);
    }
  }

  /** The normal is zero exactly when the edges meet Lagrange's identity with
      equality, that is, when they are parallel or one of them is zero. */
  lemma NormalZeroParallel(a: Vec3, b: Vec3, c: Vec3, sqrt: real -> real)
    requires IsSqrt(sqrt)
    ensures var d1, d2 := Sub(b, a), Sub(c, a);
      NormalOf(a, b, c, sqrt) == Zero <==>
        Mul(LengthSq(d1), LengthSq(d2)) == Mul(Dot(d1, d2), Dot(d1, d2))
  {
    var d1, d2 := Sub(b, a), Sub(c, a);
    var n := Cross(d1, d2);
    NormalZeroIff(a, b, c, sqrt);
    CrossLagrange(d1, d2);
    LengthSqSign(n);
  }

  /** A non-zero normal has unit length. */
  lemma NormalUnitLength(a: Vec3, b: Vec3, c: Vec3, sqrt: real -> real)
    requires IsSqrt(sqrt) && NormalOf(a, b, c, sqrt) != Zero
    ensures LengthSq(NormalOf(a, b, c, sqrt)) == 1.0
  {
    var e := Cross(Unit(Sub(b, a), sqrt), Unit(Sub(c, a), sqrt));
    assert NormalOf(a, b, c, sqrt) == Unit(e, sqrt);
    UnitZero(sqrt);
    assert e != Zero;
    UnitLength(e, sqrt);
  }

  /** When both edges and their cross product already have unit length, every
      normalisation in the constructor leaves its argument as it is. */
  lemma UnitEdgesNormal(a: Vec3, b: Vec3, c: Vec3, sqrt: real -> real)
    requires IsSqrt(sqrt)
    requires LengthSq(Sub(b, a)) == 1.0 && LengthSq(Sub(c, a)) == 1.0
    requires LengthSq(Cross(Sub(b, a), Sub(c, a))) == 1.0
    ensures NormalOf(a, b, c, sqrt) == Cross(Sub(b, a), Sub(c, a))
  {
    UnitOfUnitLength(Sub(b, a), sqrt);
    UnitOfUnitLength(Sub(c, a), sqrt);
    UnitOfUnitLength(Cross(Sub(b, a), Sub(c, a)), sqrt);
  }

  /** Edges, squared lengths and the cross product of vectors along the axes, stated
      for a symbolic length `p` so that the arithmetic is done once. */
  lemma AxisVectors(p: real)
    ensures Sub(Vec3(p, 0.0, 0.0), Zero) == Vec3(p, 0.0, 0.0)
    ensures Sub(Vec3(0.0, p, 0.0), Zero) == Vec3(0.0, p, 0.0)
    ensures LengthSq(Vec3(p, 0.0, 0.0)) == Mul(p, p)
    ensures LengthSq(Vec3(0.0, p, 0.0)) == Mul(p, p)
    ensures LengthSq(Vec3(0.0, 0.0, p)) == Mul(p, p)
    ensures Cross(Vec3(p, 0.0, 0.0), Vec3(0.0, p, 0.0)) == Vec3(0.0, 0.0, Mul(p, p))
  {
    MulZero(0.0, 0.0);
    MulZero(0.0, p);
    MulZero(p, 0.0);
  }

  /** The triangle (0,0,0), (1,0,0), (0,1,0) gets the normal (0,0,1): a unit vector
      along the Z axis, on the side given by the edge-cross-edge order. */
  lemma FlatTriangleNormal(sqrt: real -> real)
    requires IsSqrt(sqrt)
    ensures NormalOf(Zero, Vec3(1.0, 0.0, 0.0), Vec3(0.0, 1.0, 0.0), sqrt) == Vec3(0.0, 0.0, 1.0)
  {
    AxisVectors(1.0);
    assert Mul(1.0, 1.0) == 1.0;
    UnitEdgesNormal(Zero, Vec3(1.0, 0.0, 0.0), Vec3(0.0, 1.0, 0.0), sqrt);
  }

  /** A 3x3 matrix, entries named as `Axx` .. `Azz` in the source. */
  datatype Mat3 = Mat3(xx: real, xy: real, xz: real,
                       yx: real, yy: real, yz: real,
                       zx: real, zy: real, zz: real)

  const Identity: Mat3 := Mat3(1.0, 0.0, 0.0, 0.0, 1.0, 0.0, 0.0, 0.0, 1.0)

  /** The matrix-vector product written out in the transform loop. */
  function Apply(m: Mat3, v: Vec3): Vec3
  {
    Vec3(Mul(m.xx, v.x) + Mul(m.xy, v.y) + Mul(m.xz, v.z),
         Mul(m.yx, v.x) + Mul(m.yy, v.y) + Mul(m.yz, v.z),
         Mul(m.zx, v.x) + Mul(m.zy, v.y) + Mul(m.zz, v.z))
  }

  lemma ApplyIdentity(v: Vec3)
    ensures Apply(Identity, v) == v
  {
    MulOne(v.x); MulOne(v.y); MulOne(v.z);
    MulZero(0.0, v.x); MulZero(0.0, v.y); MulZero(0.0, v.z);
  }

  lemma MulOne(a: real)
    ensures Mul(1.0, a) == a
  {
  }

  /** The matrix product `a * b`. */
  function Compose(a: Mat3, b: Mat3): Mat3
  {
    Mat3(Mul(a.xx, b.xx) + Mul(a.xy, b.yx) + Mul(a.xz, b.zx),
         Mul(a.xx, b.xy) + Mul(a.xy, b.yy) + Mul(a.xz, b.zy),
         Mul(a.xx, b.xz) + Mul(a.xy, b.yz) + Mul(a.xz, b.zz),
         Mul(a.yx, b.xx) + Mul(a.yy, b.yx) + Mul(a.yz, b.zx),
         Mul(a.yx, b.xy) + Mul(a.yy, b.yy) + Mul(a.yz, b.zy),
         Mul(a.yx, b.xz) + Mul(a.yy, b.yz) + Mul(a.yz, b.zz),
         Mul(a.zx, b.xx) + Mul(a.zy, b.yx) + Mul(a.zz, b.zx),
         Mul(a.zx, b.xy) + Mul(a.zy, b.yy) + Mul(a.zz, b.zy),
         Mul(a.zx, b.xz) + Mul(a.zy, b.yz) + Mul(a.zz, b.zz))
  }

  /** Rotations about the z, y and x axes, given the cosine and sine of the angle. */
  function RotZ(c: real, s: real): Mat3 { Mat3(c, 0.0 - s, 0.0, s, c, 0.0, 0.0, 0.0, 1.0) }
  function RotY(c: real, s: real): Mat3 { Mat3(c, 0.0, s, 0.0, 1.0, 0.0, 0.0 - s, 0.0, c) }
  function RotX(c: real, s: real): Mat3 { Mat3(1.0, 0.0, 0.0, 0.0, c, 0.0 - s, 0.0, s, c) }

  /**
   * The entries `Axx` .. `Azz` of `apply_transformations`, from the cosines and
   * sines of the z angle (`cosa`, `sina`), the y angle (`cosb`, `sinb`) and the
   * x angle (`cosc`, `sinc`).
   */
  function Rotation(cosa: real, sina: real, cosb: real, sinb: real, cosc: real, sinc: real): Mat3
  {
    Mat3(Mul(cosa, cosb),
         Mul(Mul(cosa, sinb), sinc) - Mul(sina, cosc),
         Mul(Mul(cosa, sinb), cosc) + Mul(sina, sinc),
         Mul(sina, cosb),
         Mul(Mul(sina, sinb), sinc) + Mul(cosa, cosc),
         Mul(Mul(sina, sinb), cosc) - Mul(cosa, sinc),
         0.0 - sinb,
         Mul(cosb, sinc),
         Mul(cosb, cosc))
  }

  /** The mesh's matrix for the rotation angles (in degrees) of `rotation`. */
  function RotationOf(rotation: Vec3, cosDeg: real -> real, sinDeg: real -> real): Mat3
  {
    Rotation(cosDeg(rotation.z), sinDeg(rotation.z),
             cosDeg(rotation.y), sinDeg(rotation.y),
             cosDeg(rotation.x), sinDeg(rotation.x))
  }

  /**
   * The matrix of `apply_transformations` is the rotation about x, followed by
   * the rotation about y, followed by the rotation about z.
   */
  lemma RotationIsComposition(cosa: real, sina: real, cosb: real, sinb: real, cosc: real, sinc: real)
    ensures Rotation(cosa, sina, cosb, sinb, cosc, sinc)
         == Compose(RotZ(cosa, sina), Compose(RotY(cosb, sinb), RotX(cosc, sinc)))
  {
    var yx := Compose(RotY(cosb, sinb), RotX(cosc, sinc));
    MulNegate(sinb, sinc);
    assert yx == Mat3(cosb, Mul(sinb, sinc), Mul(sinb, cosc),
                      0.0, cosc, 0.0 - sinc,
                      0.0 - sinb, Mul(cosb, sinc), Mul(cosb, cosc));
    MulAssociates(cosa, sinb, sinc);
    MulAssociates(cosa, sinb, cosc);
    MulAssociates(sina, sinb, sinc);
    MulAssociates(sina, sinb, cosc);
    MulNegate(cosa, sinc);
    MulNegate(sina, sinc);
    MulCommutes(0.0 - sina, cosc);
    MulNegate(cosc, sina);
    MulCommutes(sina, cosc);
  }

  /** With cos 0 = 1 and sin 0 = 0, the zero rotation is the identity matrix. */
  lemma ZeroRotation(cosDeg: real -> real, sinDeg: real -> real)
    requires cosDeg(0.0) == 1.0 && sinDeg(0.0) == 0.0
    ensures RotationOf(Zero, cosDeg, sinDeg) == Identity
  {
  }

  /**
   * One triangle of `apply_transformations`: each transformed corner is `m`
   * times the original corner plus `position`; the transformed normal is `m`
   * times the normal, without the translation.
   */
  function Transform(t: Triangle, pool: seq<Vec3>, m: Mat3, position: Vec3): Triangle
    requires InPool(t, |pool|)
  {
    t.(transV1 := Add(Apply(m, pool[t.v1]), position),
       transV2 := Add(Apply(m, pool[t.v2]), position),
       transV3 := Add(Apply(m, pool[t.v3]), position),
       transNormal := Apply(m, t.normal))
  }

  /** Only the transformed slots change: corners, normal and the drawn flag are kept. */
  lemma TransformKeepsOriginals(t: Triangle, pool: seq<Vec3>, m: Mat3, position: Vec3)
    requires InPool(t, |pool|)
    ensures var r := Transform(t, pool, m, position);
      r.v1 == t.v1 && r.v2 == t.v2 && r.v3 == t.v3 && r.normal == t.normal &&
      r.isDrawn == t.isDrawn && InPool(r, |pool|)
  {
  }

  /**
   * Every transformed slot is overwritten, so the result does not depend on the
   * old transformed values, and transforming twice is transforming once.
   */
  lemma TransformOverwrites(t: Triangle, u: Triangle, pool: seq<Vec3>, m: Mat3, position: Vec3)
    requires InPool(t, |pool|)
    requires u.v1 == t.v1 && u.v2 == t.v2 && u.v3 == t.v3 && u.normal == t.normal && u.isDrawn == t.isDrawn
    ensures Transform(u, pool, m, position) == Transform(t, pool, m, position)
    ensures Transform(Transform(t, pool, m, position), pool, m, position) == Transform(t, pool, m, position)
  {
  }

  /** With the identity matrix and a zero position the transformed values are the originals. */
  lemma TransformIdentity(t: Triangle, pool: seq<Vec3>)
    requires InPool(t, |pool|)
    ensures var r := Transform(t, pool, Identity, Zero);
      r.transV1 == pool[t.v1] && r.transV2 == pool[t.v2] && r.transV3 == pool[t.v3] &&
      r.transNormal == t.normal
  {
    ApplyIdentity(pool[t.v1]);
    ApplyIdentity(pool[t.v2]);
    ApplyIdentity(pool[t.v3]);
    ApplyIdentity(t.normal);
  }

  /**
   * Moving the mesh moves each transformed corner by the same amount and leaves
   * the transformed normal where it was.
   */
  lemma TransformTranslation(t: Triangle, pool: seq<Vec3>, m: Mat3, p: Vec3, q: Vec3)
    requires InPool(t, |pool|)
    ensures var r, s := Transform(t, pool, m, p), Transform(t, pool, m, q);
      Sub(s.transV1, r.transV1) == Sub(q, p) &&
      Sub(s.transV2, r.transV2) == Sub(q, p) &&
      Sub(s.transV3, r.transV3) == Sub(q, p) &&
      s.transNormal == r.transNormal
  {
  }

  /** The canvas and the view frustum of the top of old_sketch.js. */
  const Width: real := 400.0
  const Height: real := 400.0
  const AspectRatio: real := Height / Width
  const ZNear: real := 10.0
  const ZFar: real := 400.0
  const Q: real := ZFar / (ZFar - ZNear)

  /** What `project_vertex` multiplies every depth by. */
  const DepthScale: real := (Q - Q * ZNear) / (ZFar - ZNear)

  /** The depth factor is -4/169: negative, so a point farther away gets a smaller projected depth. */
  lemma DepthScaleValue()
    ensures DepthScale == -4.0 / 169.0
  {
  }

  /**
   * `project_vertex`, step by step: scale to the unit cube, apply the aspect
   * ratio and the focal factor `f` (the source's `1 / tan(fov / 2)`), divide by
   * the scaled depth unless the new depth is zero, and return to screen units
   * centred on the canvas.
   */
  function ProjectVertex(v: Vec3, f: real): (r: Vec3)
    ensures r.z == v.z * DepthScale
    ensures v.z == 0.0 ==>
      r.x == AspectRatio * Mul(f, v.x) + Width / 2.0 && r.y == Mul(f, v.y) + Height / 2.0
    ensures v.z != 0.0 ==>
      r.x == AspectRatio * (ZFar - ZNear) * Mul(f, v.x) / v.z + Width / 2.0 &&
      r.y == (ZFar - ZNear) * Mul(f, v.y) / v.z + Height / 2.0
  {
    var x1 := v.x / Width;
    var y1 := v.y / Height;
    var z1 := v.z / (ZFar - ZNear);
    var origZ := z1;
    var x2 := AspectRatio * Mul(f, x1);
    var y2 := Mul(f, y1);
    var z2 := z1 * (Q - Q * ZNear);
    var x3 := if z2 != 0.0 then x2 / origZ else x2;
    var y3 := if z2 != 0.0 then y2 / origZ else y2;
    ProjectSteps(v, f);
    Vec3(x3 * Width + Width / 2.0, y3 * Height + Height / 2.0, z2)
  }

  lemma ProjectSteps(v: Vec3, f: real)
    ensures Mul(f, v.x / Width) * Width == Mul(f, v.x)
    ensures Mul(f, v.y / Height) * Height == Mul(f, v.y)
    ensures v.z != 0.0 ==>
      AspectRatio * Mul(f, v.x / Width) / (v.z / (ZFar - ZNear)) * Width == AspectRatio * (ZFar - ZNear) * Mul(f, v.x) / v.z
    ensures v.z != 0.0 ==>
      Mul(f, v.y / Height) / (v.z / (ZFar - ZNear)) * Height == (ZFar - ZNear) * Mul(f, v.y) / v.z
  {
  }

  /** The origin is projected onto the centre of the canvas at depth 0. */
  lemma ProjectOrigin(f: real)
    ensures ProjectVertex(Zero, f) == Vec3(Width / 2.0, Height / 2.0, 0.0)
  {
    MulZero(f, 0.0);
  }

  /**
   * The test of `project_triangle`: the dot product of the transformed normal
   * with the unit vector from the first transformed corner to the camera at the
   * origin is positive.
   */
  predicate FacesCamera(t: Triangle, sqrt: real -> real)
  {
    Dot(t.transNormal, Unit(Sub(Zero, t.transV1), sqrt)) > 0.0
  }

  /**
   * `project_triangle`: a triangle facing the camera has its three transformed
   * corners projected and is marked drawn; any other triangle is only marked
   * not drawn.
   */
  function ProjectTriangle(t: Triangle, f: real, sqrt: real -> real): Triangle
  {
    if FacesCamera(t, sqrt) then
      t.(transV1 := ProjectVertex(t.transV1, f),
         transV2 := ProjectVertex(t.transV2, f),
         transV3 := ProjectVertex(t.transV3, f),
         isDrawn := true)
    else
      t.(isDrawn := false)
  }

  /**
   * With a true square root the cull keeps exactly the triangles whose first
   * transformed corner is not at the camera and whose transformed normal points
   * against the direction from the camera to that corner.
   */
  lemma CullCriterion(t: Triangle, sqrt: real -> real)
    requires IsSqrt(sqrt)
    ensures FacesCamera(t, sqrt) <==>
      t.transV1 != Zero && Dot(t.transNormal, t.transV1) < 0.0
  {
    var d := Sub(Zero, t.transV1);
    if t.transV1 == Zero {
      assert d == Zero;
      UnitZero(sqrt);
      DotZero(t.transNormal);
    } else {
      UnitProperties(d, sqrt);
      TowardCamera(t.transNormal, t.transV1, sqrt(LengthSq(d)));
    }
  }

  /** The sign of the dot product with the unit vector toward the camera. */
  lemma TowardCamera(n: Vec3, v: Vec3, l: real)
    requires 0.0 < l
    ensures var d := Sub(Zero, v);
      Dot(n, Vec3(d.x / l, d.y / l, d.z / l)) > 0.0 <==> Dot(n, v) < 0.0
  {
    var d := Sub(Zero, v);
    DotDivide(n, d, l);
    DotNegate(n, v);
    DivideSign(Dot(n, d), l);
  }

  /** A triangle whose first transformed corner is the camera is always culled. */
  lemma CornerAtCameraCulled(t: Triangle, sqrt: real -> real)
    requires IsSqrt(sqrt) && t.transV1 == Zero
    ensures !FacesCamera(t, sqrt)
  {
    CullCriterion(t, sqrt);
  }

  /**
   * A triangle whose normal is the zero vector, such as one with a repeated
   * corner, keeps a zero transformed normal under every matrix and is never
   * drawn.
   */
  lemma ZeroNormalNeverDrawn(t: Triangle, pool: seq<Vec3>, m: Mat3, position: Vec3, f: real, sqrt: real -> real)
    requires InPool(t, |pool|) && t.normal == Zero
    ensures Transform(t, pool, m, position).transNormal == Zero
    ensures !ProjectTriangle(Transform(t, pool, m, position), f, sqrt).isDrawn
  {
    var r := Transform(t, pool, m, position);
    MulZero(m.xx, 0.0);
    MulZero(m.xy, 0.0);
    MulZero(m.xz, 0.0);
    MulZero(m.yx, 0.0);
    MulZero(m.yy, 0.0);
    MulZero(m.yz, 0.0);
    MulZero(m.zx, 0.0);
    MulZero(m.zy, 0.0);
    MulZero(m.zz, 0.0);
    var u := Unit(Sub(Zero, r.transV1), sqrt);
    DotZero(u);
  }

  /**
   * What `project_triangle` changes: the drawn flag becomes the cull test, the
   * transformed corners are projected when it passes and kept otherwise, and
   * nothing else is written.
   */
  lemma ProjectTriangleEffect(t: Triangle, f: real, sqrt: real -> real)
    ensures var r := ProjectTriangle(t, f, sqrt);
      r.isDrawn == FacesCamera(t, sqrt) &&
      (r.isDrawn ==> r.transV1 == ProjectVertex(t.transV1, f) &&
                     r.transV2 == ProjectVertex(t.transV2, f) &&
                     r.transV3 == ProjectVertex(t.transV3, f)) &&
      (!r.isDrawn ==> r.transV1 == t.transV1 && r.transV2 == t.transV2 && r.transV3 == t.transV3) &&
      r.v1 == t.v1 && r.v2 == t.v2 && r.v3 == t.v3 &&
      r.normal == t.normal && r.transNormal == t.transNormal
  {
  }

  /** The sort key of `draw`: the mean depth of the transformed corners. */
  function DepthKey(t: Triangle): real
  {
    (t.transV1.z + t.transV2.z + t.transV3.z) / 3.0
  }

  /**
   * Projection multiplies the sort key of a drawn triangle by the negative
   * depth factor, so sorting projected triangles by ascending key puts those
   * farther from the camera (larger transformed depth) first.
   */
  lemma ProjectedDepthOrder(t: Triangle, u: Triangle, f: real, sqrt: real -> real)
    requires FacesCamera(t, sqrt) && FacesCamera(u, sqrt)
    ensures DepthKey(ProjectTriangle(t, f, sqrt)) == DepthKey(t) * DepthScale
    ensures DepthKey(ProjectTriangle(t, f, sqrt)) <= DepthKey(ProjectTriangle(u, f, sqrt))
        <==> DepthKey(u) <= DepthKey(t)
  {
    DepthScaleValue();
  }
}
