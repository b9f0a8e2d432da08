/** The `Vector` value of old_sketch.js and its free helper functions. */
module Vectors {
  /** Three real components; the source's numbers are modelled as reals. */
  datatype Vec3 = Vec3(x: real, y: real, z: real)

  /** `new Vector()`: every missing component becomes 0. */
  const Zero: Vec3 := Vec3(0.0, 0.0, 0.0)

  /**
   * The product of two reals. Every product of two coordinates is written
   * through `Mul`, so that the sign facts below can be stated about it once.
   */
  function Mul(a: real, b: real): real
  {
    a * b
  }

  /** A product of two numbers of the same strict sign is positive. */
  lemma MulPositive(a: real, b: real)
    requires (0.0 < a && 0.0 < b) || (a < 0.0 && b < 0.0)
    ensures 0.0 < Mul(a, b)
  {
  }

  /** A product with a zero factor is zero. */
  lemma MulZero(a: real, b: real)
    requires a == 0.0 || b == 0.0
    ensures Mul(a, b) == 0.0
  {
  }

  /** A square is never negative, and it is zero only for zero. */
  lemma MulSelf(a: real)
    ensures 0.0 <= Mul(a, a)
    ensures Mul(a, a) == 0.0 <==> a == 0.0
  {
    if a != 0.0 {
      MulPositive(a, a);
    } else {
      MulZero(a, a);
    }
  }

  /** Negating the second factor negates the product. */
  lemma MulNegate(a: real, b: real)
    ensures Mul(a, 0.0 - b) == 0.0 - Mul(a, b)
  {
  }

  /** Dividing the second factor by `l` divides the product by `l`. */
  lemma MulDivide(a: real, b: real, l: real)
    requires l != 0.0
    ensures Mul(a, b / l) == Mul(a, b) / l
  {
  }

  /** Dividing by a positive number keeps the sign. */
  lemma DivideSign(a: real, l: real)
    requires 0.0 < l
    ensures 0.0 < a / l <==> 0.0 < a
  {
  }

  /** A quotient by a non-zero number is zero only when the dividend is. */
  lemma DivideZero(a: real, l: real)
    requires l != 0.0
    ensures a / l == 0.0 <==> a == 0.0
  {
  }

  function Add(a: Vec3, b: Vec3): Vec3
  {
    Vec3(a.x + b.x, a.y + b.y, a.z + b.z)
  }

  /** `vec_sub`: adding `b` back to the difference gives `a`. */
  function Sub(a: Vec3, b: Vec3): (r: Vec3)
    ensures Add(r, b) == a
    ensures r == Zero <==> a == b
  {
    Vec3(a.x - b.x, a.y - b.y, a.z - b.z)
  }

  /** `vec_dot_product`. */
  function Dot(a: Vec3, b: Vec3): real
  {
    Mul(a.x, b.x) + Mul(a.y, b.y) + Mul(a.z, b.z)
  }

  /** `vec_cross_product`: the result is perpendicular to both arguments. */
  function Cross(a: Vec3, b: Vec3): (r: Vec3)
    ensures Dot(r, a) == 0.0 && Dot(r, b) == 0.0
  {
    Vec3(Mul(a.y, b.z) - Mul(a.z, b.y),
         Mul(a.z, b.x) - Mul(a.x, b.z),
         Mul(a.x, b.y) - Mul(a.y, b.x))
  }

  /** The radicand of `Vector.get_length`, `x*x + y*y + z*z`, which is `v . v`. */
  function LengthSq(v: Vec3): real
  {
    Dot(v, v)
  }

  /** The squared length is never negative, and it is zero exactly for the zero vector. */
  lemma LengthSqSign(v: Vec3)
    ensures 0.0 <= LengthSq(v)
    ensures LengthSq(v) == 0.0 <==> v == Zero
  {
    MulSelf(v.x);
    MulSelf(v.y);
    MulSelf(v.z);
    ZeroComponents(v);
  }

  lemma ZeroComponents(v: Vec3)
    ensures v == Zero <==> v.x == 0.0 && v.y == 0.0 && v.z == 0.0
  {
  }

  /**
   * What a square-root function supplied by the caller must satisfy when a lemma
   * depends on it: it returns the non-negative root of every non-negative number.
   */
  ghost predicate IsSqrt(sqrt: real -> real)
  {
    forall r: real :: 0.0 <= r ==> 0.0 <= sqrt(r) && Mul(sqrt(r), sqrt(r)) == r
  }

  /** With a true square root, the root is zero exactly when the radicand is. */
  lemma SqrtZero(sqrt: real -> real, r: real)
    requires IsSqrt(sqrt) && 0.0 <= r
    ensures 0.0 <= sqrt(r)
    ensures sqrt(r) == 0.0 <==> r == 0.0
  {
    MulSelf(sqrt(r));
  }

  /**
   * `vec_get_unit`: each component divided by the length `sqrt(LengthSq(v))`.
   * A zero length makes JavaScript compute 0/0 = NaN for a zero component, and
   * the `Vector` constructor replaces every falsy component, NaN included, by
   * 0.0; so a zero length gives the zero vector.
   */
  function Unit(v: Vec3, sqrt: real -> real): Vec3
  {
    var length := sqrt(LengthSq(v));
    if length == 0.0 then Zero else Vec3(v.x / length, v.y / length, v.z / length)
  }

  /** The zero vector is its own unit vector, whatever the square root returns. */
  lemma UnitZero(sqrt: real -> real)
    ensures Unit(Zero, sqrt) == Zero
  {
    var l := sqrt(LengthSq(Zero));
    if l != 0.0 {
      DivideZero(0.0, l);
    }
  }

  /**
   * With a true square root, `Unit` gives the zero vector exactly for the zero
   * vector; any other vector is divided by its positive length.
   */
  lemma UnitProperties(v: Vec3, sqrt: real -> real)
    requires IsSqrt(sqrt)
    ensures Unit(v, sqrt) == Zero <==> v == Zero
    ensures v != Zero ==> 0.0 < sqrt(LengthSq(v))
    ensures v != Zero ==>
      Unit(v, sqrt) == Vec3(v.x / sqrt(LengthSq(v)), v.y / sqrt(LengthSq(v)), v.z / sqrt(LengthSq(v)))
  {
    LengthSqSign(v);
    SqrtZero(sqrt, LengthSq(v));
  }

  /** With a true square root, the unit vector of a non-zero vector has length 1. */
  lemma UnitLength(v: Vec3, sqrt: real -> real)
    requires IsSqrt(sqrt) && v != Zero
    ensures LengthSq(Unit(v, sqrt)) == 1.0
  {
    UnitProperties(v, sqrt);
    LengthSqSign(v);
    ScaledLength(v, sqrt(LengthSq(v)));
  }

  /** Dividing `v` by a root of its squared length gives length 1. */
  lemma ScaledLength(v: Vec3, l: real)
    requires l != 0.0 && Mul(l, l) == LengthSq(v)
    ensures LengthSq(Vec3(v.x / l, v.y / l, v.z / l)) == 1.0
  {
    MulQuotients(v.x, l);
    MulQuotients(v.y, l);
    MulQuotients(v.z, l);
    var u := Vec3(v.x / l, v.y / l, v.z / l);
    var sum := Mul(v.x, v.x) + Mul(v.y, v.y) + Mul(v.z, v.z);
    assert LengthSq(u) == sum / Mul(l, l);
    assert sum == Mul(l, l) != 0.0;
    assert sum / Mul(l, l) == 1.0;
  }

  /** Dividing both factors of a square by `l` divides it by `l * l`. */
  lemma MulQuotients(a: real, l: real)
    requires l != 0.0
    ensures Mul(l, l) != 0.0
    ensures Mul(a / l, a / l) == Mul(a, a) / Mul(l, l)
  {
    MulSelf(l);
    var q := a / l;
    assert a == q * l;
    assert a * a == (q * q) * (l * l);
  }

  /** A dot product with the zero vector is zero. */
  lemma DotZero(n: Vec3)
    ensures Dot(n, Zero) == 0.0 && Dot(Zero, n) == 0.0
  {
    MulZero(n.x, 0.0);
    MulZero(n.y, 0.0);
    MulZero(n.z, 0.0);
    MulZero(0.0, n.x);
    MulZero(0.0, n.y);
    MulZero(0.0, n.z);
  }

  /**
   * Lagrange's identity: the squared length of a cross product is the product
   * of the squared lengths less the squared dot product. It is zero exactly
   * when the arguments are parallel.
   */
  lemma CrossLagrange(a: Vec3, b: Vec3)
    ensures LengthSq(Cross(a, b)) == Mul(LengthSq(a), LengthSq(b)) - Mul(Dot(a, b), Dot(a, b))
  {
    // The squares of the three components of the cross product.
    SquareDiff(Mul(a.y, b.z), Mul(a.z, b.y));
    SquareDiff(Mul(a.z, b.x), Mul(a.x, b.z));
    SquareDiff(Mul(a.x, b.y), Mul(a.y, b.x));
    MulInterchange(a.y, b.z, a.y, b.z);
    MulInterchange(a.z, b.y, a.z, b.y);
    MulInterchange(a.z, b.x, a.z, b.x);
    MulInterchange(a.x, b.z, a.x, b.z);
    MulInterchange(a.x, b.y, a.x, b.y);
    MulInterchange(a.y, b.x, a.y, b.x);
    MulInterchange(a.y, b.z, a.z, b.y);
    MulInterchange(a.z, b.x, a.x, b.z);
    MulInterchange(a.x, b.y, a.y, b.x);
    MulCommutes(Mul(a.z, b.z), Mul(a.x, b.x));
    // The product of the squared lengths and the squared dot product.
    MulSum3(Mul(a.x, a.x), Mul(a.y, a.y), Mul(a.z, a.z), Mul(b.x, b.x), Mul(b.y, b.y), Mul(b.z, b.z));
    MulSum3(Mul(a.x, b.x), Mul(a.y, b.y), Mul(a.z, b.z), Mul(a.x, b.x), Mul(a.y, b.y), Mul(a.z, b.z));
    MulCommutes(Mul(a.x, b.x), Mul(a.y, b.y));
    MulCommutes(Mul(a.x, b.x), Mul(a.z, b.z));
    MulCommutes(Mul(a.y, b.y), Mul(a.z, b.z));
    MulInterchange(a.x, b.x, a.x, b.x);
    MulInterchange(a.y, b.y, a.y, b.y);
    MulInterchange(a.z, b.z, a.z, b.z);
  }

  /** The square of a difference. */
  lemma SquareDiff(u: real, v: real)
    ensures Mul(u - v, u - v) == Mul(u, u) - 2.0 * Mul(u, v) + Mul(v, v)
  {
  }

  /** Regrouping the four factors of a product of two products. */
  lemma MulInterchange(w: real, x: real, y: real, z: real)
    ensures Mul(Mul(w, x), Mul(y, z)) == Mul(Mul(w, y), Mul(x, z))
    ensures Mul(Mul(w, x), Mul(y, z)) == Mul(Mul(w, z), Mul(y, x))
  {
  }

  /** The product of two three-term sums, multiplied out. */
  lemma MulSum3(x1: real, x2: real, x3: real, y1: real, y2: real, y3: real)
    ensures Mul(x1 + x2 + x3, y1 + y2 + y3) ==
      Mul(x1, y1) + Mul(x1, y2) + Mul(x1, y3) +
      Mul(x2, y1) + Mul(x2, y2) + Mul(x2, y3) +
      Mul(x3, y1) + Mul(x3, y2) + Mul(x3, y3)
  {
  }

  /** Dividing the two factors by `l1` and `l2` divides the product by `l1 * l2`. */
  lemma MulScaled(a: real, b: real, l1: real, l2: real)
    requires l1 != 0.0 && l2 != 0.0
    ensures l1 * l2 != 0.0
    ensures Mul(a / l1, b / l2) == Mul(a, b) / (l1 * l2)
  {
    var q1, q2 := a / l1, b / l2;
    assert a == q1 * l1 && b == q2 * l2;
    assert a * b == (q1 * q2) * (l1 * l2);
  }

  /** Scaling both arguments of a cross product scales the product by the product of the factors. */
  lemma CrossScale(d1: Vec3, d2: Vec3, l1: real, l2: real)
    requires l1 != 0.0 && l2 != 0.0
    ensures l1 * l2 != 0.0
    ensures var c := Cross(d1, d2);
      Cross(Vec3(d1.x / l1, d1.y / l1, d1.z / l1), Vec3(d2.x / l2, d2.y / l2, d2.z / l2)) ==
      Vec3(c.x / (l1 * l2), c.y / (l1 * l2), c.z / (l1 * l2))
  {
    DiffScaled(d1.y, d2.z, d1.z, d2.y, l1, l2);
    DiffScaled(d1.z, d2.x, d1.x, d2.z, l1, l2);
    DiffScaled(d1.x, d2.y, d1.y, d2.x, l1, l2);
  }

  /** One component of `CrossScale`: a difference of two scaled products. */
  lemma DiffScaled(a: real, b: real, c: real, d: real, l1: real, l2: real)
    requires l1 != 0.0 && l2 != 0.0
    ensures l1 * l2 != 0.0
    ensures Mul(a / l1, b / l2) - Mul(c / l1, d / l2) == (Mul(a, b) - Mul(c, d)) / (l1 * l2)
  {
    MulScaled(a, b, l1, l2);
    MulScaled(c, d, l1, l2);
    var l := l1 * l2;
    var p, q := Mul(a, b), Mul(c, d);
    var u, w := p / l, q / l;
    assert p == u * l && q == w * l;
    assert p - q == (u - w) * l;
  }

  /** A vector divided by a non-zero number is zero exactly when the vector is. */
  lemma ScaledZero(v: Vec3, l: real)
    requires l != 0.0
    ensures Vec3(v.x / l, v.y / l, v.z / l) == Zero <==> v == Zero
  {
    DivideZero(v.x, l);
    DivideZero(v.y, l);
    DivideZero(v.z, l);
  }

  /** A true square root of 1 is 1. */
  lemma SqrtOne(sqrt: real -> real)
    requires IsSqrt(sqrt)
    ensures sqrt(1.0) == 1.0
  {
    var s := sqrt(1.0);
    assert 0.0 <= s && s * s == 1.0;
    var p, t := s - 1.0, s + 1.0;
    assert p * t == s * s - 1.0 == 0.0;
    assert t != 0.0 && (p * t) / t == p;
  }

  /** With a true square root, a vector of length 1 is its own unit vector. */
  lemma UnitOfUnitLength(v: Vec3, sqrt: real -> real)
    requires IsSqrt(sqrt) && LengthSq(v) == 1.0
    ensures Unit(v, sqrt) == v
  {
    SqrtOne(sqrt);
  }

  /** Dividing the second argument of a dot product by a non-zero `l` divides the product. */
  lemma DotDivide(n: Vec3, v: Vec3, l: real)
    requires l != 0.0
    ensures Dot(n, Vec3(v.x / l, v.y / l, v.z / l)) == Dot(n, v) / l
  {
    MulDivide(n.x, v.x, l);
    MulDivide(n.y, v.y, l);
    MulDivide(n.z, v.z, l);
  }

  lemma DotCommutes(a: Vec3, b: Vec3)
    ensures Dot(a, b) == Dot(b, a)
  {
    MulCommutes(a.x, b.x);
    MulCommutes(a.y, b.y);
    MulCommutes(a.z, b.z);
  }

  /** A product distributes over a sum in its first factor. */
  lemma MulDistributes(a: real, b: real, c: real)
    ensures Mul(a + b, c) == Mul(a, c) + Mul(b, c)
  {
  }

  /** A product of three factors does not depend on how they are grouped. */
  lemma MulAssociates(a: real, b: real, c: real)
    ensures Mul(Mul(a, b), c) == Mul(a, Mul(b, c))
  {
  }

  lemma MulCommutes(a: real, b: real)
    ensures Mul(a, b) == Mul(b, a)
  {
  }

  /** The dot product with `0 - v` is the negated dot product with `v`. */
  lemma DotNegate(n: Vec3, v: Vec3)
    ensures Dot(n, Sub(Zero, v)) == 0.0 - Dot(n, v)
  {
    MulNegate(n.x, v.x);
    MulNegate(n.y, v.y);
    MulNegate(n.z, v.z);
  }
}
