/**
 * The spring-mass `Rope` of sketch.js: a chain of point masses joined by
 * springs between neighbours, advanced by `update` in three in-place passes.
 */
module RopeSim {
  import opened Vectors

  /** One mass record: position, velocity and accumulated acceleration. */
  datatype Mass = Mass(x: real, y: real, vx: real, vy: real, ax: real, ay: real)

  /**
   * One spring record. `massA` and `massB` are the masses it refers to, as
   * indices into the rope's mass list, so an update through the spring is an
   * update of that list entry.
   */
  datatype Spring = Spring(massA: nat, massB: nat, restLength: real, springConstant: real)

  /** The six numeric fields of a mass, for sums over the rope. */
  datatype Field = X | Y | VX | VY | AX | AY

  function Get(m: Mass, f: Field): real
  {
    match f
    case X => m.x
    case Y => m.y
    case VX => m.vx
    case VY => m.vy
    case AX => m.ax
    case AY => m.ay
  }

  /** The sum of one field over all masses. */
  function Total(ms: seq<Mass>, f: Field): real
  {
    if ms == [] then 0.0 else Total(ms[..|ms| - 1], f) + Get(ms[|ms| - 1], f)
  }

  /** Replacing one mass changes a sum by the difference of that mass's field. */
  lemma {:induction false} TotalSet(ms: seq<Mass>, j: nat, m: Mass, f: Field)
    requires j < |ms|
    ensures Total(ms[j := m], f) == Total(ms, f) - Get(ms[j], f) + Get(m, f)
  {
    var n := |ms| - 1;
    if j < n {
      assert ms[j := m][..n] == ms[..n][j := m];
      TotalSet(ms[..n], j, m, f);
    } else {
      assert ms[j := m][..n] == ms[..n];
    }
  }

  function Max0(n: int): nat
  {
    if n < 0 then 0 else n
  }

  /** Position and velocity agree; the spring pass writes neither. */
  predicate SameMotion(a: Mass, b: Mass)
  {
    a.x == b.x && a.y == b.y && a.vx == b.vx && a.vy == b.vy
  }

  predicate AtRest(ms: seq<Mass>)
  {
    forall i :: 0 <= i < |ms| ==> ms[i].ax == 0.0 && ms[i].ay == 0.0
  }

  lemma {:induction false} AtRestTotal(ms: seq<Mass>)
    requires AtRest(ms)
    ensures Total(ms, AX) == 0.0 && Total(ms, AY) == 0.0
  {
    if ms != [] {
      AtRestTotal(ms[..|ms| - 1]);
    }
  }

  /** The first pass on one mass: move by the old velocity, then damp it. */
  function Drift(m: Mass, damping: real): Mass
  {
    Mass(m.x + m.vx, m.y + m.vy, Mul(m.vx, 1.0 - damping), Mul(m.vy, 1.0 - damping), m.ax, m.ay)
  }

  function DriftAll(ms: seq<Mass>, damping: real): (r: seq<Mass>)
    ensures |r| == |ms| && forall i :: 0 <= i < |ms| ==> r[i] == Drift(ms[i], damping)
  {
    if ms == [] then [] else DriftAll(ms[..|ms| - 1], damping) + [Drift(ms[|ms| - 1], damping)]
  }

  /**
   * Damping scales the total velocity by `1 - damping` and leaves the total
   * acceleration alone.
   */
  lemma {:induction false} DriftTotals(ms: seq<Mass>, damping: real)
    ensures Total(DriftAll(ms, damping), VX) == Mul(Total(ms, VX), 1.0 - damping)
    ensures Total(DriftAll(ms, damping), VY) == Mul(Total(ms, VY), 1.0 - damping)
    ensures Total(DriftAll(ms, damping), AX) == Total(ms, AX)
    ensures Total(DriftAll(ms, damping), AY) == Total(ms, AY)
  {
    if ms == [] {
      MulZero(0.0, 1.0 - damping);
    } else {
      var n := |ms| - 1;
      var r := DriftAll(ms, damping);
      assert r[..n] == DriftAll(ms[..n], damping);
      DriftTotals(ms[..n], damping);
      MulDistributes(Total(ms[..n], VX), ms[n].vx, 1.0 - damping);
      MulDistributes(Total(ms[..n], VY), ms[n].vy, 1.0 - damping);
    }
  }

  /** Both ends of the spring are masses of the rope. */
  predicate Linked(ms: seq<Mass>, s: Spring)
  {
    s.massA < |ms| && s.massB < |ms|
  }

  /** The current length of the spring, `Math.sqrt(dx * dx + dy * dy)`, for the caller's `sqrt`. */
  function Distance(ms: seq<Mass>, s: Spring, sqrt: real -> real): real
    requires Linked(ms, s)
  {
    var dx := ms[s.massB].x - ms[s.massA].x;
    var dy := ms[s.massB].y - ms[s.massA].y;
    sqrt(Mul(dx, dx) + Mul(dy, dy))
  }

  /** The force components `(fx, fy)` the spring adds to `massA` and takes from `massB`. */
  function Force(ms: seq<Mass>, s: Spring, sqrt: real -> real): (real, real)
    requires Linked(ms, s) && Distance(ms, s, sqrt) != 0.0
  {
    var dx := ms[s.massB].x - ms[s.massA].x;
    var dy := ms[s.massB].y - ms[s.massA].y;
    var distance := Distance(ms, s, sqrt);
    var springForce := Mul(distance - s.restLength, s.springConstant);
    (Mul(dx / distance, springForce), Mul(dy / distance, springForce))
  }

  /** One iteration of the second pass: `massA.a += f`, then `massB.a -= f`. */
  function ApplySpring(ms: seq<Mass>, s: Spring, sqrt: real -> real): (r: seq<Mass>)
    requires Linked(ms, s) && Distance(ms, s, sqrt) != 0.0
    ensures |r| == |ms| && forall i :: 0 <= i < |ms| ==> SameMotion(r[i], ms[i])
  {
    var (fx, fy) := Force(ms, s, sqrt);
    var a, b := s.massA, s.massB;
    var ms1 := ms[a := ms[a].(ax := ms[a].ax + fx, ay := ms[a].ay + fy)];
    ms1[b := ms1[b].(ax := ms1[b].ax - fx, ay := ms1[b].ay - fy)]
  }

  /**
   * `ApplySpring` as the two in-place updates of the loop body, and what they
   * do to each mass: the force `(fx, fy)` is added to the acceleration of
   * `massA` and taken from that of `massB`, which cancel when both ends are the
   * same mass; every other mass is untouched.
   */
  lemma ApplySpringUpdates(ms: seq<Mass>, s: Spring, sqrt: real -> real, fx: real, fy: real)
    requires Linked(ms, s) && Distance(ms, s, sqrt) != 0.0 && (fx, fy) == Force(ms, s, sqrt)
    ensures var ms1 := ms[s.massA := ms[s.massA].(ax := ms[s.massA].ax + fx, ay := ms[s.massA].ay + fy)];
      ApplySpring(ms, s, sqrt) == ms1[s.massB := ms1[s.massB].(ax := ms1[s.massB].ax - fx, ay := ms1[s.massB].ay - fy)]
    ensures var r, a, b := ApplySpring(ms, s, sqrt), s.massA, s.massB;
      a != b ==>
        r[a] == ms[a].(ax := ms[a].ax + fx, ay := ms[a].ay + fy) &&
        r[b] == ms[b].(ax := ms[b].ax - fx, ay := ms[b].ay - fy)
    ensures s.massA == s.massB ==> ApplySpring(ms, s, sqrt) == ms
    ensures forall i :: 0 <= i < |ms| && i != s.massA && i != s.massB ==> ApplySpring(ms, s, sqrt)[i] == ms[i]
  {
  }

  /** Every spring links two masses whose distance is not zero. */
  predicate SpringsOk(ms: seq<Mass>, springs: seq<Spring>, sqrt: real -> real)
  {
    forall i :: 0 <= i < |springs| ==> Linked(ms, springs[i]) && Distance(ms, springs[i], sqrt) != 0.0
  }

  /** The distance depends only on the positions. */
  lemma SameMotionDistance(ms: seq<Mass>, ms': seq<Mass>, s: Spring, sqrt: real -> real)
    requires |ms| == |ms'| && forall i :: 0 <= i < |ms| ==> SameMotion(ms[i], ms'[i])
    requires Linked(ms, s)
    ensures Distance(ms, s, sqrt) == Distance(ms', s, sqrt)
  {
    assert SameMotion(ms[s.massA], ms'[s.massA]) && SameMotion(ms[s.massB], ms'[s.massB]);
  }

  /** The second pass: the springs in order, each seeing the accelerations of the ones before. */
  function SpringPass(ms: seq<Mass>, springs: seq<Spring>, sqrt: real -> real): (r: seq<Mass>)
    requires SpringsOk(ms, springs, sqrt)
    ensures |r| == |ms| && forall i :: 0 <= i < |ms| ==> SameMotion(r[i], ms[i])
  {
    if springs == [] then ms
    else
      var n := |springs| - 1;
      var p := SpringPass(ms, springs[..n], sqrt);
      SameMotionDistance(ms, p, springs[n], sqrt);
      ApplySpring(p, springs[n], sqrt)
  }

  lemma SpringPassStep(ms: seq<Mass>, springs: seq<Spring>, sqrt: real -> real, i: nat)
    requires SpringsOk(ms, springs, sqrt) && i < |springs|
    ensures SpringsOk(ms, springs[..i], sqrt) && SpringsOk(ms, springs[..i + 1], sqrt)
    ensures var p := SpringPass(ms, springs[..i], sqrt);
      Linked(p, springs[i]) && Distance(p, springs[i], sqrt) != 0.0 &&
      SpringPass(ms, springs[..i + 1], sqrt) == ApplySpring(p, springs[i], sqrt)
  {
    assert springs[..i + 1][..i] == springs[..i];
    SameMotionDistance(ms, SpringPass(ms, springs[..i], sqrt), springs[i], sqrt);
  }

  /**
   * A spring adds to one mass exactly what it takes from the other, so the
   * total acceleration is unchanged.
   */
  lemma ApplySpringBalance(ms: seq<Mass>, s: Spring, sqrt: real -> real)
    requires Linked(ms, s) && Distance(ms, s, sqrt) != 0.0
    ensures Total(ApplySpring(ms, s, sqrt), AX) == Total(ms, AX)
    ensures Total(ApplySpring(ms, s, sqrt), AY) == Total(ms, AY)
  {
    var (fx, fy) := Force(ms, s, sqrt);
    var a, b := s.massA, s.massB;
    var ma := ms[a].(ax := ms[a].ax + fx, ay := ms[a].ay + fy);
    var ms1 := ms[a := ma];
    var mb := ms1[b].(ax := ms1[b].ax - fx, ay := ms1[b].ay - fy);
    TotalSet(ms, a, ma, AX);
    TotalSet(ms, a, ma, AY);
    TotalSet(ms1, b, mb, AX);
    TotalSet(ms1, b, mb, AY);
  }

  /** The whole spring pass keeps the total acceleration. */
  lemma {:induction false} SpringPassBalance(ms: seq<Mass>, springs: seq<Spring>, sqrt: real -> real)
    requires SpringsOk(ms, springs, sqrt)
    ensures Total(SpringPass(ms, springs, sqrt), AX) == Total(ms, AX)
    ensures Total(SpringPass(ms, springs, sqrt), AY) == Total(ms, AY)
  {
    if springs != [] {
      var n := |springs| - 1;
      SpringPassStep(ms, springs, sqrt, n);
      assert springs[..n + 1] == springs;
      SpringPassBalance(ms, springs[..n], sqrt);
      ApplySpringBalance(SpringPass(ms, springs[..n], sqrt), springs[n], sqrt);
    }
  }

  /** A spring at its rest length exerts no force and changes nothing. */
  lemma RestLengthSpring(ms: seq<Mass>, s: Spring, sqrt: real -> real)
    requires Linked(ms, s) && Distance(ms, s, sqrt) != 0.0
    requires Distance(ms, s, sqrt) == s.restLength
    ensures Force(ms, s, sqrt) == (0.0, 0.0)
    ensures ApplySpring(ms, s, sqrt) == ms
  {
    var dx := ms[s.massB].x - ms[s.massA].x;
    var dy := ms[s.massB].y - ms[s.massA].y;
    var distance := Distance(ms, s, sqrt);
    MulZero(distance - s.restLength, s.springConstant);
    MulZero(dx / distance, 0.0);
    MulZero(dy / distance, 0.0);
    assert ms[s.massA := ms[s.massA]] == ms;
  }

  /** The third pass on one mass: add the acceleration to the velocity and reset it. */
  function Integrate(m: Mass): Mass
  {
    Mass(m.x, m.y, m.vx + m.ax, m.vy + m.ay, 0.0, 0.0)
  }

  function IntegrateAll(ms: seq<Mass>): (r: seq<Mass>)
    ensures |r| == |ms| && forall i :: 0 <= i < |ms| ==> r[i] == Integrate(ms[i])
  {
    if ms == [] then [] else IntegrateAll(ms[..|ms| - 1]) + [Integrate(ms[|ms| - 1])]
  }

  /** The total velocity after the third pass is the old total plus the total acceleration. */
  lemma {:induction false} IntegrateTotals(ms: seq<Mass>)
    ensures Total(IntegrateAll(ms), VX) == Total(ms, VX) + Total(ms, AX)
    ensures Total(IntegrateAll(ms), VY) == Total(ms, VY) + Total(ms, AY)
  {
    if ms != [] {
      var n := |ms| - 1;
      assert IntegrateAll(ms)[..n] == IntegrateAll(ms[..n]);
      IntegrateTotals(ms[..n]);
    }
  }

  /** The same total velocity in two states that agree on every mass's motion. */
  lemma {:induction false} SameMotionTotals(ms: seq<Mass>, ms': seq<Mass>)
    requires |ms| == |ms'| && forall i :: 0 <= i < |ms| ==> SameMotion(ms[i], ms'[i])
    ensures Total(ms, VX) == Total(ms', VX) && Total(ms, VY) == Total(ms', VY)
  {
    if ms != [] {
      var n := |ms| - 1;
      SameMotionTotals(ms[..n], ms'[..n]);
    }
  }

  /** One `update`: the three passes in order. */
  function UpdateStep(ms: seq<Mass>, springs: seq<Spring>, damping: real, sqrt: real -> real): (r: seq<Mass>)
    requires SpringsOk(DriftAll(ms, damping), springs, sqrt)
    ensures |r| == |ms|
  {
    IntegrateAll(SpringPass(DriftAll(ms, damping), springs, sqrt))
  }

  /**
   * Momentum balance: starting at rest, as every update leaves the rope, the
   * total velocity after an update is the old one scaled by `1 - damping`;
   * the springs contribute nothing to it.
   */
  lemma MomentumBalance(ms: seq<Mass>, springs: seq<Spring>, damping: real, sqrt: real -> real)
    requires AtRest(ms) && SpringsOk(DriftAll(ms, damping), springs, sqrt)
    ensures Total(UpdateStep(ms, springs, damping, sqrt), VX) == Mul(Total(ms, VX), 1.0 - damping)
    ensures Total(UpdateStep(ms, springs, damping, sqrt), VY) == Mul(Total(ms, VY), 1.0 - damping)
  {
    var drifted := DriftAll(ms, damping);
    var sprung := SpringPass(drifted, springs, sqrt);
    IntegrateTotals(sprung);
    SpringPassBalance(drifted, springs, sqrt);
    SameMotionTotals(sprung, drifted);
    DriftTotals(ms, damping);
    AtRestTotal(ms);
  }

  /**
   * After an update every mass has moved by its velocity from before the
   * update and is at rest again.
   */
  lemma UpdateMotion(ms: seq<Mass>, springs: seq<Spring>, damping: real, sqrt: real -> real)
    requires SpringsOk(DriftAll(ms, damping), springs, sqrt)
    ensures AtRest(UpdateStep(ms, springs, damping, sqrt))
    ensures forall i :: 0 <= i < |ms| ==>
      UpdateStep(ms, springs, damping, sqrt)[i].x == ms[i].x + ms[i].vx &&
      UpdateStep(ms, springs, damping, sqrt)[i].y == ms[i].y + ms[i].vy
  {
    var drifted := DriftAll(ms, damping);
    var sprung := SpringPass(drifted, springs, sqrt);
    forall i | 0 <= i < |ms|
      ensures UpdateStep(ms, springs, damping, sqrt)[i].x == ms[i].x + ms[i].vx
      ensures UpdateStep(ms, springs, damping, sqrt)[i].y == ms[i].y + ms[i].vy
    {
      assert SameMotion(sprung[i], drifted[i]);
    }
  }

  /** The masses the constructor creates: mass `i` at `(i * segmentLength, 0)`, at rest. */
  function InitialMass(i: nat, segmentLength: real): Mass
  {
    Mass(Mul(i as real, segmentLength), 0.0, 0.0, 0.0, 0.0, 0.0)
  }

  class Rope {
    var numSegments: int
    var segmentLength: real
    var springConstant: real
    var damping: real
    var masses: seq<Mass>
    var springs: seq<Spring>

    /**
     * One mass per segment, spring `i` joining masses `i` and `i + 1` at the
     * segment length, and no acceleration left over between updates.
     */
    ghost predicate Valid()
      reads this
    {
      |masses| == Max0(numSegments) && |springs| == Max0(numSegments - 1) &&
      (forall i :: 0 <= i < |springs| ==>
        springs[i].massA == i && springs[i].massB == i + 1 && springs[i].restLength == segmentLength) &&
      AtRest(masses)
    }

    /**
     * `new Rope(numSegments, segmentLength, springConstant, damping)`: the push
     * loop creates the masses in a row along the x axis and a spring from each
     * mass to the previous one.
     */
    constructor (numSegments: int, segmentLength: real, springConstant: real, damping: real)
      ensures Valid()
      ensures this.numSegments == numSegments && this.segmentLength == segmentLength
      ensures this.springConstant == springConstant && this.damping == damping
      ensures forall i :: 0 <= i < |masses| ==> masses[i] == InitialMass(i, segmentLength)
      ensures forall i :: 0 <= i < |springs| ==> springs[i].springConstant == springConstant
    {
      this.numSegments := numSegments;
      this.segmentLength := segmentLength;
      this.springConstant := springConstant;
      this.damping := damping;
      masses := [];
      springs := [];
      new;
      var i := 0;
      while i < numSegments
        invariant 0 <= i && (i <= numSegments || i == 0)
        invariant this.numSegments == numSegments && this.segmentLength == segmentLength
        invariant this.springConstant == springConstant && this.damping == damping
        invariant |masses| == i && |springs| == Max0(i - 1)
        invariant forall k :: 0 <= k < i ==> masses[k] == InitialMass(k, segmentLength)
        invariant forall k :: 0 <= k < |springs| ==>
          springs[k] == Spring(k, k + 1, segmentLength, springConstant)
      {
        var mass := InitialMass(i, segmentLength);
        masses := masses + [mass];
        if i > 0 {
          springs := springs + [Spring(i - 1, i, segmentLength, springConstant)];
        }
        i := i + 1;
      }
    }

    /** `update()`: drift and damp, accumulate the spring forces, integrate and reset. */
    method Update(sqrt: real -> real)
      requires Valid() && SpringsOk(DriftAll(masses, damping), springs, sqrt)
      modifies this
      ensures springs == old(springs) && numSegments == old(numSegments) && damping == old(damping)
      ensures segmentLength == old(segmentLength) && springConstant == old(springConstant)
      ensures Valid()
      ensures masses == UpdateStep(old(masses), springs, damping, sqrt)
    {
      ghost var start := masses;
      DriftPass();
      SpringForcePass(sqrt);
      IntegratePass();
      UpdateMotion(start, springs, damping, sqrt);
    }

    /** The first loop of `update`: each mass moves by its velocity, which is then damped. */
    method DriftPass()
      requires |masses| == Max0(numSegments)
      modifies this
      ensures springs == old(springs) && numSegments == old(numSegments) && damping == old(damping)
      ensures segmentLength == old(segmentLength) && springConstant == old(springConstant)
      ensures masses == DriftAll(old(masses), damping)
    {
      ghost var start := masses;
      var i := 0;
      while i < numSegments
        invariant 0 <= i <= |masses| == |start|
        invariant forall k :: 0 <= k < i ==> masses[k] == Drift(start[k], damping)
        invariant forall k :: i <= k < |masses| ==> masses[k] == start[k]
        invariant unchanged(`springs) && unchanged(`numSegments) && unchanged(`damping)
        invariant unchanged(`segmentLength) && unchanged(`springConstant)
      {
        var mass := masses[i];
        mass := mass.(x := mass.x + mass.vx, y := mass.y + mass.vy);
        mass := mass.(vx := Mul(mass.vx, 1.0 - damping), vy := Mul(mass.vy, 1.0 - damping));
        masses := masses[i := mass];
        i := i + 1;
      }
    }

    /** The second loop of `update`: each spring pushes its two masses apart or together. */
    method SpringForcePass(sqrt: real -> real)
      requires SpringsOk(masses, springs, sqrt)
      modifies this
      ensures springs == old(springs) && numSegments == old(numSegments) && damping == old(damping)
      ensures segmentLength == old(segmentLength) && springConstant == old(springConstant)
      ensures masses == SpringPass(old(masses), springs, sqrt)
    {
      ghost var start := masses;
      var i := 0;
      while i < |springs|
        invariant 0 <= i <= |springs|
        invariant SpringsOk(start, springs, sqrt) && SpringsOk(start, springs[..i], sqrt)
        invariant masses == SpringPass(start, springs[..i], sqrt)
        invariant unchanged(`springs) && unchanged(`numSegments) && unchanged(`damping)
        invariant unchanged(`segmentLength) && unchanged(`springConstant)
      {
        SpringPassStep(start, springs, sqrt, i);
        ApplyOneSpring(springs[i], sqrt);
        i := i + 1;
      }
      assert springs[..|springs|] == springs;
    }

    /** The body of the second loop for one spring: Hooke's law along the line between its masses. */
    method ApplyOneSpring(spring: Spring, sqrt: real -> real)
      requires Linked(masses, spring) && Distance(masses, spring, sqrt) != 0.0
      modifies this
      ensures springs == old(springs) && numSegments == old(numSegments) && damping == old(damping)
      ensures segmentLength == old(segmentLength) && springConstant == old(springConstant)
      ensures masses == ApplySpring(old(masses), spring, sqrt)
    {
      var a, b := spring.massA, spring.massB;
      var dx := masses[b].x - masses[a].x;
      var dy := masses[b].y - masses[a].y;
      var distance := sqrt(Mul(dx, dx) + Mul(dy, dy));
      var displacement := distance - spring.restLength;
      var springForce := Mul(displacement, spring.springConstant);
      var fx := Mul(dx / distance, springForce);
      var fy := Mul(dy / distance, springForce);
      ApplySpringUpdates(masses, spring, sqrt, fx, fy);
      masses := masses[a := masses[a].(ax := masses[a].ax + fx, ay := masses[a].ay + fy)];
      masses := masses[b := masses[b].(ax := masses[b].ax - fx, ay := masses[b].ay - fy)];
    }

    /** The third loop of `update`: accelerations go into the velocities and are reset. */
    method IntegratePass()
      requires |masses| == Max0(numSegments)
      modifies this
      ensures springs == old(springs) && numSegments == old(numSegments) && damping == old(damping)
      ensures segmentLength == old(segmentLength) && springConstant == old(springConstant)
      ensures masses == IntegrateAll(old(masses))
    {
      ghost var start := masses;
      var i := 0;
      while i < numSegments
        invariant 0 <= i <= |masses| == |start|
        invariant forall k :: 0 <= k < i ==> masses[k] == Integrate(start[k])
        invariant forall k :: i <= k < |masses| ==> masses[k] == start[k]
        invariant unchanged(`springs) && unchanged(`numSegments) && unchanged(`damping)
        invariant unchanged(`segmentLength) && unchanged(`springConstant)
      {
        var mass := masses[i];
        mass := mass.(vx := mass.vx + mass.ax, vy := mass.vy + mass.ay);
        mass := mass.(ax := 0.0, ay := 0.0);
        masses := masses[i := mass];
        i := i + 1;
      }
    }

    /**
     * `moveEnd(x, y)`: only the first mass's position is set. On a rope with
     * no masses `this.masses[0]` is `undefined` and the assignment throws;
     * `ok` is false then and nothing changes.
     */
    method MoveEnd(x: real, y: real) returns (ok: bool)
      requires Valid()
      modifies this
      ensures Valid() && ok == (|old(masses)| > 0)
      ensures ok ==> masses == old(masses)[0 := old(masses)[0].(x := x, y := y)]
      ensures !ok ==> masses == old(masses)
      ensures springs == old(springs) && numSegments == old(numSegments) && damping == old(damping)
      ensures segmentLength == old(segmentLength) && springConstant == old(springConstant)
    {
      if |masses| == 0 {
        return false;
      }
      masses := masses[0 := masses[0].(x := x)];
      masses := masses[0 := masses[0].(y := y)];
      ok := true;
    }

    /** `setSpringConstant(value)`: every spring gets the new constant; nothing else changes. */
    method SetSpringConstant(value: real)
      requires Valid()
      modifies this
      ensures Valid() && |springs| == |old(springs)|
      ensures forall i :: 0 <= i < |springs| ==> springs[i] == old(springs[i]).(springConstant := value)
      ensures masses == old(masses) && numSegments == old(numSegments) && damping == old(damping)
      ensures segmentLength == old(segmentLength) && springConstant == old(springConstant)
    {
      ghost var start := springs;
      var i := 0;
      while i < |springs|
        invariant 0 <= i <= |springs| == |start|
        invariant forall k :: 0 <= k < i ==> springs[k] == start[k].(springConstant := value)
        invariant forall k :: i <= k < |springs| ==> springs[k] == start[k]
        invariant unchanged(`masses) && unchanged(`numSegments) && unchanged(`damping)
        invariant unchanged(`segmentLength) && unchanged(`springConstant)
      {
        springs := springs[i := springs[i].(springConstant := value)];
        i := i + 1;
      }
    }
  }
}
