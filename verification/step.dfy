/** One frame of the sketch: `updateParticles` runs pass 1 (forces, friction
    and impulse, in place) and then pass 2 (advance and wrap) over the one
    shared position buffer. */
module StepEngine {
  import opened SimParams
  import opened ForceKernel
  import opened ParticleStore
  import opened ForcePass
  import opened AdvancePass

  /** A full step as the sketch performs it, misdirected x wrap included. */
  function Step(sim: Sim, buf: seq<real>, sqrt: real -> real, f: real): (r: seq<real>)
    requires sim.Valid() && Fits(sim, buf)
    ensures |r| == |buf|
  {
    AdvanceUpTo(ForcesUpTo(sim, buf, sqrt, f, sim.N()), sim.N(), sim.N())
  }

  /** A full step with the corrected x wrap in pass 2. */
  function StepIntended(sim: Sim, buf: seq<real>, sqrt: real -> real, f: real): (r: seq<real>)
    requires sim.Valid() && Fits(sim, buf)
    ensures |r| == |buf|
  {
    AdvanceIntendedUpTo(ForcesUpTo(sim, buf, sqrt, f, sim.N()), sim.N(), sim.N())
  }

  /** `updateParticles`: both passes in place on the shared buffer. Each
      final entry is its value after pass 1, advanced and (for its own
      iteration) wrapped, plus the wrap width a misdirected x wrap may have
      added to it. */
  method UpdateParticles(sim: Sim, buf0: seq<real>, sqrt: real -> real, f: real) returns (buf: seq<real>)
    requires sim.Valid() && Fits(sim, buf0)
    ensures buf == Step(sim, buf0, sqrt, f)
    ensures var mid := ForcesUpTo(sim, buf0, sqrt, f, sim.N());
            forall e :: 0 <= e < |buf| ==>
              buf[e] == OwnResult(mid[e], Axis(e)) + StrayShift(mid, sim.N(), e)
  {
    var mid := ApplyForces(sim, buf0, sqrt, f);
    buf := AdvanceAll(mid, sim.N());
  }

  /** A single particle has no partner (the pair with itself is skipped),
      so whatever `sqrt` returns, it only decays by friction, advances and
      wraps; with one particle the misdirected x write hits its own x. */
  lemma LoneParticle(sim: Sim, buf: seq<real>, sqrt: real -> real, f: real, e: nat)
    requires sim.Valid() && Fits(sim, buf) && sim.N() == 1 && e < 3
    ensures Step(sim, buf, sqrt, f)[e] == StepIntended(sim, buf, sqrt, f)[e]
                                       == WrapAxis(Advance(buf[e] * f))
  {
    var mid := ForcesUpTo(sim, buf, sqrt, f, 1);
    assert ForcesUpTo(sim, buf, sqrt, f, 0) == buf;
    assert AccSum(sim, buf, sqrt, 0, 1) == Zero;
    assert Force(sim, buf, sqrt, 0) == Zero;
    assert mid == UpdateParticle(sim, buf, sqrt, f, 0);
    assert mid[e] == Impulse(Friction(buf[e], f), 0.0) == buf[e] * f;
    OwnerIsBlock(e, 0);
    AdvanceEntry(mid, 1, 1, e);
    AdvanceIntendedEntry(mid, 1, 1, e);
  }

  /** A non-negative number with square x is what `sqrt` returns for x. */
  lemma RootIsUnique(sqrt: real -> real, x: real, y: real)
    requires IsSqrt(sqrt) && 0.0 <= y && y * y == x
    ensures sqrt(x) == y
  {
    var s := sqrt(x);
    assert 0.0 <= s && s * s == x;
    assert (s - y) * (s + y) == 0.0;
    if s + y == 0.0 {
      assert s == 0.0 && y == 0.0;
    } else {
      assert s - y == 0.0;
    }
  }

  /** The buffer of the two-particle scenario: particle 0 at the origin and
      particle 1 at (0.1, 0, 0), both of the single type. */
  const PairSim: Sim := Sim([0, 0], [[0.5]])
  const PairBuf: seq<real> := [0.0, 0.0, 0.0, 0.1, 0.0, 0.0]

  lemma PairSimValid()
    ensures PairSim.Valid() && PairSim.N() == 2
    ensures Fits(PairSim, PairBuf) && Fits(PairSim, PairSeen)
  {
  }

  /** With two particles each accumulator holds exactly the other's term. */
  lemma TwoParticleForces(sim: Sim, buf: seq<real>, sqrt: real -> real)
    requires sim.Valid() && Fits(sim, buf) && sim.N() == 2
    ensures Force(sim, buf, sqrt, 0) == PairTerm(sim, buf, sqrt, 0, 1).Scale(RMax * ForceFactor)
    ensures Force(sim, buf, sqrt, 1) == PairTerm(sim, buf, sqrt, 1, 0).Scale(RMax * ForceFactor)
  {
    assert AccSum(sim, buf, sqrt, 0, 1) == Zero;
    assert AccSum(sim, buf, sqrt, 0, 2) == Zero.Plus(PairTerm(sim, buf, sqrt, 0, 1));
    assert AccSum(sim, buf, sqrt, 1, 1) == Zero.Plus(PairTerm(sim, buf, sqrt, 1, 0));
    assert AccSum(sim, buf, sqrt, 1, 2) == AccSum(sim, buf, sqrt, 1, 1);
  }

  /** The pair term of two particles at distance r inside the interaction
      radius. */
  lemma PairTermInRange(sim: Sim, buf: seq<real>, sqrt: real -> real, i: nat, j: nat, r: real, a: real)
    requires sim.Valid() && Fits(sim, buf) && i < sim.N() && j < sim.N()
    requires r == sqrt(SquaredDistance(buf, i, j)) && 0.0 < r < RMax
    requires a == Acceleration(r / RMax, sim.Coefficient(i, j))
    ensures PairTerm(sim, buf, sqrt, i, j)
         == Vec3(Along(buf[3 * j] - buf[3 * i], r, a),
                 Along(buf[3 * j + 1] - buf[3 * i + 1], r, a),
                 Along(buf[3 * j + 2] - buf[3 * i + 2], r, a))
  {
  }

  /** With `sqrt` a true square root, an interacting pair contributes the
      displacement from i to j scaled by kernel / distance: a vector along
      the line from i to j, towards j when the kernel is positive and away
      from j when it is negative, whose squared length is the kernel's
      value squared. */
  lemma PairTermAlongUnit(sim: Sim, buf: seq<real>, sqrt: real -> real, i: nat, j: nat)
    requires IsSqrt(sqrt)
    requires sim.Valid() && Fits(sim, buf) && i < sim.N() && j < sim.N()
    requires 0.0 < sqrt(SquaredDistance(buf, i, j)) < RMax
    ensures var r := sqrt(SquaredDistance(buf, i, j));
            var acc := Acceleration(r / RMax, sim.Coefficient(i, j));
            var t := PairTerm(sim, buf, sqrt, i, j);
            && r * r == SquaredDistance(buf, i, j)
            && t == Vec3(buf[3 * j] - buf[3 * i], buf[3 * j + 1] - buf[3 * i + 1],
                         buf[3 * j + 2] - buf[3 * i + 2]).Scale(acc / r)
            && SquaredLength(t.x, t.y, t.z) == acc * acc
  {
    var dx := buf[3 * j] - buf[3 * i];
    var dy := buf[3 * j + 1] - buf[3 * i + 1];
    var dz := buf[3 * j + 2] - buf[3 * i + 2];
    var r := sqrt(SquaredDistance(buf, i, j));
    var acc := Acceleration(r / RMax, sim.Coefficient(i, j));
    SquaresAreNonNegative(dx, dy, dz);
    assert r * r == SquaredLength(dx, dy, dz);
    PairTermInRange(sim, buf, sqrt, i, j, r, acc);
    UnitScaling(dx, dy, dz, r, acc);
  }

  lemma SquaresAreNonNegative(dx: real, dy: real, dz: real)
    ensures 0.0 <= SquaredLength(dx, dy, dz)
  {
    assert 0.0 <= dx * dx && 0.0 <= dy * dy && 0.0 <= dz * dz;
  }

  /** Scaling a displacement of length r by acc / r gives a vector of
      squared length acc * acc. */
  lemma UnitScaling(dx: real, dy: real, dz: real, r: real, acc: real)
    requires 0.0 < r && SquaredLength(dx, dy, dz) == r * r
    ensures Vec3(Along(dx, r, acc), Along(dy, r, acc), Along(dz, r, acc)) == Vec3(dx, dy, dz).Scale(acc / r)
    ensures SquaredLength(Along(dx, r, acc), Along(dy, r, acc), Along(dz, r, acc)) == acc * acc
  {
    var k := acc / r;
    AlongIsScaling(dx, r, acc);
    AlongIsScaling(dy, r, acc);
    AlongIsScaling(dz, r, acc);
    SquaredLengthScales(dx, dy, dz, k);
    QuotientSquared(acc, r);
  }

  lemma AlongIsScaling(d: real, r: real, a: real)
    requires r != 0.0
    ensures Along(d, r, a) == d * (a / r)
  {
  }

  lemma SquaredLengthScales(dx: real, dy: real, dz: real, k: real)
    ensures SquaredLength(dx * k, dy * k, dz * k) == k * k * SquaredLength(dx, dy, dz)
  {
    assert (dx * k) * (dx * k) == k * k * (dx * dx);
    assert (dy * k) * (dy * k) == k * k * (dy * dy);
    assert (dz * k) * (dz * k) == k * k * (dz * dz);
  }

  lemma QuotientSquared(acc: real, r: real)
    requires r != 0.0
    ensures (acc / r) * (acc / r) * (r * r) == acc * acc
  {
    var k := acc / r;
    assert k * r == acc;
    assert k * k * (r * r) == (k * r) * (k * r);
  }

  /** The kernel at distance 0.1, a third of RMax, for coefficient 0.5. */
  lemma KernelAtTenth()
    ensures Acceleration(0.1 / RMax, 0.5) == 0.5 / 3.0
  {
    assert Envelope(0.1 / RMax) == 1.0 / 3.0;
  }

  /** The kernel at distance 0.09995 for coefficient 0.5. */
  lemma KernelAtMovedDistance()
    ensures Acceleration(0.09995 / RMax, 0.5) == 799.0 / 4800.0
  {
    assert Envelope(0.09995 / RMax) == 799.0 / 2400.0;
  }

  /** Particle 0 sees particle 1 at distance 0.1 = RMax / 3, on the rising
      side of the bump: the kernel is 0.5 / 3, scaled by 3 it pulls
      particle 0 towards particle 1 at 0.5. */
  lemma PairForceOnFirst(sqrt: real -> real)
    requires sqrt(0.01) == 0.1
    ensures PairSim.Valid() && Fits(PairSim, PairBuf)
    ensures Force(PairSim, PairBuf, sqrt, 0) == Vec3(0.5, 0.0, 0.0)
  {
    PairSimValid();
    assert SquaredDistance(PairBuf, 0, 1) == 0.01;
    var a := Acceleration(0.1 / RMax, 0.5);
    KernelAtTenth();
    PairTermInRange(PairSim, PairBuf, sqrt, 0, 1, 0.1, a);
    assert Along(0.1, 0.1, a) == a && Along(0.0, 0.1, a) == 0.0;
    TwoParticleForces(PairSim, PairBuf, sqrt);
  }

  /** The buffer particle 1 reads in pass 1: particle 0 has already moved
      to x = 0.5 * Dt. */
  const PairSeen: seq<real> := [0.00005, 0.0, 0.0, 0.1, 0.0, 0.0]

  /** Particle 1 reads particle 0's moved x at distance 0.09995, so it is
      pulled back by 799 / 1600. */
  lemma PairForceOnSecond(sqrt: real -> real)
    requires sqrt(0.09995 * 0.09995) == 0.09995
    ensures PairSim.Valid() && Fits(PairSim, PairSeen)
    ensures Force(PairSim, PairSeen, sqrt, 1) == Vec3(-799.0 / 1600.0, 0.0, 0.0)
  {
    PairSimValid();
    assert SquaredDistance(PairSeen, 1, 0) == 0.09995 * 0.09995;
    var a := Acceleration(0.09995 / RMax, 0.5);
    KernelAtMovedDistance();
    PairTermInRange(PairSim, PairSeen, sqrt, 1, 0, 0.09995, a);
    assert Along(-0.09995, 0.09995, a) == -a && Along(0.0, 0.09995, a) == 0.0;
    TwoParticleForces(PairSim, PairSeen, sqrt);
  }

  /** Read from the buffer as it was before the pass, particle 1 would feel
      exactly the mirror image of particle 0's pull, 0.5. */
  lemma PairForceOnSecondUnaliased(sqrt: real -> real)
    requires sqrt(0.01) == 0.1
    ensures PairSim.Valid() && Fits(PairSim, PairBuf)
    ensures Force(PairSim, PairBuf, sqrt, 1) == Vec3(-0.5, 0.0, 0.0)
  {
    PairSimValid();
    assert SquaredDistance(PairBuf, 1, 0) == 0.01;
    var a := Acceleration(0.1 / RMax, 0.5);
    KernelAtTenth();
    PairTermInRange(PairSim, PairBuf, sqrt, 1, 0, 0.1, a);
    assert Along(-0.1, 0.1, a) == -a && Along(0.0, 0.1, a) == 0.0;
    TwoParticleForces(PairSim, PairBuf, sqrt);
  }

  /** Pass 1 of the scenario: particle 0 is written first, and particle 1
      then computes its force from that already-written buffer. */
  lemma PairPassOne(sqrt: real -> real, f: real)
    requires sqrt(0.01) == 0.1 && sqrt(0.09995 * 0.09995) == 0.09995
    ensures PairSim.Valid() && Fits(PairSim, PairBuf)
    ensures ForcesUpTo(PairSim, PairBuf, sqrt, f, 1) == PairSeen
    ensures ForcesUpTo(PairSim, PairBuf, sqrt, f, 2)
         == [0.00005, 0.0, 0.0, 0.1 * f - 799.0 / 16000000.0, 0.0, 0.0]
  {
    PairForceOnFirst(sqrt);
    assert ForcesUpTo(PairSim, PairBuf, sqrt, f, 0) == PairBuf;
    var seen := ForcesUpTo(PairSim, PairBuf, sqrt, f, 1);
    assert seen == UpdateParticle(PairSim, PairBuf, sqrt, f, 0);
    assert seen[0] == 0.0 * f + 0.5 * Dt;
    assert seen[1] == 0.0 * f + 0.0 * Dt && seen[2] == 0.0 * f + 0.0 * Dt;
    assert seen[3..] == PairBuf[3..];
    assert seen == PairSeen;
    PairForceOnSecond(sqrt);
    var mid := ForcesUpTo(PairSim, PairBuf, sqrt, f, 2);
    assert mid == UpdateParticle(PairSim, PairSeen, sqrt, f, 1);
    assert mid[3] == 0.1 * f + (-799.0 / 1600.0) * Dt;
    assert mid[4] == 0.0 * f + 0.0 * Dt && mid[5] == 0.0 * f + 0.0 * Dt;
  }

  /** Pass 2 of the scenario: with 0 < f < 1 every coordinate stays well
      inside the box, so nothing wraps and each is only advanced. */
  lemma PairPassTwo(f: real)
    requires ValidFriction(f)
    ensures AdvanceUpTo([0.00005, 0.0, 0.0, 0.1 * f - 799.0 / 16000000.0, 0.0, 0.0], 2, 2)
         == [0.00005 * (1.0 + Dt), 0.0, 0.0, (0.1 * f - 799.0 / 16000000.0) * (1.0 + Dt), 0.0, 0.0]
  {
    var mid := [0.00005, 0.0, 0.0, 0.1 * f - 799.0 / 16000000.0, 0.0, 0.0];
    assert Advance(mid[0]) == 0.00005 * (1.0 + Dt);
    assert Advance(mid[3]) == (0.1 * f - 799.0 / 16000000.0) * (1.0 + Dt);
    AgreesWithoutLowXWrap(mid, 2);
    var out := AdvanceUpTo(mid, 2, 2);
    forall e | 0 <= e < 6
      ensures out[e] == WrapAxis(Advance(mid[e]))
    {
      AdvanceIntendedEntry(mid, 2, 2, e);
      OwnerIsBlock(e, Owner(e));
    }
  }

  /** One step of the two-particle scenario: particle 0 moves to 0.5 * Dt
      (advanced by 1 + Dt), particle 1 keeps 0.1 f minus 799 / 1600 * Dt
      (advanced), no coordinate wraps and y, z stay 0. */
  lemma PairScenario(sqrt: real -> real, f: real)
    requires IsSqrt(sqrt) && ValidFriction(f)
    ensures Step(PairSim, PairBuf, sqrt, f)
         == [0.00005 * (1.0 + Dt), 0.0, 0.0, (0.1 * f - 799.0 / 16000000.0) * (1.0 + Dt), 0.0, 0.0]
  {
    RootIsUnique(sqrt, 0.01, 0.1);
    RootIsUnique(sqrt, 0.09995 * 0.09995, 0.09995);
    PairPassOne(sqrt, f);
    PairPassTwo(f);
  }
}
