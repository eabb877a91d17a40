/** Pass 1 of a step: for each particle in index order, accumulate the
    acceleration from every other particle and write friction-decayed
    coordinates plus the impulse straight back into the shared buffer, so
    later particles already read the new values of earlier ones. */
module ForcePass {
  import opened SimParams
  import opened ForceKernel
  import opened ParticleStore

  /** Squared length of the displacement (dx, dy, dz). */
  function SquaredLength(dx: real, dy: real, dz: real): real {
    dx * dx + dy * dy + dz * dz
  }

  /** One component of the kernel value a applied along the unit vector
      of a displacement of length r. */
  function Along(d: real, r: real, a: real): real
    requires r != 0.0
  {
    d / r * a
  }

  /** Squared distance between particles i and j in the buffer. */
  function SquaredDistance(buf: seq<real>, i: nat, j: nat): real
    requires 3 * i + 2 < |buf| && 3 * j + 2 < |buf|
  {
    SquaredLength(buf[3 * j] - buf[3 * i], buf[3 * j + 1] - buf[3 * i + 1], buf[3 * j + 2] - buf[3 * i + 2])
  }

  /** Particles i and j interact when they are distinct and their distance,
      as computed with `sqrt`, lies strictly between 0 and RMax. */
  predicate Interacts(buf: seq<real>, sqrt: real -> real, i: nat, j: nat)
    requires 3 * i + 2 < |buf| && 3 * j + 2 < |buf|
  {
    var r := sqrt(SquaredDistance(buf, i, j));
    j != i && 0.0 < r < RMax
  }

  /** What particle j adds to particle i's accumulator: the displacement
      from i to j divided by the computed distance, times the kernel value,
      or nothing when out of range. When `sqrt` is a true square root this
      is the kernel value along the unit vector (`PairTermAlongUnit`). */
  function PairTerm(sim: Sim, buf: seq<real>, sqrt: real -> real, i: nat, j: nat): (t: Vec3)
    requires sim.Valid() && Fits(sim, buf) && i < sim.N() && j < sim.N()
    ensures !(0.0 < sqrt(SquaredDistance(buf, i, j)) < RMax) ==> t == Zero
  {
    var dx := buf[3 * j] - buf[3 * i];
    var dy := buf[3 * j + 1] - buf[3 * i + 1];
    var dz := buf[3 * j + 2] - buf[3 * i + 2];
    var r := sqrt(SquaredDistance(buf, i, j));
    if 0.0 < r && r < RMax then
      var a := Acceleration(r / RMax, sim.Coefficient(i, j));
      Vec3(Along(dx, r, a), Along(dy, r, a), Along(dz, r, a))
    else
      Zero
  }

  /** The accumulator for particle i after scanning j = 0 .. k - 1 in order,
      skipping j == i. */
  function AccSum(sim: Sim, buf: seq<real>, sqrt: real -> real, i: nat, k: nat): Vec3
    requires sim.Valid() && Fits(sim, buf) && i < sim.N() && k <= sim.N()
  {
    if k == 0 then Zero
    else if k - 1 == i then AccSum(sim, buf, sqrt, i, k - 1)
    else AccSum(sim, buf, sqrt, i, k - 1).Plus(PairTerm(sim, buf, sqrt, i, k - 1))
  }

  /** The acceleration on particle i read from `buf`, scaled by
      RMax * ForceFactor. */
  function Force(sim: Sim, buf: seq<real>, sqrt: real -> real, i: nat): Vec3
    requires sim.Valid() && Fits(sim, buf) && i < sim.N()
  {
    AccSum(sim, buf, sqrt, i, sim.N()).Scale(RMax * ForceFactor)
  }

  /** Friction: the shared buffer entry is multiplied by the friction factor. */
  function Friction(c: real, f: real): real {
    c * f
  }

  /** Impulse: the scaled acceleration times Dt is added to the entry. */
  function Impulse(c: real, acc: real): real {
    c + acc * Dt
  }

  /** Iteration i of pass 1 once it has computed the scaled acceleration
      `acc`: only particle i's three entries change, each to its old value
      times the friction factor plus the impulse. */
  function WriteBlock(buf: seq<real>, f: real, i: nat, acc: Vec3): (r: seq<real>)
    requires 3 * i + 2 < |buf|
    ensures |r| == |buf|
    ensures forall e :: 0 <= e < |buf| && !InBlock(e, i) ==> r[e] == buf[e]
    ensures forall e :: 0 <= e < |buf| && InBlock(e, i) ==>
              r[e] == Impulse(Friction(buf[e], f), acc.Coord(e - 3 * i))
  {
    buf[3 * i := Impulse(Friction(buf[3 * i], f), acc.x)]
       [3 * i + 1 := Impulse(Friction(buf[3 * i + 1], f), acc.y)]
       [3 * i + 2 := Impulse(Friction(buf[3 * i + 2], f), acc.z)]
  }

  /** Iteration i of pass 1, with the acceleration computed from the buffer
      as it stands when the iteration starts. */
  function UpdateParticle(sim: Sim, buf: seq<real>, sqrt: real -> real, f: real, i: nat): (r: seq<real>)
    requires sim.Valid() && Fits(sim, buf) && i < sim.N()
    ensures |r| == |buf|
    ensures forall e :: 0 <= e < |buf| && !InBlock(e, i) ==> r[e] == buf[e]
    ensures r[3 * i] == Impulse(Friction(buf[3 * i], f), Force(sim, buf, sqrt, i).x)
    ensures r[3 * i + 1] == Impulse(Friction(buf[3 * i + 1], f), Force(sim, buf, sqrt, i).y)
    ensures r[3 * i + 2] == Impulse(Friction(buf[3 * i + 2], f), Force(sim, buf, sqrt, i).z)
  {
    var r := WriteBlock(buf, f, i, Force(sim, buf, sqrt, i));
    assert InBlock(3 * i, i) && InBlock(3 * i + 1, i) && InBlock(3 * i + 2, i);
    r
  }

  /** Pass 1 with the force rule left open: iteration i writes particle i's
      block using the acceleration `force` computes from the buffer as it is
      when the iteration starts. This is the buffer after iterations
      0 .. k - 1. */
  function Sweep(buf: seq<real>, f: real, force: (seq<real>, nat) -> Vec3, k: nat): (r: seq<real>)
    requires 3 * k <= |buf|
    ensures |r| == |buf|
  {
    if k == 0 then buf
    else
      var prev := Sweep(buf, f, force, k - 1);
      WriteBlock(prev, f, k - 1, force(prev, k - 1))
  }

  /** The sketch's force rule, as a total function of the buffer read. */
  function ForceRule(sim: Sim, sqrt: real -> real): (seq<real>, nat) -> Vec3 {
    (b: seq<real>, i: nat) =>
      if sim.Valid() && Fits(sim, b) && i < sim.N() then Force(sim, b, sqrt, i) else Zero
  }

  /** The buffer after iterations 0 .. k - 1 of pass 1. */
  function ForcesUpTo(sim: Sim, buf: seq<real>, sqrt: real -> real, f: real, k: nat): (r: seq<real>)
    requires sim.Valid() && Fits(sim, buf) && k <= sim.N()
    ensures |r| == |buf|
  {
    Sweep(buf, f, ForceRule(sim, sqrt), k)
  }

  /** Each iteration of pass 1 is UpdateParticle on the buffer left by the
      iterations before it. */
  lemma ForcesStep(sim: Sim, buf: seq<real>, sqrt: real -> real, f: real, k: nat)
    requires sim.Valid() && Fits(sim, buf) && k < sim.N()
    ensures ForcesUpTo(sim, buf, sqrt, f, k + 1) == UpdateParticle(sim, ForcesUpTo(sim, buf, sqrt, f, k), sqrt, f, k)
  {
    var prev := ForcesUpTo(sim, buf, sqrt, f, k);
    assert ForceRule(sim, sqrt)(prev, k) == Force(sim, prev, sqrt, k);
  }

  /** The inner loop of pass 1: scan every other particle in index order and
      sum the unit-vector-weighted kernel values of those in range. */
  method Accumulate(sim: Sim, buf: seq<real>, sqrt: real -> real, i: nat) returns (accX: real, accY: real, accZ: real)
    requires sim.Valid() && Fits(sim, buf) && i < sim.N()
    ensures Vec3(accX, accY, accZ) == AccSum(sim, buf, sqrt, i, sim.N())
  {
    var n := sim.N();
    var index := i * 3;
    accX, accY, accZ := 0.0, 0.0, 0.0;
    var j := 0;
    while j < n
      invariant 0 <= j <= n
      invariant Vec3(accX, accY, accZ) == AccSum(sim, buf, sqrt, i, j)
    {
      var jndex := j * 3;
      if j != i {
        var dx := buf[jndex] - buf[index];
        var dy := buf[jndex + 1] - buf[index + 1];
        var dz := buf[jndex + 2] - buf[index + 2];
        var r := sqrt(SquaredLength(dx, dy, dz));
        var term := Zero;
        if 0.0 < r && r < RMax {
          var a := Acceleration(r / RMax, sim.matrix[sim.types[i]][sim.types[j]]);
          term := Vec3(Along(dx, r, a), Along(dy, r, a), Along(dz, r, a));
        }
        PairTermOfLocals(sim, buf, sqrt, i, j, dx, dy, dz, r, term);
        assert AccSum(sim, buf, sqrt, i, j + 1) == Vec3(accX, accY, accZ).Plus(term);
        accX := accX + term.x;
        accY := accY + term.y;
        accZ := accZ + term.z;
      } else {
        assert AccSum(sim, buf, sqrt, i, j + 1) == AccSum(sim, buf, sqrt, i, j);
      }
      j := j + 1;
    }
  }

  /** The loop body's pair term, computed from its local variables, is
      PairTerm. */
  lemma PairTermOfLocals(sim: Sim, buf: seq<real>, sqrt: real -> real, i: nat, j: nat,
                         dx: real, dy: real, dz: real, r: real, term: Vec3)
    requires sim.Valid() && Fits(sim, buf) && i < sim.N() && j < sim.N()
    requires dx == buf[3 * j] - buf[3 * i]
    requires dy == buf[3 * j + 1] - buf[3 * i + 1]
    requires dz == buf[3 * j + 2] - buf[3 * i + 2]
    requires r == sqrt(SquaredLength(dx, dy, dz))
    requires term == if 0.0 < r && r < RMax then
                       var a := Acceleration(r / RMax, sim.matrix[sim.types[i]][sim.types[j]]);
                       Vec3(Along(dx, r, a), Along(dy, r, a), Along(dz, r, a))
                     else Zero
    ensures term == PairTerm(sim, buf, sqrt, i, j)
  {
    assert r == sqrt(SquaredDistance(buf, i, j));
  }

  /** Entries of particles not yet visited still hold their values from
      before the pass. */
  lemma {:induction false} SweepUntouched(buf: seq<real>, f: real, force: (seq<real>, nat) -> Vec3, k: nat, e: nat)
    requires 3 * k <= e < |buf|
    ensures Sweep(buf, f, force, k)[e] == buf[e]
  {
    if k > 0 {
      SweepUntouched(buf, f, force, k - 1, e);
      assert !InBlock(e, k - 1);
    }
  }

  /** Once particle p has been visited its entries never change again in
      the same pass. */
  lemma {:induction false} SweepSettled(buf: seq<real>, f: real, force: (seq<real>, nat) -> Vec3, k: nat, p: nat, e: nat)
    requires e < |buf| && InBlock(e, p) && p < k && 3 * k <= |buf|
    ensures Sweep(buf, f, force, k)[e] == Sweep(buf, f, force, p + 1)[e]
  {
    if k > p + 1 {
      SweepSettled(buf, f, force, k - 1, p, e);
      assert !InBlock(e, k - 1);
    }
  }

  /** After the whole sweep, entry e of particle p's block holds its value
      from before the pass, decayed by friction, plus the impulse of the
      acceleration iteration p computed from the buffer it observed. */
  lemma SweepEntry(buf: seq<real>, f: real, force: (seq<real>, nat) -> Vec3, n: nat, p: nat, e: nat)
    requires |buf| == 3 * n && e < |buf| && InBlock(e, p) && p < n
    ensures Sweep(buf, f, force, n)[e]
         == Impulse(Friction(buf[e], f), force(Sweep(buf, f, force, p), p).Coord(e - 3 * p))
  {
    SweepSettled(buf, f, force, n, p, e);
    SweepUntouched(buf, f, force, p, e);
  }

  /** The buffer iteration i reads: particles before i already hold their
      final pass-1 values, particles from i on still hold their values from
      before the pass. */
  lemma ObservedState(sim: Sim, buf: seq<real>, sqrt: real -> real, f: real, i: nat)
    requires sim.Valid() && Fits(sim, buf) && i <= sim.N()
    ensures forall e :: 0 <= e < 3 * i ==>
              ForcesUpTo(sim, buf, sqrt, f, i)[e] == ForcesUpTo(sim, buf, sqrt, f, sim.N())[e]
    ensures forall e :: 3 * i <= e < |buf| ==> ForcesUpTo(sim, buf, sqrt, f, i)[e] == buf[e]
  {
    forall e | 0 <= e < 3 * i
      ensures ForcesUpTo(sim, buf, sqrt, f, i)[e] == ForcesUpTo(sim, buf, sqrt, f, sim.N())[e]
    {
      OwnerIsBlock(e, Owner(e));
      SweepSettled(buf, f, ForceRule(sim, sqrt), i, Owner(e), e);
      SweepSettled(buf, f, ForceRule(sim, sqrt), sim.N(), Owner(e), e);
    }
    forall e | 3 * i <= e < |buf|
      ensures ForcesUpTo(sim, buf, sqrt, f, i)[e] == buf[e]
    {
      SweepUntouched(buf, f, ForceRule(sim, sqrt), i, e);
    }
  }

  /** After pass 1, every entry holds its own value from before the pass,
      decayed by friction, plus the impulse of the force that its particle p
      computed from the mixed state iteration p observes. */
  lemma FinalEntry(sim: Sim, buf: seq<real>, sqrt: real -> real, f: real, e: nat)
    requires sim.Valid() && Fits(sim, buf) && e < |buf|
    ensures Owner(e) < sim.N()
    ensures ForcesUpTo(sim, buf, sqrt, f, sim.N())[e]
         == Impulse(Friction(buf[e], f),
                    Force(sim, ForcesUpTo(sim, buf, sqrt, f, Owner(e)), sqrt, Owner(e)).Coord(Axis(e)))
  {
    var p := Owner(e);
    OwnerIsBlock(e, p);
    SweepEntry(buf, f, ForceRule(sim, sqrt), sim.N(), p, e);
    var seen := ForcesUpTo(sim, buf, sqrt, f, p);
    assert ForceRule(sim, sqrt)(seen, p) == Force(sim, seen, sqrt, p);
  }

  /** Pairs that do not interact (the particle itself, or a distance outside
      (0, RMax)) add nothing: with no interacting partner the accumulator
      stays zero. */
  lemma {:induction false} AccSumWithoutPartners(sim: Sim, buf: seq<real>, sqrt: real -> real, i: nat, k: nat)
    requires sim.Valid() && Fits(sim, buf) && i < sim.N() && k <= sim.N()
    requires forall j :: 0 <= j < k ==> !Interacts(buf, sqrt, i, j)
    ensures AccSum(sim, buf, sqrt, i, k) == Zero
  {
    if k > 0 {
      AccSumWithoutPartners(sim, buf, sqrt, i, k - 1);
      if k - 1 != i {
        assert !Interacts(buf, sqrt, i, k - 1);
        assert PairTerm(sim, buf, sqrt, i, k - 1) == Zero;
      }
    }
  }

  /** A particle with no interacting partner in the buffer it reads only
      has its coordinates multiplied by the friction factor. */
  lemma IsolatedParticleDecays(sim: Sim, buf: seq<real>, sqrt: real -> real, f: real, i: nat)
    requires sim.Valid() && Fits(sim, buf) && i < sim.N()
    requires forall j :: 0 <= j < sim.N() ==> !Interacts(buf, sqrt, i, j)
    ensures var out := UpdateParticle(sim, buf, sqrt, f, i);
            out[3 * i] == buf[3 * i] * f && out[3 * i + 1] == buf[3 * i + 1] * f && out[3 * i + 2] == buf[3 * i + 2] * f
  {
    AccSumWithoutPartners(sim, buf, sqrt, i, sim.N());
    assert Force(sim, buf, sqrt, i) == Zero;
  }

  /** One iteration of pass 1 on the shared buffer: friction first, then the
      impulse, each written back to particle i's own entries. */
  method UpdateOne(sim: Sim, buf: seq<real>, sqrt: real -> real, f: real, i: nat) returns (out: seq<real>)
    requires sim.Valid() && Fits(sim, buf) && i < sim.N()
    ensures out == UpdateParticle(sim, buf, sqrt, f, i)
  {
    var index := i * 3;
    var accX, accY, accZ := Accumulate(sim, buf, sqrt, i);
    accX := accX * (RMax * ForceFactor);
    accY := accY * (RMax * ForceFactor);
    accZ := accZ * (RMax * ForceFactor);
    assert Vec3(accX, accY, accZ) == Force(sim, buf, sqrt, i);

    out := buf;
    out := out[index := Friction(out[index], f)];
    out := out[index + 1 := Friction(out[index + 1], f)];
    out := out[index + 2 := Friction(out[index + 2], f)];
    out := out[index := Impulse(out[index], accX)];
    out := out[index + 1 := Impulse(out[index + 1], accY)];
    out := out[index + 2 := Impulse(out[index + 2], accZ)];
  }

  /** Pass 1 as the sketch runs it, in place on one buffer. Each entry ends
      as its old value decayed by friction plus the impulse of the force its
      particle computed from the buffer it read: earlier particles already
      updated, itself and later ones not yet. */
  method ApplyForces(sim: Sim, buf0: seq<real>, sqrt: real -> real, f: real) returns (buf: seq<real>)
    requires sim.Valid() && Fits(sim, buf0)
    ensures buf == ForcesUpTo(sim, buf0, sqrt, f, sim.N())
    ensures forall e :: 0 <= e < |buf0| ==>
              Owner(e) < sim.N()
              && buf[e] == Impulse(Friction(buf0[e], f),
                                   Force(sim, ForcesUpTo(sim, buf0, sqrt, f, Owner(e)), sqrt, Owner(e)).Coord(Axis(e)))
  {
    var n := sim.N();
    buf := buf0;
    var i := 0;
    while i < n
      invariant 0 <= i <= n
      invariant buf == ForcesUpTo(sim, buf0, sqrt, f, i)
    {
      ForcesStep(sim, buf0, sqrt, f, i);
      buf := UpdateOne(sim, buf, sqrt, f, i);
      i := i + 1;
    }
    forall e | 0 <= e < |buf0|
      ensures Owner(e) < sim.N()
      ensures buf[e] == Impulse(Friction(buf0[e], f),
                                Force(sim, ForcesUpTo(sim, buf0, sqrt, f, Owner(e)), sqrt, Owner(e)).Coord(Axis(e)))
    {
      FinalEntry(sim, buf0, sqrt, f, e);
    }
  }
}
