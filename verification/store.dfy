/** Per-particle state. Positions live in one flat buffer of 3n reals: the
    coordinates of particle p are the entries 3p, 3p + 1 and 3p + 2. The
    sketch's velocity buffer is the very same array, so the model has one
    buffer and no separate velocities. */
module ParticleStore {

  datatype Vec3 = Vec3(x: real, y: real, z: real) {

    function Plus(o: Vec3): Vec3 {
      Vec3(x + o.x, y + o.y, z + o.z)
    }

    function Scale(k: real): Vec3 {
      Vec3(x * k, y * k, z * k)
    }

    /** Coordinate c: 0 is x, 1 is y, 2 is z. */
    function Coord(c: int): real
      requires 0 <= c < 3
    {
      if c == 0 then x else if c == 1 then y else z
    }
  }

  const Zero: Vec3 := Vec3(0.0, 0.0, 0.0)

  /** The particle that owns flat entry e, and which of its coordinates it is. */
  function Owner(e: nat): nat { e / 3 }
  function Axis(e: nat): nat { e % 3 }

  /** Flat entry e is one of particle p's three coordinates. */
  predicate InBlock(e: int, p: int) {
    3 * p <= e < 3 * p + 3
  }

  lemma OwnerIsBlock(e: nat, p: nat)
    ensures Owner(e) == p <==> InBlock(e, p)
    ensures InBlock(e, p) ==> e == 3 * p + Axis(e)
  {
  }

  /** The fixed configuration of one simulation: the type of every particle
      (their number is n) and the m x m attraction matrix, where
      matrix[s][t] is the coefficient a particle of type s feels from one of
      type t. */
  datatype Sim = Sim(types: seq<int>, matrix: seq<seq<real>>) {

    function N(): nat { |types| }

    /** Every type indexes the matrix; the matrix is square; every entry is a
        draw of Math.random() * 2 - 1 and so lies in [-1, 1). */
    predicate Valid() {
      && (forall i :: 0 <= i < |types| ==> 0 <= types[i] < |matrix|)
      && (forall s :: 0 <= s < |matrix| ==> |matrix[s]| == |matrix|)
      && (forall s, t :: 0 <= s < |matrix| && 0 <= t < |matrix[s]| ==> -1.0 <= matrix[s][t] < 1.0)
    }

    /** The coefficient particle i feels from particle j. */
    function Coefficient(i: nat, j: nat): (a: real)
      requires Valid() && i < N() && j < N()
      ensures -1.0 <= a < 1.0
    {
      matrix[types[i]][types[j]]
    }
  }

  /** A position buffer that fits the simulation's particle count. */
  predicate Fits(sim: Sim, buf: seq<real>) {
    |buf| == 3 * sim.N()
  }
}
