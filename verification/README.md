# Particle life: one simulation step, modelled in Dafny

`script.js` draws a cloud of coloured particles. Each particle has a type, and
a random m x m matrix says how strongly a type attracts or repels each other
type. Every frame, `updateParticles` advances the simulation in two passes
over one flat buffer of 3n coordinates. The position array and the "velocity"
array are the same object (script.js:122-123), and the model keeps that
aliasing.

- **Pass 1** visits the particles in index order. For each particle it sums
  the force kernel `acceleration` over every other particle in range. Then
  it writes `c * frictionFactor + acc * dt` over the particle's own
  coordinates. Later particles therefore read the new values of earlier ones.
- **Pass 2** adds "velocity times dt" to each coordinate. Because of the
  aliasing, this is `c + c * dt`. It then wraps each axis into
  [-1 - offset, 2 + offset]. The x axis's lower branch writes flat entry `i`
  instead of `3i` (script.js:166). The model reproduces that write and also
  gives the corrected one.

The model works over exact `real`s on a `seq<real>` of length 3n. It has six
modules, one per file:

- `SimParams` (params.dfy): the constants `dt`, `rMax`, `forceFactor` and
  `offset`; the wrap bounds; the friction factor and the square root, which
  are parameters.
- `ForceKernel` (kernel.dfy): `acceleration(r, a)` and its shape.
- `ParticleStore` (store.dfy): the buffer layout (entry e is coordinate
  e mod 3 of particle e div 3) and the simulation configuration `Sim`
  (types and matrix).
- `ForcePass` (force_pass.dfy): pass 1. The reference functions are
  `PairTerm` (one pair's contribution), `AccSum` (the inner loop's
  accumulator after a prefix of partners), `Force` (that sum scaled by
  rMax * forceFactor), `UpdateParticle`, `Sweep` and `ForcesUpTo`. The
  loops are the methods `Accumulate` (inner) and `ApplyForces` (outer);
  `UpdateOne` is the outer loop's body.
- `AdvancePass` (advance_pass.dfy): pass 2. It has two versions, as written
  (`AdvanceParticle`, `AdvanceUpTo`) and corrected
  (`AdvanceParticleIntended`, `AdvanceIntendedUpTo`). `WrapXAsWritten` is
  the x wrap of script.js:165-169, with its lower branch writing entry i.
  It also has the loops `AdvanceOne` and `AdvanceAll`.
- `StepEngine` (step.dfy): the whole of `updateParticles` (`Step`,
  `UpdateParticles`), plus a one-particle and a two-particle scenario.

`Math.sqrt` is a parameter `sqrt: real -> real`. `IsSqrt(sqrt)` (it is
a true square root) is required only by `StepEngine.PairTermAlongUnit`,
`StepEngine.RootIsUnique` and the two-particle scenario; everything else
holds for any `sqrt`. The friction factor
`Math.pow(0.5, dt / frictionHL)` is irrational, so it is a parameter `f` too.
`ValidFriction(f)` (0 < f < 1) is required only where a property depends on
it.

Two details of the code that are easy to misread:

- The upper wrap subtracts 2 + 2 offset from 2 + offset + eps, so a
  coordinate that overshoots the box lands at eps - offset, not at
  eps - 1 - offset (`AdvancePass.WrapCrossing`).
- The bump branch tests `beta < r` strictly, so r = beta takes the `else`
  branch. The bump formula would also give 0 there
  (`ForceKernel.BumpVanishesAtBeta`).

## Model

| member | source | states |
|---|---|---|
| ForceKernel.Acceleration | script.js:186-195 | below beta the kernel is a repulsion in [-1, 0); at r = beta and from r = 1 on it is exactly 0 |
| ForceKernel.AttractionBounds | script.js:190-191 | on (beta, 1) the magnitude is at most the coefficient's, and the result is positive (negative) exactly when the coefficient is |
| ForceKernel.RepulsionIgnoresCoefficient | script.js:188-189 | below beta the value is 5r - 1 whatever the coefficient |
| ForceKernel.AttractionIsScaledCoefficient | script.js:190-191 | on (beta, 1) the value is the coefficient times an envelope value in (0, 1] |
| ForceKernel.PeakAtMidpoint | script.js:190-191 | the bump reaches the full coefficient at r = (1 + beta) / 2 = 0.6 |
| ForceKernel.BumpVanishesAtBeta | script.js:188-194 | the bump formula is also 0 at r = beta, so the strict `beta < r` test does not matter there |
| ForceKernel.ZeroSet | script.js:186-195 | for r >= 0 the kernel is 0 exactly at r = beta, from r = 1 on, and on (beta, 1) when the coefficient is 0 |
| ForceKernel.Lipschitz | script.js:186-195 | with a coefficient in [-1, 1] the kernel is continuous across both breakpoints: it changes by at most 5 times the change in r |
| ParticleStore.Sim.Coefficient | script.js:141 | the lookup `attractions[colours[i]][colours[j]]` yields a value in [-1, 1), the range `Math.random() * 2 - 1` fills the matrix with at script.js:208 |
| ForcePass.PairTerm | script.js:135-146 | a pair whose computed distance is not strictly between 0 and rMax contributes the zero vector |
| ForcePass.AccSumWithoutPartners | script.js:133-146 | with no partner in range (the particle itself is always skipped) the accumulator stays zero |
| ForcePass.Accumulate | script.js:133-146 | the inner loop ends with the ordered sum of pair terms over all j != i |
| ForcePass.WriteBlock | script.js:151-156 | friction then impulse change exactly the three entries of particle i, each to c * f + acc * dt |
| ForcePass.UpdateParticle | script.js:128-156 | iteration i writes c * f + acc * dt into particle i's coordinates, with acc computed from the buffer as it stands, and changes nothing else |
| ForcePass.UpdateOne | script.js:128-156 | one outer iteration as written (accumulate, scale by rMax * forceFactor, three frictions, three impulses) is UpdateParticle |
| ForcePass.SweepUntouched | script.js:127-157 | entries of particles not visited yet still hold their values from before the pass |
| ForcePass.SweepSettled | script.js:127-157 | once particle p has been visited its entries do not change again in the pass |
| ForcePass.SweepEntry | script.js:127-157 | every final entry is its pre-pass value decayed by friction plus the impulse from the force its particle computed |
| ForcePass.ObservedState | script.js:122-157 | the buffer iteration i reads holds final pass-1 values for particles below i and untouched values from i on, the effect of the aliasing |
| ForcePass.FinalEntry | script.js:122-157 | after pass 1 each entry is its old value times f plus dt times the force its particle computed from that mixed buffer |
| ForcePass.IsolatedParticleDecays | script.js:135-156 | a particle with no partner in range only has its coordinates multiplied by the friction factor |
| ForcePass.ApplyForces | script.js:127-157 | the outer loop of pass 1 computes the sequential in-place sweep; each entry ends as its old value times f plus dt times the force its particle computed from the partly updated buffer it read |
| AdvancePass.Advance | script.js:161-163 | adding "velocity" times dt to an aliased coordinate scales it by 1 + dt |
| AdvancePass.WrapAxis | script.js:171-181 | values in the box stay put; a wrap moves by exactly one width 2 + 2 offset; any value within one width of the box lands in it |
| AdvancePass.AdvanceParticle | script.js:160-182 | iteration i as written: y and z wrap both ways, x is only brought back from above; when x is below the box (i > 0) x stays and entry i gains the wrap width; nothing else changes |
| AdvancePass.AdvanceParticleIntended | script.js:160-182 | the corrected iteration: each of particle i's coordinates is advanced then wrapped, nothing else changes |
| AdvancePass.AdvanceEntry | script.js:159-183 | after k iterations as written each entry is its own iteration's result (once visited) plus the wrap width stray-added by iteration e (once run) |
| AdvancePass.AdvanceClosedForm | script.js:159-183 | after pass 2 as written every entry is its own advanced result plus the stray shift from the misdirected x wrap |
| AdvancePass.AdvanceIntendedEntry | script.js:159-183 | the corrected pass advances and wraps every visited coordinate and leaves the rest alone |
| AdvancePass.WrapCrossing | script.js:171-181 | overshooting 2 + offset by eps lands at eps - offset; undershooting -1 - offset by eps lands at 1 + offset - eps |
| AdvancePass.AdvanceStaysNear | script.js:161-181 | a coordinate in the box, advanced once and wrapped, is again in the box |
| AdvancePass.IntendedKeepsBox | script.js:159-183 | the corrected pass 2 keeps a buffer inside the wrap box |
| AdvancePass.XEscapesBelow | script.js:165-167 | as written, a particle i > 0 whose advanced x is below the box ends below the box unless iteration 3i adds a stray width to it |
| AdvancePass.AsWrittenLeavesBox | script.js:165-166 | a concrete in-box buffer that pass 2 as written carries out of the box twice, while the corrected pass keeps it inside |
| AdvancePass.AgreesWithoutLowXWrap | script.js:165-169 | when no advanced x falls below the box, the written and corrected passes agree entirely |
| AdvancePass.FirstXWrapsCorrectly | script.js:165-166 | for particle 0 the misdirected write hits its own x, so its x is wrapped correctly |
| AdvancePass.AdvanceOne | script.js:160-182 | one iteration of the pass-2 loop as written (three advances, three wrap tests) is AdvanceParticle |
| AdvancePass.AdvanceAll | script.js:159-183 | the pass-2 loop ends with the closed form: own result plus stray shift, entry by entry |
| StepEngine.UpdateParticles | script.js:120-183 | `updateParticles` is pass 1 then pass 2 on the same buffer; each final entry is its pass-1 value advanced, wrapped by its own iteration, plus any stray width |
| StepEngine.LoneParticle | script.js:127-183 | a single particle, for any sqrt, is only decayed by f, advanced and wrapped, and the written and corrected passes agree |
| StepEngine.RootIsUnique | script.js:139 | a true square root returns the non-negative root |
| StepEngine.TwoParticleForces | script.js:133-149 | with two particles each accumulator is the other particle's pair term scaled by rMax * forceFactor |
| StepEngine.PairTermAlongUnit | script.js:136-145 | with `Math.sqrt` a true square root, an interacting pair adds the displacement scaled by kernel / distance, a vector along the line from i to j (towards j when the kernel is positive, away from j when it is negative) whose squared length is the kernel value squared |
| StepEngine.PairForceOnFirst | script.js:133-149 | with a = 0.5, particle 0 at the origin and particle 1 at (0.1, 0, 0), particle 0 is pulled towards particle 1 at 0.5 |
| StepEngine.PairForceOnSecond | script.js:122-149 | particle 1, reading particle 0's already updated x = 0.00005, is pulled back at 799 / 1600 |
| StepEngine.PairForceOnSecondUnaliased | script.js:133-149 | had particle 1 read the pre-pass buffer, its pull would be exactly 0.5, the mirror of particle 0's |
| StepEngine.PairPassOne | script.js:127-157 | pass 1 of the scenario yields [0.00005, 0, 0, 0.1 f - 799 / 16000000, 0, 0] |
| StepEngine.PairPassTwo | script.js:159-183 | pass 2 of the scenario with 0 < f < 1 wraps nothing and scales each coordinate by 1 + dt |
| StepEngine.PairScenario | script.js:120-183 | one full step of the two-particle scenario gives x0 = 0.00005 (1 + dt) and x1 = (0.1 f - 799 / 16000000)(1 + dt); the other coordinates stay 0 |

## Left out

- The three.js imports, scene, camera, renderer, orbit controls, geometry
  and material setup, and the animation loop (script.js:1-4, 14, 21-65,
  94-110): rendering only. The simulation constants dt, rMax and
  forceFactor (script.js:7, 9, 12) are in `SimParams`; frictionHL
  (script.js:8) only enters through the friction factor f.
- The resize listener that is re-registered every frame (script.js:112-116):
  browser event handling.
- Particle colours (script.js:71-84): `THREE.Color().setHSL` is a library
  call. Colours never influence the step.
- Random initialisation (script.js:67-69, 86-92, 198-213): the types, the
  matrix and the initial buffer are inputs. `Sim.Valid` states what
  initialisation guarantees: every type indexes the matrix, the matrix is
  square, and its entries lie in [-1, 1).
- The constants n = 2000 and m = 6 (script.js:6, 10): the model takes any
  number of particles and types.
- The separate `velocity` attribute created at initialisation
  (script.js:51-52, 73, 86-88): the step never reads it, because its "velocities"
  are the position array.
- `Math.sqrt` (script.js:139): a parameter. A pair's range test is stated
  in terms of the computed value; only `StepEngine.PairTermAlongUnit`,
  `StepEngine.RootIsUnique` and the two-particle scenario assume it is the
  true square root.
- `Math.pow` for the friction factor (script.js:13): a parameter f.
- IEEE-754 rounding: all arithmetic is exact over the reals, so the
  scenario's values are the exact ones, not the floating-point ones. The
  buffer is a `Float32Array` (script.js:45), so the sketch also rounds
  every stored coordinate to single precision; the model does not.
- Behaviour over several frames: the model states one call of
  `updateParticles`. Properties of repeated steps, such as whether
  particles under an all-zero matrix stay at least beta * rMax apart, are
  not stated; only the per-pair kernel facts (`ForceKernel.ZeroSet`) are.
- The commented-out spatial grid code (script.js:220-281): dead code.
- ForceKernel.Acceleration: its own contract states only the repulsion range
  and the zeros. The bound and sign on the middle range are stated by
  `ForceKernel.AttractionBounds`, so that the products they involve stay out
  of every proof that only needs the kernel's value.

## Findings

| source | as written | input that shows it | evidently intended | confidence | as-written member | corrected member |
|---|---|---|---|---|---|---|
| script.js:165-166 | the x lower wrap adds 2 + 2 offset to `positions[i]`, flat entry i, which for i > 0 is coordinate i mod 3 of particle i div 3 | n = 2, buffer entering pass 2 [0, 0, 0, -1.05, 0, 0]: particle 1's x ends at -1.050105, below the box, and particle 0's y is pushed to 2.1, above it | add the wrap width to `positions[index]`, as the upper branch and the y and z wraps do | high; not executed | AdvancePass.AsWrittenLeavesBox | AdvancePass.IntendedKeepsBox |

`Step` and `UpdateParticles` keep the code as written, because that is what
the sketch runs every frame. `StepIntended` is the same step with the
corrected pass 2. `AdvancePass.AgreesWithoutLowXWrap` states when the two
coincide, and `AdvancePass.XEscapesBelow` states in general how the written
pass lets a particle escape.
