/** The force kernel: radial acceleration as a function of the normalised
    distance `r` (distance divided by RMax) and the attraction coefficient `a`. */
module ForceKernel {

  /** Below this normalised distance every pair repels. */
  const Beta: real := 0.2

  function Abs(x: real): real {
    if x < 0.0 then -x else x
  }

  /** The triangular bump used between Beta and 1: it is 0 at both ends and
      peaks at 1 in the middle, (1 + Beta) / 2. */
  function Envelope(r: real): real {
    1.0 - Abs(2.0 * r - 1.0 - Beta) / (1.0 - Beta)
  }

  function Acceleration(r: real, a: real): (acc: real)
    // short range: repulsion in [-1, 0), whatever the coefficient
    ensures 0.0 <= r < Beta ==> -1.0 <= acc < 0.0
    // no force at the two breakpoints and beyond the interaction radius
    ensures r == Beta || 1.0 <= r ==> acc == 0.0
  {
    if r < Beta then
      r / Beta - 1.0
    else if Beta < r && r < 1.0 then
      a * Envelope(r)
    else
      0.0
  }

  /** On the middle range the kernel is bounded by the coefficient and has
      its sign: attraction for a positive coefficient, repulsion for a
      negative one, nothing for 0. */
  lemma AttractionBounds(r: real, a: real)
    requires Beta < r < 1.0
    ensures Abs(Acceleration(r, a)) <= Abs(a)
    ensures 0.0 < Acceleration(r, a) <==> 0.0 < a
    ensures Acceleration(r, a) < 0.0 <==> a < 0.0
  {
    EnvelopeRange(r);
    ScaledByEnvelope(a, Envelope(r));
  }

  /** On the open interval (Beta, 1) the envelope lies in (0, 1]. */
  lemma EnvelopeRange(r: real)
    requires Beta < r < 1.0
    ensures 0.0 < Envelope(r) <= 1.0
  {
  }

  lemma ScaledByEnvelope(a: real, e: real)
    requires 0.0 < e <= 1.0
    ensures Abs(a * e) <= Abs(a)
    ensures (0.0 < a * e <==> 0.0 < a) && (a * e < 0.0 <==> a < 0.0)
  {
    if a < 0.0 {
      assert a * e < 0.0;
      assert a * e >= a;
    } else if a > 0.0 {
      assert a * e > 0.0;
      assert a * e <= a;
    }
  }

  /** The repulsion branch is the line 5r - 1 and ignores the coefficient. */
  lemma RepulsionIgnoresCoefficient(r: real, a: real, b: real)
    requires r < Beta
    ensures Acceleration(r, a) == Acceleration(r, b) == 5.0 * r - 1.0
  {
  }

  /** Between Beta and 1 the result is the coefficient scaled by an envelope
      value in (0, 1]. */
  lemma AttractionIsScaledCoefficient(r: real, a: real)
    requires Beta < r < 1.0
    ensures 0.0 < Envelope(r) <= 1.0 && Acceleration(r, a) == a * Envelope(r)
  {
    EnvelopeRange(r);
  }

  /** The bump peaks at the coefficient itself, at r = 0.6. */
  lemma PeakAtMidpoint(a: real)
    ensures Acceleration(0.6, a) == a
  {
    assert Envelope(0.6) == 1.0;
  }

  /** The bump formula also gives 0 at r == Beta, so sending r == Beta to the
      zero branch (strict comparison) or to the bump gives the same value. */
  lemma BumpVanishesAtBeta(a: real)
    ensures a * Envelope(Beta) == 0.0 == Acceleration(Beta, a)
  {
    assert Envelope(Beta) == 0.0;
  }

  /** For non-negative distances the kernel vanishes exactly at Beta, from 1
      on, and on the middle range when the coefficient is 0. */
  lemma ZeroSet(r: real, a: real)
    requires 0.0 <= r
    ensures Acceleration(r, a) == 0.0 <==> r == Beta || 1.0 <= r || (Beta < r < 1.0 && a == 0.0)
  {
  }

  /** The kernel is continuous everywhere, breakpoints included: with a
      coefficient in [-1, 1] it is Lipschitz with constant 5. */
  lemma Lipschitz(r: real, s: real, a: real)
    requires -1.0 <= a <= 1.0
    ensures Abs(Acceleration(r, a) - Acceleration(s, a)) <= 5.0 * Abs(r - s)
  {
    if r < Beta && s < Beta {
    } else if Beta < r < 1.0 && Beta < s < 1.0 {
      MiddleBound(r, s, a);
    } else if r < Beta && Beta < s < 1.0 {
      CrossBound(r, s, a);
    } else if s < Beta && Beta < r < 1.0 {
      CrossBound(s, r, a);
    } else if Beta < r < 1.0 {
      OuterBound(r, s, a);
    } else if Beta < s < 1.0 {
      OuterBound(s, r, a);
    }
  }

  /** Between a point of the bump and a point where the kernel is 0 on the
      far side of the bump or at Beta. */
  lemma OuterBound(r: real, s: real, a: real)
    requires -1.0 <= a <= 1.0 && Beta < r < 1.0 && (s == Beta || 1.0 <= s)
    ensures Abs(Acceleration(r, a) - Acceleration(s, a)) <= 5.0 * Abs(r - s)
  {
    var e := Envelope(r);
    EnvelopeRange(r);
    EnvelopeNearEnds(r);
    assert e <= 2.5 * Abs(r - s);
    ProductBound(a, e, 2.5 * Abs(r - s));
    assert Acceleration(r, a) == a * e;
    assert Acceleration(s, a) == 0.0;
  }

  lemma MiddleBound(r: real, s: real, a: real)
    requires -1.0 <= a <= 1.0 && Beta < r < 1.0 && Beta < s < 1.0
    ensures Abs(Acceleration(r, a) - Acceleration(s, a)) <= 5.0 * Abs(r - s)
  {
    AttractionIsScaledCoefficient(r, a);
    AttractionIsScaledCoefficient(s, a);
    BumpDifference(a, r, s, Acceleration(r, a), Acceleration(s, a));
  }

  /** Two points of the bump scaled by the same coefficient in [-1, 1] are
      at most 2.5 times their distance apart. */
  lemma BumpDifference(a: real, r: real, s: real, p: real, q: real)
    requires -1.0 <= a <= 1.0 && p == a * Envelope(r) && q == a * Envelope(s)
    ensures Abs(p - q) <= 2.5 * Abs(r - s)
  {
    EnvelopeLipschitz(r, s);
    ScaledDifference(a, p, q, Envelope(r), Envelope(s), 2.5 * Abs(r - s));
  }

  /** Scaling two values by a coefficient in [-1, 1] does not increase their distance. */
  lemma ScaledDifference(a: real, p: real, q: real, x: real, y: real, bound: real)
    requires -1.0 <= a <= 1.0 && Abs(x - y) <= bound
    requires p == a * x && q == a * y
    ensures Abs(p - q) <= bound
  {
    var d := x - y;
    ProductBound(a, d, bound);
    assert p - q == a * d;
  }

  lemma EnvelopeLipschitz(r: real, s: real)
    ensures Abs(Envelope(r) - Envelope(s)) <= 2.5 * Abs(r - s)
  {
  }

  /** Near the ends of (Beta, 1) the envelope is at most 2.5 times the
      distance to the nearer end. */
  lemma EnvelopeNearEnds(r: real)
    requires Beta < r < 1.0
    ensures Envelope(r) <= 2.5 * (r - Beta) && Envelope(r) <= 2.5 * (1.0 - r)
  {
  }

  lemma ProductBound(a: real, x: real, bound: real)
    requires -1.0 <= a <= 1.0 && Abs(x) <= bound
    ensures Abs(a * x) <= bound
  {
    if x >= 0.0 {
      if a >= 0.0 { assert a * x <= x; } else { assert a * x >= -x; }
    } else {
      if a >= 0.0 { assert a * x >= x; } else { assert a * x <= -x; }
    }
  }

  lemma CrossBound(r: real, s: real, a: real)
    requires -1.0 <= a <= 1.0 && r < Beta < s < 1.0
    ensures Abs(Acceleration(r, a) - Acceleration(s, a)) <= 5.0 * Abs(r - s)
  {
    EnvelopeRange(s);
    EnvelopeNearEnds(s);
    ProductBound(a, Envelope(s), Envelope(s));
    var x := Acceleration(r, a);
    var y := Acceleration(s, a);
    assert x == 5.0 * r - 1.0;
    assert y == a * Envelope(s);
    assert -Envelope(s) <= y <= Envelope(s);
    assert 5.0 * (s - r) == 5.0 * (Beta - r) + 5.0 * (s - Beta);
  }
}
