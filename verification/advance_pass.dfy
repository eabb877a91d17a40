/** Pass 2 of a step: advance every coordinate by "velocity times Dt" and
    wrap it back into the box. Because the velocity buffer is the position
    buffer, the advance scales each coordinate by 1 + Dt. The x wrap's lower
    branch writes flat entry i instead of 3i; the model keeps that. */
module AdvancePass {
  import opened SimParams
  import opened ParticleStore

  /** The advance of one coordinate: it is added to itself times Dt. */
  function Advance(c: real): (r: real)
    ensures r == c * (1.0 + Dt)
  {
    c + c * Dt
  }

  /** The wrap of one coordinate, as the y and z axes apply it. */
  function WrapAxis(v: real): (w: real)
    // values inside the box are left alone
    ensures WrapLow <= v <= WrapHigh ==> w == v
    // a wrap moves by exactly one wrap width, or not at all
    ensures w == v || w == v + WrapWidth || w == v - WrapWidth
    // anything at most one width outside the box lands inside it
    ensures WrapLow - WrapWidth <= v <= WrapHigh + WrapWidth ==> WrapLow <= w <= WrapHigh
  {
    if v < WrapLow then v + WrapWidth
    else if v > WrapHigh then v - WrapWidth
    else v
  }

  /** Wrap flat entry e in place. */
  function WrapEntry(buf: seq<real>, e: nat): (r: seq<real>)
    requires e < |buf|
  {
    buf[e := WrapAxis(buf[e])]
  }

  /** The x wrap of particle i as written: the lower branch adds the wrap
      width to flat entry i, not to particle i's x at 3i. */
  function WrapXAsWritten(buf: seq<real>, i: nat): seq<real>
    requires 3 * i + 2 < |buf|
  {
    if buf[3 * i] < WrapLow then buf[i := buf[i] + WrapWidth]
    else if buf[3 * i] > WrapHigh then buf[3 * i := buf[3 * i] - WrapWidth]
    else buf
  }

  /** Advance particle i's three entries. */
  function AdvanceBlock(buf: seq<real>, i: nat): seq<real>
    requires 3 * i + 2 < |buf|
  {
    buf[3 * i := Advance(buf[3 * i])]
       [3 * i + 1 := Advance(buf[3 * i + 1])]
       [3 * i + 2 := Advance(buf[3 * i + 2])]
  }

  /** Iteration i of pass 2 as written. y and z are wrapped correctly. When
      the advanced x is below the box and i > 0, x stays where it is and
      entry i, a coordinate of the earlier particle i / 3, moves up by the
      wrap width instead. Nothing else changes. */
  function AdvanceParticle(buf: seq<real>, i: nat): (r: seq<real>)
    requires 3 * i + 2 < |buf|
    ensures |r| == |buf|
    ensures forall e :: 0 <= e < |buf| && !InBlock(e, i) && e != i ==> r[e] == buf[e]
    ensures r[3 * i + 1] == WrapAxis(Advance(buf[3 * i + 1]))
    ensures r[3 * i + 2] == WrapAxis(Advance(buf[3 * i + 2]))
    ensures Advance(buf[3 * i]) < WrapLow && 0 < i ==>
              r[3 * i] == Advance(buf[3 * i]) && r[i] == buf[i] + WrapWidth
    ensures !(Advance(buf[3 * i]) < WrapLow && 0 < i) ==> r[3 * i] == WrapAxis(Advance(buf[3 * i]))
    ensures WrapLow <= Advance(buf[3 * i]) && 0 < i ==> r[i] == buf[i]
  {
    WrapEntry(WrapEntry(WrapXAsWritten(AdvanceBlock(buf, i), i), 3 * i + 1), 3 * i + 2)
  }

  /** Iteration i of pass 2 with the x wrap writing particle i's own x. */
  function AdvanceParticleIntended(buf: seq<real>, i: nat): (r: seq<real>)
    requires 3 * i + 2 < |buf|
    ensures |r| == |buf|
    ensures forall e :: 0 <= e < |buf| && !InBlock(e, i) ==> r[e] == buf[e]
    ensures forall e :: 0 <= e < |buf| && InBlock(e, i) ==> r[e] == WrapAxis(Advance(buf[e]))
  {
    WrapEntry(WrapEntry(WrapEntry(AdvanceBlock(buf, i), 3 * i), 3 * i + 1), 3 * i + 2)
  }

  /** The buffer after iterations 0 .. k - 1 of pass 2 as written. */
  function AdvanceUpTo(buf: seq<real>, n: nat, k: nat): (r: seq<real>)
    requires |buf| == 3 * n && k <= n
    ensures |r| == |buf|
  {
    if k == 0 then buf else AdvanceParticle(AdvanceUpTo(buf, n, k - 1), k - 1)
  }

  /** The buffer after iterations 0 .. k - 1 of the corrected pass 2. */
  function AdvanceIntendedUpTo(buf: seq<real>, n: nat, k: nat): (r: seq<real>)
    requires |buf| == 3 * n && k <= n
    ensures |r| == |buf|
  {
    if k == 0 then buf else AdvanceParticleIntended(AdvanceIntendedUpTo(buf, n, k - 1), k - 1)
  }

  /** What entry e receives from its own particle's iteration as written:
      an x coordinate only ever loses the wrap width (its lower branch writes
      elsewhere), y and z are wrapped both ways. */
  function OwnResult(v: real, axis: nat): real {
    var a := Advance(v);
    if axis == 0 then (if a > WrapHigh then a - WrapWidth else a)
    else WrapAxis(a)
  }

  /** The wrap width entry e receives from the misdirected write of
      iteration e, which happens when particle e's advanced x is below the
      box. Only entries below n can receive it. */
  function StrayShift(buf: seq<real>, n: nat, e: nat): real
    requires |buf| == 3 * n
  {
    if e < n && Advance(buf[3 * e]) < WrapLow then WrapWidth else 0.0
  }

  /** Entry e after k iterations as written: its own iteration's result once
      its particle has been visited, plus the stray shift once iteration e
      has run. */
  function Expected(buf: seq<real>, n: nat, k: nat, e: nat): real
    requires |buf| == 3 * n && k <= n && e < |buf|
  {
    (if Owner(e) < k then OwnResult(buf[e], Axis(e)) else buf[e])
    + (if e < k && Advance(buf[3 * e]) < WrapLow then WrapWidth else 0.0)
  }

  /** Before iteration i, particle i's entries still hold their old values. */
  lemma UnvisitedBlock(buf: seq<real>, n: nat, i: nat, e: nat)
    requires |buf| == 3 * n && i < n && InBlock(e, i)
    ensures Expected(buf, n, i, e) == buf[e]
  {
    OwnerIsBlock(e, i);
  }

  /** Iteration i gives each of particle i's entries its expected value. */
  lemma BlockStep(buf: seq<real>, n: nat, i: nat, e: nat, before: seq<real>)
    requires |buf| == 3 * n && i < n && |before| == |buf| && InBlock(e, i)
    requires before[3 * i] == buf[3 * i]
    requires before[3 * i + 1] == buf[3 * i + 1]
    requires before[3 * i + 2] == buf[3 * i + 2]
    ensures AdvanceParticle(before, i)[e] == Expected(buf, n, i + 1, e)
  {
    OwnerIsBlock(e, i);
    if Axis(e) == 0 {
      assert e == 3 * i;
    } else if Axis(e) == 1 {
      assert e == 3 * i + 1;
    } else {
      assert e == 3 * i + 2;
    }
  }

  /** Iteration i > 0 gives entry i, outside its own block, its stray shift. */
  lemma StrayStep(buf: seq<real>, n: nat, i: nat, before: seq<real>)
    requires |buf| == 3 * n && 0 < i < n && |before| == |buf|
    requires before[3 * i] == buf[3 * i]
    requires before[i] == Expected(buf, n, i, i)
    ensures AdvanceParticle(before, i)[i] == Expected(buf, n, i + 1, i)
  {
    OwnerIsBlock(i, Owner(i));
  }

  /** Entries iteration i does not write keep their expected value. */
  lemma OtherStep(buf: seq<real>, n: nat, i: nat, e: nat)
    requires |buf| == 3 * n && i < n && e < |buf| && !InBlock(e, i) && e != i
    ensures Expected(buf, n, i, e) == Expected(buf, n, i + 1, e)
  {
    OwnerIsBlock(e, i);
  }

  lemma {:induction false} AdvanceEntry(buf: seq<real>, n: nat, k: nat, e: nat)
    requires |buf| == 3 * n && k <= n && e < |buf|
    ensures AdvanceUpTo(buf, n, k)[e] == Expected(buf, n, k, e)
  {
    if k > 0 {
      var i := k - 1;
      var before := AdvanceUpTo(buf, n, i);
      AdvanceEntry(buf, n, i, 3 * i);
      AdvanceEntry(buf, n, i, 3 * i + 1);
      AdvanceEntry(buf, n, i, 3 * i + 2);
      UnvisitedBlock(buf, n, i, 3 * i);
      UnvisitedBlock(buf, n, i, 3 * i + 1);
      UnvisitedBlock(buf, n, i, 3 * i + 2);
      if InBlock(e, i) {
        BlockStep(buf, n, i, e, before);
      } else if e == i {
        AdvanceEntry(buf, n, i, e);
        StrayStep(buf, n, i, before);
      } else {
        AdvanceEntry(buf, n, i, e);
        OtherStep(buf, n, i, e);
      }
    }
  }

  /** Pass 2 as written, in closed form: every entry is its own particle's
      result plus the stray shift from the misdirected x wrap. */
  lemma AdvanceClosedForm(buf: seq<real>, n: nat)
    requires |buf| == 3 * n
    ensures forall e :: 0 <= e < |buf| ==>
              AdvanceUpTo(buf, n, n)[e] == OwnResult(buf[e], Axis(e)) + StrayShift(buf, n, e)
  {
    forall e | 0 <= e < |buf|
      ensures AdvanceUpTo(buf, n, n)[e] == OwnResult(buf[e], Axis(e)) + StrayShift(buf, n, e)
    {
      AdvanceEntry(buf, n, n, e);
      OwnerIsBlock(e, Owner(e));
    }
  }

  /** A wrapped coordinate re-enters from the opposite side: overshooting the
      top by eps lands eps - Offset, undershooting the bottom by eps lands
      at 1 + Offset - eps. The code wraps once, whatever the overshoot. */
  lemma WrapCrossing(eps: real)
    requires 0.0 < eps
    ensures WrapAxis(WrapHigh + eps) == eps - Offset
    ensures WrapAxis(WrapLow - eps) == 1.0 + Offset - eps
  {
  }

  /** Every coordinate lies in the wrap box. */
  predicate InBox(buf: seq<real>) {
    forall e :: 0 <= e < |buf| ==> WrapLow <= buf[e] <= WrapHigh
  }

  /** Advancing a coordinate of the box overshoots it by far less than a
      wrap width, so one wrap brings it back. */
  lemma AdvanceStaysNear(c: real)
    requires WrapLow <= c <= WrapHigh
    ensures WrapLow <= WrapAxis(Advance(c)) <= WrapHigh
  {
    assert WrapLow - WrapWidth <= Advance(c) <= WrapHigh + WrapWidth;
  }

  /** The corrected pass 2 after k iterations: visited particles have each
      coordinate advanced and wrapped, the others are untouched. */
  lemma {:induction false} AdvanceIntendedEntry(buf: seq<real>, n: nat, k: nat, e: nat)
    requires |buf| == 3 * n && k <= n && e < |buf|
    ensures AdvanceIntendedUpTo(buf, n, k)[e] ==
              if Owner(e) < k then WrapAxis(Advance(buf[e])) else buf[e]
  {
    if k > 0 {
      AdvanceIntendedEntry(buf, n, k - 1, e);
      OwnerIsBlock(e, k - 1);
    }
  }

  /** The corrected pass 2 keeps every coordinate inside the wrap box. */
  lemma IntendedKeepsBox(buf: seq<real>, n: nat)
    requires |buf| == 3 * n && InBox(buf)
    ensures InBox(AdvanceIntendedUpTo(buf, n, n))
  {
    forall e | 0 <= e < |buf|
      ensures WrapLow <= AdvanceIntendedUpTo(buf, n, n)[e] <= WrapHigh
    {
      AdvanceIntendedEntry(buf, n, n, e);
      OwnerIsBlock(e, Owner(e));
      AdvanceStaysNear(buf[e]);
    }
  }

  /** As written, a particle i > 0 whose advanced x falls below the box keeps
      that x, unless iteration 3i later adds a stray wrap width to it. */
  lemma XEscapesBelow(buf: seq<real>, n: nat, i: nat)
    requires |buf| == 3 * n && 0 < i < n && Advance(buf[3 * i]) < WrapLow
    requires !(3 * i < n && Advance(buf[3 * (3 * i)]) < WrapLow)
    ensures AdvanceUpTo(buf, n, n)[3 * i] == Advance(buf[3 * i]) < WrapLow
  {
    AdvanceEntry(buf, n, n, 3 * i);
    OwnerIsBlock(3 * i, i);
  }

  /** The two versions of pass 2 differ only through the lower x branch:
      when no particle's advanced x falls below the box they agree. */
  lemma AgreesWithoutLowXWrap(buf: seq<real>, n: nat)
    requires |buf| == 3 * n
    requires forall i :: 0 <= i < n ==> WrapLow <= Advance(buf[3 * i])
    ensures AdvanceUpTo(buf, n, n) == AdvanceIntendedUpTo(buf, n, n)
  {
    var written := AdvanceUpTo(buf, n, n);
    var intended := AdvanceIntendedUpTo(buf, n, n);
    forall e | 0 <= e < |buf|
      ensures written[e] == intended[e]
    {
      AdvanceEntry(buf, n, n, e);
      AdvanceIntendedEntry(buf, n, n, e);
      OwnerIsBlock(e, Owner(e));
      if Axis(e) == 0 {
        assert buf[e] == buf[3 * Owner(e)];
      }
    }
  }

  /** Iteration 0's misdirected write lands on its own x, so particle 0's x
      always ends where the corrected pass puts it. */
  lemma FirstXWrapsCorrectly(buf: seq<real>, n: nat)
    requires |buf| == 3 * n && 0 < n
    ensures AdvanceUpTo(buf, n, n)[0] == AdvanceIntendedUpTo(buf, n, n)[0] == WrapAxis(Advance(buf[0]))
  {
    AdvanceEntry(buf, n, n, 0);
    AdvanceIntendedEntry(buf, n, n, 0);
    OwnerIsBlock(0, 0);
  }

  /** A two-particle buffer inside the box that pass 2 as written carries out
      of it twice: particle 1's x stays below the box and particle 0's y is
      pushed above it. The corrected pass keeps both inside. */
  lemma AsWrittenLeavesBox()
    ensures var buf := [0.0, 0.0, 0.0, WrapLow, 0.0, 0.0];
            InBox(buf)
            && AdvanceUpTo(buf, 2, 2) == [0.0, WrapWidth, 0.0, Advance(WrapLow), 0.0, 0.0]
            && !InBox(AdvanceUpTo(buf, 2, 2))
            && AdvanceIntendedUpTo(buf, 2, 2)[3] == Advance(WrapLow) + WrapWidth
            && InBox(AdvanceIntendedUpTo(buf, 2, 2))
  {
    var buf := [0.0, 0.0, 0.0, WrapLow, 0.0, 0.0];
    var after := AdvanceUpTo(buf, 2, 2);
    AdvanceClosedForm(buf, 2);
    assert after[1] == WrapWidth by { OwnerIsBlock(1, 0); }
    assert after[3] == Advance(WrapLow) by { OwnerIsBlock(3, 1); }
    assert after[0] == 0.0 && after[2] == 0.0 by { OwnerIsBlock(0, 0); OwnerIsBlock(2, 0); }
    assert after[4] == 0.0 && after[5] == 0.0 by { OwnerIsBlock(4, 1); OwnerIsBlock(5, 1); }
    assert !(WrapLow <= after[1] <= WrapHigh);
    IntendedKeepsBox(buf, 2);
    AdvanceIntendedEntry(buf, 2, 2, 3);
    OwnerIsBlock(3, 1);
  }

  /** Iteration i of pass 2 as the loop body performs it: three advances,
      then the three wrap tests in order. */
  method AdvanceOne(buf: seq<real>, i: nat) returns (out: seq<real>)
    requires 3 * i + 2 < |buf|
    ensures out == AdvanceParticle(buf, i)
  {
    var index := 3 * i;
    out := buf;
    out := out[index := out[index] + out[index] * Dt];
    out := out[index + 1 := out[index + 1] + out[index + 1] * Dt];
    out := out[index + 2 := out[index + 2] + out[index + 2] * Dt];
    assert out == AdvanceBlock(buf, i);
    if out[index] < WrapLow {
      out := out[i := out[i] + WrapWidth];
    } else if out[index] > WrapHigh {
      out := out[index := out[index] - WrapWidth];
    }
    if out[index + 1] < WrapLow {
      out := out[index + 1 := out[index + 1] + WrapWidth];
    } else if out[index + 1] > WrapHigh {
      out := out[index + 1 := out[index + 1] - WrapWidth];
    }
    if out[index + 2] < WrapLow {
      out := out[index + 2 := out[index + 2] + WrapWidth];
    } else if out[index + 2] > WrapHigh {
      out := out[index + 2 := out[index + 2] - WrapWidth];
    }
  }

  /** Pass 2 as the outer loop performs it. */
  method AdvanceAll(buf0: seq<real>, n: nat) returns (buf: seq<real>)
    requires |buf0| == 3 * n
    ensures buf == AdvanceUpTo(buf0, n, n)
    ensures forall e :: 0 <= e < |buf| ==> buf[e] == OwnResult(buf0[e], Axis(e)) + StrayShift(buf0, n, e)
  {
    buf := buf0;
    var i := 0;
    while i < n
      invariant i <= n
      invariant buf == AdvanceUpTo(buf0, n, i)
    {
      buf := AdvanceOne(buf, i);
      i := i + 1;
    }
    AdvanceClosedForm(buf0, n);
  }
}
