/** The per-sample computation of `PowerMonitor::Process`: centring of the
    voltage and current codes, zero-crossing detection with an explicit
    polarity, offset tracking on falling edges, snapshot of the cycle sums
    every `nCycl` rising edges, and fixed-point accumulation with phase
    interpolation of the voltage. The accumulators are unbounded integers
    here. */
module Estimator {

  /** `enum Polarities`. */
  datatype Polarity = Positive | Negative

  function Pow2(k: nat): (p: nat)
    ensures 1 <= p
  {
    if k == 0 then 1 else 2 * Pow2(k - 1)
  }

  /** The shift by 8 of the phase correction divides by 256. */
  lemma Pow2Eight()
    ensures Pow2(8) == 256
  {
  }

  /** `x >> k` on a signed value, an arithmetic shift: the floor of x / 2^k. */
  function Shr(x: int, k: nat): (r: int)
    ensures r * Pow2(k) <= x < r * Pow2(k) + Pow2(k)
  {
    x / Pow2(k)
  }

  /** The members of `PowerMonitor` that `Process` reads and writes. */
  datatype CycleState = CycleState(
    pol: Polarity,
    iCycl: int,                                  // rising edges since the last snapshot
    offV: int, offC: int,                        // offsets for centring (scaled by 256)
    sumV: int, sumC: int,                        // centred sums since the last falling edge
    sumVV: int, sumCC: int, sumVC: int,          // sums of squares and products of the window
    savSumVV: int, savSumCC: int, savSumVC: int, // the snapshot
    nSum: int, nSavSum: int,                     // samples in the window and in the snapshot
    v: int, c: int,                              // members V and C, left holding the values >> 2
    preV: int, phaV: int)                        // previous and phase-shifted voltage (>> 2)

  /** The centred value `(code << 8) - offset` of a digitized code. */
  function Centre(code: int, offset: int): int
  {
    code * 256 - offset
  }

  /** A new positive half alternance starts: the centred voltage is no longer
      negative while the polarity was negative. */
  predicate Rising(s: CycleState, v: int)
  {
    v >= 0 && s.pol == Negative
  }

  /** A new negative half alternance starts. */
  predicate Falling(s: CycleState, v: int)
  {
    v < 0 && s.pol == Positive
  }

  /** The rising edge that completes `nCycl` cycles and takes a snapshot. */
  predicate Snapshot(s: CycleState, nCycl: int, v: int)
  {
    Rising(s, v) && s.iCycl + 1 == nCycl
  }

  /** The half alternance test on the centred voltage `v`. */
  function Crossing(s: CycleState, nCycl: int, v: int): CycleState
  {
    if Rising(s, v) then
      if s.iCycl + 1 == nCycl then
        s.(pol := Positive, iCycl := 0,
           savSumVV := s.sumVV, savSumCC := s.sumCC, savSumVC := s.sumVC, nSavSum := s.nSum,
           sumVV := 0, sumCC := 0, sumVC := 0, nSum := 0)
      else
        s.(pol := Positive, iCycl := s.iCycl + 1)
    else if Falling(s, v) then
      s.(pol := Negative,
         offV := s.offV + Shr(s.sumV, 12), offC := s.offC + Shr(s.sumC, 12),
         sumV := 0, sumC := 0)
    else
      s
  }

  /** The sums incrementation on the centred values `v` and `c`. */
  function Accumulate(s: CycleState, pha: int, v: int, c: int): CycleState
  {
    var v4 := Shr(v, 2);
    var c4 := Shr(c, 2);
    var phaV := s.preV + Shr((v4 - s.preV) * pha, 8);
    s.(sumV := s.sumV + v, v := v4, sumVV := s.sumVV + Shr(v4 * v4, 6),
       sumC := s.sumC + c, c := c4, sumCC := s.sumCC + Shr(c4 * c4, 6),
       phaV := phaV, sumVC := s.sumVC + Shr(phaV * c4, 6),
       preV := v4, nSum := s.nSum + 1)
  }

  /** One popped pair of codes: both values are centred with the offsets as
      they were before the sample, then the half alternance test, then the
      sums. */
  function Next(s: CycleState, nCycl: int, pha: int, vCode: int, cCode: int): CycleState
  {
    var v := Centre(vCode, s.offV);
    var c := Centre(cCode, s.offC);
    Accumulate(Crossing(s, nCycl, v), pha, v, c)
  }

  /** The half alternance test leaves the members `v` and `c` alone and the
      sums incrementation overwrites them, so storing the centred values in
      the state first, then running both phases, is `Next`. */
  lemma CrossingKeepsValues(s: CycleState, nCycl: int, pha: int, vCode: int, cCode: int)
    ensures var v := Centre(vCode, s.offV);
            var c := Centre(cCode, s.offC);
            var t := Crossing(s.(v := v, c := c), nCycl, v);
            t.v == v && t.c == c && Accumulate(t, pha, v, c) == Next(s, nCycl, pha, vCode, cCode)
  {
  }

  predicate AllPairs(xs: seq<seq<int>>)
  {
    forall i :: 0 <= i < |xs| ==> |xs[i]| == 2
  }

  /** The state after processing the (voltage, current) pairs `xs` in order. */
  function Run(s: CycleState, nCycl: int, pha: int, xs: seq<seq<int>>): CycleState
    requires AllPairs(xs)
    decreases |xs|
  {
    if xs == [] then s
    else
      var x := xs[|xs| - 1];
      Next(Run(s, nCycl, pha, xs[..|xs| - 1]), nCycl, pha, x[0], x[1])
  }

  /** Number of rising edges met while processing `xs`. */
  function Rises(s: CycleState, nCycl: int, pha: int, xs: seq<seq<int>>): nat
    requires AllPairs(xs)
    decreases |xs|
  {
    if xs == [] then 0
    else
      var before := Run(s, nCycl, pha, xs[..|xs| - 1]);
      var x := xs[|xs| - 1];
      Rises(s, nCycl, pha, xs[..|xs| - 1]) + if Rising(before, Centre(x[0], before.offV)) then 1 else 0
  }

  // Properties of one sample

  /** After a sample the polarity is the sign of its centred voltage. */
  lemma PolarityFollowsSign(s: CycleState, nCycl: int, pha: int, vCode: int, cCode: int)
    ensures Next(s, nCycl, pha, vCode, cCode).pol ==
            if Centre(vCode, s.offV) >= 0 then Positive else Negative
  {
  }

  /** Every rising edge advances the cycle index, modulo `nCycl`; nothing
      else moves it, and it stays below `nCycl`. */
  lemma CycleIndexBounded(s: CycleState, nCycl: int, pha: int, vCode: int, cCode: int)
    requires 1 <= nCycl && 0 <= s.iCycl < nCycl
    ensures var r := Next(s, nCycl, pha, vCode, cCode);
      0 <= r.iCycl < nCycl &&
      r.iCycl == if Rising(s, Centre(vCode, s.offV)) then (s.iCycl + 1) % nCycl else s.iCycl
  {
    var v := Centre(vCode, s.offV);
    if Rising(s, v) && s.iCycl + 1 == nCycl {
      assert (s.iCycl + 1) % nCycl == 0;
    } else if Rising(s, v) {
      assert (s.iCycl + 1) % nCycl == s.iCycl + 1;
    }
  }

  /** The snapshot takes the window's sums as they were before the sample,
      and the new window holds this sample alone. At any other sample the
      snapshot is left as it was. */
  lemma SnapshotAtWindowEnd(s: CycleState, nCycl: int, pha: int, vCode: int, cCode: int)
    ensures var r, v := Next(s, nCycl, pha, vCode, cCode), Centre(vCode, s.offV);
      if Snapshot(s, nCycl, v) then
        r.savSumVV == s.sumVV && r.savSumCC == s.sumCC && r.savSumVC == s.sumVC &&
        r.nSavSum == s.nSum && r.iCycl == 0 && r.nSum == 1 &&
        r.sumVV == Shr(r.v * r.v, 6) && r.sumCC == Shr(r.c * r.c, 6) && r.sumVC == Shr(r.phaV * r.c, 6)
      else
        r.savSumVV == s.savSumVV && r.savSumCC == s.savSumCC && r.savSumVC == s.savSumVC &&
        r.nSavSum == s.nSavSum
  {
  }

  /** On a falling edge the offsets move by the running sums >> 12 and the
      running sums restart from this sample; on any other sample the offsets
      stay and the running sums grow by the centred values. */
  lemma OffsetTracking(s: CycleState, nCycl: int, pha: int, vCode: int, cCode: int)
    ensures var r, v, c := Next(s, nCycl, pha, vCode, cCode), Centre(vCode, s.offV), Centre(cCode, s.offC);
      if Falling(s, v) then
        r.offV == s.offV + Shr(s.sumV, 12) && r.offC == s.offC + Shr(s.sumC, 12) &&
        r.sumV == v && r.sumC == c
      else
        r.offV == s.offV && r.offC == s.offC && r.sumV == s.sumV + v && r.sumC == s.sumC + c
  {
  }

  /** Every sample counts once in the window and adds a non-negative square
      term to each sum of squares, so both only grow between snapshots. */
  lemma SquareSumsGrow(s: CycleState, nCycl: int, pha: int, vCode: int, cCode: int)
    ensures var r, v, c := Next(s, nCycl, pha, vCode, cCode), Centre(vCode, s.offV), Centre(cCode, s.offC);
      var snap := Snapshot(s, nCycl, v);
      r.v == Shr(v, 2) && r.c == Shr(c, 2) &&
      r.nSum == (if snap then 0 else s.nSum) + 1 &&
      0 <= Shr(r.v * r.v, 6) && r.sumVV == (if snap then 0 else s.sumVV) + Shr(r.v * r.v, 6) &&
      0 <= Shr(r.c * r.c, 6) && r.sumCC == (if snap then 0 else s.sumCC) + Shr(r.c * r.c, 6) &&
      (!snap ==> s.sumVV <= r.sumVV && s.sumCC <= r.sumCC)
  {
    var r := Next(s, nCycl, pha, vCode, cCode);
    SquareShrNonNegative(r.v);
    SquareShrNonNegative(r.c);
  }

  lemma SquareShrNonNegative(x: int)
    ensures 0 <= Shr(x * x, 6)
  {
    assert 0 <= x * x;
  }

  /** With `pha == 256` the voltage is not shifted: the product sum takes
      the current voltage. */
  lemma NoPhaseShift(s: CycleState, nCycl: int, vCode: int, cCode: int)
    ensures var r, v := Next(s, nCycl, 256, vCode, cCode), Centre(vCode, s.offV);
      r.phaV == r.v && r.preV == r.v &&
      r.sumVC == (if Snapshot(s, nCycl, v) then 0 else s.sumVC) + Shr(r.v * r.c, 6)
  {
    var r := Next(s, nCycl, 256, vCode, cCode);
    ShrScaled(r.v - s.preV);
  }

  lemma ShrScaled(d: int)
    ensures Shr(d * 256, 8) == d
  {
    Pow2Eight();
  }

  /** With `pha` in 0..256 the shifted voltage lies between the previous and
      the current voltage (a shift to the right). */
  lemma PhaseInterpolates(s: CycleState, nCycl: int, pha: int, vCode: int, cCode: int)
    requires 0 <= pha <= 256
    ensures var r := Next(s, nCycl, pha, vCode, cCode);
      (s.preV <= r.v ==> s.preV <= r.phaV <= r.v) &&
      (r.v <= s.preV ==> r.v <= r.phaV <= s.preV)
  {
    var r := Next(s, nCycl, pha, vCode, cCode);
    ScaledStep(r.v - s.preV, pha);
  }

  /** With any `pha` up to 256, negative ones included, the shifted voltage
      does not pass the current voltage: it stays on the side of the
      previous one (a shift to the right, by more than one sample when `pha`
      is negative). */
  lemma PhaseRightShift(s: CycleState, nCycl: int, pha: int, vCode: int, cCode: int)
    requires pha <= 256
    ensures var r := Next(s, nCycl, pha, vCode, cCode);
      (s.preV <= r.v ==> r.phaV <= r.v) &&
      (r.v <= s.preV ==> r.v <= r.phaV)
  {
    var r := Next(s, nCycl, pha, vCode, cCode);
    ScaledAtMost(r.v - s.preV, pha);
  }

  /** `(d * pha) >> 8` is at most `d` in size, on the side of `d`, whenever
      `pha <= 256`. */
  lemma ScaledAtMost(d: int, pha: int)
    requires pha <= 256
    ensures 0 <= d ==> Shr(d * pha, 8) <= d
    ensures d <= 0 ==> d <= Shr(d * pha, 8)
  {
    Pow2Eight();
    if 0 <= d {
      assert d * (256 - pha) >= 0;
    } else {
      assert (-d) * (256 - pha) >= 0;
    }
  }

  /** With `pha` above 256 the shifted voltage lies beyond the current
      voltage, on the far side from the previous one (a shift to the left). */
  lemma PhaseExtrapolates(s: CycleState, nCycl: int, pha: int, vCode: int, cCode: int)
    requires 256 <= pha
    ensures var r := Next(s, nCycl, pha, vCode, cCode);
      (s.preV <= r.v ==> r.v <= r.phaV) &&
      (r.v <= s.preV ==> r.phaV <= r.v)
  {
    var r := Next(s, nCycl, pha, vCode, cCode);
    ScaledStep(r.v - s.preV, pha);
  }

  /** `(d * pha) >> 8` has the sign of `d`, and is at most `d` in size when
      `pha <= 256`, at least `d` in size when `pha >= 256`. */
  lemma ScaledStep(d: int, pha: int)
    requires 0 <= pha
    ensures var q := Shr(d * pha, 8);
      (0 <= d ==> 0 <= q && (pha <= 256 ==> q <= d) && (256 <= pha ==> d <= q)) &&
      (d <= 0 ==> q <= 0 && (pha <= 256 ==> d <= q) && (256 <= pha ==> q <= d))
  {
    var q := Shr(d * pha, 8);
    Pow2Eight();
    if 0 <= d {
      assert 0 <= d * pha;
      if pha <= 256 {
        assert d * pha <= d * 256;
      } else {
        assert d * 256 <= d * pha;
      }
    } else {
      assert d * pha <= 0;
      if pha <= 256 {
        assert d * 256 <= d * pha;
      } else {
        assert d * pha <= d * 256;
      }
    }
  }

  // Properties of a run of samples

  /** The cycle index stays in [0, nCycl) whatever the samples. */
  lemma {:induction false} RunCycleIndexBounded(s: CycleState, nCycl: int, pha: int, xs: seq<seq<int>>)
    requires AllPairs(xs) && 1 <= nCycl && 0 <= s.iCycl < nCycl
    ensures 0 <= Run(s, nCycl, pha, xs).iCycl < nCycl
    decreases |xs|
  {
    if xs != [] {
      var init, x := xs[..|xs| - 1], xs[|xs| - 1];
      RunCycleIndexBounded(s, nCycl, pha, init);
      CycleIndexBounded(Run(s, nCycl, pha, init), nCycl, pha, x[0], x[1]);
    }
  }

  /** Samples holding fewer rising edges than the cycles left in the window
      leave the snapshot untouched: the cycle index counts the rising edges and
      the window counts the samples. */
  lemma {:induction false} PartialWindowKeepsSnapshot(s: CycleState, nCycl: int, pha: int, xs: seq<seq<int>>)
    requires AllPairs(xs) && 0 <= s.iCycl && Rises(s, nCycl, pha, xs) < nCycl - s.iCycl
    ensures var r := Run(s, nCycl, pha, xs);
      r.iCycl == s.iCycl + Rises(s, nCycl, pha, xs) && r.nSum == s.nSum + |xs| &&
      r.savSumVV == s.savSumVV && r.savSumCC == s.savSumCC && r.savSumVC == s.savSumVC &&
      r.nSavSum == s.nSavSum
    decreases |xs|
  {
    if xs != [] {
      var init := xs[..|xs| - 1];
      PartialWindowKeepsSnapshot(s, nCycl, pha, init);
    }
  }
}
