/** The class `PowerMonitor`: its configuration, the state of the sampling
    interrupt, the state of the estimator and the ring buffer of digitized
    (voltage, current) pairs between them. The interrupt and the main loop
    are modelled as separate sequential calls on the same object. */
module Monitor {
  import opened Estimator
  import Sampler
  import Ring
  import Fifo

  /** `M`: capacity of the buffer of digitized pairs, kept below 256. */
  const BufferSize: nat := 100

  class PowerMonitor {
    /** Configuration, set by the constructor and by nothing else. */
    const period: int
    const nCycl: int
    const vPin: bv8
    const cPin: bv8
    const vCal: real
    const cCal: real
    const pha: int

    var iChan: int
    const rbDig: Ring.RingBuffer
    const tDigIsr: array<int>
    const tDig: array<int>
    /** The members that `Process` reads and writes (`iCycl`, `V`, `C`,
        `pol`, the offsets, the sums, the snapshot, the counters, `preV` and
        `phaV`), held as one record. */
    var est: CycleState
    /** The multiplexer register `ADMUX`, as far as this class writes it. */
    var admux: bv8

    /** The members that `FuncISR` works on. */
    function Channels(): Sampler.Channels
      reads this, tDigIsr
    {
      Sampler.Channels(iChan, tDigIsr[..], admux)
    }

    /** The configuration bounds and the wiring between the members, all of
        which are fixed at construction. */
    predicate Wired()
    {
      rbDig.M == BufferSize && rbDig.N == 2 &&
      tDig.Length == 2 && tDigIsr.Length == 2 &&
      tDig != tDigIsr && tDig != rbDig.buffer && tDigIsr != rbDig.buffer &&
      105 < period < 8192 && 1 <= nCycl
    }

    /** The cycle index stays below `nCycl` and the channel index is 0 or 1. */
    predicate Indices()
      reads this
    {
      0 <= est.iCycl < nCycl && 0 <= iChan < 2
    }

    ghost predicate Valid()
      reads this, rbDig, rbDig.buffer
    {
      Wired() && Indices() && rbDig.Valid()
    }

    /** Stores the configuration. The other members start as in a
        zero-initialised object, except the polarity, which neither the
        constructor nor `Init` sets and which is therefore a parameter. */
    constructor (period: int, nCycl: int, vPin: bv8, cPin: bv8, vCal: real, cCal: real, pha: int,
                 pol: Polarity)
      requires 105 < period < 8192 && 1 <= nCycl
      ensures Valid() && fresh(rbDig) && fresh(rbDig.buffer) && fresh(tDig) && fresh(tDigIsr)
      ensures this.period == period && this.nCycl == nCycl && this.vPin == vPin && this.cPin == cPin
      ensures this.vCal == vCal && this.cCal == cCal && this.pha == pha
      ensures rbDig.Contents == [] && iChan == 0 && admux == 0
      ensures est == CycleState(pol, 0, 0, 0, 0, 0, 0, 0, 0, 0, 0, 0, 0, 0, 0, 0, 0, 0)
    {
      this.period, this.nCycl, this.vPin, this.cPin := period, nCycl, vPin, cPin;
      this.vCal, this.cCal, this.pha := vCal, cCal, pha;
      rbDig := new Ring.RingBuffer(BufferSize, 2);
      tDigIsr := new int[2](_ => 0);
      tDig := new int[2](_ => 0);
      iChan := 0;
      est := CycleState(pol, 0, 0, 0, 0, 0, 0, 0, 0, 0, 0, 0, 0, 0, 0, 0, 0, 0);
      admux := 0;
    }

    /** `Init`: the converter is set on the voltage input, then the member
        initial values: counters and sums at zero, offsets at the ADC
        mid-scale 510 << 8. The polarity, the snapshot sums and the ring
        buffer are left as they are. */
    method Init()
      requires Wired()
      modifies this
      ensures Indices() && iChan == 0
      ensures Sampler.Tracks(Channels(), vPin, cPin)
      ensures est == old(est).(iCycl := 0, nSum := 0, nSavSum := 0,
                               offV := 510 * 256, sumV := 0, sumVV := 0,
                               offC := 510 * 256, sumC := 0, sumCC := 0,
                               sumVC := 0, preV := 220 * 64)
    {
      admux := 0x40;
      admux := admux | vPin;
      est := est.(iCycl := 0);
      iChan := 0;
      est := est.(nSum := 0);
      est := est.(nSavSum := 0);
      est := est.(offV := 510 * 256);
      est := est.(sumV := 0);
      est := est.(sumVV := 0);
      est := est.(offC := 510 * 256);
      est := est.(sumC := 0);
      est := est.(sumCC := 0);
      est := est.(sumVC := 0);
      est := est.(preV := 220 * 64);
    }

    /** Drains the buffer: every queued pair is popped and processed once, in
        FIFO order, and the buffer is left empty. */
    method Process()
      requires Valid()
      modifies this, rbDig, tDig
      ensures Valid()
      ensures rbDig.Contents == []
      ensures est == Run(old(est), nCycl, pha, old(rbDig.Contents))
      ensures iChan == old(iChan) && admux == old(admux)
    {
      ghost var queued := rbDig.Contents;
      ghost var done := 0;
      while rbDig.Size() > 0
        invariant Valid()
        invariant 0 <= done <= |queued| && rbDig.Contents == queued[done..]
        invariant est == Run(old(est), nCycl, pha, queued[..done])
        invariant iChan == old(iChan) && admux == old(admux)
        decreases |rbDig.Contents|
      {
        rbDig.Pop(tDig);
        Sample(tDig[0], tDig[1]);
        assert queued[..done + 1][..done] == queued[..done];
        done := done + 1;
      }
      assert queued[..done] == queued;
    }

    /** The body of the `Process` loop for one popped pair of codes. */
    method Sample(vCode: int, cCode: int)
      requires 0 <= est.iCycl < nCycl
      modifies this
      ensures est == Next(old(est), nCycl, pha, vCode, cCode)
      ensures 0 <= est.iCycl < nCycl
      ensures iChan == old(iChan) && admux == old(admux)
    {
      ghost var s := est;
      // Voltage and current values (x256 and centred)
      est := est.(v := vCode * 256 - est.offV);
      est := est.(c := cCode * 256 - est.offC);
      HalfAlternance();
      Sums();
      CrossingKeepsValues(s, nCycl, pha, vCode, cCode);
    }

    /** The half alternance test on the centred voltage `V`. */
    method HalfAlternance()
      requires 0 <= est.iCycl < nCycl
      modifies this
      ensures est == Crossing(old(est), nCycl, old(est.v))
      ensures 0 <= est.iCycl < nCycl
      ensures iChan == old(iChan) && admux == old(admux)
    {
      if est.v >= 0 && est.pol == Negative {
        est := est.(pol := Positive);
        est := est.(iCycl := est.iCycl + 1);
        if est.iCycl == nCycl {
          est := est.(savSumVV := est.sumVV);
          est := est.(savSumCC := est.sumCC);
          est := est.(savSumVC := est.sumVC);
          est := est.(nSavSum := est.nSum);
          est := est.(sumVV := 0);
          est := est.(sumCC := 0);
          est := est.(sumVC := 0);
          est := est.(nSum := 0);
          est := est.(iCycl := 0);
        }
      } else if est.v < 0 && est.pol == Positive {
        est := est.(pol := Negative);
        est := est.(offV := est.offV + Shr(est.sumV, 12));
        est := est.(offC := est.offC + Shr(est.sumC, 12));
        est := est.(sumV := 0);
        est := est.(sumC := 0);
      }
    }

    /** The sums incrementation on the centred values `V` and `C`. */
    method Sums()
      modifies this
      ensures est == Accumulate(old(est), pha, old(est.v), old(est.c))
      ensures est.iCycl == old(est.iCycl) && iChan == old(iChan) && admux == old(admux)
    {
      est := est.(sumV := est.sumV + est.v);
      est := est.(v := Shr(est.v, 2));
      est := est.(sumVV := est.sumVV + Shr(est.v * est.v, 6));
      est := est.(sumC := est.sumC + est.c);
      est := est.(c := Shr(est.c, 2));
      est := est.(sumCC := est.sumCC + Shr(est.c * est.c, 6));
      est := est.(phaV := est.preV + Shr((est.v - est.preV) * pha, 8));
      est := est.(sumVC := est.sumVC + Shr(est.phaV * est.c, 6));
      est := est.(preV := est.v);
      est := est.(nSum := est.nSum + 1);
    }

    /** `FuncISR` with the conversion result `adc`: stores it for the current
        channel, pushes the pair into the buffer once it is complete (the
        push is dropped if the buffer is full), and selects the input of the
        next conversion, as written: the current input in every case
        (`Sampler.TickAsWritten`). */
    method FuncIsr(adc: int)
      requires Valid()
      modifies this, tDigIsr, rbDig, rbDig.buffer
      ensures Valid()
      ensures Channels() == Sampler.TickAsWritten(old(Channels()), adc, vPin, cPin).0
      ensures var out := Sampler.TickAsWritten(old(Channels()), adc, vPin, cPin).1;
        rbDig.Contents == if out.Some? then Fifo.Offer(old(rbDig.Contents), out.value, BufferSize)
                          else old(rbDig.Contents)
      ensures est == old(est)
    {
      tDigIsr[iChan] := adc;
      iChan := iChan + 1;
      if iChan == 2 {
        iChan := 0;
        admux := Sampler.Mux(vPin);
        assert tDigIsr[..2] == tDigIsr[..];
        rbDig.Push(tDigIsr);
      }
      admux := Sampler.Mux(cPin);
    }
  }

  /** The buffer of a monitor holds at most `M < 256` elements, each a
      (voltage, current) pair. */
  lemma QueueHoldsPairs(m: PowerMonitor)
    requires m.Valid()
    ensures |m.rbDig.Contents| <= BufferSize < 256
    ensures forall k :: 0 <= k < |m.rbDig.Contents| ==> |m.rbDig.Contents[k]| == 2
  {
  }
}
