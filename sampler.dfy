/** The channel logic of `PowerMonitor::FuncISR`: each conversion result is
    stored in the pair slot of the current channel; once both channels are
    filled the channel index returns to 0 and the pair is pushed; then the
    next conversion is started on the input selected in the multiplexer
    register `ADMUX`. The conversion result is a parameter; the other
    converter and timer registers are not modelled. */
module Sampler {

  datatype Option<T> = None | Some(value: T)

  /** `iChan`, `tDigISR` and the `ADMUX` selection of the conversion under way. */
  datatype Channels = Channels(iChan: int, pair: seq<int>, mux: bv8)

  predicate Valid(s: Channels)
  {
    0 <= s.iChan < 2 && |s.pair| == 2
  }

  /** `0x40 | pin`: reference voltage AVcc, analog input `pin`. */
  function Mux(pin: bv8): bv8
  {
    0x40 | pin
  }

  /** The analog input whose conversions belong in slot `iChan`: voltage
      first, then current. */
  function PinOf(iChan: int, vPin: bv8, cPin: bv8): bv8
  {
    if iChan == 0 then vPin else cPin
  }

  /** The conversion under way is on the input of the slot it will fill. */
  predicate Tracks(s: Channels, vPin: bv8, cPin: bv8)
  {
    s.mux == Mux(PinOf(s.iChan, vPin, cPin))
  }

  /** The slot update and push decision shared by both versions of the
      interrupt below. */
  function Store(s: Channels, adc: int): (r: (Channels, Option<seq<int>>))
    requires Valid(s)
    ensures Valid(r.0) && r.0.mux == s.mux
  {
    var pair := s.pair[s.iChan := adc];
    if s.iChan + 1 == 2 then (Channels(0, pair, s.mux), Some(pair))
    else (Channels(s.iChan + 1, pair, s.mux), None)
  }

  /** One interrupt as written: the voltage input selected after a push is
      overwritten at once by the selection of the current input, made in
      every case, so the next conversion is always on the current input. */
  function TickAsWritten(s: Channels, adc: int, vPin: bv8, cPin: bv8): (r: (Channels, Option<seq<int>>))
    requires Valid(s)
    ensures Valid(r.0)
  {
    var (t, out) := Store(s, adc);
    (t.(mux := Mux(cPin)), out)
  }

  /** With distinct inputs on the lower six bits, the interrupt as written
      loses track after every push: the conversion started for the voltage
      slot is on the current input. */
  lemma AsWrittenSamplesCurrentForVoltage(s: Channels, adc: int, vPin: bv8, cPin: bv8)
    requires Valid(s) && s.iChan == 1 && vPin != cPin && vPin < 0x40 && cPin < 0x40
    ensures var (t, out) := TickAsWritten(s, adc, vPin, cPin);
      out.Some? && t.iChan == 0 && t.mux == Mux(cPin) && !Tracks(t, vPin, cPin)
  {
    var (t, out) := TickAsWritten(s, adc, vPin, cPin);
    assert t.mux == Mux(cPin);
    assert Mux(vPin) != Mux(cPin) by {
      assert Mux(vPin) & 0x3F == vPin && Mux(cPin) & 0x3F == cPin;
    }
  }

  /** One interrupt as intended: the voltage input is selected after a push,
      the current input otherwise. */
  function Tick(s: Channels, adc: int, vPin: bv8, cPin: bv8): (r: (Channels, Option<seq<int>>))
    requires Valid(s)
    ensures Valid(r.0)
  {
    var (t, out) := Store(s, adc);
    (t.(mux := if out.Some? then Mux(vPin) else Mux(cPin)), out)
  }

  /** One interrupt, as written (`intended` false) or with the intended
      selection (`intended` true). */
  function Interrupt(s: Channels, adc: int, vPin: bv8, cPin: bv8, intended: bool): (r: (Channels, Option<seq<int>>))
    requires Valid(s)
    ensures Valid(r.0)
  {
    if intended then Tick(s, adc, vPin, cPin) else TickAsWritten(s, adc, vPin, cPin)
  }

  /** Either way, the result lands in the slot of the current channel, the
      other slot is kept, and a pair is pushed exactly when the second
      channel completes it, voltage slot first. As written the next
      conversion is always on the current input; as intended it is on the
      input of the slot it will fill. */
  lemma TickStoresAndPushes(s: Channels, adc: int, vPin: bv8, cPin: bv8, intended: bool)
    requires Valid(s)
    ensures var r := Interrupt(s, adc, vPin, cPin, intended);
      r.0.pair[s.iChan] == adc && r.0.pair[1 - s.iChan] == s.pair[1 - s.iChan] &&
      (r.1.Some? <==> s.iChan == 1) &&
      (r.1.Some? ==> r.1.value == [s.pair[0], adc] && r.0.iChan == 0) &&
      (r.1.None? ==> r.0.iChan == 1) &&
      (intended ==> Tracks(r.0, vPin, cPin)) &&
      (!intended ==> r.0.mux == Mux(cPin))
  {
  }

  /** The channel states and pushed pairs of successive interrupts. */
  function Ticks(s: Channels, adcs: seq<int>, vPin: bv8, cPin: bv8, intended: bool): (Channels, seq<seq<int>>)
    requires Valid(s)
    decreases |adcs|
  {
    if adcs == [] then (s, [])
    else
      var (s1, out) := Interrupt(s, adcs[0], vPin, cPin, intended);
      var (s2, outs) := Ticks(s1, adcs[1..], vPin, cPin, intended);
      (s2, (if out.Some? then [out.value] else []) + outs)
  }

  /** Consecutive results grouped two by two, an odd last one left out. */
  function Pairs(adcs: seq<int>): seq<seq<int>>
    decreases |adcs|
  {
    if |adcs| < 2 then [] else [[adcs[0], adcs[1]]] + Pairs(adcs[2..])
  }

  lemma {:induction false} PairsCount(adcs: seq<int>)
    ensures |Pairs(adcs)| == |adcs| / 2
    decreases |adcs|
  {
    if |adcs| >= 2 {
      PairsCount(adcs[2..]);
    }
  }

  /** Starting on channel 0, the interrupts, as written or as intended,
      push one pair per two results: the results taken two by two, in
      order, and end on channel 0 or 1 as the number of results is even or
      odd. */
  lemma {:induction false} TicksPushPairs(s: Channels, adcs: seq<int>, vPin: bv8, cPin: bv8, intended: bool)
    requires Valid(s) && s.iChan == 0
    ensures Ticks(s, adcs, vPin, cPin, intended).1 == Pairs(adcs)
    ensures Ticks(s, adcs, vPin, cPin, intended).0.iChan == |adcs| % 2
    ensures |Ticks(s, adcs, vPin, cPin, intended).1| == |adcs| / 2
    decreases |adcs|
  {
    PairsCount(adcs);
    if |adcs| >= 2 {
      var s1 := Interrupt(s, adcs[0], vPin, cPin, intended).0;
      var s2 := Interrupt(s1, adcs[1], vPin, cPin, intended).0;
      TicksPushPairs(s2, adcs[2..], vPin, cPin, intended);
      assert adcs[1..][1..] == adcs[2..];
      var pushed := s.pair[0 := adcs[0]][1 := adcs[1]];
      assert s1 == Channels(1, s.pair[0 := adcs[0]], Mux(cPin));
      assert pushed == [adcs[0], adcs[1]];
      assert Interrupt(s1, adcs[1], vPin, cPin, intended).1 == Some(pushed);
      assert Ticks(s1, adcs[1..], vPin, cPin, intended).1
          == [[adcs[0], adcs[1]]] + Ticks(s2, adcs[2..], vPin, cPin, intended).1;
    } else if |adcs| == 1 {
      assert Ticks(Interrupt(s, adcs[0], vPin, cPin, intended).0, adcs[1..], vPin, cPin, intended).1 == [];
    }
  }

  /** With the intended selection, once the conversion under way is on the
      input of the slot it will fill, this holds after any number of
      interrupts. */
  lemma {:induction false} TicksTrack(s: Channels, adcs: seq<int>, vPin: bv8, cPin: bv8)
    requires Valid(s) && Tracks(s, vPin, cPin)
    ensures Tracks(Ticks(s, adcs, vPin, cPin, true).0, vPin, cPin)
    decreases |adcs|
  {
    if adcs != [] {
      TickStoresAndPushes(s, adcs[0], vPin, cPin, true);
      TicksTrack(Tick(s, adcs[0], vPin, cPin).0, adcs[1..], vPin, cPin);
    }
  }
}
