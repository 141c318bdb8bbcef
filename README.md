# PowerMonitor core in Dafny

This project models the sampling and estimation core of the Arduino
`PowerMonitor` library, which estimates rms voltage, rms current and real
power from two analog inputs.

- A timer interrupt (`FuncISR`) reads one converter result per call. It
  stores the result in a two-slot pair, whose first slot is meant for the
  voltage and second for the current, and pushes the complete pair into a
  `RingBuffer<M, 2>`. As written, every conversion after the first pair is
  on the current input, so the voltage slot of every later pair holds a
  current reading (see Findings).
- The main loop (`Process`) drains the buffer. For every pair it centres
  both values against running DC offsets and detects the zero crossings of
  the voltage. At every `nCycl`-th rising edge it takes a snapshot of the
  sums of squares and products. At every falling edge it updates the
  offsets with a `>> 12` low-pass step. It also accumulates fixed-point
  sums, with a linear phase correction of the voltage by `pha`.

Files:

- `fifo.dfy` (module `Fifo`) is the abstract bounded queue. `Offer` is an
  enqueue that drops its element when the queue is full. Lemmas relate a
  whole run of puts and takes: FIFO order, the bound, the count of taken
  elements, no drop below capacity, and occupancy.
- `ring_buffer.dfy` (module `Ring`) is the class `RingBuffer` over one flat
  `array<int>` of `M*N` cells.
  - `pHead` and `pTail` are cell offsets `head` and `tail`, and `pEnd` is
    `last`.
  - A ghost `Contents` holds the queued slots, oldest first.
  - `Push` and `Pop` copy cell by cell with a loop, as the source does. They
    are proved against `Fifo.Offer` and against removing the head.
- `estimator.dfy` (module `Estimator`) gives the per-sample logic of
  `Process` as pure functions on the record `CycleState`:
  - `Centre` for the centring (PowerMonitor.cpp:91-92);
  - `Crossing` for the half alternance test (PowerMonitor.cpp:94-127);
  - `Accumulate` for the sums (PowerMonitor.cpp:129-139);
  - `Next` for one pair (PowerMonitor.cpp:90-139), and `Run` for a
    sequence of pairs (PowerMonitor.cpp:78-145).

  Right shifts are `Shr`, a floor division by a power of two, which is what
  an arithmetic shift computes. `<< 8` is a multiplication by 256.
- `sampler.dfy` (module `Sampler`) gives the channel logic of `FuncISR` as
  pure functions, including the multiplexer selection of the next
  conversion. `TickAsWritten` is the code as written
  (PowerMonitor.cpp:187-198). `Tick` is the intended selection (see
  Findings). The lemmas about runs of interrupts
  cover both.
- `power_monitor.dfy` (module `Monitor`) is the class `PowerMonitor`.
  - The configuration members are `const`.
  - The members that `Process` reads and writes are held as one record
    field `est : CycleState`. Each source assignment is one in-place update
    of that record.
  - `Process` is the drain loop. Its body `Sample` is split into
    `HalfAlternance` and `Sums`, as the source's two commented sections.
    Each part is proved against the corresponding function of `Estimator`.
  - `FuncIsr` is proved against `Sampler.TickAsWritten` and `Fifo.Offer`.

The interrupt and the main loop are modelled as separate sequential calls on
the same object.

The polarity `pol` is set neither by the constructor nor by `Init`, so its
initial value is a constructor parameter. A zero-initialised global object
starts at `Positive`. All other members start at zero.

## Model

| member | source | states |
|---|---|---|
| Fifo.FifoOrder | Librairies/RingBuffer.hpp:31-46 | the pairs handed to the consumer, followed by those still queued, are the pairs queued at the start followed by every push that was not dropped, in order |
| Fifo.Bounded | Librairies/RingBuffer.hpp:33-35 | starting within capacity, no run of pushes and pops takes the occupancy above `M` |
| Fifo.TakenCount | Librairies/RingBuffer.hpp:41-44 | each pop hands exactly one element to the consumer |
| Fifo.NoDropBelowCapacity | Librairies/RingBuffer.hpp:33-38 | when the pushes of a run cannot overflow the buffer, every pushed element is accepted |
| Fifo.Occupancy | Librairies/RingBuffer.hpp:31-46 | in such a run the final occupancy is the initial one plus the pushes minus the pops |
| Ring.RingBuffer.constructor | Librairies/RingBuffer.hpp:18-25 | the buffer has `M*N` cells and starts empty, with head and tail both at the start of the array |
| Ring.RingBuffer.Size | Librairies/RingBuffer.hpp:28 | the size is the number of queued slots and lies in `0..M` |
| Ring.RingBuffer.Push | Librairies/RingBuffer.hpp:31-39 | below capacity, the first `N` ints of `t` become the new last slot and the size grows by one; on a full buffer, the size, the tail and every cell are unchanged; only the `N` cells at the old tail are written; the invariant holds after the call |
| Ring.RingBuffer.Pop | Librairies/RingBuffer.hpp:41-46 | requires a non-empty buffer; the oldest slot is copied into `t[..N]`, it leaves the queue, the size drops by one, and the buffer cells and the rest of `t` are unchanged |
| Ring.PointerStep | Librairies/RingBuffer.hpp:36-37 | moving a pointer one slot past `pEnd` brings it back to the start of the array, and otherwise advances it by `N` cells |
| Ring.PointerLayout | Librairies/RingBuffer.hpp:20-45 | head and tail are multiples of `N` in `[0, M*N)`, and `tail == (head + size*N) mod (M*N)` |
| Estimator.Shr | Librairies/PowerMonitor.cpp:123-137 | `x >> k` is the floor of `x / 2^k`: the result times `2^k` is at most `x` and is more than `x - 2^k` |
| Estimator.PolarityFollowsSign | Librairies/PowerMonitor.cpp:95-127 | after each sample the polarity is positive exactly when the centred voltage is not negative |
| Estimator.CycleIndexBounded | Librairies/PowerMonitor.cpp:100-115 | a rising edge advances `iCycl` modulo `nCycl`, no other sample moves it, and it stays in `[0, nCycl)` |
| Estimator.SnapshotAtWindowEnd | Librairies/PowerMonitor.cpp:101-115 | at the `nCycl`-th rising edge the snapshot takes the window's sums and count from before the sample, and the new window holds this sample alone; at every other sample the snapshot is unchanged |
| Estimator.OffsetTracking | Librairies/PowerMonitor.cpp:117-133 | on a falling edge the offsets move by the running sums `>> 12`, and the running sums restart at this sample's centred values; on other samples the offsets stay and the running sums add the centred values |
| Estimator.SquareSumsGrow | Librairies/PowerMonitor.cpp:129-139 | each sample adds one to `nSum` and a non-negative `(V>>2)^2 >> 6` term to `sumVV` (likewise for the current), so between snapshots both sums only grow |
| Estimator.NoPhaseShift | Librairies/PowerMonitor.cpp:136-138 | with `pha == 256` the shifted voltage is the current voltage, and the product sum adds `(V*C) >> 6` of the downscaled values |
| Estimator.PhaseInterpolates | Librairies/PowerMonitor.h:29 | with `pha` in `0..256` the shifted voltage lies between the previous and the current voltage |
| Estimator.PhaseRightShift | Librairies/PowerMonitor.h:29 | with any `pha` up to 256, negative ones included, the shifted voltage stays on the side of the previous voltage and does not pass the current one |
| Estimator.PhaseExtrapolates | Librairies/PowerMonitor.h:29 | with `pha` of 256 or more the shifted voltage lies beyond the current voltage, on the side away from the previous one |
| Estimator.CrossingKeepsValues | Librairies/PowerMonitor.cpp:90-139 | storing the centred values first, then running the crossing test and the sums, is one sample `Next` |
| Estimator.RunCycleIndexBounded | Librairies/PowerMonitor.cpp:78-115 | over any sequence of samples `iCycl` stays in `[0, nCycl)` |
| Estimator.PartialWindowKeepsSnapshot | Librairies/PowerMonitor.cpp:78-139 | samples with fewer rising edges than the cycles left in the window keep the snapshot, add the rising edges to `iCycl` and add one per sample to `nSum` |
| Sampler.TickStoresAndPushes | Librairies/PowerMonitor.cpp:187-198 | as written and as intended, the result goes into the slot of the current channel and the other slot is kept; a pair is pushed exactly when the second slot is filled, it is then (first slot, result) and the channel is back at 0; as written the next conversion is always on the current input, as intended it is on the input of the slot it will fill |
| Sampler.PairsCount | Librairies/PowerMonitor.cpp:187-195 | `k` results make `k / 2` complete pairs |
| Sampler.TicksPushPairs | Librairies/PowerMonitor.cpp:187-195 | from channel 0, a run of interrupts, as written or as intended, pushes the results two by two, in order, one pair per two calls, and ends on channel `k mod 2` |
| Sampler.AsWrittenSamplesCurrentForVoltage | Librairies/PowerMonitor.cpp:193-198 | as written, after every push the next conversion, whose result fills the voltage slot, is started on the current input |
| Sampler.TicksTrack | Librairies/PowerMonitor.cpp:193-198 | with the intended selection, once the conversion under way is on the input of the slot it will fill, this holds after every later interrupt |
| Monitor.PowerMonitor.constructor | Librairies/PowerMonitor.cpp:20-30 | requires the documented bounds `105 < period < 8192` and `nCycl >= 1`; stores the configuration unchanged; the buffer is empty, the channel is 0 and the estimator state is zero apart from the given polarity |
| Monitor.QueueHoldsPairs | Librairies/PowerMonitor.h:8-64 | the buffer of the monitor holds at most `M = 100 < 256` elements, each of two ints, which follows from the ring buffer's invariant with `N = 2` |
| Monitor.PowerMonitor.Init | Librairies/PowerMonitor.cpp:52-63 | resets exactly `iCycl`, `iChan`, `nSum`, `nSavSum`, the sums (not the snapshot sums) and `preV`, and sets both offsets to `510 << 8`; the polarity and the buffer are untouched, and the converter is set on the voltage input |
| Monitor.PowerMonitor.Process | Librairies/PowerMonitor.cpp:78-145 | every queued pair is popped and processed exactly once, oldest first: the estimator state ends as `Run` of the queued pairs, the buffer ends empty, and the interrupt state is untouched |
| Monitor.PowerMonitor.Sample | Librairies/PowerMonitor.cpp:90-139 | one popped pair moves the estimator state to `Next`, centring with the offsets from before the sample, and `iCycl` stays below `nCycl` |
| Monitor.PowerMonitor.HalfAlternance | Librairies/PowerMonitor.cpp:94-127 | the in-place crossing test produces `Crossing` of the state before it |
| Monitor.PowerMonitor.Sums | Librairies/PowerMonitor.cpp:129-139 | the in-place sums incrementation produces `Accumulate` of the state before it |
| Monitor.PowerMonitor.FuncIsr | Librairies/PowerMonitor.cpp:184-200 | the result is stored, the channel advanced and the next input selected as `Sampler.TickAsWritten` says, so the call always ends with the current input selected; a complete pair is offered to the buffer, and is dropped when the buffer is full; the estimator state is untouched |

## Left out

- The interrupt vector, the global `pPowerMonitor` pointer and the `friend` declaration are not modelled. `FuncISR` is an ordinary method.
- The `cli()`/`sei()` pair around `Pop` is not modelled, and neither is any other interleaving of the interrupt with `Process`. The two are sequential calls here.
- The converter and timer registers (`ADCSRA`, `TCCR1A`, `TCCR1B`, `ICR1`, `TIMSK1`) and `delay` are not modelled. `ADMUX` is kept only as the selected input. The conversion result is a parameter of `FuncIsr`.
- The mapping of Arduino pin names such as `A0` to multiplexer codes is not modelled. The pins are the bytes written into `ADMUX`.
- `RmsVoltage`, `RmsCurrent` and `RealPower` are not modelled. They use floating point and `sqrt`, and divide by `nSavSum`, which is 0 before the first snapshot. `vCal` and `cCal` are only stored.
- The `TESTING` diagnostics are not modelled: `maxSize`, `maxProcTime`, `micros`, `MaxSize`, `NbSamples` and `MaxProcTime`.
- Monitor.PowerMonitor.Sums: does not model the 32-bit `long` and 16-bit `int` wrap-around of the accumulators, the offsets and `nSum`. The integers are mathematical, and the source has no guard.
- Ring.RingBuffer.Pop: the declared `int` result is not modelled. The source returns nothing and the caller ignores it.
- Ring.RingBuffer.Pop: the precondition "test `Size() > 0` first" is a `requires`. Over whole runs it is `Fifo.Legal`.
- The members that `Process` updates are one record field of the class rather than separate fields. Their aliasing is not relevant, since nothing else refers to them.

## Findings

| source | as written | input that shows it | evidently intended | confidence | as-written member | corrected member |
|---|---|---|---|---|---|---|
| Librairies/PowerMonitor.cpp:193-198 | After a push, line 193 selects the voltage input, then line 198 selects the current input in every case. So every conversion after the first pair is on the current input, and the voltage slot of each later pair holds a current reading. | `VPin = 0`, `CPin = 1`, an interrupt with `iChan == 1` | select the current input only when no pair was pushed (an `else` to the `if` at line 190) | medium; not executed | Sampler.AsWrittenSamplesCurrentForVoltage | Sampler.TicksTrack |
