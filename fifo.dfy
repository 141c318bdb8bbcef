/** Abstract view of the bounded queue: a sequence of elements with a fixed
    capacity, where an enqueue on a full queue silently drops its element.
    The ring buffer's methods are specified against `Offer`; the lemmas below
    state what a whole run of pushes and pops does. */
module Fifo {

  /** Enqueue with drop-on-full: the element is appended only when the queue
      holds fewer than `cap` elements. */
  function Offer<T>(q: seq<T>, x: T, cap: nat): seq<T>
  {
    if |q| < cap then q + [x] else q
  }

  /** One operation of the single producer (`Put`) or the single consumer (`Take`). */
  datatype Op<T> = Put(x: T) | Take

  /** Every `Take` of the run meets a non-empty queue (the consumer tests the
      size before popping). */
  predicate Legal<T>(q: seq<T>, ops: seq<Op<T>>, cap: nat)
    decreases |ops|
  {
    ops == [] ||
    match ops[0]
    case Put(x) => Legal(Offer(q, x, cap), ops[1..], cap)
    case Take => |q| > 0 && Legal(q[1..], ops[1..], cap)
  }

  /** Queue contents after the run. */
  function Final<T>(q: seq<T>, ops: seq<Op<T>>, cap: nat): seq<T>
    requires Legal(q, ops, cap)
    decreases |ops|
  {
    if ops == [] then q
    else match ops[0]
      case Put(x) => Final(Offer(q, x, cap), ops[1..], cap)
      case Take => Final(q[1..], ops[1..], cap)
  }

  /** Elements handed to the consumer, in the order they were taken. */
  function Taken<T>(q: seq<T>, ops: seq<Op<T>>, cap: nat): seq<T>
    requires Legal(q, ops, cap)
    decreases |ops|
  {
    if ops == [] then []
    else match ops[0]
      case Put(x) => Taken(Offer(q, x, cap), ops[1..], cap)
      case Take => [q[0]] + Taken(q[1..], ops[1..], cap)
  }

  /** Elements of the `Put`s that were not dropped, in push order. */
  function Accepted<T>(q: seq<T>, ops: seq<Op<T>>, cap: nat): seq<T>
    requires Legal(q, ops, cap)
    decreases |ops|
  {
    if ops == [] then []
    else match ops[0]
      case Put(x) =>
        (if |q| < cap then [x] else []) + Accepted(Offer(q, x, cap), ops[1..], cap)
      case Take => Accepted(q[1..], ops[1..], cap)
  }

  /** Elements of all `Put`s of the run, dropped or not. */
  function Pushed<T>(ops: seq<Op<T>>): seq<T>
  {
    if ops == [] then []
    else match ops[0]
      case Put(x) => [x] + Pushed(ops[1..])
      case Take => Pushed(ops[1..])
  }

  /** Number of `Take`s of the run. */
  function Takes<T>(ops: seq<Op<T>>): nat
  {
    if ops == [] then 0
    else (if ops[0].Take? then 1 else 0) + Takes(ops[1..])
  }

  /** FIFO order: what the consumer took, followed by what is still queued, is
      exactly what was queued at the start followed by every accepted push. */
  lemma {:induction false} FifoOrder<T>(q: seq<T>, ops: seq<Op<T>>, cap: nat)
    requires Legal(q, ops, cap)
    ensures Taken(q, ops, cap) + Final(q, ops, cap) == q + Accepted(q, ops, cap)
    decreases |ops|
  {
    if ops != [] {
      match ops[0]
      case Put(x) =>
        FifoOrder(Offer(q, x, cap), ops[1..], cap);
      case Take =>
        var rest := ops[1..];
        FifoOrder(q[1..], rest, cap);
        calc {
          Taken(q, ops, cap) + Final(q, ops, cap);
          ([q[0]] + Taken(q[1..], rest, cap)) + Final(q[1..], rest, cap);
          [q[0]] + (Taken(q[1..], rest, cap) + Final(q[1..], rest, cap));
          [q[0]] + (q[1..] + Accepted(q[1..], rest, cap));
          { assert q == [q[0]] + q[1..]; }
          q + Accepted(q, ops, cap);
        }
    }
  }

  /** Occupancy never exceeds the capacity. */
  lemma {:induction false} Bounded<T>(q: seq<T>, ops: seq<Op<T>>, cap: nat)
    requires Legal(q, ops, cap) && |q| <= cap
    ensures |Final(q, ops, cap)| <= cap
    decreases |ops|
  {
    if ops != [] {
      match ops[0]
      case Put(x) => Bounded(Offer(q, x, cap), ops[1..], cap);
      case Take => Bounded(q[1..], ops[1..], cap);
    }
  }

  /** The consumer receives one element per `Take`. */
  lemma {:induction false} TakenCount<T>(q: seq<T>, ops: seq<Op<T>>, cap: nat)
    requires Legal(q, ops, cap)
    ensures |Taken(q, ops, cap)| == Takes(ops)
    decreases |ops|
  {
    if ops != [] {
      match ops[0]
      case Put(x) => TakenCount(Offer(q, x, cap), ops[1..], cap);
      case Take => TakenCount(q[1..], ops[1..], cap);
    }
  }

  /** When the pushes of the run cannot overflow the queue, none is dropped. */
  lemma {:induction false} NoDropBelowCapacity<T>(q: seq<T>, ops: seq<Op<T>>, cap: nat)
    requires Legal(q, ops, cap) && |q| + |Pushed(ops)| <= cap
    ensures Accepted(q, ops, cap) == Pushed(ops)
    decreases |ops|
  {
    if ops != [] {
      match ops[0]
      case Put(x) => NoDropBelowCapacity(Offer(q, x, cap), ops[1..], cap);
      case Take => NoDropBelowCapacity(q[1..], ops[1..], cap);
    }
  }

  /** Occupancy after a run whose pushes fit: the pushes minus the pops. */
  lemma Occupancy<T>(q: seq<T>, ops: seq<Op<T>>, cap: nat)
    requires Legal(q, ops, cap) && |q| + |Pushed(ops)| <= cap
    ensures |Final(q, ops, cap)| == |q| + |Pushed(ops)| - Takes(ops)
  {
    FifoOrder(q, ops, cap);
    TakenCount(q, ops, cap);
    NoDropBelowCapacity(q, ops, cap);
  }
}
