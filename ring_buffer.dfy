/** The circular buffer `RingBuffer<M, N>`: M slots of N ints each, stored
    in one flat array that the head and tail pointers walk and wrap. Pointers
    are modelled as offsets from the start of the array. */
module Ring {
  import Fifo

  /** One pointer step over the slot indices: past the last slot, back to 0. */
  function Wrap(s: int, m: int): int
  {
    if s < m then s else s - m
  }

  /** Offset of slot `a` when every slot holds `n` cells: `a * n`, written
      as repeated addition so that the buffer invariant stays linear. */
  function Cells(a: nat, n: nat): nat
  {
    if a == 0 then 0 else Cells(a - 1, n) + n
  }

  lemma {:induction false} CellsIsProduct(a: nat, n: nat)
    ensures Cells(a, n) == a * n
  {
    if a > 0 {
      CellsIsProduct(a - 1, n);
    }
  }

  /** A slot lower in the array ends at or before the start of a higher one. */
  lemma {:induction false} CellsBelow(a: nat, b: nat, n: nat)
    requires a < b
    ensures Cells(a, n) + n <= Cells(b, n)
  {
    if a + 1 < b {
      CellsBelow(a, b - 1, n);
    }
  }

  /** A positive multiple of a positive number is at least that number. */
  lemma MulAtLeast(a: int, n: int)
    requires 1 <= a && 0 < n
    ensures n <= a * n
  {
  }

  /** Euclidean division is unique. */
  lemma DivModUnique(x: int, n: int, q: int, r: int)
    requires 0 < n && 0 <= r < n && x == q * n + r
    ensures x / n == q && x % n == r
  {
    var q', r' := x / n, x % n;
    assert x == q' * n + r';
    if q < q' {
      MulAtLeast(q' - q, n);
    } else if q' < q {
      MulAtLeast(q - q', n);
    }
  }

  /** Advancing a pointer past the N cells of slot `s`, and sending it back to
      the start once it has gone past the last cell, leaves it at the start
      of the next slot around the ring. */
  lemma PointerStep(s: nat, m: nat, n: nat)
    requires s < m && 0 < n
    ensures Wrap(s + 1, m) < m
    ensures Cells(Wrap(s + 1, m), n) == if Cells(s, n) + n > Cells(m, n) - 1 then 0 else Cells(s, n) + n
  {
    if s + 1 < m {
      CellsBelow(s + 1, m, n);
    } else {
      assert Cells(m, n) == Cells(s, n) + n;
    }
  }

  /** The `n` cells of slot `s` in the flat array `buf`. */
  function SlotOf(buf: seq<int>, s: nat, n: nat): (cells: seq<int>)
    requires Cells(s, n) + n <= |buf|
    ensures |cells| == n
  {
    buf[Cells(s, n) .. Cells(s, n) + n]
  }

  /** The `size` elements held in `buf` (of `m` slots), the oldest in slot
      `h` and each later one in the next slot around the ring. */
  function Queue(buf: seq<int>, m: nat, n: nat, h: nat, size: nat): (q: seq<seq<int>>)
    requires h < m && size <= m && |buf| == Cells(m, n)
    ensures |q| == size && forall k :: 0 <= k < size ==> |q[k]| == n
  {
    seq(size, k requires 0 <= k < size => SlotAt(buf, m, n, h, k))
  }

  /** The slot `k` steps after slot `h`, around the ring of `m` slots. */
  function SlotAt(buf: seq<int>, m: nat, n: nat, h: nat, k: nat): (cells: seq<int>)
    requires h < m && k < m && |buf| == Cells(m, n)
    ensures |cells| == n
  {
    CellsBelow(Wrap(h + k, m), m, n);
    SlotOf(buf, Wrap(h + k, m), n)
  }

  /** Element `k` of the queue is the slot `k` steps after the head. */
  lemma QueueAt(buf: seq<int>, m: nat, n: nat, h: nat, size: nat, k: nat)
    requires h < m && size <= m && |buf| == Cells(m, n) && k < size
    ensures Wrap(h + k, m) < m && Cells(Wrap(h + k, m), n) + n <= |buf|
    ensures Queue(buf, m, n, h, size)[k] == SlotOf(buf, Wrap(h + k, m), n)
  {
    CellsBelow(Wrap(h + k, m), m, n);
  }

  /** Removing the oldest element moves the head one slot on. */
  lemma QueueTail(buf: seq<int>, m: nat, n: nat, h: nat, size: nat)
    requires h < m && 0 < size <= m && |buf| == Cells(m, n)
    ensures Cells(h, n) + n <= |buf|
    ensures Queue(buf, m, n, h, size)[0] == SlotOf(buf, h, n)
    ensures Queue(buf, m, n, h, size)[1..] == Queue(buf, m, n, Wrap(h + 1, m), size - 1)
  {
    var q, q' := Queue(buf, m, n, h, size), Queue(buf, m, n, Wrap(h + 1, m), size - 1);
    QueueAt(buf, m, n, h, size, 0);
    forall k | 0 <= k < size - 1
      ensures q[1..][k] == q'[k]
    {
      QueueAt(buf, m, n, h, size, k + 1);
      QueueAt(buf, m, n, Wrap(h + 1, m), size - 1, k);
      assert Wrap(Wrap(h + 1, m) + k, m) == Wrap(h + (k + 1), m);
    }
  }

  /** Slots other than `t` read the same in two arrays that differ only in
      the cells of slot `t`. */
  lemma SlotOutside(buf: seq<int>, buf': seq<int>, m: nat, n: nat, s: nat, t: nat)
    requires s < m && t < m && s != t && |buf| == |buf'| == Cells(m, n)
    requires forall j :: 0 <= j < |buf| && !(Cells(t, n) <= j < Cells(t, n) + n) ==> buf'[j] == buf[j]
    ensures Cells(s, n) + n <= |buf| && SlotOf(buf', s, n) == SlotOf(buf, s, n)
  {
    CellsBelow(s, m, n);
    if s < t {
      CellsBelow(s, t, n);
    } else {
      CellsBelow(t, s, n);
    }
  }

  /** Writing `x` into the slot after the last element appends `x` and
      leaves the other elements as they were. */
  lemma QueueAppend(buf: seq<int>, buf': seq<int>, m: nat, n: nat, h: nat, size: nat, x: seq<int>)
    requires h < m && size < m && |buf| == |buf'| == Cells(m, n)
    requires Cells(Wrap(h + size, m), n) + n <= |buf|
    requires forall i :: 0 <= i < |buf| && !(Cells(Wrap(h + size, m), n) <= i < Cells(Wrap(h + size, m), n) + n) ==>
               buf'[i] == buf[i]
    requires SlotOf(buf', Wrap(h + size, m), n) == x
    ensures Queue(buf', m, n, h, size + 1) == Queue(buf, m, n, h, size) + [x]
  {
    var q', q := Queue(buf', m, n, h, size + 1), Queue(buf, m, n, h, size);
    forall k | 0 <= k < size + 1
      ensures q'[k] == (q + [x])[k]
    {
      QueueAt(buf', m, n, h, size + 1, k);
      if k < size {
        QueueAt(buf, m, n, h, size, k);
        SlotOutside(buf, buf', m, n, Wrap(h + k, m), Wrap(h + size, m));
      }
    }
  }

  class RingBuffer {
    /** Number of slots (template parameter M). */
    const M: nat
    /** Ints per slot (template parameter N). */
    const N: nat
    /** `buffer[M*N]`. */
    const buffer: array<int>
    /** Offset of `pEnd`, the last cell of the buffer. */
    const last: int
    /** Offsets of `pHead` and `pTail` from `pStart`. */
    var head: int
    var tail: int
    /** Number of queued elements. */
    var size: int

    /** The queued elements, oldest first, each a sequence of N ints. */
    ghost var Contents: seq<seq<int>>
    /** Slot indices that `head` and `tail` point at. */
    ghost var headSlot: nat
    ghost var tailSlot: nat

    ghost predicate Valid()
      reads this, buffer
    {
      0 < M && 0 < N && buffer.Length == Cells(M, N) && last == buffer.Length - 1 &&
      headSlot < M && tailSlot < M &&
      head == Cells(headSlot, N) && tail == Cells(tailSlot, N) &&
      0 <= size <= M && tailSlot == Wrap(headSlot + size, M) &&
      Contents == Queue(buffer[..], M, N, headSlot, size)
    }

    /** The buffer starts empty, with both pointers at its first cell. */
    constructor (m: nat, n: nat)
      requires 0 < m && 0 < n
      ensures Valid() && fresh(buffer)
      ensures M == m && N == n && Contents == []
      ensures size == 0 && head == 0 && tail == 0
    {
      M, N := m, n;
      CellsIsProduct(m, n);
      buffer := new int[m * n];
      last := m * n - 1;
      head, tail := 0, 0;
      size := 0;
      Contents := [];
      headSlot, tailSlot := 0, 0;
    }

    /** Number of elements. */
    function Size(): (n: int)
      reads this, buffer
      requires Valid()
      ensures n == |Contents| && 0 <= n <= M
    {
      size
    }

    /** Copies `t[0..N]` into the tail slot, unless the buffer is full, in
        which case nothing changes. */
    method Push(t: array<int>)
      requires Valid() && N <= t.Length && t != buffer
      modifies this, buffer
      ensures Valid()
      ensures Contents == Fifo.Offer(old(Contents), t[..N], M)
      ensures size == if old(size) < M then old(size) + 1 else old(size)
      ensures head == old(head)
      ensures old(size) == M ==> tail == old(tail) && buffer[..] == old(buffer[..])
      ensures forall i :: 0 <= i < buffer.Length && !(old(tail) <= i < old(tail) + N) ==>
                buffer[i] == old(buffer[i])
    {
      if size < M {
        CellsBelow(tailSlot, M, N);
        var p, i := tail, 0;
        while i < N
          modifies buffer
          invariant 0 <= i <= N
          invariant p == tail + i
          invariant forall j :: 0 <= j < i ==> buffer[tail + j] == t[j]
          invariant forall j :: 0 <= j < buffer.Length && !(tail <= j < tail + i) ==>
                      buffer[j] == old(buffer[j])
        {
          buffer[p] := t[i];
          p, i := p + 1, i + 1;
        }
        assert SlotOf(buffer[..], tailSlot, N) == t[..N];
        QueueAppend(old(buffer[..]), buffer[..], M, N, headSlot, size, t[..N]);
        if p > last {
          p := 0;
        }
        PointerStep(tailSlot, M, N);
        size := size + 1;
        tail := p;
        tailSlot := Wrap(tailSlot + 1, M);
        Contents := Contents + [t[..N]];
      }
    }

    /** Copies the oldest element into `t[0..N]` and removes it. The caller
        must first test that `Size() > 0`. */
    method Pop(t: array<int>)
      requires Valid() && 0 < size && N <= t.Length && t != buffer
      modifies this, t
      ensures Valid()
      ensures Contents == old(Contents[1..])
      ensures size == old(size) - 1 && tail == old(tail)
      ensures t[..N] == old(Contents[0]) && t[N..] == old(t[N..])
      ensures buffer[..] == old(buffer[..])
    {
      QueueTail(buffer[..], M, N, headSlot, size);
      var p, i := head, 0;
      while i < N
        modifies t
        invariant 0 <= i <= N
        invariant p == head + i
        invariant forall j :: 0 <= j < i ==> t[j] == buffer[head + j]
        invariant forall j :: i <= j < t.Length ==> t[j] == old(t[j])
      {
        t[i] := buffer[p];
        p, i := p + 1, i + 1;
      }
      assert t[..N] == SlotOf(buffer[..], headSlot, N);
      if p > last {
        p := 0;
      }
      PointerStep(headSlot, M, N);
      size := size - 1;
      head := p;
      headSlot := Wrap(headSlot + 1, M);
      Contents := Contents[1..];
    }
  }

  lemma MulDistrib(a: int, b: int, n: int)
    ensures (a + b) * n == a * n + b * n
  {
  }

  /** A multiple of `n` leaves no remainder. */
  lemma MultipleMod(a: int, n: int)
    requires 0 < n
    ensures (a * n) % n == 0
  {
    DivModUnique(a * n, n, a, 0);
  }

  /** The start of a slot lies inside an array of `m` slots. */
  lemma SlotStartInside(a: int, m: int, n: int)
    requires 0 <= a < m && 0 < n
    ensures 0 <= a * n < m * n
  {
    MulAtLeast(m - a, n);
    assert (m - a) * n == m * n - a * n;
  }

  /** Pointer arithmetic of the ring: offsets of slots `h` and `t` of N
      cells are multiples of N inside the array, and when `t` is `size` slots
      after `h` around the ring, its offset is `size * N` cells after that of
      `h`, modulo the array length. */
  lemma RingOffsets(h: nat, t: nat, size: nat, m: nat, n: nat)
    requires h < m && t < m && size <= m && 0 < n && t == Wrap(h + size, m)
    ensures 0 <= Cells(h, n) < m * n && Cells(h, n) % n == 0
    ensures 0 <= Cells(t, n) < m * n && Cells(t, n) % n == 0
    ensures Cells(t, n) == (Cells(h, n) + size * n) % (m * n)
  {
    CellsIsProduct(h, n);
    CellsIsProduct(t, n);
    MultipleMod(h, n);
    MultipleMod(t, n);
    SlotStartInside(h, m, n);
    SlotStartInside(t, m, n);
    MulDistrib(h, size, n);
    if h + size < m {
      DivModUnique(h * n + size * n, m * n, 0, t * n);
    } else {
      MulDistrib(t, m, n);
      DivModUnique(h * n + size * n, m * n, 1, t * n);
    }
  }

  /** Both pointers sit on a slot boundary inside the array, and the tail is
      `size` slots after the head, modulo the array length. */
  lemma PointerLayout(b: RingBuffer)
    requires b.Valid()
    ensures 0 <= b.head < b.M * b.N && b.head % b.N == 0
    ensures 0 <= b.tail < b.M * b.N && b.tail % b.N == 0
    ensures b.tail == (b.head + b.size * b.N) % (b.M * b.N)
  {
    RingOffsets(b.headSlot, b.tailSlot, b.size, b.M, b.N);
  }
}
