// src/core/memory/lock_free_queue.h, run by one thread: the sequence-number ring
// buffer refines a bounded FIFO. QueueProtocol.dfy treats the concurrent runs.
module LockFreeQueue {
  import opened Bits

  class RingBuffer<T(0)> {
    const capacity: nat
    const mask: nat
    var head: nat
    var tail: nat
    const sequence: array<nat>
    const data: array<T>
    // The queued values, oldest first.
    ghost var Contents: seq<T>

    ghost predicate Valid()
      reads this, sequence, data
    {
      && Sized()
      && tail <= head <= tail + capacity
      && |Contents| == head - tail
      && forall p: nat :: tail <= p < tail + capacity ==> Slot(p)
    }

    ghost predicate Sized()
      reads this
    {
      && capacity >= 2 && Masks(mask, capacity)
      && sequence.Length == data.Length == capacity && sequence as object != data as object
    }

    ghost function Index(p: nat): (i: nat)
      requires capacity > 0
      ensures i < capacity
    {
      p % capacity
    }

    // What the cell of position p holds while p is within one lap of the tail.
    ghost predicate Slot(p: nat)
      reads this, sequence, data
      requires capacity > 0 && sequence.Length == data.Length == capacity
      requires tail <= p < tail + capacity && |Contents| == head - tail
    {
      if p < head
      then sequence[Index(p)] == p + 1 && data[Index(p)] == Contents[p - tail]
      else sequence[Index(p)] == p
    }

    // A request of 0 or 1 gives a ring of one cell, which is no bounded queue: see
    // QueueProtocol.BoundedIffTwoCells. Beyond 2^63 the capacity wraps to 0.
    constructor (requested: nat)
      requires requested < Pow2(WORD)
      ensures fresh(sequence) && fresh(data) && head == tail == 0 && Contents == []
      ensures sequence.Length == data.Length == capacity && forall i :: 0 <= i < capacity ==> sequence[i] == i
      ensures 1 <= requested <= Pow2(WORD - 1) ==> LeastPow2(capacity, requested) && Masks(mask, capacity)
      ensures requested == 0 ==> capacity == 1 && mask == 0
      ensures requested > Pow2(WORD - 1) ==> capacity == 0 && mask == Pow2(WORD) - 1
      ensures 2 <= requested <= Pow2(WORD - 1) ==> Valid()
    {
      var cap := RoundUpPow2(requested);
      var cells := FirstSequences(cap);
      capacity, mask := cap, if cap == 0 then Pow2(WORD) - 1 else cap - 1;
      head, tail, Contents := 0, 0, [];
      sequence, data := cells, new T[cap];
      new;
      if cap >= 2 { FirstValid(); }
    }

    lemma FirstValid()
      requires capacity >= 2 && Masks(mask, capacity) && sequence.Length == data.Length == capacity
      requires sequence as object != data as object && head == tail == 0 && Contents == []
      requires forall i :: 0 <= i < capacity ==> sequence[i] == i
      ensures Valid()
    {
      FirstLap(capacity);
    }

    static method FirstSequences(cap: nat) returns (cells: array<nat>)
      ensures fresh(cells) && cells.Length == cap && forall i :: 0 <= i < cap ==> cells[i] == i
    {
      cells := new nat[cap];
      for i := 0 to cap
        invariant forall j :: 0 <= j < i ==> cells[j] == j
      {
        cells[i] := i;
      }
    }

    static lemma FirstLap(cap: nat)
      requires cap > 0
      ensures forall p: nat :: p < cap ==> p % cap == p
    {
    }

    lemma Slots(p: nat)
      requires Sized()
      ensures And(p, mask) == Index(p) && Index(p + capacity) == Index(p)
      ensures forall q: nat {:trigger Index(q)} :: q != p && q < p + capacity && p < q + capacity ==>
          Index(q) != Index(p)
    {
      MaskModulo(p, mask, capacity);
      SlotNextLap(p, capacity);
      forall q: nat | q != p && q < p + capacity && p < q + capacity
        ensures Index(q) != Index(p)
      {
        if Index(q) == Index(p) {
          if q < p { SlotUnique(q, p, capacity); } else { SlotUnique(p, q, capacity); }
        }
      }
    }

    method TryPush(value: T) returns (ok: bool)
      requires Valid()
      modifies `head, `Contents, sequence, data
      ensures Valid()
      ensures ok <==> |old(Contents)| < capacity
      ensures Contents == if ok then old(Contents) + [value] else old(Contents)
    {
      var pos := head;
      Slots(tail);
      Slots(pos);
      assert Slot(if pos < tail + capacity then pos else tail);
      var cell := And(pos, mask);
      var diff := sequence[cell] - pos;
      if diff < 0 { return false; }
      assert diff == 0;
      head := pos + 1;
      data[cell] := value;
      sequence[cell] := pos + 1;
      Contents := Contents + [value];
      ok := true;
      forall p: nat | tail <= p < tail + capacity ensures Slot(p) {
        assert old(Slot(p));
      }
    }

    method TryPop() returns (ok: bool, value: T)
      requires Valid()
      modifies `tail, `Contents, sequence, data
      ensures Valid()
      ensures ok <==> old(Contents) != []
      ensures ok ==> old(Contents) == [value] + Contents
      ensures !ok ==> Contents == old(Contents)
    {
      var pos := tail;
      Slots(pos);
      assert Slot(pos);
      var cell := And(pos, mask);
      var diff := sequence[cell] - (pos + 1);
      if diff < 0 { return false, data[cell]; }
      assert diff == 0;
      tail := pos + 1;
      value := data[cell];
      sequence[cell] := pos + capacity;
      Contents := Contents[1..];
      ok := true;
      forall p: nat | tail <= p < tail + capacity ensures Slot(p) {
        if p < pos + capacity { assert old(Slot(p)); }
      }
    }

    function SizeApprox(): (n: nat)
      reads this, sequence, data
      ensures Valid() ==> n == |Contents|
    {
      if head >= tail then head - tail else 0
    }

    predicate AboveHighWatermark(ratio: real)
      reads this, sequence, data
      requires ratio >= 0.0
    {
      SizeApprox() > Mark(capacity, ratio)
    }

    predicate BelowLowWatermark(ratio: real)
      reads this, sequence, data
      requires ratio >= 0.0
    {
      SizeApprox() < Mark(capacity, ratio)
    }
  }

  ghost predicate Masks(mask: nat, capacity: nat) {
    IsPow2(capacity) && mask == capacity - 1
  }

  /** Masking a position with capacity - 1 is taking it modulo the capacity. */
  lemma MaskModulo(p: nat, mask: nat, capacity: nat)
    requires Masks(mask, capacity)
    ensures capacity > 0 && And(p, mask) == p % capacity
  {
    var k :| capacity == Pow2(k);
    AndMask(p, k);
  }

  // static_cast<size_t>(capacity * ratio)
  function Mark(capacity: nat, ratio: real): nat
    requires ratio >= 0.0
  {
    (capacity as real * ratio).Floor
  }

  /** The greatest whole number not above capacity * ratio. */
  lemma MarkIs(capacity: nat, ratio: real, m: nat)
    requires ratio >= 0.0
    ensures Mark(capacity, ratio) == m <==> m as real <= capacity as real * ratio < (m + 1) as real
  {
    assert (m + 1) as real == m as real + 1.0;
  }
}
