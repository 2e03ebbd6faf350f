// src/core/engine/async_channel.h, run by one thread: drop policies, statistics and
// the hysteresis of the backpressure flag. ChannelProtocol.dfy treats concurrent runs.
module AsyncChannel {
  import opened Wrappers
  import opened LockFreeQueue
  import opened Bits
  import opened QueueProtocol
  import opened ChannelProtocol

  // The flag after an operation that leaves the given size behind.
  function Hysteresis(flag: bool, size: nat, high: nat, low: nat): bool {
    if !flag && size > high then true else if flag && size < low then false else flag
  }

  // How often the flag went up, starting from false.
  function Rises(flags: seq<bool>): nat {
    if flags == [] then 0
    else
      var n := |flags| - 1;
      Rises(flags[..n]) + if flags[n] && (n == 0 || !flags[n - 1]) then 1 else 0
  }

  lemma {:induction false} RisesAppend(flags: seq<bool>, flag: bool)
    ensures Rises(flags + [flag]) == Rises(flags) + if flag && (flags == [] || !flags[|flags| - 1]) then 1 else 0
  {
    assert (flags + [flag])[..|flags|] == flags;
  }

  // What the pops so far pay for: a full swing from above high to below low for each
  // completed rise, and for a raised flag the way already gone.
  ghost predicate Paid(events: nat, flag: bool, size: nat, pops: nat, high: nat, low: nat) {
    && (flag ==> events >= 1)
    && (low <= high ==>
          var gone := if size <= high then high + 1 - size else 0;
          pops >= (if flag then Cost(events - 1, high, low) + gone else Cost(events, high, low)))
  }

  ghost function Cost(swings: nat, high: nat, low: nat): nat
    requires low <= high
  {
    if swings == 0 then 0 else Cost(swings - 1, high, low) + (high - low + 2)
  }

  lemma {:induction false} CostProduct(swings: nat, high: nat, low: nat)
    requires low <= high
    ensures Cost(swings, high, low) == swings * (high - low + 2)
  {
    if swings > 0 { CostProduct(swings - 1, high, low); }
  }

  lemma PaidUpdate(events: nat, flag: bool, size: nat, pops: nat, high: nat, low: nat)
    requires Paid(events, flag, size, pops, high, low)
    ensures var flag' := Hysteresis(flag, size, high, low);
      Paid(if flag' && !flag then events + 1 else events, flag', size, pops, high, low)
  {
  }

  lemma PaidMoves(events: nat, flag: bool, size: nat, pops: nat, high: nat, low: nat)
    requires Paid(events, flag, size, pops, high, low)
    ensures Paid(events, flag, size + 1, pops, high, low)
    ensures size > 0 ==> Paid(events, flag, size - 1, pops + 1, high, low)
    ensures size > 0 ==> Paid(events, flag, size, pops + 1, high, low)
  {
  }

  class AsyncChannel {
    const queue: RingBuffer<Item>
    const policy: DropPolicy
    const highWm: real
    const lowWm: real
    var backpressured: bool
    var enqueued: nat
    var dropped: nat
    var dequeued: nat
    var flushInjected: nat
    var backpressureEvents: nat
    // Items popped to make room, and the flag after each operation.
    ghost var evicted: nat
    ghost var flags: seq<bool>

    ghost function High(): nat
      requires highWm >= 0.0
    {
      Mark(queue.capacity, highWm)
    }

    ghost function Low(): nat
      requires lowWm >= 0.0
    {
      Mark(queue.capacity, lowWm)
    }

    ghost predicate Valid()
      reads this, queue, queue.sequence, queue.data
    {
      && queue.Valid() && Tracked()
      && evicted <= dropped
      && enqueued + flushInjected == dequeued + evicted + |queue.Contents|
    }

    constructor (capacity: nat, policy: DropPolicy, highWm: real, lowWm: real)
      requires 1 < capacity <= Pow2(WORD - 1) && highWm >= 0.0 && lowWm >= 0.0
      ensures Valid() && fresh(queue) && fresh(queue.sequence) && fresh(queue.data)
      ensures queue.Contents == [] && LeastPow2(queue.capacity, capacity)
      ensures this.policy == policy && this.highWm == highWm && this.lowWm == lowWm
    {
      this.queue := new RingBuffer(capacity);
      this.policy, this.highWm, this.lowWm := policy, highWm, lowWm;
      backpressured := false;
      enqueued, dropped, dequeued, flushInjected, backpressureEvents := 0, 0, 0, 0, 0;
      evicted, flags := 0, [];
    }

    // The part of Valid that UpdateBackpressure keeps up to date.
    ghost predicate Tracked()
      reads this, queue
    {
      && highWm >= 0.0 && lowWm >= 0.0 && |queue.Contents| <= queue.capacity
      && Paid(backpressureEvents, backpressured, |queue.Contents|, dequeued + evicted, High(), Low())
      && backpressureEvents == Rises(flags)
      && backpressured == (flags != [] && flags[|flags| - 1])
    }

    method UpdateBackpressure()
      requires queue.Valid() && Tracked()
      modifies `backpressured, `backpressureEvents, `flags
      ensures Tracked()
      ensures flags == old(flags) + [Hysteresis(old(backpressured), |queue.Contents|, High(), Low())]
      ensures !old(backpressured) ==> (backpressured <==> |queue.Contents| > High())
      ensures old(backpressured) ==> (backpressured <==> |queue.Contents| >= Low())
      ensures backpressureEvents == old(backpressureEvents) + if backpressured && !old(backpressured) then 1 else 0
    {
      PaidUpdate(backpressureEvents, backpressured, |queue.Contents|, dequeued + evicted, High(), Low());
      RisesAppend(flags, Hysteresis(backpressured, |queue.Contents|, High(), Low()));
      var was := backpressured;
      if !was && queue.AboveHighWatermark(highWm) {
        backpressured := true;
        backpressureEvents := backpressureEvents + 1;
      } else if was && queue.BelowLowWatermark(lowWm) {
        backpressured := false;
      }
      flags := flags + [backpressured];
    }

    // A full queue gives up its oldest item.
    method Evict()
      requires queue.Valid() && Tracked() && |queue.Contents| == queue.capacity
      modifies `dropped, `evicted, queue, queue.sequence, queue.data
      ensures queue.Valid() && Tracked() && queue.Contents == old(queue.Contents)[1..]
      ensures dropped == old(dropped) + 1 && evicted == old(evicted) + 1
    {
      PaidMoves(backpressureEvents, backpressured, |queue.Contents|, dequeued + evicted, High(), Low());
      var popped, discarded := queue.TryPop();
      if popped { dropped, evicted := dropped + 1, evicted + 1; }
    }

    method PushBatch(b: nat) returns (ok: bool)
      requires queue.Valid() && Tracked()
      modifies `enqueued, `backpressured, `backpressureEvents, `flags, queue, queue.sequence, queue.data
      ensures queue.Valid() && Tracked()
      ensures ok <==> |old(queue.Contents)| < queue.capacity
      ensures queue.Contents == if ok then old(queue.Contents) + [Batch(b)] else old(queue.Contents)
      ensures enqueued == old(enqueued) + (if ok then 1 else 0)
      ensures flags == if ok then old(flags) + [Hysteresis(old(backpressured), |queue.Contents|, High(), Low())]
          else old(flags)
      ensures !ok ==> backpressured == old(backpressured)
    {
      PaidMoves(backpressureEvents, backpressured, |queue.Contents|, dequeued + evicted, High(), Low());
      ok := queue.TryPush(Batch(b));
      if ok {
        enqueued := enqueued + 1;
        UpdateBackpressure();
      }
    }

    method TryEnqueue(b: nat) returns (ok: bool)
      requires Valid()
      modifies this, queue, queue.sequence, queue.data
      ensures Valid()
      ensures ok <==> |old(queue.Contents)| < queue.capacity || policy == DropOldest
      ensures queue.Contents ==
              if |old(queue.Contents)| < queue.capacity then old(queue.Contents) + [Batch(b)]
              else if policy == DropOldest then old(queue.Contents)[1..] + [Batch(b)]
              else old(queue.Contents)
      ensures enqueued == old(enqueued) + (if ok then 1 else 0)
      ensures dropped == old(dropped) + (if |old(queue.Contents)| < queue.capacity then 0 else 1)
      ensures dequeued == old(dequeued) && flushInjected == old(flushInjected)
      ensures flags == old(flags) + [Hysteresis(old(backpressured), |queue.Contents|, High(), Low())]
    {
      ok := PushBatch(b);
      if ok { return; }
      if policy == DropOldest {
        Evict();
        ok := PushBatch(b);
        if ok { return; }
      }
      Reject();
    }

    method Reject()
      requires Valid()
      modifies `dropped, `backpressured, `backpressureEvents, `flags
      ensures Valid() && dropped == old(dropped) + 1
      ensures flags == old(flags) + [Hysteresis(old(backpressured), |queue.Contents|, High(), Low())]
    {
      dropped := dropped + 1;
      UpdateBackpressure();
    }

    method InjectFlush() returns (ok: bool)
      requires Valid()
      modifies this, queue, queue.sequence, queue.data
      ensures Valid() && ok
      ensures queue.Contents ==
              (if |old(queue.Contents)| < queue.capacity then old(queue.Contents) else old(queue.Contents)[1..])
                  + [Flush]
      ensures flushInjected == old(flushInjected) + 1
      ensures dropped == old(dropped) + (if |old(queue.Contents)| < queue.capacity then 0 else 1)
      ensures enqueued == old(enqueued) && dequeued == old(dequeued)
      ensures backpressured == old(backpressured) && flags == old(flags)
    {
      ok := queue.TryPush(Flush);
      if !ok {
        Evict();
        ok := queue.TryPush(Flush);
      }
      if ok { flushInjected := flushInjected + 1; }
      PaidMoves(backpressureEvents, backpressured, |queue.Contents| - 1, dequeued + evicted, High(), Low());
    }

    method TryDequeue() returns (r: Option<Item>)
      requires Valid()
      modifies this, queue, queue.sequence, queue.data
      ensures Valid()
      ensures r.None? <==> old(queue.Contents) == []
      ensures r.Some? ==> old(queue.Contents) == [r.value] + queue.Contents && dequeued == old(dequeued) + 1
      ensures r.None? ==> queue.Contents == old(queue.Contents) && dequeued == old(dequeued)
      ensures enqueued == old(enqueued) && dropped == old(dropped) && flushInjected == old(flushInjected)
      ensures flags == if r.None? then old(flags)
                       else old(flags) + [Hysteresis(old(backpressured), |queue.Contents|, High(), Low())]
    {
      PaidMoves(backpressureEvents, backpressured, |queue.Contents|, dequeued + evicted, High(), Low());
      var ok, item := queue.TryPop();
      if !ok { return None; }
      dequeued := dequeued + 1;
      UpdateBackpressure();
      r := Some(item);
    }

    // Spins, yields, then polls until the deadline; polls is how often the clock allows.
    method Dequeue(polls: nat) returns (r: Option<Item>)
      requires Valid()
      modifies this, queue, queue.sequence, queue.data
      ensures Valid()
      ensures r.None? <==> old(queue.Contents) == []
      ensures r.Some? ==> old(queue.Contents) == [r.value] + queue.Contents && dequeued == old(dequeued) + 1
      ensures r.None? ==> queue.Contents == old(queue.Contents) && dequeued == old(dequeued)
      ensures enqueued == old(enqueued) && dropped == old(dropped) && flushInjected == old(flushInjected)
    {
      for i := 0 to 16 + 8 + polls
        invariant Valid() && queue.Contents == old(queue.Contents)
        invariant i > 0 ==> queue.Contents == []
        invariant dequeued == old(dequeued) && enqueued == old(enqueued) && dropped == old(dropped)
            && flushInjected == old(flushInjected)
      {
        r := TryDequeue();
        if r.Some? { return; }
      }
      r := None;
    }

    /** Between two rises the size must fall from above the high mark to below the low one. */
    lemma CannotFlap()
      requires Valid() && Low() <= High()
      ensures backpressureEvents == Rises(flags)
      ensures (backpressureEvents - 1) * (High() - Low() + 2) <= dequeued + dropped
    {
      if backpressureEvents >= 1 {
        CostProduct(backpressureEvents - 1, High(), Low());
      }
    }
  }

  /** A configuration that passes validation has low mark <= high mark <= capacity. */
  lemma ValidatedMarks(capacity: nat, high: real, low: real)
    requires low < high && high <= 1.0 && low >= 0.0
    ensures Mark(capacity, low) <= Mark(capacity, high) <= capacity
  {
  }
}
