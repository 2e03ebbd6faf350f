// src/core/engine/timer_wheel.h, called from one thread. Times and intervals are
// nanoseconds on the steady clock; a clock reading is a parameter. The heap maps the
// ids of the priority_queue to their entries; ids are handed out once.
module TimerWheel {
  import opened Bits

  datatype Timer = Timer(due: int, interval: int, repeating: bool)

  type Heap = map<nat, Timer>

  // An entry taken out to fire.
  datatype DueTimer = DueTimer(id: nat, timer: Timer)

  function Purged(heap: Heap, cancelled: seq<nat>): Heap {
    map id | id in heap && id !in cancelled :: heap[id]
  }

  function Pending(heap: Heap, now: int): Heap {
    map id | id in heap && heap[id].due > now :: heap[id]
  }

  ghost predicate Sorted(batch: seq<DueTimer>) {
    forall i, j :: 0 <= i < j < |batch| ==> batch[i].timer.due <= batch[j].timer.due && batch[i].id != batch[j].id
  }

  // The due timers, each once, in due order.
  ghost predicate DueBatch(heap: Heap, now: int, batch: seq<DueTimer>) {
    && Sorted(batch)
    && (forall i :: 0 <= i < |batch| ==>
        batch[i].id in heap && batch[i].timer == heap[batch[i].id] && batch[i].timer.due <= now)
    && (forall id :: id in heap && heap[id].due <= now ==> exists i :: 0 <= i < |batch| && batch[i].id == id)
  }

  // The heap after its due timers have fired: a repeating timer moves on by exactly its interval.
  function Advanced(heap: Heap, now: int): Heap {
    map id | id in heap && (heap[id].due > now || heap[id].repeating) ::
      if heap[id].due <= now then heap[id].(due := heap[id].due + heap[id].interval) else heap[id]
  }

  const SECOND: int := 1_000_000_000

  datatype Itimerspec = Itimerspec(sec: int, nsec: int)

  // The relative value RearmTimerfdLocked programs for a top entry dur away.
  function ArmValue(dur: int): (its: Itimerspec)
    ensures 0 <= its.nsec < SECOND && 0 <= its.sec && its != Itimerspec(0, 0)
    ensures its.sec * SECOND + its.nsec == if dur <= 0 then 1 else dur
  {
    if dur <= 0 then Itimerspec(0, 1) else Itimerspec(dur / SECOND, dur % SECOND)
  }

  ghost predicate IsTop(heap: Heap, id: nat) {
    id in heap && forall other :: other in heap ==> heap[id].due <= heap[other].due
  }

  lemma {:induction false} HasTop(heap: Heap)
    requires heap != map[]
    ensures exists id :: IsTop(heap, id)
    decreases |heap|
  {
    var id :| id in heap;
    var rest := heap - {id};
    assert heap.Keys == rest.Keys + {id};
    if rest == map[] {
      assert IsTop(heap, id);
    } else {
      assert |rest| < |heap| by { assert rest.Keys == heap.Keys - {id}; }
      HasTop(rest);
      var top :| IsTop(rest, top);
      forall other | other in heap && other != id ensures heap[top].due <= heap[other].due { assert other in rest; }
      if heap[id].due <= heap[top].due { assert IsTop(heap, id); } else { assert IsTop(heap, top); }
    }
  }

  class Timers {
    var heap: Heap
    var cancelled: seq<nat>
    var nextId: nat
    var running: bool
    var firesTotal: nat
    // When the timerfd goes off, if armed.
    var armed: seq<int>
    // Ids and due times of all callbacks so far.
    ghost var fired: seq<DueTimer>

    ghost predicate Valid()
      reads this
    {
      && (forall id :: id in heap ==> id < nextId)
      && firesTotal == |fired|
    }

    // An armed timerfd goes off no later than the earliest due time, or at once.
    ghost predicate ArmedAt(now: int)
      reads this
    {
      if heap == map[] then armed == []
      else |armed| == 1 && now < armed[0] && forall id :: id in heap ==> armed[0] <= heap[id].due || armed[0] == now + 1
    }

    constructor ()
      ensures Valid() && heap == map[] && cancelled == [] && nextId == 0 && !running && fired == []
    {
      heap, cancelled, nextId, running, firesTotal, armed, fired := map[], [], 0, false, 0, [], [];
    }

    method Top() returns (id: nat)
      requires heap != map[]
      ensures IsTop(heap, id)
    {
      HasTop(heap);
      id :| id in heap && forall other :: other in heap ==> heap[id].due <= heap[other].due;
    }

    method RearmTimerfd(now: int)
      modifies `armed
      ensures ArmedAt(now)
    {
      armed := [];
      if heap != map[] {
        var top := Top();
        var its := ArmValue(heap[top].due - now);
        armed := [now + its.sec * SECOND + its.nsec];
      }
    }

    method Add(timer: Timer, now: int) returns (id: nat)
      requires Valid()
      modifies this
      ensures Valid() && id == old(nextId) && id !in old(heap) && heap == old(heap)[id := timer]
      ensures nextId == id + 1 && cancelled == old(cancelled) && running == old(running) && fired == old(fired)
      ensures ArmedAt(now)
    {
      id := nextId;
      nextId := nextId + 1;
      heap := heap[id := timer];
      RearmTimerfd(now);
    }

    method AddRepeating(interval: int, now: int) returns (id: nat)
      requires Valid()
      modifies this
      ensures Valid() && id == old(nextId) && heap == old(heap)[id := Timer(now + interval, interval, true)]
      ensures cancelled == old(cancelled) && running == old(running) && fired == old(fired) && ArmedAt(now)
    {
      id := Add(Timer(now + interval, interval, true), now);
    }

    method AddOnce(delay: int, now: int) returns (id: nat)
      requires Valid()
      modifies this
      ensures Valid() && id == old(nextId) && heap == old(heap)[id := Timer(now + delay, 0, false)]
      ensures cancelled == old(cancelled) && running == old(running) && fired == old(fired) && ArmedAt(now)
    {
      id := Add(Timer(now + delay, 0, false), now);
    }

    method Cancel(id: nat)
      requires Valid()
      modifies `cancelled
      ensures Valid() && cancelled == old(cancelled) + [id]
    {
      cancelled := cancelled + [id];
    }

    method PurgeCancelled()
      modifies `heap, `cancelled
      ensures heap == Purged(old(heap), old(cancelled)) && cancelled == []
    {
      if cancelled == [] {
        assert heap == Purged(heap, cancelled);
        return;
      }
      var remaining: Heap := map[];
      while heap != map[]
        invariant remaining.Keys !! heap.Keys && heap.Keys <= old(heap).Keys && remaining.Keys <= old(heap).Keys
        invariant forall id :: id in heap ==> heap[id] == old(heap)[id]
        invariant forall id :: id in remaining ==> remaining[id] == old(heap)[id] && id !in cancelled
        invariant forall id :: id in old(heap) && id !in cancelled ==> id in heap || id in remaining
        invariant cancelled == old(cancelled)
        decreases |heap|
      {
        var id := Top();
        var entry := heap[id];
        assert (heap - {id}).Keys == heap.Keys - {id};
        heap := heap - {id};
        if id !in cancelled { remaining := remaining[id := entry]; }
      }
      heap := remaining;
      cancelled := [];
    }

    method PopDue(now: int) returns (batch: seq<DueTimer>)
      modifies `heap
      ensures DueBatch(old(heap), now, batch) && heap == Pending(old(heap), now)
    {
      batch := [];
      while heap != map[]
        invariant Popped(old(heap), now, heap, batch)
        decreases |heap|
      {
        var id := Top();
        if heap[id].due > now { break; }
        PopStep(old(heap), now, heap, batch, id);
        batch := batch + [DueTimer(id, heap[id])];
        heap := heap - {id};
      }
    }

    // The callbacks of one batch; here none of them calls back into the wheel.
    method FireBatch(ghost live: Heap, ghost now: int, todo: seq<DueTimer>)
      requires DueBatch(live, now, todo) && heap == Pending(live, now) && firesTotal == |fired|
      modifies `heap, `fired, `firesTotal
      ensures fired == old(fired) + todo && firesTotal == |fired|
      ensures heap == if running then Advanced(live, now) else Pending(live, now)
    {
      for i := 0 to |todo|
        invariant fired == old(fired) + todo[..i] && firesTotal == |fired|
        invariant Refilling(live, now, todo, i, heap, running)
      {
        var entry := todo[i];
        RefillStep(live, now, todo, i, heap, running);
        fired := fired + [entry];
        firesTotal := firesTotal + 1;
        heap := Refill(heap, entry, running);
      }
      assert todo[..|todo|] == todo;
      Refilled(live, now, todo, heap, running);
    }

    method ProcessFired(now: int, rearmed: int) returns (ghost batch: seq<DueTimer>)
      requires Valid()
      modifies this
      ensures Valid() && cancelled == [] && running == old(running) && nextId == old(nextId)
      ensures DueBatch(Purged(old(heap), old(cancelled)), now, batch) && fired == old(fired) + batch
      ensures heap == if running then Advanced(Purged(old(heap), old(cancelled)), now)
          else Pending(Purged(old(heap), old(cancelled)), now)
      ensures ArmedAt(rearmed)
    {
      PurgeCancelled();
      ghost var live := heap;
      var todo := PopDue(now);
      batch := todo;
      FireBatch(live, now, todo);
      RearmTimerfd(rearmed);
    }
  }

  // heap is what is left of all once batch has been popped.
  ghost predicate Popped(all: Heap, now: int, heap: Heap, batch: seq<DueTimer>) {
    && heap.Keys <= all.Keys && (forall id :: id in heap ==> heap[id] == all[id])
    && Ahead(batch, heap)
    && (forall i :: 0 <= i < |batch| ==> batch[i].id in all && batch[i].id !in heap
                                         && batch[i].timer == all[batch[i].id] && batch[i].timer.due <= now)
    && Accounted(all, heap, batch)
  }

  // The batch is in due order, and nothing in the heap is due before it.
  ghost predicate Ahead(batch: seq<DueTimer>, heap: Heap) {
    && Sorted(batch)
    && (forall i, id :: 0 <= i < |batch| && id in heap ==> batch[i].timer.due <= heap[id].due)
  }

  lemma AheadStep(batch: seq<DueTimer>, heap: Heap, id: nat)
    requires Ahead(batch, heap) && IsTop(heap, id) && forall i :: 0 <= i < |batch| ==> batch[i].id !in heap
    ensures Ahead(batch + [DueTimer(id, heap[id])], heap - {id})
  {
    var e := DueTimer(id, heap[id]);
    var batch' := batch + [e];
    forall i, j | 0 <= i < j < |batch'|
      ensures batch'[i].timer.due <= batch'[j].timer.due && batch'[i].id != batch'[j].id
    {
      assert batch'[i] == batch[i];
      if j < |batch| { assert batch'[j] == batch[j]; }
    }
  }

  // Whoever has left the heap is in the batch.
  ghost predicate Accounted(all: Heap, heap: Heap, batch: seq<DueTimer>) {
    forall id :: id in all && id !in heap ==> exists i :: 0 <= i < |batch| && batch[i].id == id
  }

  lemma AccountedStep(all: Heap, heap: Heap, batch: seq<DueTimer>, id: nat, e: DueTimer)
    requires Accounted(all, heap, batch) && e.id == id
    ensures Accounted(all, heap - {id}, batch + [e])
  {
    var batch' := batch + [e];
    forall other | other in all && other !in heap - {id}
      ensures exists i :: 0 <= i < |batch'| && batch'[i].id == other
    {
      if other == id {
        assert batch'[|batch|].id == id;
      } else {
        var i :| 0 <= i < |batch| && batch[i].id == other;
        assert batch'[i].id == other;
      }
    }
  }

  lemma PopStep(all: Heap, now: int, heap: Heap, batch: seq<DueTimer>, id: nat)
    requires Popped(all, now, heap, batch) && IsTop(heap, id) && heap[id].due <= now
    ensures Popped(all, now, heap - {id}, batch + [DueTimer(id, heap[id])]) && |heap - {id}| < |heap|
  {
    assert (heap - {id}).Keys == heap.Keys - {id};
    AccountedStep(all, heap, batch, id, DueTimer(id, heap[id]));
    AheadStep(batch, heap, id);
  }

  // The heap after the first i callbacks of todo, all of them due in live.
  ghost predicate Refilling(live: Heap, now: int, todo: seq<DueTimer>, i: nat, heap: Heap, running: bool) {
    i <= |todo| && Untouched(live, now, heap) && MovedOn(live, now, heap, running) && (running ==> Back(todo, i, heap))
  }

  // Timers not due stay as they are.
  ghost predicate Untouched(live: Heap, now: int, heap: Heap) {
    forall id :: id in Pending(live, now) ==> id in heap && heap[id] == live[id]
  }

  // A due timer in the heap has moved on.
  ghost predicate MovedOn(live: Heap, now: int, heap: Heap, running: bool) {
    && heap.Keys <= live.Keys
    && (forall id :: id in heap && live[id].due <= now ==>
          running && live[id].repeating && heap[id] == Advanced(live, now)[id])
  }

  // The first i repeating timers of the batch are back.
  ghost predicate Back(todo: seq<DueTimer>, i: nat, heap: Heap)
    requires i <= |todo|
  {
    forall j :: 0 <= j < i && todo[j].timer.repeating ==> todo[j].id in heap
  }

  // A repeating entry goes back with its next due time while the wheel runs.
  function Refill(heap: Heap, e: DueTimer, running: bool): Heap {
    if e.timer.repeating && running then heap[e.id := e.timer.(due := e.timer.due + e.timer.interval)] else heap
  }

  lemma RefillUntouched(live: Heap, now: int, heap: Heap, e: DueTimer, running: bool)
    requires Untouched(live, now, heap) && e.id in live && live[e.id].due <= now
    ensures Untouched(live, now, Refill(heap, e, running))
  {
    assert e.id !in Pending(live, now);
  }

  lemma RefillMovedOn(live: Heap, now: int, heap: Heap, e: DueTimer, running: bool)
    requires MovedOn(live, now, heap, running) && e.id in live && e.timer == live[e.id] && e.timer.due <= now
    ensures MovedOn(live, now, Refill(heap, e, running), running)
  {
  }

  lemma RefillBack(todo: seq<DueTimer>, i: nat, heap: Heap)
    requires i < |todo| && Back(todo, i, heap)
    ensures Back(todo, i + 1, Refill(heap, todo[i], true))
  {
  }

  lemma RefillStep(live: Heap, now: int, todo: seq<DueTimer>, i: nat, heap: Heap, running: bool)
    requires DueBatch(live, now, todo) && Refilling(live, now, todo, i, heap, running) && i < |todo|
    ensures todo[..i + 1] == todo[..i] + [todo[i]]
    ensures Refilling(live, now, todo, i + 1, Refill(heap, todo[i], running), running)
  {
    var e := todo[i];
    assert e.id in live && e.timer == live[e.id] && e.timer.due <= now;
    RefillUntouched(live, now, heap, e, running);
    RefillMovedOn(live, now, heap, e, running);
    if running { RefillBack(todo, i, heap); }
  }

  lemma Refilled(live: Heap, now: int, todo: seq<DueTimer>, heap: Heap, running: bool)
    requires DueBatch(live, now, todo) && Refilling(live, now, todo, |todo|, heap, running)
    ensures heap == if running then Advanced(live, now) else Pending(live, now)
  {
    forall id | id in Advanced(live, now) && running ensures id in heap {
      if live[id].due <= now {
        var i :| 0 <= i < |todo| && todo[i].id == id;
      } else {
        assert id in Pending(live, now);
      }
    }
  }

  // ---- repeated ProcessFired at one clock reading ----

  function Turns(heap: Heap, now: int, k: nat): Heap {
    if k == 0 then heap else Turns(Advanced(heap, now), now, k - 1)
  }

  // How often the timer fires in those k calls.
  function FiresIn(heap: Heap, now: int, k: nat, id: nat): nat {
    if k == 0 || id !in heap then 0
    else (if heap[id].due <= now then 1 else 0) + FiresIn(Advanced(heap, now), now, k - 1, id)
  }

  // floor((now - due) / interval) + 1 for a timer that is due.
  function Backlog(timer: Timer, now: int): nat
    requires timer.interval > 0
  {
    if timer.due > now then 0 else (now - timer.due) / timer.interval + 1
  }

  lemma BacklogStep(timer: Timer, now: int)
    requires timer.interval > 0 && timer.due <= now
    ensures Backlog(timer.(due := timer.due + timer.interval), now) == Backlog(timer, now) - 1
  {
    var rest := now - timer.due - timer.interval;
    if rest >= 0 {
      QuotientStep(rest, timer.interval);
    } else {
      QuotientBelow(now - timer.due, timer.interval);
    }
  }

  lemma QuotientStep(x: int, d: int)
    requires d > 0 && x >= 0
    ensures (x + d) / d == x / d + 1
  {
    DivModUnique(x + d, d, x / d + 1, x % d);
  }

  lemma QuotientBelow(x: int, d: int)
    requires 0 <= x < d
    ensures x / d == 0
  {
  }

  /** A timer with a positive interval catches up without drift: Backlog firings, then none. */
  lemma {:induction false} CatchesUp(heap: Heap, now: int, k: nat, id: nat)
    requires id in heap && heap[id].repeating && heap[id].interval > 0
    ensures var n := Backlog(heap[id], now);
            var m := if k < n then k else n;
      && FiresIn(heap, now, k, id) == m
      && id in Turns(heap, now, k)
      && Turns(heap, now, k)[id] == heap[id].(due := heap[id].due + m * heap[id].interval)
      && (k >= n ==> Turns(heap, now, k)[id].due > now)
    decreases k
  {
    if k > 0 {
      var next := Advanced(heap, now);
      CatchesUp(next, now, k - 1, id);
      if heap[id].due <= now {
        BacklogStep(heap[id], now);
        var n := Backlog(heap[id], now);
        var m := if k < n then k else n;
        MulLess(m, heap[id].interval);
      }
    }
  }

  /** Calling ProcessFired again and again settles on a due repeating timer exactly when its interval is positive. */
  lemma CatchUpIffPositive(heap: Heap, now: int, id: nat)
    requires id in heap && heap[id].repeating && heap[id].due <= now
    ensures heap[id].interval > 0 <==> exists k: nat :: id in Turns(heap, now, k) && Turns(heap, now, k)[id].due > now
  {
    if heap[id].interval > 0 {
      var n := Backlog(heap[id], now);
      CatchesUp(heap, now, n, id);
      assert Turns(heap, now, n)[id].due > now;
    } else {
      forall k: nat ensures id in Turns(heap, now, k) ==> Turns(heap, now, k)[id].due <= now {
        NeverSettles(heap, now, k, id);
      }
    }
  }

  lemma {:induction false} NeverSettles(heap: Heap, now: int, k: nat, id: nat)
    requires id in heap && heap[id].repeating && heap[id].due <= now && heap[id].interval <= 0
    ensures id in Turns(heap, now, k) && Turns(heap, now, k)[id].due <= now && FiresIn(heap, now, k, id) == k
    decreases k
  {
    if k > 0 { NeverSettles(Advanced(heap, now), now, k - 1, id); }
  }

  // ---- any sequence of clock readings ----

  function Over(heap: Heap, nows: seq<int>): Heap {
    if nows == [] then heap else Advanced(Over(heap, nows[..|nows| - 1]), nows[|nows| - 1])
  }

  function Fires(heap: Heap, now: int, id: nat): nat {
    if id in heap && heap[id].due <= now then 1 else 0
  }

  function FiresOver(heap: Heap, nows: seq<int>, id: nat): nat {
    if nows == [] then 0
    else
      var front := nows[..|nows| - 1];
      FiresOver(heap, front, id) + Fires(Over(heap, front), nows[|nows| - 1], id)
  }

  ghost predicate EverDue(nows: seq<int>, due: int) {
    exists i :: 0 <= i < |nows| && due <= nows[i]
  }

  lemma EverDueMore(nows: seq<int>, due: int)
    requires nows != []
    ensures EverDue(nows, due) <==> EverDue(nows[..|nows| - 1], due) || due <= nows[|nows| - 1]
  {
    var front := nows[..|nows| - 1];
    if EverDue(front, due) {
      var i :| 0 <= i < |front| && due <= front[i];
      assert due <= nows[i];
    }
  }

  /** Whatever the clock readings, a one-shot timer fires once if one of them reaches its due time and
      then is gone; otherwise it waits unchanged. */
  lemma {:induction false} OneShotOver(heap: Heap, nows: seq<int>, id: nat)
    requires id in heap && !heap[id].repeating
    ensures FiresOver(heap, nows, id) == if EverDue(nows, heap[id].due) then 1 else 0
    ensures id in Over(heap, nows) <==> !EverDue(nows, heap[id].due)
    ensures id in Over(heap, nows) ==> Over(heap, nows)[id] == heap[id]
  {
    if nows != [] {
      OneShotOver(heap, nows[..|nows| - 1], id);
      EverDueMore(nows, heap[id].due);
    }
  }

  /** A repeating timer stays, and its due time has moved one interval for each time it fired. */
  lemma {:induction false} RepeatingOver(heap: Heap, nows: seq<int>, id: nat)
    requires id in heap && heap[id].repeating
    ensures id in Over(heap, nows)
    ensures Over(heap, nows)[id] == heap[id].(due := heap[id].due + FiresOver(heap, nows, id) * heap[id].interval)
    ensures FiresOver(heap, nows, id) == 0 <==> !EverDue(nows, heap[id].due)
  {
    if nows != [] {
      RepeatingOver(heap, nows[..|nows| - 1], id);
      EverDueMore(nows, heap[id].due);
      MulMore(FiresOver(heap, nows[..|nows| - 1], id), heap[id].interval);
    }
  }

  lemma MulMore(n: int, d: int)
    ensures (n + 1) * d == n * d + d
  {
  }

  /** No timer comes from nowhere. */
  lemma {:induction false} NoneAppears(heap: Heap, nows: seq<int>, id: nat)
    requires id !in heap
    ensures id !in Over(heap, nows) && FiresOver(heap, nows, id) == 0
  {
    if nows != [] { NoneAppears(heap, nows[..|nows| - 1], id); }
  }
}
