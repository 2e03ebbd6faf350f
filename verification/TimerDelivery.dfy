// src/core/engine/timer_wheel.h: what the interleaved wheel owes its clients. A timer that
// nobody cancels is never lost, and a collection leaves nothing behind that is due.
module TimerDelivery {
  import opened TimerWheel
  import opened TimerProtocol

  // Where a timer is: waiting, collected, between two firings, or done. A repeating timer is
  // done only when the wheel is stopped, a one-shot when it has fired.
  ghost predicate Delivered(s: State, id: nat)
    requires id in s.born
  {
    || id in s.heap || InBatch(s, id) || (s.wheel.Requeueing? && s.wheel.entry.id == id)
    || (if s.born[id].repeating then !s.running else |FiresOf(s, id)| == 1)
  }

  lemma CollectDelivers(s: State, s': State, id: nat)
    requires WheelStep(s, s') && s.wheel.Collecting? && id in s.born && id !in s.cancelled && Delivered(s, id)
    ensures id in s'.born && Delivered(s', id)
  {
    if id in s.heap {
      var live := Purged(s.heap, s.cancelled);
      assert id in live && live[id] == s.heap[id];
      if live[id].due <= s.wheel.now {
        assert DueBatch(live, s.wheel.now, Batch(s'.wheel));
      } else {
        assert id in Pending(live, s.wheel.now);
      }
    }
  }

  // Entry k of the batch moves to the front, or is fired.
  lemma BatchMoves(s: State, s': State, id: nat, k: nat)
    requires WheelStep(s, s') && s.wheel.Firing? && 0 < k < |s.wheel.batch| && s.wheel.batch[k].id == id
    ensures InBatch(s', id)
  {
    assert Batch(s'.wheel)[k - 1].id == id;
  }

  lemma FirstFires(s: State, s': State)
    requires Schedules0(s) && WheelStep(s, s') && s.wheel.Firing? && s.wheel.batch != []
    ensures var id := s.wheel.batch[0].id; id in s'.born && Delivered(s', id)
  {
    var e := s.wheel.batch[0];
    assert NextUp(s.born[e.id], FiresOf(s, e.id), e.timer);
  }

  // What the wheel's invariant says about the entry that is fired next.
  ghost predicate Schedules0(s: State) {
    s.wheel.Firing? && s.wheel.batch != [] ==>
      var e := s.wheel.batch[0];
      e.id in s.born && NextUp(s.born[e.id], FiresOf(s, e.id), e.timer)
  }

  lemma FiringDelivers(s: State, s': State, id: nat)
    requires Schedules0(s) && WheelStep(s, s') && s.wheel.Firing? && id in s.born && Delivered(s, id)
    ensures id in s'.born && Delivered(s', id)
  {
    if s.wheel.batch != [] {
      if s.wheel.batch[0].id == id {
        FirstFires(s, s');
      } else if InBatch(s, id) {
        var k :| 0 <= k < |s.wheel.batch| && s.wheel.batch[k].id == id;
        BatchMoves(s, s', id, k);
      }
    }
  }

  lemma QuietDelivers(s: State, s': State, id: nat)
    requires Tick(s, s') || Stop(s, s') || (WheelStep(s, s') && (s.wheel.Waiting? || s.wheel.Requeueing?))
    requires id in s.born && Delivered(s, id)
    ensures id in s'.born && Delivered(s', id)
  {
    assert Batch(s'.wheel) == Batch(s.wheel);
  }

  lemma ClientDelivers(s: State, s': State, id: nat)
    requires (exists timer :: Add(s, s', timer)) || (exists other: nat :: Cancel(s, s', other))
    requires (id in s.born ==> Delivered(s, id)) && id in s'.born
    ensures Delivered(s', id)
  {
    assert s'.wheel == s.wheel && s'.fires == s.fires && s'.running == s.running;
  }

  lemma StepDelivers(s: State, s': State, id: nat)
    requires TimerProtocol.Inv(s) && Next(s, s') && id !in s.cancelled && id in s'.born
    requires id in s.born ==> Delivered(s, id)
    ensures Delivered(s', id)
  {
    if (exists timer :: Add(s, s', timer)) || (exists other: nat :: Cancel(s, s', other)) {
      ClientDelivers(s, s', id);
    } else if WheelStep(s, s') && s.wheel.Collecting? {
      CollectDelivers(s, s', id);
    } else if WheelStep(s, s') && s.wheel.Firing? {
      assert Schedules0(s);
      FiringDelivers(s, s', id);
    } else {
      QuietDelivers(s, s', id);
    }
  }

  ghost predicate NeverCancelled(run: seq<State>, i: nat, id: nat) {
    forall j :: 0 <= j <= i < |run| ==> id !in run[j].cancelled
  }

  // Step j of a run, apart from Run.
  ghost predicate Linked(run: seq<State>, j: int) {
    0 < j < |run| ==> TimerProtocol.Inv(run[j - 1]) && Next(run[j - 1], run[j])
  }

  lemma {:induction false} LinksDeliver(run: seq<State>, i: nat, id: nat)
    requires (forall j :: Linked(run, j)) && i < |run| && run[0].born == map[]
    requires NeverCancelled(run, i, id) && id in run[i].born
    ensures Delivered(run[i], id)
  {
    if i > 0 {
      assert Linked(run, i);
      if id in run[i - 1].born { LinksDeliver(run, i - 1, id); }
      StepDelivers(run[i - 1], run[i], id);
    }
  }

  /** In every run a timer that is not cancelled is waiting or on its way to its callback, until a
      one-shot has fired or the wheel is stopped. */
  lemma NoTimerLost(run: seq<State>, i: nat, id: nat)
    requires Run(run) && i < |run| && NeverCancelled(run, i, id) && id in run[i].born
    ensures Delivered(run[i], id)
  {
    forall j ensures Linked(run, j) {
      if 0 < j < |run| { TimerProtocol.RunInv(run, j - 1); }
    }
    LinksDeliver(run, i, id);
  }

  lemma CollectingMoves(s: State, s': State)
    requires Next(s, s') && s.wheel.Collecting? && s'.wheel.Firing?
    ensures WheelStep(s, s')
  {
  }

  lemma BatchIsDue(s: State, s': State, batch: seq<DueTimer>, id: nat)
    requires s.wheel.Collecting? && s'.wheel == Firing(batch)
    requires DueBatch(Purged(s.heap, s.cancelled), s.wheel.now, batch)
    ensures InBatch(s', id) <==> id in s.heap && id !in s.cancelled && s.heap[id].due <= s.wheel.now
  {
    var live := Purged(s.heap, s.cancelled);
    if InBatch(s', id) {
      var k :| 0 <= k < |batch| && batch[k].id == id;
      assert id in live && live[id] == s.heap[id];
    }
    if id in live && live[id].due <= s.wheel.now {
      var k :| 0 <= k < |batch| && batch[k].id == id;
      assert Batch(s'.wheel)[k].id == id;
    }
  }

  /** Whatever step ends a collection, it takes exactly the timers that are due and not cancelled, in
      due order; what stays is due later, unchanged, and not cancelled. */
  lemma CollectionIsComplete(s: State, s': State, id: nat)
    requires Next(s, s') && s.wheel.Collecting? && s'.wheel.Firing?
    ensures var live := id in s.heap && id !in s.cancelled;
      && (InBatch(s', id) <==> live && s.heap[id].due <= s.wheel.now)
      && (id in s'.heap <==> live && s.heap[id].due > s.wheel.now)
      && (id in s'.heap ==> s'.heap[id] == s.heap[id])
      && Sorted(s'.wheel.batch) && s'.cancelled == []
  {
    CollectingMoves(s, s');
    BatchIsDue(s, s', s'.wheel.batch, id);
  }
}
