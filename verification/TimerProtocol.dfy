// src/core/engine/timer_wheel.h with the wheel thread interleaved with any number of
// client calls. Each section under mutex_ is one step; callbacks run between them.
module TimerProtocol {
  import opened Bits
  import opened TimerWheel

  datatype Wheel =
    | Waiting
    | Collecting(now: int)
    | Firing(batch: seq<DueTimer>)
    | Requeueing(entry: DueTimer, batch: seq<DueTimer>)
    | Exited

  // What was true of a timer when it was first cancelled.
  datatype Cancelled = Cancelled(fires: nat, inFlight: bool)

  // The timerfd goes off at expiry; at is when it was programmed.
  datatype Armed = Disarmed | Armed(expiry: int, at: int)

  // born, fires (due time of each callback) and cancels are history, by timer id.
  datatype State = State(
    clock: int, heap: Heap, cancelled: seq<nat>, nextId: nat, running: bool, armed: Armed, wheel: Wheel,
    born: map<nat, Timer>, fires: map<nat, seq<int>>, cancels: map<nat, Cancelled>)

  ghost predicate Init(s: State) {
    && s.heap == map[] && s.cancelled == [] && s.nextId == 0 && s.running && s.armed == Disarmed
    && s.wheel == Waiting && s.born == map[] && s.fires == map[] && s.cancels == map[]
  }

  function FiresOf(s: State, id: nat): seq<int> {
    if id in s.fires then s.fires[id] else []
  }

  function Arm(due: int, now: int): Armed {
    var its := ArmValue(due - now);
    Armed(now + its.sec * SECOND + its.nsec, now)
  }

  // RearmTimerfdLocked with some top entry of the heap.
  ghost predicate Rearmed(heap: Heap, now: int, armed: Armed) {
    if heap == map[] then armed == Disarmed
    else exists top :: IsTop(heap, top) && armed == Arm(heap[top].due, now)
  }

  // ---- steps ----

  ghost predicate Tick(s: State, s': State) {
    s'.clock >= s.clock && s' == s.(clock := s'.clock)
  }

  ghost predicate Add(s: State, s': State, timer: Timer) {
    && (if timer.repeating then timer.due == s.clock + timer.interval else timer.interval == 0)
    && s' == s.(heap := s.heap[s.nextId := timer], nextId := s.nextId + 1, born := s.born[s.nextId := timer],
        armed := s'.armed)
    && Rearmed(s'.heap, s.clock, s'.armed)
  }

  // The batch in flight, without the entry being put back.
  function Batch(w: Wheel): seq<DueTimer> {
    match w case Firing(batch) => batch case Requeueing(_, batch) => batch case _ => []
  }

  predicate InBatch(s: State, id: nat) {
    exists i :: 0 <= i < |Batch(s.wheel)| && Batch(s.wheel)[i].id == id
  }

  ghost predicate Cancel(s: State, s': State, id: nat) {
    s' == s.(cancelled := s.cancelled + [id],
             cancels := if id in s.cancels || id >= s.nextId then s.cancels
                        else s.cancels[id := Cancelled(|FiresOf(s, id)|, InBatch(s, id))])
  }

  ghost predicate Stop(s: State, s': State) {
    s' == s.(running := false)
  }

  ghost predicate WheelStep(s: State, s': State) {
    match s.wheel
    // the running check comes before the wait, so one more round may follow Stop
    case Waiting => s' == s.(wheel := Collecting(s.clock)) || (!s.running && s' == s.(wheel := Exited))
    case Collecting(now) =>
      exists batch ::
        && DueBatch(Purged(s.heap, s.cancelled), now, batch)
        && s' == s.(heap := Pending(Purged(s.heap, s.cancelled), now), cancelled := [], wheel := Firing(batch))
    case Firing(batch) =>
      if batch == [] then
        s' == s.(wheel := Waiting, armed := s'.armed) && Rearmed(s.heap, s.clock, s'.armed)
      else
        var e := batch[0];
        s' == s.(fires := s.fires[e.id := FiresOf(s, e.id) + [e.timer.due]],
                 wheel := if e.timer.repeating && s.running then Requeueing(e, batch[1..]) else Firing(batch[1..]))
    case Requeueing(e, batch) =>
      s' == s.(heap := s.heap[e.id := Moved(e.timer)], wheel := Firing(batch))
    case Exited => false
  }

  ghost predicate Next(s: State, s': State) {
    || Tick(s, s') || Stop(s, s') || WheelStep(s, s')
    || (exists timer :: Add(s, s', timer))
    || (exists id: nat :: Cancel(s, s', id))
  }

  ghost predicate Run(run: seq<State>) {
    && run != [] && Init(run[0])
    && forall i {:trigger run[i]} :: 0 < i < |run| ==> Next(run[i - 1], run[i])
  }

  // ---- the invariant ----

  // The due time after k firings: k whole intervals after the first.
  function Due(born: Timer, k: nat): int {
    if k == 0 then born.due else Due(born, k - 1) + born.interval
  }

  lemma {:induction false} DueProduct(born: Timer, k: nat)
    ensures Due(born, k) == born.due + k * born.interval
  {
    if k > 0 { DueProduct(born, k - 1); MulLess(k, born.interval); }
  }

  // Fired due times are the first one plus whole intervals.
  ghost predicate OnSchedule(born: Timer, fires: seq<int>) {
    forall k {:trigger fires[k]} :: 0 <= k < |fires| ==> fires[k] == Due(born, k)
  }

  // A timer waiting for its next callback, after the given ones.
  ghost predicate NextUp(born: Timer, fires: seq<int>, timer: Timer) {
    && timer == born.(due := timer.due) && timer.due == Due(born, |fires|)
    && (!born.repeating ==> fires == [])
  }

  ghost predicate IdsOk(s: State) {
    && (forall id: nat {:trigger id in s.born} :: id in s.born <==> id < s.nextId)
    && s.heap.Keys <= s.born.Keys && s.fires.Keys <= s.born.Keys && s.cancels.Keys <= s.born.Keys
    && (forall i {:trigger Batch(s.wheel)[i]} :: 0 <= i < |Batch(s.wheel)| ==>
          Batch(s.wheel)[i].id in s.born && Batch(s.wheel)[i].id !in s.heap && Batch(s.wheel)[i].timer.due <= s.clock)
    && Sorted(Batch(s.wheel))
    && (s.wheel.Requeueing? ==>
          && s.wheel.entry.id in s.born && s.wheel.entry.id !in s.heap && s.wheel.entry.timer.repeating
          && forall i :: 0 <= i < |Batch(s.wheel)| ==> Batch(s.wheel)[i].id != s.wheel.entry.id)
    && (s.wheel.Collecting? ==> s.wheel.now <= s.clock)
  }

  // One timer's firings so far, none of them early.
  ghost predicate FiresOk(born: Timer, fires: seq<int>, clock: int) {
    && OnSchedule(born, fires) && (!born.repeating ==> |fires| <= 1)
    && forall k {:trigger fires[k]} :: 0 <= k < |fires| ==> fires[k] <= clock
  }

  ghost predicate Schedules(s: State)
    requires IdsOk(s)
  {
    && (forall id :: id in s.born ==> FiresOk(s.born[id], FiresOf(s, id), s.clock))
    && (forall id :: id in s.heap ==> NextUp(s.born[id], FiresOf(s, id), s.heap[id]))
    && (forall i {:trigger Batch(s.wheel)[i]} :: 0 <= i < |Batch(s.wheel)| ==>
          NextUp(s.born[Batch(s.wheel)[i].id], FiresOf(s, Batch(s.wheel)[i].id), Batch(s.wheel)[i].timer))
    && (s.wheel.Requeueing? ==> NextUp(s.born[s.wheel.entry.id], FiresOf(s, s.wheel.entry.id),
        Moved(s.wheel.entry.timer)))
  }

  function Moved(timer: Timer): Timer {
    timer.(due := timer.due + timer.interval)
  }

  // A cancelled timer still in the heap or under way is on the list for the next purge.
  ghost predicate CancelOk(s: State, id: nat)
    requires id in s.cancels
  {
    var c, n := s.cancels[id], |FiresOf(s, id)|;
    && n <= c.fires + (if c.inFlight then 1 else 0)
    && (id in s.heap ==> id in s.cancelled)
    && (InBatch(s, id) ==> id in s.cancelled && c.inFlight && n == c.fires)
    && (s.wheel.Requeueing? && s.wheel.entry.id == id ==> id in s.cancelled)
  }

  // A waiting wheel with timers has its timerfd set, early enough for every one of them.
  ghost predicate ArmOk(s: State) {
    s.wheel == Waiting && s.heap != map[] ==>
      && s.armed.Armed? && s.armed.at < s.armed.expiry
      && forall id :: id in s.heap ==> s.armed.expiry <= s.heap[id].due || s.armed.expiry == s.armed.at + 1
  }

  ghost predicate Cancels(s: State) {
    forall id :: id in s.cancels ==> CancelOk(s, id)
  }

  ghost predicate Inv(s: State) {
    IdsOk(s) && Schedules(s) && ArmOk(s) && Cancels(s)
  }

  lemma InitInv(s: State)
    requires Init(s)
    ensures Inv(s)
  {
  }

  lemma RearmedInTime(heap: Heap, now: int, armed: Armed)
    requires Rearmed(heap, now, armed) && heap != map[]
    ensures armed.Armed? && armed.at < armed.expiry
    ensures forall id :: id in heap ==> armed.expiry <= heap[id].due || armed.expiry == armed.at + 1
  {
  }

  // A step that leaves cancels, fires, the heap and the wheel's entries alone.
  lemma CancelsKept(s: State, s': State)
    requires Cancels(s) && s'.cancels == s.cancels && s'.cancelled == s.cancelled && s'.fires == s.fires
    requires forall id :: id in s.cancels && id in s'.heap ==> id in s.heap
    requires Batch(s'.wheel) == Batch(s.wheel) && (s'.wheel.Requeueing? ==> s'.wheel == s.wheel)
    ensures Cancels(s')
  {
    forall id | id in s'.cancels ensures CancelOk(s', id) { assert CancelOk(s, id); }
  }

  lemma AddIds(s: State, s': State, timer: Timer)
    requires IdsOk(s) && Add(s, s', timer)
    ensures IdsOk(s')
  {
    assert s.nextId !in s.born;
  }

  lemma AddFires(s: State, s': State, timer: Timer)
    requires IdsOk(s) && Schedules(s) && Add(s, s', timer)
    ensures forall id :: id in s'.born ==> FiresOk(s'.born[id], FiresOf(s', id), s'.clock)
  {
    forall id | id in s'.born ensures FiresOk(s'.born[id], FiresOf(s', id), s'.clock) {
      if id != s.nextId { assert FiresOk(s.born[id], FiresOf(s, id), s.clock); }
    }
  }

  lemma AddHeap(s: State, s': State, timer: Timer)
    requires IdsOk(s) && Schedules(s) && Add(s, s', timer)
    ensures forall id :: id in s'.heap ==> id in s'.born && NextUp(s'.born[id], FiresOf(s', id), s'.heap[id])
  {
    forall id | id in s'.heap ensures id in s'.born && NextUp(s'.born[id], FiresOf(s', id), s'.heap[id]) {
      if id != s.nextId { assert NextUp(s.born[id], FiresOf(s, id), s.heap[id]); }
    }
  }

  lemma AddBatch(s: State, s': State, timer: Timer, i: nat)
    requires IdsOk(s) && Schedules(s) && Add(s, s', timer) && i < |Batch(s'.wheel)|
    ensures var e := Batch(s'.wheel)[i]; e.id in s'.born && NextUp(s'.born[e.id], FiresOf(s', e.id), e.timer)
  {
    var e := Batch(s.wheel)[i];
    assert NextUp(s.born[e.id], FiresOf(s, e.id), e.timer);
  }

  lemma AddRequeue(s: State, s': State, timer: Timer)
    requires IdsOk(s) && Schedules(s) && Add(s, s', timer) && s'.wheel.Requeueing?
    ensures var e := s'.wheel.entry; e.id in s'.born && NextUp(s'.born[e.id], FiresOf(s', e.id), Moved(e.timer))
  {
  }

  lemma AddSchedules(s: State, s': State, timer: Timer)
    requires IdsOk(s) && IdsOk(s') && Schedules(s) && Add(s, s', timer)
    ensures Schedules(s')
  {
    AddFires(s, s', timer);
    AddHeap(s, s', timer);
    forall i {:trigger Batch(s'.wheel)[i]} | 0 <= i < |Batch(s'.wheel)|
      ensures NextUp(s'.born[Batch(s'.wheel)[i].id], FiresOf(s', Batch(s'.wheel)[i].id), Batch(s'.wheel)[i].timer)
    {
      AddBatch(s, s', timer, i);
    }
    if s'.wheel.Requeueing? { AddRequeue(s, s', timer); }
  }

  lemma AddInv(s: State, s': State, timer: Timer)
    requires Inv(s) && Add(s, s', timer)
    ensures Inv(s')
  {
    assert s.nextId in s'.heap && s.nextId !in s.born;
    RearmedInTime(s'.heap, s.clock, s'.armed);
    AddIds(s, s', timer);
    AddSchedules(s, s', timer);
    CancelsKept(s, s');
  }

  lemma CancelKeeps(s: State, s': State, id: nat)
    requires IdsOk(s) && Schedules(s) && ArmOk(s) && Cancel(s, s', id)
    ensures IdsOk(s') && Schedules(s') && ArmOk(s')
  {
    forall id | id in s.born ensures FiresOk(s.born[id], FiresOf(s', id), s'.clock) {
      assert FiresOk(s.born[id], FiresOf(s, id), s.clock);
    }
  }

  lemma CancelInv(s: State, s': State, id: nat)
    requires Inv(s) && Cancel(s, s', id)
    ensures Inv(s')
  {
    CancelKeeps(s, s', id);
    forall other | other in s'.cancels ensures CancelOk(s', other) {
      if other in s.cancels { assert CancelOk(s, other); }
    }
  }

  lemma CollectIds(s: State, s': State, now: int, batch: seq<DueTimer>)
    requires IdsOk(s) && s.wheel == Collecting(now) && DueBatch(Purged(s.heap, s.cancelled), now, batch)
    requires s' == s.(heap := Pending(Purged(s.heap, s.cancelled), now), cancelled := [], wheel := Firing(batch))
    ensures IdsOk(s') && ArmOk(s')
  {
  }

  lemma CollectSchedules(s: State, s': State, now: int, batch: seq<DueTimer>)
    requires IdsOk(s) && IdsOk(s') && Schedules(s) && s.wheel == Collecting(now)
    requires DueBatch(Purged(s.heap, s.cancelled), now, batch)
    requires s' == s.(heap := Pending(Purged(s.heap, s.cancelled), now), cancelled := [], wheel := Firing(batch))
    ensures Schedules(s')
  {
    forall i {:trigger Batch(s'.wheel)[i]} | 0 <= i < |Batch(s'.wheel)|
      ensures NextUp(s'.born[Batch(s'.wheel)[i].id], FiresOf(s', Batch(s'.wheel)[i].id), Batch(s'.wheel)[i].timer)
    {
      var e := batch[i];
      assert e.id in s.heap && s.heap[e.id] == e.timer;
    }
  }

  lemma CollectCancels(s: State, s': State, now: int, batch: seq<DueTimer>)
    requires Cancels(s) && s.wheel == Collecting(now) && DueBatch(Purged(s.heap, s.cancelled), now, batch)
    requires s' == s.(heap := Pending(Purged(s.heap, s.cancelled), now), cancelled := [], wheel := Firing(batch))
    ensures Cancels(s')
  {
    forall id | id in s'.cancels ensures CancelOk(s', id) { assert CancelOk(s, id); }
  }

  lemma CollectInv(s: State, s': State)
    requires Inv(s) && s.wheel.Collecting? && WheelStep(s, s')
    ensures Inv(s')
  {
    var live := Purged(s.heap, s.cancelled);
    var batch :| DueBatch(live, s.wheel.now, batch)
      && s' == s.(heap := Pending(live, s.wheel.now), cancelled := [], wheel := Firing(batch));
    CollectIds(s, s', s.wheel.now, batch);
    CollectSchedules(s, s', s.wheel.now, batch);
    CollectCancels(s, s', s.wheel.now, batch);
  }

  lemma FireIds(s: State, s': State)
    requires IdsOk(s) && s.wheel.Firing? && s.wheel.batch != [] && WheelStep(s, s')
    ensures IdsOk(s') && ArmOk(s')
  {
    assert Batch(s.wheel)[0] == s.wheel.batch[0];
    forall i {:trigger Batch(s'.wheel)[i]} | 0 <= i < |Batch(s'.wheel)|
      ensures Batch(s'.wheel)[i] == Batch(s.wheel)[i + 1]
    {
    }
  }

  // One callback: the entry at the front has fired, the others move up.
  lemma Fired(s: State, s': State)
    requires IdsOk(s) && s.wheel.Firing? && s.wheel.batch != [] && WheelStep(s, s')
    ensures var e := Batch(s.wheel)[0];
      && s'.born == s.born && s'.heap == s.heap && s'.clock == s.clock
      && FiresOf(s', e.id) == FiresOf(s, e.id) + [e.timer.due]
      && (forall id :: id != e.id ==> FiresOf(s', id) == FiresOf(s, id))
      && (s'.wheel.Requeueing? ==> s'.wheel.entry == e && e.timer.repeating)
    ensures Batch(s'.wheel) == Batch(s.wheel)[1..]
  {
  }

  lemma FiredFires(s: State, s': State, id: nat)
    requires IdsOk(s) && Schedules(s) && s.wheel.Firing? && s.wheel.batch != [] && WheelStep(s, s') && id in s.born
    ensures FiresOk(s.born[id], FiresOf(s', id), s.clock)
  {
    var e := Batch(s.wheel)[0];
    Fired(s, s');
    assert FiresOk(s.born[id], FiresOf(s, id), s.clock);
    assert NextUp(s.born[e.id], FiresOf(s, e.id), e.timer);
  }

  lemma FiredHeap(s: State, s': State, id: nat)
    requires IdsOk(s) && Schedules(s) && s.wheel.Firing? && s.wheel.batch != [] && WheelStep(s, s') && id in s.heap
    ensures id in s.born && NextUp(s.born[id], FiresOf(s', id), s.heap[id])
  {
    Fired(s, s');
    assert Batch(s.wheel)[0].id !in s.heap;
    assert NextUp(s.born[id], FiresOf(s, id), s.heap[id]);
  }

  lemma FiredBatch(s: State, s': State, i: nat)
    requires IdsOk(s) && Schedules(s) && s.wheel.Firing? && s.wheel.batch != [] && WheelStep(s, s')
    requires i < |Batch(s'.wheel)|
    ensures var e := Batch(s'.wheel)[i]; e.id in s.born && NextUp(s.born[e.id], FiresOf(s', e.id), e.timer)
  {
    Fired(s, s');
    var e := Batch(s.wheel)[i + 1];
    assert Batch(s'.wheel)[i] == e && e.id != Batch(s.wheel)[0].id;
    assert NextUp(s.born[e.id], FiresOf(s, e.id), e.timer);
  }

  lemma FiredRequeue(s: State, s': State)
    requires IdsOk(s) && Schedules(s) && s.wheel.Firing? && s.wheel.batch != [] && WheelStep(s, s')
    requires s'.wheel.Requeueing?
    ensures var e := s'.wheel.entry; e.id in s.born && NextUp(s.born[e.id], FiresOf(s', e.id), Moved(e.timer))
  {
    Fired(s, s');
    var e := Batch(s.wheel)[0];
    assert NextUp(s.born[e.id], FiresOf(s, e.id), e.timer);
  }

  lemma FireSchedules(s: State, s': State)
    requires IdsOk(s) && IdsOk(s') && Schedules(s) && s.wheel.Firing? && s.wheel.batch != [] && WheelStep(s, s')
    ensures Schedules(s')
  {
    Fired(s, s');
    forall id | id in s'.born ensures FiresOk(s'.born[id], FiresOf(s', id), s'.clock) { FiredFires(s, s', id); }
    forall id | id in s'.heap ensures NextUp(s'.born[id], FiresOf(s', id), s'.heap[id]) { FiredHeap(s, s', id); }
    forall i {:trigger Batch(s'.wheel)[i]} | 0 <= i < |Batch(s'.wheel)|
      ensures NextUp(s'.born[Batch(s'.wheel)[i].id], FiresOf(s', Batch(s'.wheel)[i].id), Batch(s'.wheel)[i].timer)
    {
      FiredBatch(s, s', i);
    }
    if s'.wheel.Requeueing? { FiredRequeue(s, s'); }
  }

  lemma FireCancels(s: State, s': State)
    requires IdsOk(s) && Cancels(s) && s.wheel.Firing? && s.wheel.batch != [] && WheelStep(s, s')
    ensures Cancels(s')
  {
    var e := Batch(s.wheel)[0];
    assert Batch(s'.wheel) == Batch(s.wheel)[1..];
    forall id | id in s'.cancels ensures CancelOk(s', id) {
      assert CancelOk(s, id);
      assert id == e.id ==> InBatch(s, id);
      if InBatch(s', id) {
        var i :| 0 <= i < |Batch(s'.wheel)| && Batch(s'.wheel)[i].id == id;
        assert Batch(s.wheel)[i + 1].id == id;
      }
    }
  }

  lemma RequeueIds(s: State, s': State)
    requires IdsOk(s) && s.wheel.Requeueing? && WheelStep(s, s')
    ensures IdsOk(s') && ArmOk(s')
  {
  }

  lemma RequeueSchedules(s: State, s': State)
    requires IdsOk(s) && IdsOk(s') && Schedules(s) && s.wheel.Requeueing? && WheelStep(s, s')
    ensures Schedules(s')
  {
    assert Batch(s'.wheel) == Batch(s.wheel);
    forall id | id in s'.heap ensures NextUp(s'.born[id], FiresOf(s', id), s'.heap[id]) {
      if id != s.wheel.entry.id { assert NextUp(s.born[id], FiresOf(s, id), s.heap[id]); }
    }
  }

  lemma RequeueInv(s: State, s': State)
    requires Inv(s) && s.wheel.Requeueing? && WheelStep(s, s')
    ensures Inv(s')
  {
    RequeueIds(s, s');
    RequeueSchedules(s, s');
    forall id | id in s'.cancels ensures CancelOk(s', id) { assert CancelOk(s, id); }
  }

  lemma RestIds(s: State, s': State)
    requires IdsOk(s) && ArmOk(s)
    requires Tick(s, s') || Stop(s, s') || (WheelStep(s, s') && s.wheel.Waiting?)
    ensures IdsOk(s') && ArmOk(s') && s'.born == s.born && s'.heap == s.heap && s'.fires == s.fires
        && s'.clock >= s.clock
    ensures Batch(s'.wheel) == Batch(s.wheel) && (s'.wheel.Requeueing? ==> s'.wheel == s.wheel)
  {
  }

  lemma RestInv(s: State, s': State)
    requires Inv(s)
    requires Tick(s, s') || Stop(s, s') || (WheelStep(s, s') && s.wheel.Waiting?)
    ensures Inv(s')
  {
    RestIds(s, s');
    CancelsKept(s, s');
    forall id | id in s.born ensures FiresOk(s.born[id], FiresOf(s', id), s'.clock) {
      assert FiresOk(s.born[id], FiresOf(s, id), s.clock);
    }
  }

  lemma RearmInv(s: State, s': State)
    requires Inv(s) && WheelStep(s, s') && s.wheel == Firing([])
    ensures Inv(s')
  {
    if s.heap != map[] { RearmedInTime(s.heap, s.clock, s'.armed); }
    CancelsKept(s, s');
  }

  lemma NextInv(s: State, s': State)
    requires Inv(s) && Next(s, s')
    ensures Inv(s')
  {
    if exists timer :: Add(s, s', timer) {
      var timer :| Add(s, s', timer);
      AddInv(s, s', timer);
    } else if exists id: nat :: Cancel(s, s', id) {
      var id: nat :| Cancel(s, s', id);
      CancelInv(s, s', id);
    } else if Tick(s, s') || Stop(s, s') || s.wheel.Waiting? {
      RestInv(s, s');
    } else if s.wheel == Firing([]) {
      RearmInv(s, s');
    } else if s.wheel.Collecting? {
      CollectInv(s, s');
    } else if s.wheel.Firing? {
      FireIds(s, s');
      FireSchedules(s, s');
      FireCancels(s, s');
    } else {
      RequeueInv(s, s');
    }
  }

  lemma {:induction false} RunInv(run: seq<State>, i: nat)
    requires Run(run) && i < |run|
    ensures Inv(run[i])
  {
    if i == 0 {
      InitInv(run[0]);
    } else {
      RunInv(run, i - 1);
      NextInv(run[i - 1], run[i]);
    }
  }

  // ---- what it means ----

  /** In every run a timer fires at its first due time plus 0, 1, 2, ... intervals, never early, and
      a one-shot at most once. */
  lemma NoDrift(run: seq<State>, i: nat, id: nat)
    requires Run(run) && i < |run| && id in run[i].born
    ensures var fires := FiresOf(run[i], id);
      && (forall k :: 0 <= k < |fires| ==>
          fires[k] == run[i].born[id].due + k * run[i].born[id].interval <= run[i].clock)
      && (!run[i].born[id].repeating ==> |fires| <= 1)
  {
    RunInv(run, i);
    var fires := FiresOf(run[i], id);
    forall k | 0 <= k < |fires| ensures fires[k] == run[i].born[id].due + k * run[i].born[id].interval <= run[i].clock {
      DueProduct(run[i].born[id], k);
    }
  }

  /** Once cancelled, a timer fires at most once more, and only out of a batch already collected. */
  lemma CancelledFiresAtMostOnce(run: seq<State>, i: nat, id: nat)
    requires Run(run) && i < |run| && id in run[i].cancels
    ensures |FiresOf(run[i], id)| <= run[i].cancels[id].fires + (if run[i].cancels[id].inFlight then 1 else 0)
  {
    RunInv(run, i);
    assert CancelOk(run[i], id);
  }

  /** While the wheel waits, the timerfd is set for the earliest timer, or for the next nanosecond. */
  lemma WaitingIsArmed(run: seq<State>, i: nat)
    requires Run(run) && i < |run| && run[i].wheel == Waiting && run[i].heap != map[]
    ensures run[i].armed.Armed? && run[i].armed.at < run[i].armed.expiry
    ensures forall id :: id in run[i].heap ==>
      run[i].armed.expiry <= run[i].heap[id].due || run[i].armed.expiry == run[i].armed.at + 1
  {
    RunInv(run, i);
  }
}
