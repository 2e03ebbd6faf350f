// src/core/engine/async_channel.h over the interleaved queue: any number of threads
// run TryEnqueue, InjectFlush and Dequeue, and every counter update, flag access and
// queue access is a step of its own.
module ChannelProtocol {
  import opened Wrappers
  import opened QueueProtocol

  datatype Item = Batch(id: nat) | Flush

  datatype DropPolicy = DropNewest | DropOldest

  // Where a thread is inside UpdateBackpressure.
  datatype Backpressure = LoadFlag | LoadHead(was: bool) | LoadTail(was: bool, h: nat) | Set | CountEvent | Clear

  // The result the caller gets once UpdateBackpressure is over.
  datatype Outcome = Enqueued(ok: bool, b: nat, pos: nat) | Dequeued(item: Item, pos: nat)

  datatype Call =
    | Out
    | EnqPush(b: nat, retry: bool)
    | EnqEvict(b: nat)
    | EnqEvicted(b: nat)
    | EnqCount(b: nat, pos: nat)
    | EnqReject(b: nat)
    | FlushPush(retry: bool)
    | FlushEvict
    | FlushEvicted
    | FlushCount
    | FlushDone(ok: bool)
    | Deq
    | DeqCount(item: Item, pos: nat)
    | DeqEmpty
    | Updating(step: Backpressure, outcome: Outcome)
    | Finished(outcome: Outcome)

  // evicted and rejected split dropped; completed and accepted count the TryEnqueue
  // calls that have returned, and those that returned true; rises counts the times
  // the flag went up. These five are history.
  datatype Channel = Channel(
    q: State<Item>, calls: seq<Call>, policy: DropPolicy, high: nat, low: nat, backpressured: bool,
    enqueued: nat, dropped: nat, dequeued: nat, flushInjected: nat, backpressureEvents: nat,
    evicted: nat, rejected: nat, completed: nat, accepted: nat, rises: nat)

  ghost predicate Init(s: Channel) {
    && QueueProtocol.Init(s.q) && |s.q.cells| >= 2 && |s.calls| == |s.q.threads|
    && (forall t :: 0 <= t < |s.calls| ==> s.calls[t] == Out)
    && !s.backpressured
    && s.enqueued == s.dropped == s.dequeued == s.flushInjected == s.backpressureEvents == 0
    && s.evicted == s.rejected == s.completed == s.accepted == s.rises == 0
  }

  // ---- steps ----

  function To(s: Channel, t: nat, c: Call): Channel
    requires t < |s.calls|
  {
    s.(calls := s.calls[t := c])
  }

  // The queue operation a call is in: the item it pushes, or a pop.
  datatype Operation = Nothing | Push(item: Item) | Pop

  function Wants(c: Call): Operation {
    match c
    case EnqPush(b, _) => Push(Batch(b))
    case FlushPush(_) => Push(Flush)
    case EnqEvict(_) => Pop
    case FlushEvict => Pop
    case Deq => Pop
    case _ => Nothing
  }

  ghost predicate EnterQueue(s: Channel, s': Channel, t: nat) {
    && t < |s.calls| && t < |s.q.threads| && s.q.threads[t] == Idle
    && match Wants(s.calls[t]) {
         case Nothing => false
         case Push(item) => s' == s.(q := Goto(s.q, t, PushLoadHead(item)))
         case Pop => s' == s.(q := Goto(s.q, t, PopLoadTail))
       }
  }

  ghost predicate InQueue(s: Channel, s': Channel, t: nat) {
    Access(s.q, s'.q, t) && s' == s.(q := s'.q)
  }

  // How a call continues with the result of its queue operation.
  ghost predicate Continues(policy: DropPolicy, c: Call, r: Pc<Item>, c': Call) {
    match (c, r)
    case (EnqPush(b, retry), PushDone(ok, _, pos)) =>
      c' == if ok then EnqCount(b, pos) else if policy == DropOldest && !retry then EnqEvict(b) else EnqReject(b)
    case (EnqEvict(b), PopDone(x, _)) => c' == if x.Some? then EnqEvicted(b) else EnqPush(b, true)
    case (FlushPush(retry), PushDone(ok, _, _)) =>
      c' == if ok then FlushCount else if retry then FlushDone(false) else FlushEvict
    case (FlushEvict, PopDone(x, _)) => c' == if x.Some? then FlushEvicted else FlushPush(true)
    case (Deq, PopDone(x, pos)) =>
      // Dequeue tries again until its deadline, TryDequeue gives up at once
      if x.Some? then c' == DeqCount(x.value, pos) else c' == Deq || c' == DeqEmpty
    case _ => false
  }

  ghost predicate LeaveQueue(s: Channel, s': Channel, t: nat) {
    && t < |s.calls| && t < |s.q.threads| && |s'.calls| == |s.calls|
    && Return(s.q, s'.q, t)
    && Continues(s.policy, s.calls[t], s.q.threads[t], s'.calls[t])
    && s' == To(s, t, s'.calls[t]).(q := s'.q)
  }

  ghost predicate Working(c: Call) {
    Wants(c).Nothing? && match c { case Out => false case FlushDone(_) => false case DeqEmpty => false
        case Finished(_) => false case _ => true }
  }

  // The steps of a call outside the queue.
  function LocalStep(s: Channel, t: nat): Channel
    requires t < |s.calls| && Working(s.calls[t])
  {
    match s.calls[t]
    case EnqCount(b, pos) => To(s, t, Updating(LoadFlag, Enqueued(true, b, pos))).(enqueued := s.enqueued + 1)
    case EnqEvicted(b) => To(s, t, EnqPush(b, true)).(dropped := s.dropped + 1, evicted := s.evicted + 1)
    case EnqReject(b) =>
      To(s, t, Updating(LoadFlag, Enqueued(false, b, 0))).(dropped := s.dropped + 1, rejected := s.rejected + 1)
    case FlushCount => To(s, t, FlushDone(true)).(flushInjected := s.flushInjected + 1)
    case FlushEvicted => To(s, t, FlushPush(true)).(dropped := s.dropped + 1, evicted := s.evicted + 1)
    case DeqCount(item, pos) => To(s, t, Updating(LoadFlag, Dequeued(item, pos))).(dequeued := s.dequeued + 1)
    case Updating(step, k) => UpdateStep(s, t, step, k)
  }

  // UpdateBackpressure: the flag, then head and tail, then the flag again.
  function UpdateStep(s: Channel, t: nat, step: Backpressure, k: Outcome): Channel
    requires t < |s.calls|
  {
    match step
    case LoadFlag => To(s, t, Updating(LoadHead(s.backpressured), k))
    case LoadHead(was) => To(s, t, Updating(LoadTail(was, s.q.head), k))
    case LoadTail(was, h) =>
      var size := if h >= s.q.tail then h - s.q.tail else 0;
      To(s, t, if !was && size > s.high then Updating(Set, k)
               else if was && size < s.low then Updating(Clear, k) else Finished(k))
    case Set =>
      if s.backpressured then To(s, t, Finished(k))
      else To(s, t, Updating(CountEvent, k)).(backpressured := true, rises := s.rises + 1)
    case CountEvent => To(s, t, Finished(k)).(backpressureEvents := s.backpressureEvents + 1)
    case Clear => To(s, t, Finished(k)).(backpressured := false)
  }

  ghost predicate Outside(s: Channel, s': Channel, t: nat) {
    t < |s.calls| && Working(s.calls[t]) && s' == LocalStep(s, t)
  }

  ghost predicate Inner(s: Channel, s': Channel, t: nat) {
    EnterQueue(s, s', t) || InQueue(s, s', t) || LeaveQueue(s, s', t) || Outside(s, s', t)
  }

  ghost predicate Begin(s: Channel, s': Channel, t: nat, c: Call) {
    && t < |s.calls| && s.calls[t] == Out && (c == Deq || c == FlushPush(false) || (c.EnqPush? && !c.retry))
    && s' == To(s, t, c)
  }

  ghost predicate End(s: Channel, s': Channel, t: nat) {
    && t < |s.calls|
    && match s.calls[t] {
         case FlushDone(_) => s' == To(s, t, Out)
         case DeqEmpty => s' == To(s, t, Out)
         case Finished(Enqueued(ok, _, _)) =>
           s' == To(s, t, Out).(completed := s.completed + 1, accepted := s.accepted + if ok then 1 else 0)
         case Finished(Dequeued(_, _)) => s' == To(s, t, Out)
         case _ => false
       }
  }

  ghost predicate Step(s: Channel, s': Channel, t: nat) {
    Inner(s, s', t) || End(s, s', t) || exists c :: Begin(s, s', t, c)
  }

  // ---- what the calls under way still owe the counters ----

  type Weight = (Call, Pc<Item>) -> int

  function Sum(w: Weight, calls: seq<Call>, threads: seq<Pc<Item>>): int
    requires |calls| == |threads|
  {
    if calls == [] then 0
    else w(calls[0], threads[0]) + Sum(w, calls[1..], threads[1..])
  }

  lemma {:induction false} SumUpdate(w: Weight, calls: seq<Call>, threads: seq<Pc<Item>>, t: nat, c: Call, p: Pc<Item>)
    requires |calls| == |threads| && t < |calls|
    ensures Sum(w, calls[t := c], threads[t := p]) == Sum(w, calls, threads) - w(calls[t], threads[t]) + w(c, p)
  {
    if t == 0 {
      assert calls[t := c][1..] == calls[1..] && threads[t := p][1..] == threads[1..];
    } else {
      assert calls[t := c][1..] == calls[1..][t - 1 := c] && threads[t := p][1..] == threads[1..][t - 1 := p];
      SumUpdate(w, calls[1..], threads[1..], t - 1, c, p);
    }
  }

  lemma {:induction false} SumZero(w: Weight, calls: seq<Call>, threads: seq<Pc<Item>>)
    requires |calls| == |threads| && w(Out, Idle) == 0
    requires forall t :: 0 <= t < |calls| ==> calls[t] == Out && threads[t] == Idle
    ensures Sum(w, calls, threads) == 0
  {
    if calls != [] { SumZero(w, calls[1..], threads[1..]); }
  }

  // Pushes and pops that hold a position but are not counted yet.
  function PushOwed(c: Call, p: Pc<Item>): int {
    (if p.PushWrite? || p.PushPublish? || (p.PushDone? && p.ok) then 1 else 0) +
    (if c.EnqCount? || c.FlushCount? then 1 else 0)
  }

  function PopOwed(c: Call, p: Pc<Item>): int {
    (if p.PopRead? || p.PopRelease? || (p.PopDone? && p.result.Some?) then 1 else 0) +
    (if c.EnqEvicted? || c.FlushEvicted? || c.DeqCount? then 1 else 0)
  }

  function Returning(c: Call): Outcome {
    match c case Updating(_, k) => k case Finished(k) => k case _ => Dequeued(Flush, 0)
  }

  // TryEnqueue calls that are counted but have not returned.
  function AcceptOwed(c: Call, p: Pc<Item>): int {
    if Returning(c).Enqueued? && Returning(c).ok then 1 else 0
  }

  function RejectOwed(c: Call, p: Pc<Item>): int {
    if Returning(c).Enqueued? && !Returning(c).ok then 1 else 0
  }

  function EventOwed(c: Call, p: Pc<Item>): int {
    if c.Updating? && c.step.CountEvent? then 1 else 0
  }

  ghost predicate Balanced(s: Channel)
    requires |s.calls| == |s.q.threads|
  {
    && s.q.head == s.enqueued + s.flushInjected + Sum(PushOwed, s.calls, s.q.threads)
    && s.q.tail == s.dequeued + s.evicted + Sum(PopOwed, s.calls, s.q.threads)
    && s.dropped == s.evicted + s.rejected
    && s.enqueued == s.accepted + Sum(AcceptOwed, s.calls, s.q.threads)
    && s.accepted + s.rejected == s.completed + Sum(RejectOwed, s.calls, s.q.threads)
    && s.rises == s.backpressureEvents + Sum(EventOwed, s.calls, s.q.threads)
  }

  // A call outside the queue is idle there, and holds what the queue gave it.
  ghost predicate CallOk(s: Channel, t: nat)
    requires t < |s.calls| == |s.q.threads|
  {
    var c, p := s.calls[t], s.q.threads[t];
    && match Wants(c) {
         case Nothing => p == Idle
         case Push(item) => p == Idle || (IsPush(p) && p.v == item)
         case Pop => p == Idle || IsPop(p)
       }
    && match c {
         case EnqCount(b, pos) => PushedBy(s, t, b, pos)
         case DeqCount(item, pos) => TakenBy(s, t, item, pos)
         case _ =>
           match Returning(c) {
             case Enqueued(ok, b, pos) => ok ==> PushedBy(s, t, b, pos)
             case Dequeued(item, pos) => c.Updating? || c.Finished? ==> TakenBy(s, t, item, pos)
           }
       }
  }

  predicate IsPush(p: Pc<Item>) {
    p.PushLoadHead? || p.PushLoadSequence? || p.PushCas? || p.PushWrite? || p.PushPublish? || p.PushDone?
  }

  predicate IsPop(p: Pc<Item>) {
    p.PopLoadTail? || p.PopLoadSequence? || p.PopCas? || p.PopRead? || p.PopRelease? || p.PopDone?
  }

  predicate PushedBy(s: Channel, t: nat, b: nat, pos: nat) {
    pos < |s.q.log| && pos < |s.q.pushers| && s.q.log[pos] == Batch(b) && s.q.pushers[pos] == t
  }

  predicate TakenBy(s: Channel, t: nat, item: Item, pos: nat) {
    && pos < |s.q.log| && pos < |s.q.poppers| && s.q.log[pos] == item && s.q.poppers[pos] == t
    && pos in s.q.returned
  }

  ghost predicate Local(s: Channel) {
    && |s.calls| == |s.q.threads|
    && Balanced(s)
    && forall t: nat :: t < |s.calls| ==> CallOk(s, t)
  }

  ghost predicate Inv(s: Channel) {
    QueueProtocol.Inv(s.q) && Local(s)
  }

  lemma InitInv(s: Channel)
    requires Init(s)
    ensures Inv(s)
  {
    QueueProtocol.InitInv(s.q);
    SumZero(PushOwed, s.calls, s.q.threads);
    SumZero(PopOwed, s.calls, s.q.threads);
    SumZero(AcceptOwed, s.calls, s.q.threads);
    SumZero(RejectOwed, s.calls, s.q.threads);
    SumZero(EventOwed, s.calls, s.q.threads);
  }

  // Only thread t moved.
  ghost predicate Moves(s: Channel, s': Channel, t: nat) {
    && |s.calls| == |s.q.threads| && t < |s.calls|
    && |s'.calls| == |s.calls| && |s'.q.threads| == |s.q.threads|
    && s'.calls == s.calls[t := s'.calls[t]] && s'.q.threads == s.q.threads[t := s'.q.threads[t]]
  }

  function Change(w: Weight, s: Channel, s': Channel, t: nat): int
    requires Moves(s, s', t)
  {
    w(s'.calls[t], s'.q.threads[t]) - w(s.calls[t], s.q.threads[t])
  }

  // What a step does to the counters, the step does to what thread t owes.
  ghost predicate Compensated(s: Channel, s': Channel, t: nat)
    requires Moves(s, s', t)
  {
    && s'.q.head - s.q.head == s'.enqueued - s.enqueued + s'.flushInjected - s.flushInjected
        + Change(PushOwed, s, s', t)
    && s'.q.tail - s.q.tail == s'.dequeued - s.dequeued + s'.evicted - s.evicted + Change(PopOwed, s, s', t)
    && s'.dropped - s.dropped == s'.evicted - s.evicted + s'.rejected - s.rejected
    && s'.enqueued - s.enqueued == s'.accepted - s.accepted + Change(AcceptOwed, s, s', t)
    && s'.accepted - s.accepted + s'.rejected - s.rejected == s'.completed - s.completed + Change(RejectOwed, s, s', t)
    && s'.rises - s.rises == s'.backpressureEvents - s.backpressureEvents + Change(EventOwed, s, s', t)
  }

  lemma MovesBalance(s: Channel, s': Channel, t: nat)
    requires Moves(s, s', t) && Balanced(s)
    requires Compensated(s, s', t)
    ensures Balanced(s')
  {
    var c, p := s'.calls[t], s'.q.threads[t];
    SumUpdate(PushOwed, s.calls, s.q.threads, t, c, p);
    SumUpdate(PopOwed, s.calls, s.q.threads, t, c, p);
    SumUpdate(AcceptOwed, s.calls, s.q.threads, t, c, p);
    SumUpdate(RejectOwed, s.calls, s.q.threads, t, c, p);
    SumUpdate(EventOwed, s.calls, s.q.threads, t, c, p);
  }

  // History only grows, so what other threads hold stays theirs.
  lemma OthersKeep(s: Channel, s': Channel, t: nat)
    requires Local(s) && Moves(s, s', t) && Grows(s.q, s'.q)
    ensures forall u: nat :: u < |s.calls| && u != t ==> CallOk(s', u)
  {
    forall u: nat | u < |s.calls| && u != t ensures CallOk(s', u) {
      assert CallOk(s, u);
    }
  }

  lemma QueueMoves(q: State<Item>, q': State<Item>, t: nat)
    requires QueueProtocol.Inv(q) && QueueProtocol.Step(q, q', t)
    ensures QueueProtocol.Inv(q') && Grows(q, q')
    ensures t < |q.threads| == |q'.threads| && q'.threads == q.threads[t := q'.threads[t]]
  {
    QueueProtocol.StepInv(q, q', t);
    StepGrows(q, q', t);
  }

  function PushHeld(p: Pc<Item>): int { PushOwed(Out, p) }

  function PopHeld(p: Pc<Item>): int { PopOwed(Out, p) }

  // One queue access claims a position exactly when it moves head or tail.
  lemma AccessClaims(q: State<Item>, q': State<Item>, t: nat)
    requires Access(q, q', t)
    ensures t < |q.threads| == |q'.threads|
    ensures q'.head - q.head == PushHeld(q'.threads[t]) - PushHeld(q.threads[t])
    ensures q'.tail - q.tail == PopHeld(q'.threads[t]) - PopHeld(q.threads[t])
    ensures IsPush(q.threads[t]) || IsPop(q.threads[t])
    ensures IsPush(q.threads[t]) ==> IsPush(q'.threads[t]) && q'.threads[t].v == q.threads[t].v
    ensures IsPop(q.threads[t]) ==> IsPop(q'.threads[t])
  {
  }

  lemma EnterInv(s: Channel, s': Channel, t: nat)
    requires Local(s) && EnterQueue(s, s', t)
    ensures Local(s')
  {
    assert CallOk(s, t);
    OthersKeep(s, s', t);
    MovesBalance(s, s', t);
  }

  lemma AccessInv(s: Channel, s': Channel, t: nat)
    requires Local(s) && InQueue(s, s', t) && Grows(s.q, s'.q)
    requires s'.q.threads == s.q.threads[t := s'.q.threads[t]]
    ensures Local(s')
  {
    AccessClaims(s.q, s'.q, t);
    assert CallOk(s, t);
    OthersKeep(s, s', t);
    MovesBalance(s, s', t);
  }

  lemma LeaveChanges(s: Channel, s': Channel, t: nat)
    requires |s.calls| == |s.q.threads| && t < |s.calls| && CallOk(s, t) && LeaveQueue(s, s', t) && Grows(s.q, s'.q)
    requires Shape(s.q) && ThreadOk(s.q, t)
    ensures Moves(s, s', t) && Compensated(s, s', t) && CallOk(s', t)
  {
  }

  lemma LeaveInv(s: Channel, s': Channel, t: nat)
    requires Local(s) && LeaveQueue(s, s', t) && Grows(s.q, s'.q)
    requires Shape(s.q) && ThreadOk(s.q, t)
    ensures Local(s')
  {
    assert CallOk(s, t);
    LeaveChanges(s, s', t);
    OthersKeep(s, s', t);
    MovesBalance(s, s', t);
  }

  lemma OutsideInv(s: Channel, s': Channel, t: nat)
    requires Local(s) && Outside(s, s', t)
    ensures Local(s')
  {
    assert CallOk(s, t);
    if s.calls[t].Updating? {
      UpdateChanges(s, s', t, s.calls[t].step, s.calls[t].outcome);
    } else {
      CountChanges(s, s', t);
    }
    OthersKeep(s, s', t);
    MovesBalance(s, s', t);
  }

  lemma UpdateReads(s: Channel, s': Channel, t: nat, step: Backpressure, k: Outcome)
    requires |s.calls| == |s.q.threads| && t < |s.calls| && s.calls[t] == Updating(step, k) && CallOk(s, t)
    requires s' == UpdateStep(s, t, step, k) && (step.LoadFlag? || step.LoadHead? || step.LoadTail?)
    ensures s'.q == s.q && Moves(s, s', t) && Compensated(s, s', t) && CallOk(s', t)
  {
  }

  lemma UpdateChanges(s: Channel, s': Channel, t: nat, step: Backpressure, k: Outcome)
    requires |s.calls| == |s.q.threads| && t < |s.calls| && s.calls[t] == Updating(step, k) && CallOk(s, t)
    requires s' == UpdateStep(s, t, step, k)
    ensures s'.q == s.q && Moves(s, s', t) && Compensated(s, s', t) && CallOk(s', t)
  {
    if step.LoadFlag? || step.LoadHead? || step.LoadTail? { UpdateReads(s, s', t, step, k); }
  }

  lemma CountChanges(s: Channel, s': Channel, t: nat)
    requires |s.calls| == |s.q.threads| && t < |s.calls| && Working(s.calls[t]) && !s.calls[t].Updating? && CallOk(s, t)
    requires s' == LocalStep(s, t)
    ensures s'.q == s.q && Moves(s, s', t) && Compensated(s, s', t) && CallOk(s', t)
  {
  }

  lemma BoundaryChanges(s: Channel, s': Channel, t: nat)
    requires |s.calls| == |s.q.threads| && t < |s.calls| && CallOk(s, t)
    requires End(s, s', t) || exists c :: Begin(s, s', t, c)
    ensures s'.q == s.q && Moves(s, s', t) && Compensated(s, s', t) && CallOk(s', t)
  {
  }

  lemma BoundaryInv(s: Channel, s': Channel, t: nat)
    requires Local(s) && (End(s, s', t) || exists c :: Begin(s, s', t, c))
    ensures Local(s')
  {
    assert CallOk(s, t);
    BoundaryChanges(s, s', t);
    OthersKeep(s, s', t);
    MovesBalance(s, s', t);
  }

  lemma QueueInv(s: Channel, s': Channel, t: nat)
    requires Inv(s) && (EnterQueue(s, s', t) || InQueue(s, s', t) || LeaveQueue(s, s', t))
    ensures Inv(s') && |s'.calls| == |s.calls|
  {
    if EnterQueue(s, s', t) { assert QueueProtocol.Call(s.q, s'.q, t); }
    QueueMoves(s.q, s'.q, t);
    if EnterQueue(s, s', t) {
      EnterInv(s, s', t);
    } else if InQueue(s, s', t) {
      AccessInv(s, s', t);
    } else {
      LeaveInv(s, s', t);
    }
  }

  lemma StepInv(s: Channel, s': Channel, t: nat)
    requires Inv(s) && Step(s, s', t)
    ensures Inv(s') && |s'.calls| == |s.calls|
  {
    if EnterQueue(s, s', t) || InQueue(s, s', t) || LeaveQueue(s, s', t) {
      QueueInv(s, s', t);
    } else if Outside(s, s', t) {
      OutsideInv(s, s', t);
    } else {
      BoundaryInv(s, s', t);
    }
  }

  // ---- one thread moves at a time ----

  lemma Boundary(ch: Channel, ch': Channel, t: nat)
    requires End(ch, ch', t) || exists c :: Begin(ch, ch', t, c)
    ensures t < |ch.calls| && ch'.q == ch.q && |ch'.calls| == |ch.calls| && ch'.calls == ch.calls[t := ch'.calls[t]]
    ensures End(ch, ch', t) ==> ch'.calls[t] == Out
  {
  }

  lemma LeaveMoves(ch: Channel, ch': Channel, t: nat)
    requires LeaveQueue(ch, ch', t) && |ch.calls| == |ch.q.threads|
    ensures QueueProtocol.Step(ch.q, ch'.q, t) && Moves(ch, ch', t)
  {
    StepGrows(ch.q, ch'.q, t);
  }

  lemma OutsideMoves(ch: Channel, ch': Channel, t: nat)
    requires Outside(ch, ch', t) && |ch.calls| == |ch.q.threads|
    ensures ch'.q == ch.q && Moves(ch, ch', t)
  {
  }

  lemma InnerMoves(ch: Channel, ch': Channel, t: nat)
    requires Inner(ch, ch', t) && |ch.calls| == |ch.q.threads|
    ensures QueueProtocol.Step(ch.q, ch'.q, t) || ch'.q == ch.q
    ensures Moves(ch, ch', t)
  {
    if EnterQueue(ch, ch', t) {
      assert QueueProtocol.Call(ch.q, ch'.q, t);
    } else if InQueue(ch, ch', t) {
      StepGrows(ch.q, ch'.q, t);
    } else if LeaveQueue(ch, ch', t) {
      LeaveMoves(ch, ch', t);
    } else {
      OutsideMoves(ch, ch', t);
    }
  }

  // ---- whole runs ----

  ghost predicate Next(s: Channel, s': Channel) {
    exists t: nat :: Step(s, s', t)
  }

  ghost predicate Run(run: seq<Channel>) {
    && run != [] && Init(run[0])
    && forall i {:trigger run[i]} :: 0 < i < |run| ==> Next(run[i - 1], run[i])
  }

  lemma {:induction false} RunInv(run: seq<Channel>, i: nat)
    requires Run(run) && i < |run|
    ensures Inv(run[i])
  {
    if i == 0 {
      InitInv(run[0]);
    } else {
      RunInv(run, i - 1);
      var s, s' := run[i - 1], run[i];
      var t: nat :| Step(s, s', t);
      StepInv(s, s', t);
    }
  }

  /** Whenever no call is under way, the counters account for every item. */
  lemma Conservation(run: seq<Channel>, i: nat)
    requires Run(run) && i < |run|
    requires forall t :: 0 <= t < |run[i].calls| ==> run[i].calls[t] == Out
    ensures Conserved(run[i])
  {
    RunInv(run, i);
    QuiescentBalance(run[i]);
  }

  ghost predicate Conserved(s: Channel) {
    && s.completed + s.flushInjected == s.dequeued + s.dropped + (s.q.head - s.q.tail)
    && s.q.head == s.enqueued + s.flushInjected && s.q.tail == s.dequeued + s.evicted
    && s.dropped == s.evicted + s.rejected
    && s.enqueued == s.accepted && s.completed == s.accepted + s.rejected
    && s.backpressureEvents == s.rises
  }

  lemma QuiescentBalance(s: Channel)
    requires Local(s)
    requires forall t :: 0 <= t < |s.calls| ==> s.calls[t] == Out
    ensures Quiescent(s.q) && Conserved(s)
  {
    forall t: nat | t < |s.calls| ensures s.q.threads[t] == Idle { assert CallOk(s, t); }
    SumZero(PushOwed, s.calls, s.q.threads);
    SumZero(PopOwed, s.calls, s.q.threads);
    SumZero(AcceptOwed, s.calls, s.q.threads);
    SumZero(RejectOwed, s.calls, s.q.threads);
    SumZero(EventOwed, s.calls, s.q.threads);
  }
}
