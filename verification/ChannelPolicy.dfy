// src/core/engine/async_channel.h: which branch of TryEnqueue, InjectFlush, Dequeue and
// UpdateBackpressure a call takes, told by the queue operations it has finished. All
// statements are about every run of the interleaved channel.
module ChannelPolicy {
  import opened QueueProtocol
  import opened ChannelProtocol

  // ---- the queue operations a call has finished ----

  type Result = Pc<Item> -> bool

  predicate PushFailed(p: Pc<Item>) { p.PushDone? && !p.ok }

  predicate PushWorked(p: Pc<Item>) { p.PushDone? && p.ok }

  predicate PopEnded(p: Pc<Item>) { p.PopDone? }

  predicate PopTook(p: Pc<Item>) { p.PopDone? && p.result.Some? }

  // How often the call thread t is in has been handed such a result by the queue.
  ghost function Times(result: Result, run: seq<Channel>, t: nat, i: nat): nat
    requires i < |run| && forall j :: 0 <= j < |run| ==> t < |run[j].calls| && t < |run[j].q.threads|
  {
    if i == 0 || run[i].calls[t] == Out then 0
    else
      Times(result, run, t, i - 1)
      + if result(run[i - 1].q.threads[t]) && run[i].q.threads[t] == Idle then 1 else 0
  }

  // The pushes that fail before the item is given up: one, or two with room made between them.
  function Chances(policy: DropPolicy): nat {
    if policy == DropNewest then 1 else 2
  }

  // What a call at this point has behind it: failed pushes, successful pushes, pops, and
  // pops that took an item.
  predicate Behind(policy: DropPolicy, c: ChannelProtocol.Call, failed: nat, worked: nat, pops: nat, took: nat) {
    match c
    case Out => failed == worked == pops == took == 0
    case EnqPush(_, retry) => Retrying(policy, retry, failed, pops) && worked == 0 && took <= pops
    case EnqEvict(_) => policy == DropOldest && failed == 1 && worked == pops == took == 0
    case EnqEvicted(_) => policy == DropOldest && failed == pops == took == 1 && worked == 0
    case EnqCount(_, _) => EnqueueEnds(policy, true, failed, worked, pops, took)
    case EnqReject(_) => EnqueueEnds(policy, false, failed, worked, pops, took)
    case FlushPush(retry) => Retrying(DropOldest, retry, failed, pops) && worked == 0 && took <= pops
    case FlushEvict => failed == 1 && worked == pops == took == 0
    case FlushEvicted => failed == pops == took == 1 && worked == 0
    case FlushCount => EnqueueEnds(DropOldest, true, failed, worked, pops, took)
    case FlushDone(ok) => EnqueueEnds(DropOldest, ok, failed, worked, pops, took)
    case Deq => failed == worked == took == 0
    case DeqCount(_, _) => failed == worked == 0 && took == 1
    case DeqEmpty => failed == worked == took == 0 && pops > 0
    case Updating(_, k) => Ended(policy, k, failed, worked, pops, took)
    case Finished(k) => Ended(policy, k, failed, worked, pops, took)
  }

  predicate Retrying(policy: DropPolicy, retry: bool, failed: nat, pops: nat) {
    failed == pops && if retry then policy == DropOldest && failed == 1 else failed == 0
  }

  // An item is given up exactly when every chance has failed, and room was made for it at most
  // once, after a failed push and never by DropNewest.
  predicate EnqueueEnds(policy: DropPolicy, ok: bool, failed: nat, worked: nat, pops: nat, took: nat) {
    && (ok <==> failed < Chances(policy)) && failed <= Chances(policy) && worked == (if ok then 1 else 0)
    && pops == (if policy == DropOldest && failed > 0 then 1 else 0) && took <= pops
  }

  predicate Ended(policy: DropPolicy, k: Outcome, failed: nat, worked: nat, pops: nat, took: nat) {
    match k
    case Enqueued(ok, _, _) => EnqueueEnds(policy, ok, failed, worked, pops, took)
    case Dequeued(_, _) => failed == worked == 0 && took == 1
  }

  // ---- one step ----

  function Add(result: Result, p: Pc<Item>): nat {
    if result(p) then 1 else 0
  }

  lemma LeaveBehind(policy: DropPolicy, c: ChannelProtocol.Call, r: Pc<Item>, c': ChannelProtocol.Call, f: nat,
          w: nat, p: nat, k: nat)
    requires Continues(policy, c, r, c') && Behind(policy, c, f, w, p, k)
    ensures c' != Out
    ensures Behind(policy, c', f + Add(PushFailed, r), w + Add(PushWorked, r), p + Add(PopEnded, r),
      k + Add(PopTook, r))
  {
  }

  lemma UpdateKeepsOutcome(s: Channel, t: nat, step: Backpressure, k: Outcome)
    requires t < |s.calls|
    ensures var s' := UpdateStep(s, t, step, k);
      t < |s'.calls| && (s'.calls[t] == Finished(k) || (s'.calls[t].Updating? && s'.calls[t].outcome == k))
  {
  }

  lemma LocalBehind(s: Channel, s': Channel, t: nat, f: nat, w: nat, p: nat, k: nat)
    requires Outside(s, s', t) && Behind(s.policy, s.calls[t], f, w, p, k)
    ensures t < |s'.calls| && s'.calls[t] != Out && Behind(s.policy, s'.calls[t], f, w, p, k)
  {
    if s.calls[t].Updating? { UpdateKeepsOutcome(s, t, s.calls[t].step, s.calls[t].outcome); }
  }

  // Inside the queue an operation has not ended yet.
  lemma AccessStays(q: State<Item>, q': State<Item>, t: nat)
    requires Access(q, q', t)
    ensures !q.threads[t].PushDone? && !q.threads[t].PopDone?
  {
  }

  ghost predicate OfEnds(result: Result) {
    forall p :: result(p) ==> p.PushDone? || p.PopDone?
  }

  ghost predicate Threads(run: seq<Channel>, t: nat) {
    forall j {:trigger run[j]} :: 0 <= j < |run| ==> t < |run[j].calls| == |run[j].q.threads|
  }

  lemma ThreadsStay(run: seq<Channel>, t: nat, i: nat)
    requires ChannelProtocol.Run(run) && i < |run| && t < |run[i].calls|
    ensures Threads(run, t)
  {
    forall j | 0 <= j < |run| ensures t < |run[j].calls| == |run[j].q.threads| {
      CallsStay(run, i);
      CallsStay(run, j);
    }
  }

  lemma {:induction false} CallsStay(run: seq<Channel>, i: nat)
    requires ChannelProtocol.Run(run) && i < |run|
    ensures |run[i].calls| == |run[0].calls| == |run[i].q.threads|
  {
    ChannelProtocol.RunInv(run, i);
    if i > 0 {
      CallsStay(run, i - 1);
      ChannelProtocol.RunInv(run, i - 1);
      var u: nat :| ChannelProtocol.Step(run[i - 1], run[i], u);
      ChannelProtocol.StepInv(run[i - 1], run[i], u);
    }
  }

  // A step that hands the call nothing leaves its count, and one that does adds to it.
  lemma TimesStep(result: Result, run: seq<Channel>, t: nat, i: nat)
    requires 0 < i < |run| && Threads(run, t) && OfEnds(result)
    ensures run[i].calls[t] == Out ==> Times(result, run, t, i) == 0
    ensures run[i].calls[t] != Out && run[i].q.threads[t] != Idle ==>
      Times(result, run, t, i) == Times(result, run, t, i - 1)
    ensures run[i].calls[t] != Out && run[i].q.threads[t] == Idle ==>
      Times(result, run, t, i) == Times(result, run, t, i - 1) + Add(result, run[i - 1].q.threads[t])
    ensures !run[i - 1].q.threads[t].PushDone? && !run[i - 1].q.threads[t].PopDone? ==>
      Add(result, run[i - 1].q.threads[t]) == 0
  {
  }

  ghost predicate Counted(run: seq<Channel>, t: nat, i: nat)
    requires i < |run| && Threads(run, t)
  {
    Behind(run[i].policy, run[i].calls[t], Times(PushFailed, run, t, i), Times(PushWorked, run, t, i),
      Times(PopEnded, run, t, i), Times(PopTook, run, t, i))
  }

  lemma AllTimesStep(run: seq<Channel>, t: nat, i: nat)
    requires 0 < i < |run| && Threads(run, t)
    requires run[i].calls[t] != Out
    requires run[i].q.threads[t] != Idle
      || (!run[i - 1].q.threads[t].PushDone? && !run[i - 1].q.threads[t].PopDone?)
    ensures Times(PushFailed, run, t, i) == Times(PushFailed, run, t, i - 1)
    ensures Times(PushWorked, run, t, i) == Times(PushWorked, run, t, i - 1)
    ensures Times(PopEnded, run, t, i) == Times(PopEnded, run, t, i - 1)
    ensures Times(PopTook, run, t, i) == Times(PopTook, run, t, i - 1)
  {
    TimesStep(PushFailed, run, t, i);
    TimesStep(PushWorked, run, t, i);
    TimesStep(PopEnded, run, t, i);
    TimesStep(PopTook, run, t, i);
  }

  lemma LeaveCounted(run: seq<Channel>, t: nat, i: nat)
    requires 0 < i < |run| && Threads(run, t) && Counted(run, t, i - 1)
    requires LeaveQueue(run[i - 1], run[i], t)
    ensures Counted(run, t, i)
  {
    var s, s' := run[i - 1], run[i];
    LeaveBehind(s.policy, s.calls[t], s.q.threads[t], s'.calls[t], Times(PushFailed, run, t, i - 1),
      Times(PushWorked, run, t, i - 1), Times(PopEnded, run, t, i - 1), Times(PopTook, run, t, i - 1));
    TimesStep(PushFailed, run, t, i);
    TimesStep(PushWorked, run, t, i);
    TimesStep(PopEnded, run, t, i);
    TimesStep(PopTook, run, t, i);
  }

  lemma OutsideCounted(run: seq<Channel>, t: nat, i: nat)
    requires 0 < i < |run| && Threads(run, t) && Counted(run, t, i - 1)
    requires Outside(run[i - 1], run[i], t) && CallOk(run[i - 1], t)
    ensures Counted(run, t, i)
  {
    LocalBehind(run[i - 1], run[i], t, Times(PushFailed, run, t, i - 1), Times(PushWorked, run, t, i - 1),
      Times(PopEnded, run, t, i - 1), Times(PopTook, run, t, i - 1));
    AllTimesStep(run, t, i);
  }

  lemma QueueCounted(run: seq<Channel>, t: nat, i: nat)
    requires 0 < i < |run| && Threads(run, t) && Counted(run, t, i - 1)
    requires EnterQueue(run[i - 1], run[i], t) || InQueue(run[i - 1], run[i], t)
    requires CallOk(run[i - 1], t)
    ensures Counted(run, t, i)
  {
    var s, s' := run[i - 1], run[i];
    if InQueue(s, s', t) { AccessStays(s.q, s'.q, t); }
    if s.calls[t] != Out { AllTimesStep(run, t, i); }
  }

  // Thread t's call begins or ends, or another thread moved.
  lemma BoundaryCounted(run: seq<Channel>, t: nat, i: nat, c: ChannelProtocol.Call)
    requires 0 < i < |run| && Threads(run, t) && Counted(run, t, i - 1)
    requires End(run[i - 1], run[i], t) || Begin(run[i - 1], run[i], t, c)
    requires CallOk(run[i - 1], t)
    ensures Counted(run, t, i)
  {
    if run[i].calls[t] != Out { AllTimesStep(run, t, i); }
  }

  lemma OthersCounted(run: seq<Channel>, t: nat, i: nat)
    requires 0 < i < |run| && Threads(run, t) && Counted(run, t, i - 1)
    requires run[i].policy == run[i - 1].policy && run[i].calls[t] == run[i - 1].calls[t]
    requires run[i].q.threads[t] == run[i - 1].q.threads[t]
    ensures Counted(run, t, i)
  {
    if run[i].calls[t] != Out { AllTimesStep(run, t, i); }
  }

  lemma StepMoves(s: Channel, s': Channel, u: nat)
    requires ChannelProtocol.Step(s, s', u) && |s.calls| == |s.q.threads|
    ensures Moves(s, s', u)
  {
    if Inner(s, s', u) { InnerMoves(s, s', u); } else { Boundary(s, s', u); }
  }

  lemma StepCounted(run: seq<Channel>, t: nat, i: nat, u: nat)
    requires 0 < i < |run| && Threads(run, t) && Counted(run, t, i - 1)
    requires ChannelProtocol.Step(run[i - 1], run[i], u) && CallOk(run[i - 1], t)
    ensures Counted(run, t, i)
  {
    var s, s' := run[i - 1], run[i];
    StepMoves(s, s', u);
    PolicyStays(s, s', u);
    if u != t {
      OthersCounted(run, t, i);
    } else if EnterQueue(s, s', t) || InQueue(s, s', t) {
      QueueCounted(run, t, i);
    } else if LeaveQueue(s, s', t) {
      LeaveCounted(run, t, i);
    } else if Outside(s, s', t) {
      OutsideCounted(run, t, i);
    } else {
      var c :| End(s, s', t) || Begin(s, s', t, c);
      BoundaryCounted(run, t, i, c);
    }
  }

  lemma PolicyStays(s: Channel, s': Channel, u: nat)
    requires ChannelProtocol.Step(s, s', u)
    ensures s'.policy == s.policy && s'.high == s.high && s'.low == s.low
  {
  }

  // ---- whole runs ----

  // The step that leads to state i, kept apart from Run so that an induction meets one
  // step at a time.
  ghost predicate Linked(run: seq<Channel>, i: int) {
    0 < i < |run| ==> CallsOk(run[i - 1]) && ChannelProtocol.Next(run[i - 1], run[i])
  }

  ghost predicate CallsOk(s: Channel) {
    |s.calls| == |s.q.threads| && forall t: nat :: t < |s.calls| ==> CallOk(s, t)
  }

  ghost predicate Links(run: seq<Channel>) {
    forall i :: Linked(run, i)
  }

  lemma RunLinks(run: seq<Channel>)
    requires ChannelProtocol.Run(run)
    ensures Links(run)
  {
    forall i ensures Linked(run, i) {
      if 0 < i < |run| {
        ChannelProtocol.RunInv(run, i - 1);
      }
    }
  }

  lemma LinkCounted(run: seq<Channel>, t: nat, i: nat)
    requires 0 < i < |run| && Threads(run, t) && Linked(run, i) && Counted(run, t, i - 1)
    ensures Counted(run, t, i)
  {
    var u: nat :| ChannelProtocol.Step(run[i - 1], run[i], u);
    StepCounted(run, t, i, u);
  }

  lemma {:induction false} LinksCounted(run: seq<Channel>, t: nat, i: nat)
    requires Links(run) && i < |run| && Threads(run, t) && run[0].calls[t] == Out
    ensures Counted(run, t, i)
  {
    if i > 0 {
      LinksCounted(run, t, i - 1);
      LinkCounted(run, t, i);
    }
  }

  lemma RunCounted(run: seq<Channel>, t: nat, i: nat)
    requires ChannelProtocol.Run(run) && i < |run| && Threads(run, t)
    ensures Counted(run, t, i)
  {
    RunLinks(run);
    LinksCounted(run, t, i);
  }

  lemma FinishedBehind(policy: DropPolicy, k: Outcome, f: nat, w: nat, p: nat, n: nat)
    requires Behind(policy, Finished(k), f, w, p, n) && k.Enqueued?
    ensures f <= Chances(policy) && (!k.ok <==> f == Chances(policy)) && w == (if k.ok then 1 else 0)
    ensures p == if policy == DropOldest && f > 0 then 1 else 0
  {
  }

  lemma FlushBehind(policy: DropPolicy, ok: bool, f: nat, w: nat, p: nat, n: nat)
    requires Behind(policy, FlushDone(ok), f, w, p, n)
    ensures f <= 2 && (!ok <==> f == 2) && w == (if ok then 1 else 0) && p == (if f > 0 then 1 else 0)
  {
  }

  lemma DequeuedBehind(policy: DropPolicy, c: ChannelProtocol.Call, f: nat, w: nat, p: nat, n: nat)
    requires Behind(policy, c, f, w, p, n) && (c == DeqEmpty || (c.Finished? && c.outcome.Dequeued?))
    ensures f == w == 0 && n == if c == DeqEmpty then 0 else 1
  {
  }

  /** A TryEnqueue returns false exactly when its last chance failed too: the one push of DropNewest,
      or both pushes of DropOldest, which has popped once between them. */
  lemma RejectedIff(run: seq<Channel>, t: nat, i: nat)
    requires ChannelProtocol.Run(run) && i < |run| && Threads(run, t)
    requires run[i].calls[t].Finished? && run[i].calls[t].outcome.Enqueued?
    ensures var policy, ok := run[i].policy, run[i].calls[t].outcome.ok;
      var failed := Times(PushFailed, run, t, i);
      && failed <= Chances(policy) && (!ok <==> failed == Chances(policy))
      && Times(PushWorked, run, t, i) == (if ok then 1 else 0)
      && Times(PopEnded, run, t, i) == (if policy == DropOldest && failed > 0 then 1 else 0)
  {
    RunCounted(run, t, i);
    FinishedBehind(run[i].policy, run[i].calls[t].outcome, Times(PushFailed, run, t, i), Times(PushWorked, run, t, i),
      Times(PopEnded, run, t, i), Times(PopTook, run, t, i));
  }

  /** InjectFlush makes room under either policy, and fails only when both its pushes have. */
  lemma FlushFailsIff(run: seq<Channel>, t: nat, i: nat)
    requires ChannelProtocol.Run(run) && i < |run| && Threads(run, t) && run[i].calls[t].FlushDone?
    ensures var failed := Times(PushFailed, run, t, i);
      && failed <= 2 && (!run[i].calls[t].ok <==> failed == 2)
      && Times(PushWorked, run, t, i) == (if run[i].calls[t].ok then 1 else 0)
      && Times(PopEnded, run, t, i) == (if failed > 0 then 1 else 0)
  {
    RunCounted(run, t, i);
    FlushBehind(run[i].policy, run[i].calls[t].ok, Times(PushFailed, run, t, i), Times(PushWorked, run, t, i),
      Times(PopEnded, run, t, i), Times(PopTook, run, t, i));
  }

  /** A dequeue returns nothing only if no pop of its own took an item, and at most one does. */
  lemma DequeuedIff(run: seq<Channel>, t: nat, i: nat)
    requires ChannelProtocol.Run(run) && i < |run| && Threads(run, t)
    requires run[i].calls[t] == DeqEmpty || (run[i].calls[t].Finished? && run[i].calls[t].outcome.Dequeued?)
    ensures Times(PopTook, run, t, i) == (if run[i].calls[t] == DeqEmpty then 0 else 1)
    ensures Times(PushWorked, run, t, i) == Times(PushFailed, run, t, i) == 0
  {
    RunCounted(run, t, i);
    DequeuedBehind(run[i].policy, run[i].calls[t], Times(PushFailed, run, t, i), Times(PushWorked, run, t, i),
      Times(PopEnded, run, t, i), Times(PopTook, run, t, i));
  }

  /** Under DropNewest no TryEnqueue makes room; a position is taken by a dequeue, by a full
      InjectFlush, or by a TryEnqueue of DropOldest whose first push failed. */
  lemma PopsAllowed(run: seq<Channel>, t: nat, i: nat)
    requires ChannelProtocol.Run(run) && i < |run| && Threads(run, t)
    ensures var c := run[i].calls[t];
      && (run[i].policy == DropNewest ==> !c.EnqEvict? && !c.EnqEvicted? && !(c.EnqPush? && c.retry))
      && (IsPop(run[i].q.threads[t]) ==>
            || c == Deq
            || (c == FlushEvict && Times(PushFailed, run, t, i) == 1)
            || (c.EnqEvict? && run[i].policy == DropOldest && Times(PushFailed, run, t, i) == 1))
  {
    RunCounted(run, t, i);
    ChannelProtocol.RunInv(run, i);
    assert CallOk(run[i], t);
  }

  // ---- UpdateBackpressure ----

  predicate AtCheck(c: ChannelProtocol.Call) {
    c.Updating? && c.step.LoadFlag?
  }

  // How often the call thread t is in has gone into UpdateBackpressure.
  ghost function Checks(run: seq<Channel>, t: nat, i: nat): nat
    requires i < |run| && Threads(run, t)
  {
    if i == 0 || run[i].calls[t] == Out then 0
    else Checks(run, t, i - 1) + if AtCheck(run[i - 1].calls[t]) && !AtCheck(run[i].calls[t]) then 1 else 0
  }

  predicate CheckedRight(c: ChannelProtocol.Call, checks: nat) {
    checks == if c.Finished? || (c.Updating? && !c.step.LoadFlag?) then 1 else 0
  }

  // How a call moves with regard to the check: a step into or out of it is one outside the queue.
  lemma CheckMoves(s: Channel, s': Channel, t: nat, n: nat)
    requires Inner(s, s', t) && |s.calls| == |s.q.threads| && t < |s.calls| && CallOk(s, t)
    requires CheckedRight(s.calls[t], n)
    ensures t < |s'.calls| && s'.calls[t] != Out
    ensures CheckedRight(s'.calls[t], n + if AtCheck(s.calls[t]) && !AtCheck(s'.calls[t]) then 1 else 0)
  {
    if InQueue(s, s', t) {
      AccessClaims(s.q, s'.q, t);
    } else if Outside(s, s', t) && s.calls[t].Updating? {
      UpdateKeepsOutcome(s, t, s.calls[t].step, s.calls[t].outcome);
    }
  }

  lemma LinkChecked(run: seq<Channel>, t: nat, i: nat)
    requires 0 < i < |run| && Threads(run, t) && Linked(run, i)
    requires CheckedRight(run[i - 1].calls[t], Checks(run, t, i - 1))
    ensures CheckedRight(run[i].calls[t], Checks(run, t, i))
  {
    var s, s' := run[i - 1], run[i];
    var u: nat :| ChannelProtocol.Step(s, s', u);
    StepMoves(s, s', u);
    assert CallOk(s, t);
    if u == t && Inner(s, s', t) { CheckMoves(s, s', t, Checks(run, t, i - 1)); }
  }

  lemma {:induction false} LinksChecked(run: seq<Channel>, t: nat, i: nat)
    requires Links(run) && i < |run| && Threads(run, t) && run[0].calls[t] == Out
    ensures CheckedRight(run[i].calls[t], Checks(run, t, i))
  {
    if i > 0 {
      LinksChecked(run, t, i - 1);
      LinkChecked(run, t, i);
    }
  }

  /** Every TryEnqueue and every dequeue that took an item goes through UpdateBackpressure exactly once
      before it returns; InjectFlush and a dequeue that took nothing do not. */
  lemma CheckedOnce(run: seq<Channel>, t: nat, i: nat)
    requires ChannelProtocol.Run(run) && i < |run| && Threads(run, t)
    ensures run[i].calls[t].Finished? ==> Checks(run, t, i) == 1
    ensures run[i].calls[t].FlushDone? || run[i].calls[t] == DeqEmpty ==> Checks(run, t, i) == 0
  {
    RunLinks(run);
    LinksChecked(run, t, i);
  }

  // Before moment i the queue held more than the high mark.
  ghost predicate SeenAbove(run: seq<Channel>, i: nat) {
    exists k {:trigger run[k]} :: 0 <= k < i < |run| && run[k].q.head > run[k].q.tail + run[k].high
  }

  // Before moment i a head was read that a later tail left less than the low mark ahead.
  ghost predicate SeenBelow(run: seq<Channel>, i: nat) {
    exists j, k {:trigger run[j], run[k]} :: 0 <= j <= k < i < |run| && run[j].q.head < run[k].q.tail + run[k].low
  }

  ghost predicate SeenHead(run: seq<Channel>, i: nat, h: nat) {
    exists j {:trigger run[j]} :: 0 <= j < i < |run| && run[j].q.head == h
  }

  // What a thread inside UpdateBackpressure has seen.
  ghost predicate Justified(run: seq<Channel>, t: nat, i: nat)
    requires i < |run| && t < |run[i].calls|
  {
    match run[i].calls[t]
    case Updating(LoadTail(_, h), _) => SeenHead(run, i, h)
    case Updating(Set, _) => SeenAbove(run, i)
    case Updating(Clear, _) => SeenBelow(run, i)
    case _ => true
  }

  lemma SeenLater(run: seq<Channel>, i: nat)
    requires 0 < i < |run|
    ensures SeenAbove(run, i - 1) ==> SeenAbove(run, i)
    ensures SeenBelow(run, i - 1) ==> SeenBelow(run, i)
    ensures forall h :: SeenHead(run, i - 1, h) ==> SeenHead(run, i, h)
  {
  }

  lemma {:induction false} HeadGrows(run: seq<Channel>, j: nat, i: nat)
    requires Links(run) && j <= i < |run|
    ensures run[j].q.head <= run[i].q.head
  {
    if j < i {
      HeadGrows(run, j, i - 1);
      LinkHead(run, i);
    }
  }

  lemma LinkHead(run: seq<Channel>, i: nat)
    requires 0 < i < |run| && Linked(run, i)
    ensures run[i - 1].q.head <= run[i].q.head
  {
    var u: nat :| ChannelProtocol.Step(run[i - 1], run[i], u);
    StepHead(run[i - 1], run[i], u);
  }

  lemma StepHead(s: Channel, s': Channel, u: nat)
    requires ChannelProtocol.Step(s, s', u) && |s.calls| == |s.q.threads|
    ensures s.q.head <= s'.q.head
  {
    if Inner(s, s', u) {
      InnerMoves(s, s', u);
      if s'.q != s.q { StepGrows(s.q, s'.q, u); }
    }
  }

  // The tail a thread loads decides, with the head it has loaded before.
  lemma TailStep(s: Channel, s': Channel, t: nat, h: nat)
    requires Outside(s, s', t) && s.calls[t].Updating? && s.calls[t].step.LoadTail? && s.calls[t].step.h == h
    ensures t < |s'.calls|
    ensures || (s'.calls[t].Finished? && s'.calls[t].outcome == s.calls[t].outcome)
            || (s'.calls[t] == Updating(Set, s.calls[t].outcome) && h > s.q.tail + s.high)
            || (s'.calls[t] == Updating(Clear, s.calls[t].outcome) && h < s.q.tail + s.low)
  {
  }

  lemma MarksPassed(run: seq<Channel>, i: nat, j: nat)
    requires 0 <= j < i - 1 < |run| - 1 && run[j].q.head <= run[i - 1].q.head
    ensures run[j].q.head > run[i - 1].q.tail + run[i - 1].high ==> SeenAbove(run, i)
    ensures run[j].q.head < run[i - 1].q.tail + run[i - 1].low ==> SeenBelow(run, i)
  {
  }

  lemma TailDecides(run: seq<Channel>, i: nat, h: nat)
    requires Links(run) && 0 < i < |run| && SeenHead(run, i - 1, h)
    ensures h > run[i - 1].q.tail + run[i - 1].high ==> SeenAbove(run, i)
    ensures h < run[i - 1].q.tail + run[i - 1].low ==> SeenBelow(run, i)
  {
    var j :| 0 <= j < i - 1 && run[j].q.head == h;
    HeadGrows(run, j, i - 1);
    MarksPassed(run, i, j);
  }

  lemma OutsideJustified(run: seq<Channel>, t: nat, i: nat)
    requires Links(run) && 0 < i < |run| && t < |run[i - 1].calls| && t < |run[i].calls|
    requires Outside(run[i - 1], run[i], t) && Justified(run, t, i - 1)
    ensures Justified(run, t, i)
  {
    var s := run[i - 1];
    if s.calls[t].Updating? {
      match s.calls[t].step {
        case LoadTail(_, h) =>
          TailStep(s, run[i], t, h);
          TailDecides(run, i, h);
        case LoadHead(_) => assert run[i].calls[t].step.h == run[i - 1].q.head;
        case _ =>
      }
    }
  }

  // No other step of the thread takes it to one of these points.
  lemma LeaveUpdatesNothing(s: Channel, s': Channel, t: nat)
    requires LeaveQueue(s, s', t)
    ensures !s'.calls[t].Updating?
  {
  }

  lemma ElsewhereJustified(run: seq<Channel>, t: nat, i: nat, u: nat)
    requires 0 < i < |run| && t < |run[i - 1].calls| == |run[i - 1].q.threads| && t < |run[i].calls|
    requires ChannelProtocol.Step(run[i - 1], run[i], u) && (u != t || !Outside(run[i - 1], run[i], t))
    requires Justified(run, t, i - 1)
    ensures Justified(run, t, i)
  {
    var s, s' := run[i - 1], run[i];
    StepMoves(s, s', u);
    SeenLater(run, i);
    if u == t {
      if LeaveQueue(s, s', t) { LeaveUpdatesNothing(s, s', t); }
    }
  }

  lemma LinkJustified(run: seq<Channel>, t: nat, i: nat)
    requires Links(run) && 0 < i < |run| && Threads(run, t) && Justified(run, t, i - 1)
    ensures Justified(run, t, i)
  {
    assert Linked(run, i);
    var u: nat :| ChannelProtocol.Step(run[i - 1], run[i], u);
    if u == t && Outside(run[i - 1], run[i], t) {
      OutsideJustified(run, t, i);
    } else {
      ElsewhereJustified(run, t, i, u);
    }
  }

  lemma {:induction false} LinksJustified(run: seq<Channel>, t: nat, i: nat)
    requires Links(run) && i < |run| && Threads(run, t) && run[0].calls[t] == Out
    ensures Justified(run, t, i)
  {
    if i > 0 {
      LinksJustified(run, t, i - 1);
      LinkJustified(run, t, i);
    }
  }

  lemma FlagMoves(s: Channel, s': Channel, u: nat)
    requires ChannelProtocol.Step(s, s', u) && s'.backpressured != s.backpressured
    ensures u < |s.calls| && s.calls[u].Updating?
    ensures s'.backpressured ==> s.calls[u].step.Set?
    ensures !s'.backpressured ==> s.calls[u].step.Clear?
  {
  }

  /** However threads interleave, the flag rises only after the queue has held more than the high
      mark, and falls only after a thread has found less than the low mark between a head and a
      later tail. */
  lemma FlagFollowsMarks(run: seq<Channel>, i: nat)
    requires ChannelProtocol.Run(run) && 0 < i < |run|
    ensures !run[i - 1].backpressured && run[i].backpressured ==> SeenAbove(run, i)
    ensures run[i - 1].backpressured && !run[i].backpressured ==> SeenBelow(run, i)
  {
    if run[i - 1].backpressured != run[i].backpressured {
      var u: nat :| ChannelProtocol.Step(run[i - 1], run[i], u);
      FlagMoves(run[i - 1], run[i], u);
      ThreadsStay(run, u, i - 1);
      RunLinks(run);
      LinksJustified(run, u, i - 1);
      SeenLater(run, i);
    }
  }

  // A thread alone in UpdateBackpressure, from its first step to its last.
  ghost predicate UpdatesAlone(run: seq<Channel>, t: nat, k: Outcome) {
    && run != [] && (forall i :: AloneAt(run, t, i))
    && t < |run[0].calls| && run[0].calls[t] == Updating(LoadFlag, k)
    && t < |run[|run| - 1].calls| && run[|run| - 1].calls[t] == Finished(k)
  }

  ghost predicate AloneAt(run: seq<Channel>, t: nat, i: int) {
    0 < i < |run| ==> Outside(run[i - 1], run[i], t)
  }

  // What is left to do for a thread alone, with the flag and the size it started from.
  ghost predicate OnTheWay(s0: Channel, s: Channel, t: nat) {
    && t < |s.calls| && s.q == s0.q && s.high == s0.high && s.low == s0.low && s.q.tail <= s.q.head
    && var size, flag := s0.q.head - s0.q.tail, s0.backpressured;
    match s.calls[t]
    case Updating(LoadFlag, _) => s == s0
    case Updating(LoadHead(was), _) => Untouched(s0, s) && was == flag
    case Updating(LoadTail(was, h), _) => Untouched(s0, s) && was == flag && h == s.q.head
    case Updating(Set, _) => Untouched(s0, s) && !flag && size > s.high
    case Updating(CountEvent, _) =>
      !flag && size > s.high && s.backpressured && s.backpressureEvents == s0.backpressureEvents
    case Updating(Clear, _) => Untouched(s0, s) && flag && size < s.low
    case _ => FlagAfter(s0, s)
  }

  predicate Untouched(s0: Channel, s: Channel) {
    s.backpressured == s0.backpressured && s.backpressureEvents == s0.backpressureEvents
  }

  // The flag rises above the high mark, falls below the low mark, and stays in between.
  predicate FlagAfter(s0: Channel, s: Channel)
    requires s0.q.tail <= s0.q.head
  {
    var size := s0.q.head - s0.q.tail;
    && (!s0.backpressured ==> (s.backpressured <==> size > s0.high))
    && (s0.backpressured ==> (s.backpressured <==> size >= s0.low))
    && s.backpressureEvents == s0.backpressureEvents + if s.backpressured && !s0.backpressured then 1 else 0
  }

  lemma UpdateOnTheWay(s0: Channel, s: Channel, s': Channel, t: nat)
    requires s0.q.tail <= s0.q.head && OnTheWay(s0, s, t) && Outside(s, s', t) && s.calls[t].Updating?
    ensures OnTheWay(s0, s', t)
  {
  }

  /** Run by one thread alone, UpdateBackpressure leaves the flag on the right side of the marks for
      the size of the queue, and counts a rise. */
  lemma UpdateAlone(run: seq<Channel>, t: nat, k: Outcome)
    requires UpdatesAlone(run, t, k) && run[0].q.tail <= run[0].q.head
    ensures run[|run| - 1].q == run[0].q && FlagAfter(run[0], run[|run| - 1])
  {
    AloneOnTheWay(run, t, k, |run| - 1);
  }

  lemma {:induction false} AloneOnTheWay(run: seq<Channel>, t: nat, k: Outcome, i: nat)
    requires UpdatesAlone(run, t, k) && run[0].q.tail <= run[0].q.head && i < |run|
    ensures OnTheWay(run[0], run[i], t) && (run[i].calls[t].Updating? || run[i].calls[t].Finished?)
  {
    if i > 0 {
      AloneOnTheWay(run, t, k, i - 1);
      assert AloneAt(run, t, i);
      UpdateOnTheWay(run[0], run[i - 1], run[i], t);
    }
  }
}
