// src/core/engine/pipeline_controller.{h,cc}: one Pull pipeline from StartAll to the
// end of StopAll, as interleaved steps of the controller, the timer thread, the
// collect-pool workers and the process thread over the shared channel.
module PipelineProtocol {
  import opened Wrappers
  import opened QueueProtocol
  import opened ChannelProtocol

  // Thread numbers in the channel; worker i is thread WORKER + i.
  const PROCESS: nat := 0
  const TIMER: nat := 1
  const WORKER: nat := 2

  datatype Task = Collect | Other

  // StopAll, phase by phase.
  datatype Control = Started | JoinTimer | ResetPool | JoinPool | StopPipeline | JoinProcess | Stopped

  datatype Timer = Ticking | Submitting | Flushing | TimerExited

  datatype Worker = Waiting | Running(task: Task) | Enqueuing | WorkerExited

  // drain is false in ProcessLoop and true in Drain.
  datatype Process =
    | Looping(drain: bool)
    | Taking(drain: bool)
    | Handling(drain: bool, item: Item, pos: nat)
    | FinalFlush
    | ProcessExited

  // Batches are named by their queue positions. buffer is the aggregator's content;
  // submitted went to the sinks, discarded failed or were emptied by a processor.
  // handled lists every position the process thread dispatched, batches the data
  // among them, refused those a processor did not let through, and accepted the
  // positions of TryEnqueue calls that returned true.
  datatype Pipeline = Pipeline(
    ch: Channel, hasAggregator: bool,
    control: Control, timerRunning: bool, poolStop: bool, running: bool,
    timer: Timer, tasks: seq<Task>, workers: seq<Worker>, process: Process,
    buffer: seq<nat>, submitted: seq<nat>, discarded: seq<nat>,
    handled: seq<nat>, batches: seq<nat>, refused: seq<nat>, accepted: seq<nat>)

  ghost predicate Init(s: Pipeline) {
    && ChannelProtocol.Init(s.ch) && |s.ch.calls| == WORKER + |s.workers|
    && s.control == Started && s.timerRunning && !s.poolStop && s.running
    && s.timer == Ticking && s.tasks == [] && s.process == Looping(false)
    && (forall i :: 0 <= i < |s.workers| ==> s.workers[i] == Waiting)
    && s.buffer == s.submitted == s.discarded == s.handled == s.batches == s.refused == s.accepted == []
  }

  // ---- steps ----

  ghost predicate Controller(s: Pipeline, s': Pipeline) {
    match s.control
    case Started => s' == s.(timerRunning := false, control := JoinTimer)
    case JoinTimer => s.timer == TimerExited && s' == s.(control := ResetPool)
    case ResetPool => s' == s.(poolStop := true, control := JoinPool)
    case JoinPool =>
      (forall i :: 0 <= i < |s.workers| ==> s.workers[i] == WorkerExited) && s' == s.(control := StopPipeline)
    case StopPipeline => s' == s.(running := false, control := JoinProcess)
    case JoinProcess => s.process == ProcessExited && s' == s.(control := Stopped)
    case Stopped => false
  }

  // The callbacks of one ProcessFired batch may still run after running_ is cleared.
  ghost predicate TimerThread(s: Pipeline, s': Pipeline) {
    match s.timer
    case Ticking =>
      || (s.running && s' == s.(timer := Submitting))
      || s' == s.(tasks := s.tasks + [Other])
      || (s.hasAggregator && s.running && Begin(s.ch, s'.ch, TIMER, FlushPush(false))
          && s' == s.(ch := s'.ch, timer := Flushing))
      || (!s.timerRunning && s' == s.(timer := TimerExited))
    case Submitting => s' == s.(tasks := s.tasks + [Collect], timer := Ticking)
    case Flushing => End(s.ch, s'.ch, TIMER) && s' == s.(ch := s'.ch, timer := Ticking)
    case TimerExited => false
  }

  ghost predicate WorkerThread(s: Pipeline, s': Pipeline, i: nat) {
    && i < |s.workers| && WORKER + i < |s.ch.calls|
    && match s.workers[i] {
         case Waiting =>
           || (s.tasks != [] && s' == s.(workers := s.workers[i := Running(s.tasks[0])], tasks := s.tasks[1..]))
           || (s.poolStop && s.tasks == [] && s' == s.(workers := s.workers[i := WorkerExited]))
         case Running(task) =>
           || s' == s.(workers := s.workers[i := Waiting])
           || (task == Collect && (exists b :: Begin(s.ch, s'.ch, WORKER + i, EnqPush(b, false)))
               && s' == s.(ch := s'.ch, workers := s.workers[i := Enqueuing]))
         case Enqueuing =>
           && s.ch.calls[WORKER + i].Finished? && s.ch.calls[WORKER + i].outcome.Enqueued?
           && End(s.ch, s'.ch, WORKER + i)
           && var outcome := s.ch.calls[WORKER + i].outcome;
              s' == s.(ch := s'.ch, workers := s.workers[i := Waiting],
                       accepted := if outcome.ok then s.accepted + [outcome.pos] else s.accepted)
         case WorkerExited => false
       }
  }

  // HandleData: a processor fails or empties the batch, or it reaches the aggregator or the sinks.
  function HandleData(s: Pipeline, pos: nat, kept: bool): Pipeline {
    if !kept then s.(discarded := s.discarded + [pos])
    else if s.hasAggregator then s.(buffer := s.buffer + [pos])
    else s.(submitted := s.submitted + [pos])
  }

  function HandleFlush(s: Pipeline): Pipeline {
    if s.hasAggregator then s.(submitted := s.submitted + s.buffer, buffer := []) else s
  }

  ghost predicate ProcessThread(s: Pipeline, s': Pipeline) {
    && PROCESS < |s.ch.calls|
    && match s.process {
         case Looping(drain) =>
           if !drain && !s.running then s' == s.(process := Looping(true))
           else Begin(s.ch, s'.ch, PROCESS, Deq) && s' == s.(ch := s'.ch, process := Taking(drain))
         case Taking(drain) =>
           && End(s.ch, s'.ch, PROCESS)
           && match s.ch.calls[PROCESS] {
                case DeqEmpty => s' == s.(ch := s'.ch, process := if drain then FinalFlush else Looping(false))
                case Finished(Dequeued(item, pos)) => s' == s.(ch := s'.ch, process := Handling(drain, item, pos))
                case _ => false
              }
         case Handling(drain, Batch(b), pos) =>
           exists kept :: s' == HandleData(s, pos, kept).(
             process := Looping(drain), handled := s.handled + [pos], batches := s.batches + [pos],
             refused := if kept then s.refused else s.refused + [pos])
         case Handling(drain, Flush, pos) =>
           s' == HandleFlush(s).(process := Looping(drain), handled := s.handled + [pos])
         case FinalFlush => s' == HandleFlush(s).(process := ProcessExited)
         case ProcessExited => false
       }
  }

  ghost predicate InChannel(s: Pipeline, s': Pipeline, t: nat) {
    Inner(s.ch, s'.ch, t) && s' == s.(ch := s'.ch)
  }

  ghost predicate Next(s: Pipeline, s': Pipeline) {
    || Controller(s, s') || TimerThread(s, s') || ProcessThread(s, s')
    || (exists i: nat :: WorkerThread(s, s', i))
    || (exists t: nat :: InChannel(s, s', t))
  }

  ghost predicate Run(run: seq<Pipeline>) {
    && run != [] && Init(run[0])
    && forall i {:trigger run[i]} :: 0 < i < |run| ==> Next(run[i - 1], run[i])
  }

  // ---- the invariant ----

  predicate Dequeuing(c: ChannelProtocol.Call) {
    c.Deq? || c.DeqCount? || c.DeqEmpty? || ((c.Updating? || c.Finished?) && c.outcome.Dequeued?)
  }

  predicate Injecting(c: ChannelProtocol.Call) {
    c.FlushPush? || c.FlushEvict? || c.FlushEvicted? || c.FlushCount? || c.FlushDone?
  }

  predicate EnqueuingCall(c: ChannelProtocol.Call) {
    || c.EnqPush? || c.EnqEvict? || c.EnqEvicted? || c.EnqCount? || c.EnqReject?
    || ((c.Updating? || c.Finished?) && c.outcome.Enqueued?)
  }

  function Phase(c: Control): nat {
    match c case Started => 0 case JoinTimer => 1 case ResetPool => 2 case JoinPool => 3
            case StopPipeline => 4 case JoinProcess => 5 case Stopped => 6
  }

  predicate Draining(p: Process) {
    p == FinalFlush || p == ProcessExited || (!p.FinalFlush? && !p.ProcessExited? && p.drain)
  }

  // Which thread is in which channel call.
  ghost predicate Roles(calls: seq<ChannelProtocol.Call>, process: Process, timer: Timer, workers: seq<Worker>) {
    && |calls| == WORKER + |workers|
    && (if process.Taking? then Dequeuing(calls[PROCESS]) else calls[PROCESS] == Out)
    && (if timer.Flushing? then Injecting(calls[TIMER]) else calls[TIMER] == Out)
    && forall i {:trigger workers[i]} :: 0 <= i < |workers| ==>
         if workers[i] == Enqueuing then EnqueuingCall(calls[WORKER + i]) else calls[WORKER + i] == Out
  }

  // What each phase of StopAll has waited for.
  ghost predicate Phases(s: Pipeline) {
    && (s.timerRunning <==> Phase(s.control) < 1)
    && (s.poolStop <==> Phase(s.control) >= 3)
    && (s.running <==> Phase(s.control) < 5)
    && (s.timer == TimerExited ==> !s.timerRunning)
    && (Phase(s.control) >= 2 ==> s.timer == TimerExited)
    && (forall i {:trigger s.workers[i]} :: 0 <= i < |s.workers| && s.workers[i] == WorkerExited ==>
        s.poolStop && s.tasks == [])
    && (Phase(s.control) >= 4 ==> forall i {:trigger s.workers[i]} :: 0 <= i < |s.workers| ==>
        s.workers[i] == WorkerExited)
    && (Draining(s.process) ==> !s.running)
    && (s.control == Stopped ==> s.process == ProcessExited)
  }

  // The position the process thread has claimed and not yet dispatched.
  function InHand(p: Process, c: ChannelProtocol.Call, pc: Pc<Item>): Option<nat> {
    if p.Handling? then Some(p.pos)
    else match c
      case DeqCount(_, pos) => Some(pos)
      case Updating(_, Dequeued(_, pos)) => Some(pos)
      case Finished(Dequeued(_, pos)) => Some(pos)
      case _ => Claimed(pc)
  }

  function Hand(process: Process, ch: Channel): Option<nat>
    requires PROCESS < |ch.calls| && PROCESS < |ch.q.threads|
  {
    InHand(process, ch.calls[PROCESS], ch.q.threads[PROCESS])
  }

  ghost predicate Increasing(xs: seq<nat>) {
    forall i, j :: 0 <= i < j < |xs| ==> xs[i] < xs[j]
  }

  // Every position below the tail was popped by a producer, or is dispatched, or in hand.
  ghost predicate Dispatched(poppers: seq<nat>, handled: seq<nat>, hand: Option<nat>) {
    && (forall p :: p in handled ==> p < |poppers|)
    && (forall p {:trigger poppers[p]} :: 0 <= p < |poppers| ==>
        (poppers[p] == PROCESS <==> p in handled || hand == Some(p)))
    && (hand.Some? ==> hand.value < |poppers| && forall p :: p in handled ==> p < hand.value)
    && Increasing(handled)
  }

  // The batches no processor refused, in order.
  ghost function Kept(batches: seq<nat>, refused: seq<nat>): seq<nat> {
    if batches == [] then []
    else
      var last, front := batches[|batches| - 1], Kept(batches[..|batches| - 1], refused);
      if last in refused then front else front + [last]
  }

  lemma {:induction false} KeptIs(batches: seq<nat>, refused: seq<nat>, p: nat)
    ensures p in Kept(batches, refused) <==> p in batches && p !in refused
  {
    if batches != [] {
      KeptIs(batches[..|batches| - 1], refused, p);
      assert batches == batches[..|batches| - 1] + [batches[|batches| - 1]];
    }
  }

  lemma {:induction false} KeptIgnores(batches: seq<nat>, refused: seq<nat>, p: nat)
    requires p !in batches
    ensures Kept(batches, refused + [p]) == Kept(batches, refused)
  {
    if batches != [] { KeptIgnores(batches[..|batches| - 1], refused, p); }
  }

  // What a processor refused is discarded; all else goes on in order, by way of the aggregator
  // if there is one. An exited process thread left nothing behind.
  ghost predicate Flows(process: Process, hasAggregator: bool, buffer: seq<nat>, submitted: seq<nat>,
          discarded: seq<nat>, batches: seq<nat>, refused: seq<nat>) {
    && discarded == refused && submitted + buffer == Kept(batches, refused)
    && (!hasAggregator || process == ProcessExited ==> buffer == [])
    && Increasing(batches) && forall p :: p in refused ==> p in batches
  }

  // A sentinel behind position p has been handled.
  ghost predicate Flushed(handled: seq<nat>, batches: seq<nat>, p: nat) {
    exists q: nat :: q in handled && q !in batches && p < q
  }

  // The aggregator holds what it was given since the last sentinel, and submits at sentinels only.
  ghost predicate Windowed(process: Process, hasAggregator: bool, buffer: seq<nat>, submitted: seq<nat>,
          handled: seq<nat>, batches: seq<nat>) {
    && (forall p :: p in buffer ==> !Flushed(handled, batches, p))
    && (hasAggregator && process != ProcessExited ==> forall p :: p in submitted ==> Flushed(handled, batches, p))
  }

  // The dispatched positions that held data are the batches.
  ghost predicate Recorded(log: seq<Item>, handled: seq<nat>, batches: seq<nat>) {
    && (forall p :: p in batches ==> p in handled)
    && (forall p :: p in handled ==> p < |log| && (log[p].Batch? <==> p in batches))
  }

  ghost predicate HoldsBatches(log: seq<Item>, positions: seq<nat>) {
    forall p :: p in positions ==> p < |log| && log[p].Batch?
  }

  ghost predicate Holding(log: seq<Item>, process: Process) {
    process.Handling? ==> process.pos < |log| && log[process.pos] == process.item
  }

  // Once Drain has found the queue empty, nothing can refill it.
  ghost predicate Drained(process: Process, ch: Channel) {
    && PROCESS < |ch.calls| && PROCESS < |ch.q.threads|
    && (FoundEmpty(process, ch.calls[PROCESS], ch.q.threads[PROCESS]) ==> ch.q.head == ch.q.tail)
  }

  predicate FoundEmpty(p: Process, c: ChannelProtocol.Call, pc: Pc<Item>) {
    || p == FinalFlush || p == ProcessExited
    || (p == Taking(true) && (c == DeqEmpty || (pc.PopDone? && pc.result.None?)))
  }

  ghost predicate Inv(s: Pipeline) {
    && ChannelProtocol.Inv(s.ch) && Roles(s.ch.calls, s.process, s.timer, s.workers) && Phases(s)
    && Dispatched(s.ch.q.poppers, s.handled, Hand(s.process, s.ch))
    && Flows(s.process, s.hasAggregator, s.buffer, s.submitted, s.discarded, s.batches, s.refused)
    && Windowed(s.process, s.hasAggregator, s.buffer, s.submitted, s.handled, s.batches)
    && Recorded(s.ch.q.log, s.handled, s.batches)
    && HoldsBatches(s.ch.q.log, s.accepted) && Holding(s.ch.q.log, s.process)
    && Drained(s.process, s.ch)
  }

  lemma InitInv(s: Pipeline)
    requires Init(s)
    ensures Inv(s)
  {
    ChannelProtocol.InitInv(s.ch);
  }

  // ---- steps outside the channel ----

  lemma ControllerPhases(s: Pipeline, s': Pipeline)
    requires Phases(s) && Controller(s, s')
    ensures Phases(s') && s'.ch == s.ch && s'.timer == s.timer && s'.workers == s.workers
    ensures DataKept(s, s') && s'.accepted == s.accepted
  {
  }

  lemma ControllerInv(s: Pipeline, s': Pipeline)
    requires Inv(s) && Controller(s, s')
    ensures Inv(s')
  {
    ControllerPhases(s, s');
  }

  lemma TimerRoles(s: Pipeline, s': Pipeline)
    requires Roles(s.ch.calls, s.process, s.timer, s.workers) && Phases(s) && TimerThread(s, s')
    ensures s'.ch.q == s.ch.q && |s'.ch.calls| == |s.ch.calls| && s'.ch.calls[PROCESS] == s.ch.calls[PROCESS]
    ensures Roles(s'.ch.calls, s'.process, s'.timer, s'.workers) && Phases(s')
  {
    if s'.ch != s.ch { Boundary(s.ch, s'.ch, TIMER); }
  }

  lemma TimerKeeps(s: Pipeline, s': Pipeline)
    requires TimerThread(s, s')
    ensures s'.process == s.process && s'.hasAggregator == s.hasAggregator && s'.buffer == s.buffer
    ensures s'.submitted == s.submitted && s'.discarded == s.discarded
    ensures s'.handled == s.handled && s'.batches == s.batches && s'.refused == s.refused
    ensures s'.accepted == s.accepted
  {
  }

  lemma TimerInv(s: Pipeline, s': Pipeline)
    requires Inv(s) && TimerThread(s, s')
    ensures Inv(s')
  {
    if s'.ch != s.ch { ChannelProtocol.StepInv(s.ch, s'.ch, TIMER); }
    TimerRoles(s, s');
    TimerKeeps(s, s');
  }

  // What a worker does to its call and to the list of workers.
  ghost predicate CallMoves(s: Pipeline, s': Pipeline, i: nat)
    requires i < |s.workers| && WORKER + i < |s.ch.calls|
  {
    && s'.ch.q == s.ch.q && |s'.ch.calls| == |s.ch.calls| && |s'.workers| == |s.workers|
    && s'.ch.calls == s.ch.calls[WORKER + i := s'.ch.calls[WORKER + i]]
    && s'.workers == s.workers[i := s'.workers[i]] && s'.process == s.process && s'.timer == s.timer
    && if s'.workers[i] == Enqueuing then EnqueuingCall(s'.ch.calls[WORKER + i])
       else s'.ch.calls[WORKER + i] == if s.workers[i] == Enqueuing then Out else s.ch.calls[WORKER + i]
  }

  lemma EnqueuingMoves(s: Pipeline, s': Pipeline, i: nat)
    requires WorkerThread(s, s', i) && s.workers[i] == Enqueuing
    ensures CallMoves(s, s', i)
  {
    Boundary(s.ch, s'.ch, WORKER + i);
  }

  lemma RunningMoves(s: Pipeline, s': Pipeline, i: nat)
    requires WorkerThread(s, s', i) && s.workers[i].Running?
    ensures CallMoves(s, s', i)
  {
    if s'.ch != s.ch { Boundary(s.ch, s'.ch, WORKER + i); }
  }

  lemma WorkerCalls(s: Pipeline, s': Pipeline, i: nat)
    requires WorkerThread(s, s', i)
    ensures CallMoves(s, s', i)
  {
    if s.workers[i] == Enqueuing {
      EnqueuingMoves(s, s', i);
    } else if s.workers[i].Running? {
      RunningMoves(s, s', i);
    }
  }

  lemma WorkerPhases(s: Pipeline, s': Pipeline, i: nat)
    requires Phases(s) && WorkerThread(s, s', i)
    ensures Phases(s')
  {
  }

  lemma WorkerRoles(s: Pipeline, s': Pipeline, i: nat)
    requires Roles(s.ch.calls, s.process, s.timer, s.workers) && Phases(s) && WorkerThread(s, s', i)
    ensures s'.ch.q == s.ch.q && s'.ch.calls[PROCESS] == s.ch.calls[PROCESS] && |s'.ch.calls| == |s.ch.calls|
    ensures Roles(s'.ch.calls, s'.process, s'.timer, s'.workers) && Phases(s')
  {
    WorkerCalls(s, s', i);
    WorkerPhases(s, s', i);
  }

  // What workers and their channel calls leave alone.
  ghost predicate DataKept(s: Pipeline, s': Pipeline) {
    && s'.process == s.process && s'.hasAggregator == s.hasAggregator && s'.buffer == s.buffer
    && s'.submitted == s.submitted && s'.discarded == s.discarded
    && s'.handled == s.handled && s'.batches == s.batches && s'.refused == s.refused
  }

  lemma EnqueuingKeeps(s: Pipeline, s': Pipeline, i: nat)
    requires WorkerThread(s, s', i) && |s.ch.calls| == |s.ch.q.threads| && s.workers[i] == Enqueuing
    requires CallOk(s.ch, WORKER + i) && HoldsBatches(s.ch.q.log, s.accepted)
    ensures DataKept(s, s') && HoldsBatches(s.ch.q.log, s'.accepted)
  {
  }

  lemma WorkerKeeps(s: Pipeline, s': Pipeline, i: nat)
    requires WorkerThread(s, s', i) && |s.ch.calls| == |s.ch.q.threads|
    requires CallOk(s.ch, WORKER + i) && HoldsBatches(s.ch.q.log, s.accepted)
    ensures DataKept(s, s') && HoldsBatches(s.ch.q.log, s'.accepted)
  {
    if s.workers[i] == Enqueuing { EnqueuingKeeps(s, s', i); }
  }

  lemma WorkerInv(s: Pipeline, s': Pipeline, i: nat)
    requires Inv(s) && WorkerThread(s, s', i)
    ensures Inv(s')
  {
    if s'.ch != s.ch { ChannelProtocol.StepInv(s.ch, s'.ch, WORKER + i); }
    WorkerRoles(s, s', i);
    assert CallOk(s.ch, WORKER + i);
    WorkerKeeps(s, s', i);
  }

  // What the process thread leaves alone.
  ghost predicate OthersKept(s: Pipeline, s': Pipeline) {
    && s'.control == s.control && s'.timerRunning == s.timerRunning && s'.poolStop == s.poolStop
        && s'.running == s.running
    && s'.timer == s.timer && s'.tasks == s.tasks && s'.workers == s.workers
    && s'.accepted == s.accepted && s'.hasAggregator == s.hasAggregator
  }

  lemma FrameDequeue(s: Pipeline, s': Pipeline)
    requires ProcessThread(s, s') && (s.process.Looping? || s.process.Taking?)
    ensures OthersKept(s, s') && (Draining(s'.process) ==> Draining(s.process) || !s.running)
  {
  }

  lemma FrameBatch(s: Pipeline, s': Pipeline)
    requires ProcessThread(s, s') && s.process.Handling? && s.process.item.Batch?
    ensures OthersKept(s, s') && s'.process == Looping(s.process.drain)
  {
  }

  lemma FrameFlush(s: Pipeline, s': Pipeline)
    requires ProcessThread(s, s') && s.process.Handling? && s.process.item.Flush?
    ensures OthersKept(s, s') && s'.process == Looping(s.process.drain)
  {
  }

  lemma FrameHandle(s: Pipeline, s': Pipeline)
    requires ProcessThread(s, s') && s.process.Handling?
    ensures OthersKept(s, s') && (Draining(s'.process) ==> Draining(s.process))
  {
    if s.process.item.Batch? { FrameBatch(s, s'); } else { FrameFlush(s, s'); }
  }

  lemma ProcessFrame(s: Pipeline, s': Pipeline)
    requires ProcessThread(s, s')
    ensures OthersKept(s, s') && s.process != ProcessExited
        && (Draining(s'.process) ==> Draining(s.process) || !s.running)
  {
    if s.process.Handling? {
      FrameHandle(s, s');
    } else if s.process.Looping? || s.process.Taking? {
      FrameDequeue(s, s');
    }
  }

  lemma ProcessPhases(s: Pipeline, s': Pipeline)
    requires Phases(s) && ProcessThread(s, s')
    ensures Phases(s') && s'.timer == s.timer && s'.workers == s.workers
    ensures s'.accepted == s.accepted && s'.hasAggregator == s.hasAggregator
  {
    ProcessFrame(s, s');
  }

  // What the process thread does to its own call.
  ghost predicate ProcessCall(s: Pipeline, s': Pipeline)
    requires PROCESS < |s.ch.calls|
  {
    && s'.ch.q == s.ch.q && |s'.ch.calls| == |s.ch.calls|
    && s'.ch.calls == s.ch.calls[PROCESS := s'.ch.calls[PROCESS]]
    && (if s'.process.Taking? then Dequeuing(s'.ch.calls[PROCESS])
        else s'.ch.calls[PROCESS] == if s.process.Taking? then Out else s.ch.calls[PROCESS])
  }

  lemma DequeueCall(s: Pipeline, s': Pipeline)
    requires ProcessThread(s, s') && (s.process.Looping? || s.process.Taking?)
    ensures ProcessCall(s, s')
  {
    if s'.ch != s.ch { Boundary(s.ch, s'.ch, PROCESS); }
  }

  lemma HandleCall(s: Pipeline, s': Pipeline)
    requires ProcessThread(s, s') && (s.process.Handling? || s.process.FinalFlush?)
    ensures s'.ch == s.ch && !s'.process.Taking?
  {
  }

  lemma ProcessRoles(s: Pipeline, s': Pipeline)
    requires Roles(s.ch.calls, s.process, s.timer, s.workers) && ProcessThread(s, s')
    ensures s'.ch.q == s.ch.q && |s'.ch.calls| == |s.ch.calls|
    ensures Roles(s'.ch.calls, s'.process, s.timer, s.workers)
  {
    if s.process.Looping? || s.process.Taking? { DequeueCall(s, s'); } else { HandleCall(s, s'); }
  }

  // Going into or out of a dequeue claims and dispatches nothing.
  ghost predicate NothingClaimed(s: Pipeline, s': Pipeline)
    requires PROCESS < |s.ch.calls| && PROCESS < |s.ch.q.threads|
  {
    && s'.ch.q == s.ch.q && |s'.ch.calls| == |s.ch.calls|
    && s'.handled == s.handled && Hand(s'.process, s'.ch) == Hand(s.process, s.ch)
    && s'.buffer == s.buffer && s'.submitted == s.submitted && s'.discarded == s.discarded
    && s'.batches == s.batches && s'.refused == s.refused
    && Drained(s'.process, s'.ch) && Holding(s'.ch.q.log, s'.process) && s'.process != ProcessExited
  }

  lemma LoopTakes(s: Pipeline, s': Pipeline)
    requires ProcessThread(s, s') && s.process.Looping?
    requires |s.ch.calls| == |s.ch.q.threads| && CallOk(s.ch, PROCESS) && s.ch.calls[PROCESS] == Out
    ensures NothingClaimed(s, s')
  {
  }

  lemma EmptyTakes(s: Pipeline, s': Pipeline)
    requires ProcessThread(s, s') && s.process.Taking? && s.ch.calls[PROCESS] == DeqEmpty
    requires |s.ch.calls| == |s.ch.q.threads| && CallOk(s.ch, PROCESS) && Drained(s.process, s.ch)
    ensures NothingClaimed(s, s')
  {
  }

  lemma ItemTakes(s: Pipeline, s': Pipeline)
    requires ProcessThread(s, s') && s.process.Taking? && s.ch.calls[PROCESS] != DeqEmpty
    requires |s.ch.calls| == |s.ch.q.threads| && CallOk(s.ch, PROCESS)
    ensures NothingClaimed(s, s')
  {
  }

  lemma ProcessTakes(s: Pipeline, s': Pipeline)
    requires ProcessThread(s, s') && (s.process.Looping? || s.process.Taking?)
    requires |s.ch.calls| == |s.ch.q.threads| && CallOk(s.ch, PROCESS)
    requires Drained(s.process, s.ch) && (s.process.Looping? ==> s.ch.calls[PROCESS] == Out)
    ensures NothingClaimed(s, s')
  {
    if s.process.Looping? {
      LoopTakes(s, s');
    } else if s.ch.calls[PROCESS] == DeqEmpty {
      EmptyTakes(s, s');
    } else {
      ItemTakes(s, s');
    }
  }

  lemma DispatchedExtends(poppers: seq<nat>, handled: seq<nat>, pos: nat)
    requires Dispatched(poppers, handled, Some(pos))
    ensures Dispatched(poppers, handled + [pos], None)
  {
    var h := handled + [pos];
    assert forall p :: p in h <==> p in handled || p == pos;
    forall i, j | 0 <= i < j < |h| ensures h[i] < h[j] {
      if j == |handled| { assert h[i] in handled; }
    }
  }

  lemma Appended(batches: seq<nat>, pos: nat)
    requires Increasing(batches) && forall p :: p in batches ==> p < pos
    ensures Increasing(batches + [pos])
  {
    var b := batches + [pos];
    forall i, j | 0 <= i < j < |b| ensures b[i] < b[j] {
      if j == |batches| { assert b[i] in batches; }
    }
  }

  lemma RefusedFlows(process: Process, hasAggregator: bool, buffer: seq<nat>, submitted: seq<nat>,
          discarded: seq<nat>, batches: seq<nat>, refused: seq<nat>, pos: nat)
    requires Flows(process, hasAggregator, buffer, submitted, discarded, batches, refused)
    requires forall p :: p in batches ==> p < pos
    ensures Flows(process, hasAggregator, buffer, submitted, discarded + [pos], batches + [pos], refused + [pos])
  {
    Appended(batches, pos);
    KeptIgnores(batches, refused, pos);
    assert (batches + [pos])[..|batches|] == batches;
  }

  lemma KeptFlows(process: Process, hasAggregator: bool, buffer: seq<nat>, submitted: seq<nat>,
          discarded: seq<nat>, batches: seq<nat>, refused: seq<nat>, pos: nat)
    requires Flows(process, hasAggregator, buffer, submitted, discarded, batches, refused) && !process.ProcessExited?
    requires forall p :: p in batches ==> p < pos
    ensures hasAggregator ==>
      Flows(process, hasAggregator, buffer + [pos], submitted, discarded, batches + [pos], refused)
    ensures !hasAggregator ==>
      Flows(process, hasAggregator, buffer, submitted + [pos], discarded, batches + [pos], refused)
  {
    Appended(batches, pos);
    assert (batches + [pos])[..|batches|] == batches && pos !in refused;
    assert Kept(batches + [pos], refused) == Kept(batches, refused) + [pos];
    assert submitted + (buffer + [pos]) == submitted + buffer + [pos];
    if !hasAggregator { assert submitted + [pos] + [] == submitted + [] + [pos]; }
  }

  lemma FlushFlows(process: Process, hasAggregator: bool, buffer: seq<nat>, submitted: seq<nat>, discarded: seq<nat>,
          batches: seq<nat>, refused: seq<nat>, process': Process)
    requires Flows(process, hasAggregator, buffer, submitted, discarded, batches, refused)
    ensures Flows(process', hasAggregator, [], submitted + buffer, discarded, batches, refused)
  {
    assert submitted + buffer + [] == submitted + buffer;
  }

  // A batch opens no window, and comes after every sentinel handled so far.
  lemma FlushedBatch(handled: seq<nat>, batches: seq<nat>, pos: nat, p: nat)
    requires forall q :: q in handled ==> q < pos
    ensures Flushed(handled + [pos], batches + [pos], p) <==> Flushed(handled, batches, p)
    ensures !Flushed(handled + [pos], batches + [pos], pos)
  {
    if Flushed(handled, batches, p) {
      var q: nat :| q in handled && q !in batches && p < q;
      assert q in handled + [pos] && q !in batches + [pos];
    }
  }

  lemma BatchWindow(process: Process, hasAggregator: bool, buffer: seq<nat>, submitted: seq<nat>,
          handled: seq<nat>, batches: seq<nat>, pos: nat)
    requires Windowed(process, hasAggregator, buffer, submitted, handled, batches)
    requires forall q :: q in handled ==> q < pos
    ensures Windowed(process, hasAggregator, buffer, submitted, handled + [pos], batches + [pos])
    ensures Windowed(process, hasAggregator, buffer + [pos], submitted, handled + [pos], batches + [pos])
    ensures !hasAggregator ==>
      Windowed(process, hasAggregator, buffer, submitted + [pos], handled + [pos], batches + [pos])
  {
    forall p: nat ensures Flushed(handled + [pos], batches + [pos], p) <==> Flushed(handled, batches, p) {
      FlushedBatch(handled, batches, pos, p);
    }
    FlushedBatch(handled, batches, pos, pos);
  }

  lemma FlushWindow(process: Process, buffer: seq<nat>, submitted: seq<nat>, handled: seq<nat>, batches: seq<nat>,
          pos: nat)
    requires Windowed(process, true, buffer, submitted, handled, batches) && !process.ProcessExited?
    requires pos !in batches && forall p :: p in buffer ==> p < pos
    ensures Windowed(process, true, [], submitted + buffer, handled + [pos], batches)
  {
    assert pos in handled + [pos];
    forall p | p in submitted + buffer ensures Flushed(handled + [pos], batches, p) {
      if p in submitted {
        var q: nat :| q in handled && q !in batches && p < q;
        assert q in handled + [pos];
      }
    }
  }

  lemma PassWindow(process: Process, submitted: seq<nat>, handled: seq<nat>, batches: seq<nat>, pos: nat)
    requires Windowed(process, false, [], submitted, handled, batches)
    ensures Windowed(process, false, [], submitted, handled + [pos], batches)
  {
  }

  lemma BatchDispatches(s: Pipeline, s': Pipeline)
    requires ProcessThread(s, s') && s.process.Handling? && s.process.item.Batch?
    requires Flows(s.process, s.hasAggregator, s.buffer, s.submitted, s.discarded, s.batches, s.refused)
    requires Windowed(s.process, s.hasAggregator, s.buffer, s.submitted, s.handled, s.batches)
    requires forall p :: p in s.batches ==> p in s.handled
    requires forall p :: p in s.handled ==> p < s.process.pos
    ensures Flows(s'.process, s.hasAggregator, s'.buffer, s'.submitted, s'.discarded, s'.batches, s'.refused)
    ensures Windowed(s'.process, s.hasAggregator, s'.buffer, s'.submitted, s'.handled, s'.batches)
  {
    var pos := s.process.pos;
    RefusedFlows(s.process, s.hasAggregator, s.buffer, s.submitted, s.discarded, s.batches, s.refused, pos);
    KeptFlows(s.process, s.hasAggregator, s.buffer, s.submitted, s.discarded, s.batches, s.refused, pos);
    BatchWindow(s.process, s.hasAggregator, s.buffer, s.submitted, s.handled, s.batches, pos);
  }

  lemma FlushDispatches(s: Pipeline, s': Pipeline)
    requires ProcessThread(s, s') && s.process.Handling? && s.process.item.Flush?
    requires Flows(s.process, s.hasAggregator, s.buffer, s.submitted, s.discarded, s.batches, s.refused)
    requires Windowed(s.process, s.hasAggregator, s.buffer, s.submitted, s.handled, s.batches)
    requires forall p :: p in s.batches ==> p < s.process.pos
    ensures Flows(s'.process, s.hasAggregator, s'.buffer, s'.submitted, s'.discarded, s'.batches, s'.refused)
    ensures Windowed(s'.process, s.hasAggregator, s'.buffer, s'.submitted, s'.handled, s'.batches)
  {
    var pos := s.process.pos;
    if s.hasAggregator {
      FlushFlows(s.process, true, s.buffer, s.submitted, s.discarded, s.batches, s.refused, s'.process);
      forall p | p in s.buffer ensures p < pos {
        KeptIs(s.batches, s.refused, p);
        assert p in s.submitted + s.buffer;
      }
      FlushWindow(s.process, s.buffer, s.submitted, s.handled, s.batches, pos);
    } else {
      PassWindow(s.process, s.submitted, s.handled, s.batches, pos);
    }
  }

  lemma DispatchRecords(s: Pipeline, s': Pipeline)
    requires ProcessThread(s, s') && s.process.Handling?
    requires Recorded(s.ch.q.log, s.handled, s.batches) && Holding(s.ch.q.log, s.process)
    requires forall p :: p in s.handled ==> p < s.process.pos
    ensures s'.ch == s.ch && s'.process == Looping(s.process.drain) && s'.handled == s.handled + [s.process.pos]
    ensures Recorded(s.ch.q.log, s'.handled, s'.batches)
  {
    RecordedMore(s.ch.q.log, s.handled, s.batches, s.process.pos);
  }

  lemma RecordedMore(log: seq<Item>, handled: seq<nat>, batches: seq<nat>, pos: nat)
    requires Recorded(log, handled, batches) && pos < |log| && forall p :: p in handled ==> p < pos
    ensures Recorded(log, handled + [pos], if log[pos].Batch? then batches + [pos] else batches)
  {
  }

  lemma ProcessDispatches(s: Pipeline, s': Pipeline)
    requires ProcessThread(s, s') && s.process.Handling?
    requires Flows(s.process, s.hasAggregator, s.buffer, s.submitted, s.discarded, s.batches, s.refused)
    requires Windowed(s.process, s.hasAggregator, s.buffer, s.submitted, s.handled, s.batches)
    requires Recorded(s.ch.q.log, s.handled, s.batches) && Holding(s.ch.q.log, s.process)
    requires forall p :: p in s.handled ==> p < s.process.pos
    ensures s'.ch == s.ch && s'.process == Looping(s.process.drain) && s'.handled == s.handled + [s.process.pos]
    ensures Flows(s'.process, s.hasAggregator, s'.buffer, s'.submitted, s'.discarded, s'.batches, s'.refused)
    ensures Windowed(s'.process, s.hasAggregator, s'.buffer, s'.submitted, s'.handled, s'.batches)
    ensures Recorded(s.ch.q.log, s'.handled, s'.batches)
  {
    DispatchRecords(s, s');
    if s.process.item.Batch? { BatchDispatches(s, s'); } else { FlushDispatches(s, s'); }
  }

  lemma DequeueInv(s: Pipeline, s': Pipeline)
    requires Inv(s) && ProcessThread(s, s') && (s.process.Looping? || s.process.Taking?)
    ensures Inv(s')
  {
    assert CallOk(s.ch, PROCESS);
    ProcessPhases(s, s');
    ProcessRoles(s, s');
    ProcessTakes(s, s');
    if s'.ch != s.ch { ChannelProtocol.StepInv(s.ch, s'.ch, PROCESS); }
  }

  lemma HandleInv(s: Pipeline, s': Pipeline)
    requires Inv(s) && ProcessThread(s, s') && s.process.Handling?
    ensures Inv(s')
  {
    assert CallOk(s.ch, PROCESS);
    ProcessPhases(s, s');
    ProcessRoles(s, s');
    ProcessDispatches(s, s');
    DispatchedExtends(s.ch.q.poppers, s.handled, s.process.pos);
  }

  lemma FinalInv(s: Pipeline, s': Pipeline)
    requires Inv(s) && ProcessThread(s, s') && s.process.FinalFlush?
    ensures Inv(s')
  {
    ProcessPhases(s, s');
    ProcessRoles(s, s');
    if s.hasAggregator {
      FlushFlows(s.process, true, s.buffer, s.submitted, s.discarded, s.batches, s.refused, s'.process);
    }
  }

  lemma ProcessInv(s: Pipeline, s': Pipeline)
    requires Inv(s) && ProcessThread(s, s')
    ensures Inv(s')
  {
    if s.process.Looping? || s.process.Taking? {
      DequeueInv(s, s');
    } else if s.process.Handling? {
      HandleInv(s, s');
    } else {
      FinalInv(s, s');
    }
  }

  // ---- steps inside the channel ----

  // A call keeps its kind, and a thread outside any call takes no inner step.
  lemma InnerKinds(ch: Channel, ch': Channel, t: nat)
    requires Inner(ch, ch', t) && t < |ch.calls| == |ch.q.threads| && t < |ch'.calls| && CallOk(ch, t)
    ensures ch.calls[t] != Out
    ensures Dequeuing(ch.calls[t]) ==> Dequeuing(ch'.calls[t])
    ensures Injecting(ch.calls[t]) ==> Injecting(ch'.calls[t])
    ensures EnqueuingCall(ch.calls[t]) ==> EnqueuingCall(ch'.calls[t])
  {
    if InQueue(ch, ch', t) { AccessClaims(ch.q, ch'.q, t); }
  }

  lemma InnerRoles(s: Pipeline, s': Pipeline, t: nat)
    requires Roles(s.ch.calls, s.process, s.timer, s.workers) && InChannel(s, s', t)
    requires |s.ch.calls| == |s.ch.q.threads| && t < |s.ch.calls| && CallOk(s.ch, t)
    ensures Roles(s'.ch.calls, s.process, s.timer, s.workers)
  {
    InnerMoves(s.ch, s'.ch, t);
    InnerKinds(s.ch, s'.ch, t);
  }

  // Only a pop claim by t extends the list of poppers.
  lemma QueuePoppers(q: State<Item>, q': State<Item>, t: nat)
    requires QueueProtocol.Step(q, q', t) && |q.poppers| == q.tail
    ensures q'.poppers == q.poppers || q'.poppers == q.poppers + [t]
    ensures q'.poppers != q.poppers ==> q.threads[t] == PopCas(q.tail) && q'.threads[t] == PopRead(q.tail)
    ensures IsPop(q.threads[t]) ==> q'.head == q.head
  {
  }

  // The position a popping thread has claimed.
  function Claimed(pc: Pc<Item>): Option<nat> {
    match pc
    case PopRead(pos) => Some(pos)
    case PopRelease(_, pos) => Some(pos)
    case PopDone(Some(_), pos) => Some(pos)
    case _ => None
  }

  lemma ClaimStep(q: State<Item>, q': State<Item>, t: nat)
    requires Access(q, q', t) && IsPop(q.threads[t]) && |q.poppers| == q.tail
    ensures t < |q'.threads| && q'.head == q.head
    ensures || (q'.poppers == q.poppers && Claimed(q'.threads[t]) == Claimed(q.threads[t]))
            || (q'.poppers == q.poppers + [t] && Claimed(q.threads[t]) == None
                && Claimed(q'.threads[t]) == Some(|q.poppers|))
  {
  }

  ghost predicate HandKept(ch: Channel, ch': Channel, process: Process)
    requires PROCESS < |ch.calls| && PROCESS < |ch.q.threads| && PROCESS < |ch'.calls| && PROCESS < |ch'.q.threads|
  {
    ch'.q.head == ch.q.head && ch'.q.poppers == ch.q.poppers && Hand(process, ch') == Hand(process, ch)
  }

  lemma HandEnters(ch: Channel, ch': Channel, process: Process)
    requires EnterQueue(ch, ch', PROCESS) && process.Taking? && Dequeuing(ch.calls[PROCESS])
    requires PROCESS < |ch.calls| == |ch.q.threads| && |ch'.calls| == |ch.calls| && |ch'.q.threads| == |ch.q.threads|
    ensures HandKept(ch, ch', process)
  {
  }

  lemma HandLeaves(ch: Channel, ch': Channel, process: Process)
    requires LeaveQueue(ch, ch', PROCESS) && process.Taking? && Dequeuing(ch.calls[PROCESS])
    requires PROCESS < |ch.calls| == |ch.q.threads| && |ch'.calls| == |ch.calls| && |ch'.q.threads| == |ch.q.threads|
    requires CallOk(ch, PROCESS)
    ensures HandKept(ch, ch', process)
  {
  }

  // Outside the queue a dequeuing call keeps its item.
  lemma DequeuedStays(ch: Channel, ch': Channel, t: nat)
    requires Outside(ch, ch', t) && Dequeuing(ch.calls[t])
    ensures ch'.q == ch.q && t < |ch'.calls|
    ensures Returning(ch'.calls[t]) == Returning(ch.calls[t]) || ch.calls[t].DeqCount?
    ensures ch.calls[t].DeqCount? ==> ch'.calls[t] == Updating(LoadFlag, Dequeued(ch.calls[t].item, ch.calls[t].pos))
    ensures ch.calls[t].Updating? ==>
      (ch'.calls[t].Updating? || ch'.calls[t].Finished?) && ch'.calls[t].outcome == ch.calls[t].outcome
    ensures ch.calls[t].DeqCount? || ch.calls[t].Updating?
  {
  }

  lemma HandLocal(ch: Channel, ch': Channel, process: Process)
    requires Outside(ch, ch', PROCESS) && process.Taking? && Dequeuing(ch.calls[PROCESS])
    requires PROCESS < |ch.calls| == |ch.q.threads| && |ch'.calls| == |ch.calls| && |ch'.q.threads| == |ch.q.threads|
    requires CallOk(ch, PROCESS)
    ensures HandKept(ch, ch', process)
  {
    DequeuedStays(ch, ch', PROCESS);
  }

  lemma HandStep(ch: Channel, ch': Channel, process: Process)
    requires Inner(ch, ch', PROCESS) && PROCESS < |ch.calls| == |ch.q.threads| && |ch'.calls| == |ch.calls|
        && |ch'.q.threads| == |ch.q.threads|
    requires process.Taking? && Dequeuing(ch.calls[PROCESS]) && CallOk(ch, PROCESS) && |ch.q.poppers| == ch.q.tail
    ensures ch'.q.head == ch.q.head
    ensures || (ch'.q.poppers == ch.q.poppers && Hand(process, ch') == Hand(process, ch))
            || (ch'.q.poppers == ch.q.poppers + [PROCESS] && Hand(process, ch) == None
                && Hand(process, ch') == Some(|ch.q.poppers|))
  {
    if InQueue(ch, ch', PROCESS) {
      assert ch.calls[PROCESS] == Deq by { AccessClaims(ch.q, ch'.q, PROCESS); }
      ClaimStep(ch.q, ch'.q, PROCESS);
    } else if EnterQueue(ch, ch', PROCESS) {
      HandEnters(ch, ch', process);
    } else if LeaveQueue(ch, ch', PROCESS) {
      HandLeaves(ch, ch', process);
    } else {
      HandLocal(ch, ch', process);
    }
  }

  lemma InnerDispatched(s: Pipeline, s': Pipeline, t: nat)
    requires InChannel(s, s', t) && Roles(s.ch.calls, s.process, s.timer, s.workers)
    requires |s.ch.calls| == |s.ch.q.threads| && |s.ch.q.poppers| == s.ch.q.tail
    requires t < |s.ch.calls| && CallOk(s.ch, t)
    requires Dispatched(s.ch.q.poppers, s.handled, Hand(s.process, s.ch))
    ensures |s'.ch.calls| == |s.ch.calls| && |s'.ch.q.threads| == |s.ch.q.threads|
    ensures Dispatched(s'.ch.q.poppers, s'.handled, Hand(s'.process, s'.ch))
  {
    InnerMoves(s.ch, s'.ch, t);
    if t == PROCESS {
      InnerKinds(s.ch, s'.ch, t);
      HandStep(s.ch, s'.ch, s.process);
    } else if s'.ch.q != s.ch.q {
      QueuePoppers(s.ch.q, s'.ch.q, t);
    }
  }

  // With the process thread draining, no other thread is in the channel.
  lemma DrainingAlone(s: Pipeline, t: nat)
    requires Roles(s.ch.calls, s.process, s.timer, s.workers) && Phases(s) && Draining(s.process)
    requires t != PROCESS && t < |s.ch.calls|
    ensures s.ch.calls[t] == Out
  {
    if t >= WORKER { assert s.workers[t - WORKER] == WorkerExited; }
  }

  lemma EmptyWhenAlone(s: Pipeline, pos: nat)
    requires Roles(s.ch.calls, s.process, s.timer, s.workers) && Phases(s) && Draining(s.process)
    requires ChannelProtocol.Inv(s.ch)
    requires s.ch.q.threads[PROCESS] == PopLoadSequence(pos) && At(s.ch.q, pos).sequence < pos + 1
    ensures s.ch.q.head == s.ch.q.tail
  {
    FailedPop(s.ch.q, PROCESS, pos);
    forall u: nat ensures !Pushing(s.ch.q, u, pos) {
      if u != PROCESS && u < |s.ch.calls| {
        DrainingAlone(s, u);
        assert CallOk(s.ch, u);
      }
    }
  }

  lemma InnerDrained(s: Pipeline, s': Pipeline, t: nat)
    requires Inv(s) && InChannel(s, s', t)
    ensures Drained(s'.process, s'.ch)
  {
    InnerMoves(s.ch, s'.ch, t);
    assert CallOk(s.ch, t);
    InnerKinds(s.ch, s'.ch, t);
    if Draining(s.process) {
      if t != PROCESS {
        DrainingAlone(s, t);
      } else {
        ProcessDrained(s, s');
      }
    }
  }

  // A pop that finds nothing while draining has met an empty queue.
  lemma DrainedInQueue(s: Pipeline, s': Pipeline)
    requires Roles(s.ch.calls, s.process, s.timer, s.workers) && Phases(s) && Draining(s.process)
        && Drained(s.process, s.ch)
    requires ChannelProtocol.Inv(s.ch) && InChannel(s, s', PROCESS) && InQueue(s.ch, s'.ch, PROCESS)
    requires s.ch.calls[PROCESS] == Deq
    ensures Drained(s'.process, s'.ch)
  {
    assert CallOk(s.ch, PROCESS);
    var pc := s.ch.q.threads[PROCESS];
    if pc.PopLoadSequence? && s'.ch.q.threads[PROCESS].PopDone? { EmptyWhenAlone(s, pc.pos); }
  }

  lemma DrainedLeaves(ch: Channel, ch': Channel, process: Process)
    requires LeaveQueue(ch, ch', PROCESS) && process.Taking? && Drained(process, ch)
    requires PROCESS < |ch.calls| == |ch.q.threads| && CallOk(ch, PROCESS) && Dequeuing(ch.calls[PROCESS])
    ensures Drained(process, ch')
  {
  }

  lemma DrainedElsewhere(ch: Channel, ch': Channel, process: Process)
    requires EnterQueue(ch, ch', PROCESS) || Outside(ch, ch', PROCESS)
    requires PROCESS < |ch.calls| == |ch.q.threads| && CallOk(ch, PROCESS) && Dequeuing(ch.calls[PROCESS])
    requires process.Taking?
    ensures Drained(process, ch')
  {
  }

  lemma ProcessDrained(s: Pipeline, s': Pipeline)
    requires Roles(s.ch.calls, s.process, s.timer, s.workers) && Phases(s) && Draining(s.process)
        && Drained(s.process, s.ch)
    requires ChannelProtocol.Inv(s.ch) && InChannel(s, s', PROCESS) && s.ch.calls[PROCESS] != Out
    ensures Drained(s'.process, s'.ch)
  {
    assert CallOk(s.ch, PROCESS);
    if InQueue(s.ch, s'.ch, PROCESS) {
      AccessClaims(s.ch.q, s'.ch.q, PROCESS);
      DrainedInQueue(s, s');
    } else if LeaveQueue(s.ch, s'.ch, PROCESS) {
      DrainedLeaves(s.ch, s'.ch, s.process);
    } else {
      DrainedElsewhere(s.ch, s'.ch, s.process);
    }
  }

  lemma InnerInv(s: Pipeline, s': Pipeline, t: nat)
    requires Inv(s) && InChannel(s, s', t)
    ensures Inv(s')
  {
    assert CallOk(s.ch, t);
    ChannelProtocol.StepInv(s.ch, s'.ch, t);
    InnerMoves(s.ch, s'.ch, t);
    if s'.ch.q != s.ch.q { StepGrows(s.ch.q, s'.ch.q, t); }
    InnerRoles(s, s', t);
    InnerDispatched(s, s', t);
    InnerDrained(s, s', t);
  }

  // ---- whole runs ----

  lemma NextInv(s: Pipeline, s': Pipeline)
    requires Inv(s) && Next(s, s')
    ensures Inv(s')
  {
    if Controller(s, s') {
      ControllerInv(s, s');
    } else if TimerThread(s, s') {
      TimerInv(s, s');
    } else if ProcessThread(s, s') {
      ProcessInv(s, s');
    } else if exists i: nat :: WorkerThread(s, s', i) {
      var i: nat :| WorkerThread(s, s', i);
      WorkerInv(s, s', i);
    } else {
      var t: nat :| InChannel(s, s', t);
      InnerInv(s, s', t);
    }
  }

  lemma {:induction false} RunInv(run: seq<Pipeline>, i: nat)
    requires Run(run) && i < |run|
    ensures Inv(run[i])
  {
    if i == 0 {
      InitInv(run[0]);
    } else {
      RunInv(run, i - 1);
      NextInv(run[i - 1], run[i]);
    }
  }

  // Position p was taken out of the channel by a producer, to make room.
  predicate EvictedAt(s: Pipeline, p: nat) {
    p < |s.ch.q.poppers| && s.ch.q.poppers[p] != PROCESS
  }

  /** At every moment of a run, what the processors refused is discarded and nothing else is; the
      other batches went on in order, straight to the sinks without an aggregator. With one, it
      holds those behind the last sentinel handled, and the sinks have those before it. */
  lemma BatchesFlow(run: seq<Pipeline>, i: nat)
    requires Run(run) && i < |run|
    ensures var s := run[i];
      && s.discarded == s.refused && s.submitted + s.buffer == Kept(s.batches, s.refused)
      && (!s.hasAggregator ==> s.submitted == Kept(s.batches, s.refused))
      && (s.hasAggregator && s.process != ProcessExited ==> forall p :: p in s.batches && p !in s.refused ==>
          (p in s.submitted <==> Flushed(s.handled, s.batches, p)) && (p in s.buffer <==> p !in s.submitted))
  {
    RunInv(run, i);
    var s := run[i];
    if !s.hasAggregator { assert s.submitted + [] == s.submitted; }
    forall p | p in s.batches && p !in s.refused ensures p in s.submitted || p in s.buffer {
      KeptIs(s.batches, s.refused, p);
      assert p in s.submitted + s.buffer;
    }
  }

  /** After StopAll: the channel and the aggregator are empty, every accepted batch was dispatched
      once or evicted, and the sinks were given, in order, exactly what no processor refused. */
  lemma ShutdownDrains(run: seq<Pipeline>, i: nat)
    requires Run(run) && i < |run| && run[i].control == Stopped
    ensures var s := run[i];
      && s.ch.q.head == s.ch.q.tail && s.buffer == [] && Conserved(s.ch)
      && (forall p :: p in s.accepted ==>
          && p < |s.ch.q.log| && s.ch.q.log[p].Batch? && (p in s.batches <==> !EvictedAt(s, p))
          && (p in s.submitted <==> !EvictedAt(s, p) && p !in s.refused))
      && Increasing(s.handled) && Increasing(s.batches)
      && s.submitted == Kept(s.batches, s.refused) && s.discarded == s.refused
  {
    RunInv(run, i);
    StoppedDrained(run[i]);
    BatchesFlow(run, i);
    var s := run[i];
    assert s.submitted + [] == s.submitted;
    forall p | p in s.accepted ensures p in s.submitted <==> !EvictedAt(s, p) && p !in s.refused {
      KeptIs(s.batches, s.refused, p);
    }
  }

  lemma StoppedDrained(s: Pipeline)
    requires Inv(s) && s.control == Stopped
    ensures s.ch.q.head == s.ch.q.tail && s.buffer == [] && Conserved(s.ch)
    ensures forall p :: p in s.accepted ==>
        p < |s.ch.q.log| && s.ch.q.log[p].Batch? && (p in s.batches <==> !EvictedAt(s, p))
  {
    forall t: nat | t < |s.ch.calls| ensures s.ch.calls[t] == Out {
      if t != PROCESS { DrainingAlone(s, t); }
    }
    QuiescentBalance(s.ch);
    assert Hand(s.process, s.ch) == None;
    forall p | p in s.accepted
      ensures p < |s.ch.q.log| && s.ch.q.log[p].Batch? && (p in s.batches <==> !EvictedAt(s, p))
    {
      assert p < |s.ch.q.poppers|;
      assert s.ch.q.poppers[p] == PROCESS <==> p in s.handled;
    }
  }

  /** A sentinel is a barrier: once it is handled, every earlier batch was evicted, refused by a
      processor, or has left the aggregator for the sinks. */
  lemma FlushBarrier(run: seq<Pipeline>, i: nat)
    requires Run(run) && i + 1 < |run| && ProcessThread(run[i], run[i + 1])
    requires run[i].process.Handling? && run[i].process.item == Flush
    ensures var s, s', pos := run[i], run[i + 1], run[i].process.pos;
      && pos < |s.ch.q.log| && s.ch.q.log[pos] == Flush
      && (forall p: nat :: p < pos && !EvictedAt(s, p) ==> p in s.handled)
      && s'.buffer == [] && s'.refused == s.refused
      && forall p: nat :: p < pos && s.ch.q.log[p].Batch? && !EvictedAt(s, p) ==>
          (p in s'.submitted <==> p !in s.refused) && (p in s'.discarded <==> p in s.refused)
  {
    RunInv(run, i);
    RunInv(run, i + 1);
    BarrierAt(run[i]);
    BarrierAfter(run[i], run[i + 1]);
  }

  lemma BarrierAt(s: Pipeline)
    requires Inv(s) && s.process.Handling?
    ensures s.process.pos < |s.ch.q.log| && s.ch.q.log[s.process.pos] == s.process.item
    ensures forall p: nat :: p < s.process.pos && !EvictedAt(s, p) ==> p in s.handled
  {
    forall p: nat | p < s.process.pos && !EvictedAt(s, p) ensures p in s.handled {
      assert s.ch.q.poppers[p] == PROCESS;
    }
  }

  lemma BarrierAfter(s: Pipeline, s': Pipeline)
    requires Inv(s) && Inv(s') && ProcessThread(s, s') && s.process.Handling? && s.process.item == Flush
    ensures s'.buffer == [] && s'.ch == s.ch && s'.refused == s.refused && s'.discarded == s.refused
    ensures forall p :: p in s.handled && s.ch.q.log[p].Batch? ==> (p in s'.submitted <==> p !in s.refused)
  {
    assert s'.submitted + [] == s'.submitted;
    forall p | p in s.handled && s.ch.q.log[p].Batch?
      ensures p in s'.submitted <==> p !in s.refused
    {
      KeptIs(s.batches, s.refused, p);
    }
  }
}
