// src/core/engine/pipeline_controller.cc, StopAll: from every state the engine can reach,
// the threads that StopAll waits for can bring it to its end.
module PipelineProgress {
  import opened ChannelProgress
  import opened ChannelProtocol
  import opened PipelineProtocol
  import opened QueueProtocol
  import opened Wrappers

  // What StopAll waits for in its present phase: itself, the timer, some worker or the process thread.
  ghost predicate Awaited(s: Pipeline, s': Pipeline) {
    || Controller(s, s')
    || (s.control == JoinTimer && (TimerThread(s, s') || InChannel(s, s', TIMER)))
    || (s.control == JoinPool && exists i: nat :: WorkerMoves(s, s', i))
    || (s.control == JoinProcess && (ProcessThread(s, s') || InChannel(s, s', PROCESS)))
  }

  ghost predicate WorkerMoves(s: Pipeline, s': Pipeline, i: nat) {
    && i < |s.workers| && s.workers[i] != WorkerExited
    && (WorkerThread(s, s', i) || InChannel(s, s', WORKER + i))
  }

  // ---- how far it is to the end ----

  function TimerStage(timer: Timer): nat {
    match timer case TimerExited => 0 case Ticking => 1 case Submitting => 2 case Flushing => 2
  }

  function WorkerStage(w: Worker): nat {
    match w case WorkerExited => 0 case Waiting => 1 case Running(_) => 2 case Enqueuing => 2
  }

  function WorkersLeft(workers: seq<Worker>): nat {
    if workers == [] then 0 else WorkerStage(workers[0]) + WorkersLeft(workers[1..])
  }

  // The first worker still there, or their number.
  function FirstLeft(workers: seq<Worker>): (i: nat)
    ensures i <= |workers| && (i < |workers| ==> workers[i] != WorkerExited)
    ensures i == |workers| ==> forall j :: 0 <= j < |workers| ==> workers[j] == WorkerExited
  {
    if workers == [] || workers[0] != WorkerExited then 0 else 1 + FirstLeft(workers[1..])
  }

  // With an item in hand the process thread has this round before it and another look at the queue.
  function ProcessStage(process: Process, inHand: bool): nat {
    match process
    case Taking(drain) => if drain && inHand then 6 else 3
    case Handling(drain, _, _) => if drain then 5 else 2
    case Looping(drain) => if drain then 4 else 1
    case FinalFlush => 2
    case ProcessExited => 1
  }

  function RankOf(ch: Channel, t: nat): nat {
    if t < |ch.calls| && |ch.calls| == |ch.q.threads| then Rank(ch, t) else 0
  }

  // Five numbers, compared one after the other: phases left, the queue of work in the
  // present phase, and then ever smaller steps.
  datatype Distance = Distance(phase: nat, work: nat, load: nat, stage: nat, rank: nat)

  predicate Less(a: Distance, b: Distance) {
    a.phase < b.phase || (a.phase == b.phase &&
    (a.work < b.work || (a.work == b.work &&
    (a.load < b.load || (a.load == b.load &&
    (a.stage < b.stage || (a.stage == b.stage && a.rank < b.rank)))))))
  }

  function TimerDistance(s: Pipeline): Distance {
    Distance(5, TimerStage(s.timer), if s.timer == Flushing then RankOf(s.ch, TIMER) else 0, 0, 0)
  }

  function PoolDistance(s: Pipeline): Distance {
    var w := FirstLeft(s.workers);
    Distance(3, |s.tasks|, WorkersLeft(s.workers),
      if w < |s.workers| && s.workers[w] == Enqueuing then RankOf(s.ch, WORKER + w) else 0, 0)
  }

  function ProcessDistance(s: Pipeline): Distance {
    Distance(1, if Draining(s.process) then 0 else 1,
      if s.ch.q.head > s.ch.q.tail then s.ch.q.head - s.ch.q.tail else 0,
      ProcessStage(s.process, PROCESS < |s.ch.calls| && PROCESS < |s.ch.q.threads| && Hand(s.process, s.ch).Some?),
      if s.process.Taking? then RankOf(s.ch, PROCESS) else 0)
  }

  function ToStop(s: Pipeline): Distance {
    match s.control
    case Started => Distance(6, 0, 0, 0, 0)
    case JoinTimer => TimerDistance(s)
    case ResetPool => Distance(4, 0, 0, 0, 0)
    case JoinPool => PoolDistance(s)
    case StopPipeline => Distance(2, 0, 0, 0, 0)
    case JoinProcess => ProcessDistance(s)
    case Stopped => Distance(0, 0, 0, 0, 0)
  }

  lemma {:induction false} LeftUpdate(workers: seq<Worker>, i: nat, w: Worker)
    requires i < |workers|
    ensures WorkersLeft(workers[i := w]) == WorkersLeft(workers) - WorkerStage(workers[i]) + WorkerStage(w)
    ensures WorkersLeft(workers) >= WorkerStage(workers[i])
    decreases |workers|
  {
    if i > 0 {
      assert workers[i := w][1..] == workers[1..][i - 1 := w];
      LeftUpdate(workers[1..], i - 1, w);
    } else {
      assert workers[i := w][1..] == workers[1..];
    }
  }

  // ---- one step nearer ----

  lemma InCall(s: Pipeline, t: nat) returns (ch': Channel)
    requires PipelineProtocol.Inv(s) && t < |s.ch.calls| && s.ch.calls[t] != Out
    ensures End(s.ch, ch', t) || (Inner(s.ch, ch', t) && RankOf(ch', t) < RankOf(s.ch, t))
  {
    assert CallOk(s.ch, t);
    ch' := CallAdvances(s.ch, t);
    if !End(s.ch, ch', t) {
      ChannelProtocol.StepInv(s.ch, ch', t);
      InnerMoves(s.ch, ch', t);
      SoloDecreases(s.ch, ch', t);
    }
  }

  lemma TimerAdvances(s: Pipeline) returns (s': Pipeline)
    requires PipelineProtocol.Inv(s) && s.control == JoinTimer && s.timer != TimerExited
    ensures TimerThread(s, s') || InChannel(s, s', TIMER)
    ensures s'.control == JoinTimer && Less(TimerDistance(s'), TimerDistance(s))
  {
    match s.timer
    case Ticking => s' := s.(timer := TimerExited);
    case Submitting => s' := s.(tasks := s.tasks + [Collect], timer := Ticking);
    case Flushing =>
      var ch' := InCall(s, TIMER);
      s' := if End(s.ch, ch', TIMER) then s.(ch := ch', timer := Ticking) else s.(ch := ch');
  }

  lemma WorkerFinishes(s: Pipeline, i: nat) returns (s': Pipeline)
    requires PipelineProtocol.Inv(s) && s.control == JoinPool && i < |s.workers| && s.workers[i] == Enqueuing
    ensures WorkerThread(s, s', i) || InChannel(s, s', WORKER + i)
    ensures s'.control == JoinPool && s'.tasks == s.tasks
    ensures s'.workers == s.workers[i := Waiting]
        || (s'.workers == s.workers && RankOf(s'.ch, WORKER + i) < RankOf(s.ch, WORKER + i))
  {
    var ch' := InCall(s, WORKER + i);
    if End(s.ch, ch', WORKER + i) {
      var outcome := s.ch.calls[WORKER + i].outcome;
      s' := s.(ch := ch', workers := s.workers[i := Waiting],
               accepted := if outcome.ok then s.accepted + [outcome.pos] else s.accepted);
    } else {
      s' := s.(ch := ch');
    }
  }

  lemma WorkerIdles(s: Pipeline, i: nat) returns (s': Pipeline)
    requires i < |s.workers| && WORKER + i < |s.ch.calls| && s.poolStop
    requires s.workers[i] == Waiting || s.workers[i].Running?
    ensures WorkerThread(s, s', i) && s'.control == s.control
    ensures |s'.tasks| < |s.tasks| || s'.tasks == s.tasks
    ensures |s'.tasks| == |s.tasks| ==>
      |s'.workers| == |s.workers| && s'.workers == s.workers[i := s'.workers[i]]
          && WorkerStage(s'.workers[i]) < WorkerStage(s.workers[i])
  {
    if s.workers[i].Running? {
      s' := s.(workers := s.workers[i := Waiting]);
    } else if s.tasks != [] {
      s' := s.(workers := s.workers[i := Running(s.tasks[0])], tasks := s.tasks[1..]);
    } else {
      s' := s.(workers := s.workers[i := WorkerExited]);
    }
  }

  lemma PoolCloser(s: Pipeline, s': Pipeline, i: nat)
    requires i < |s.workers| == |s'.workers| && |s'.tasks| == |s.tasks|
    requires s'.workers == s.workers[i := s'.workers[i]] && WorkerStage(s'.workers[i]) < WorkerStage(s.workers[i])
    ensures Less(PoolDistance(s'), PoolDistance(s))
  {
    LeftUpdate(s.workers, i, s'.workers[i]);
  }

  lemma EnqueuingAdvances(s: Pipeline, i: nat) returns (s': Pipeline)
    requires PipelineProtocol.Inv(s) && s.control == JoinPool && i == FirstLeft(s.workers) < |s.workers|
    requires s.workers[i] == Enqueuing
    ensures WorkerMoves(s, s', i) && s'.control == JoinPool && Less(PoolDistance(s'), PoolDistance(s))
  {
    s' := WorkerFinishes(s, i);
    if s'.workers != s.workers { PoolCloser(s, s', i); }
  }

  lemma WorkerAdvances(s: Pipeline) returns (s': Pipeline)
    requires PipelineProtocol.Inv(s) && s.control == JoinPool && FirstLeft(s.workers) < |s.workers|
    ensures WorkerMoves(s, s', FirstLeft(s.workers))
    ensures s'.control == JoinPool && Less(PoolDistance(s'), PoolDistance(s))
  {
    var i := FirstLeft(s.workers);
    if s.workers[i] == Enqueuing {
      s' := EnqueuingAdvances(s, i);
    } else {
      s' := WorkerIdles(s, i);
      if |s'.tasks| == |s.tasks| { PoolCloser(s, s', i); }
    }
  }

  // The process thread inside a dequeue: it claims an item, or comes nearer to doing so.
  lemma DequeueEnds(s: Pipeline, ch': Channel) returns (s': Pipeline)
    requires PipelineProtocol.Inv(s) && s.control == JoinProcess && s.process.Taking? && End(s.ch, ch', PROCESS)
    ensures ProcessThread(s, s') && s'.control == JoinProcess && Less(ProcessDistance(s'), ProcessDistance(s))
  {
    var drain := s.process.drain;
    if s.ch.calls[PROCESS] == DeqEmpty {
      s' := s.(ch := ch', process := if drain then FinalFlush else Looping(false));
    } else {
      var outcome := s.ch.calls[PROCESS].outcome;
      s' := s.(ch := ch', process := Handling(drain, outcome.item, outcome.pos));
    }
  }

  lemma DequeueAdvances(s: Pipeline) returns (s': Pipeline)
    requires PipelineProtocol.Inv(s) && s.control == JoinProcess && s.process.Taking?
    ensures ProcessThread(s, s') || InChannel(s, s', PROCESS)
    ensures s'.control == JoinProcess && Less(ProcessDistance(s'), ProcessDistance(s))
  {
    var ch' := InCall(s, PROCESS);
    if End(s.ch, ch', PROCESS) {
      s' := DequeueEnds(s, ch');
    } else {
      s' := s.(ch := ch');
      DequeueCloser(s, s');
    }
  }

  lemma DequeueCloser(s: Pipeline, s': Pipeline)
    requires PipelineProtocol.Inv(s) && s.process.Taking? && InChannel(s, s', PROCESS)
    requires RankOf(s'.ch, PROCESS) < RankOf(s.ch, PROCESS)
    ensures Less(ProcessDistance(s'), ProcessDistance(s))
  {
    assert CallOk(s.ch, PROCESS);
    InnerMoves(s.ch, s'.ch, PROCESS);
    ChannelProtocol.StepInv(s.ch, s'.ch, PROCESS);
    HandStep(s.ch, s'.ch, s.process);
  }

  lemma LoopAdvances(s: Pipeline) returns (s': Pipeline)
    requires PipelineProtocol.Inv(s) && s.control == JoinProcess && s.process.Looping?
    ensures ProcessThread(s, s') && s'.control == JoinProcess && Less(ProcessDistance(s'), ProcessDistance(s))
  {
    assert CallOk(s.ch, PROCESS);
    if s.process.drain {
      s' := s.(ch := To(s.ch, PROCESS, Deq), process := Taking(true));
    } else {
      s' := s.(process := Looping(true));
    }
  }

  lemma HandleAdvances(s: Pipeline) returns (s': Pipeline)
    requires s.control == JoinProcess && s.process.Handling? && PROCESS < |s.ch.calls|
    ensures ProcessThread(s, s') && s'.control == JoinProcess && Less(ProcessDistance(s'), ProcessDistance(s))
  {
    var drain, pos, handled := s.process.drain, s.process.pos, s.handled + [s.process.pos];
    s' := if s.process.item.Batch?
          then HandleData(s, pos, true).(process := Looping(drain), handled := handled, batches := s.batches + [pos])
          else HandleFlush(s).(process := Looping(drain), handled := handled);
  }

  lemma ProcessAdvances(s: Pipeline) returns (s': Pipeline)
    requires PipelineProtocol.Inv(s) && s.control == JoinProcess && s.process != ProcessExited
    ensures ProcessThread(s, s') || InChannel(s, s', PROCESS)
    ensures s'.control == JoinProcess && Less(ProcessDistance(s'), ProcessDistance(s))
  {
    if s.process.Looping? {
      s' := LoopAdvances(s);
    } else if s.process.Taking? {
      s' := DequeueAdvances(s);
    } else if s.process.Handling? {
      s' := HandleAdvances(s);
    } else {
      s' := HandleFlush(s).(process := ProcessExited);
    }
  }

  lemma ControllerAdvances(s: Pipeline) returns (s': Pipeline)
    requires s.control != Stopped
    requires s.control == JoinTimer ==> s.timer == TimerExited
    requires s.control == JoinPool ==> forall w :: 0 <= w < |s.workers| ==> s.workers[w] == WorkerExited
    requires s.control == JoinProcess ==> s.process == ProcessExited
    ensures Controller(s, s') && Less(ToStop(s'), ToStop(s))
  {
    match s.control
    case Started => s' := s.(timerRunning := false, control := JoinTimer);
    case JoinTimer => s' := s.(control := ResetPool);
    case ResetPool => s' := s.(poolStop := true, control := JoinPool);
    case JoinPool => s' := s.(control := StopPipeline);
    case StopPipeline => s' := s.(running := false, control := JoinProcess);
    case JoinProcess => s' := s.(control := Stopped);
  }

  /** Until StopAll is over, what it waits for can take a step that brings its end nearer. */
  lemma StopAdvances(s: Pipeline) returns (s': Pipeline)
    requires PipelineProtocol.Inv(s) && s.control != Stopped
    ensures Awaited(s, s') && PipelineProtocol.Next(s, s') && Less(ToStop(s'), ToStop(s))
  {
    if s.control == JoinTimer && s.timer != TimerExited {
      s' := TimerAdvances(s);
    } else if s.control == JoinPool && FirstLeft(s.workers) < |s.workers| {
      s' := WorkerAdvances(s);
    } else if s.control == JoinProcess && s.process != ProcessExited {
      s' := ProcessAdvances(s);
    } else {
      s' := ControllerAdvances(s);
    }
  }

  // ---- to the end ----

  ghost predicate AwaitedRun(run: seq<Pipeline>) {
    run != [] && forall i {:trigger run[i]} :: 0 < i < |run| ==> Follows(run[i - 1], run[i])
  }

  // A state at a distance from the end of StopAll.
  ghost predicate Ready(s: Pipeline, d: Distance) {
    PipelineProtocol.Inv(s) && d == ToStop(s)
  }

  ghost predicate Follows(s: Pipeline, s': Pipeline) {
    Awaited(s, s') && PipelineProtocol.Next(s, s')
  }

  lemma ReadyStep(s: Pipeline, d: Distance) returns (s': Pipeline, d': Distance)
    requires Ready(s, d) && d.phase > 0
    ensures Ready(s', d') && Follows(s, s') && Less(d', d)
  {
    ReadyStopped(s, d);
    s' := StopAdvances(s);
    PipelineProtocol.NextInv(s, s');
    d' := ToStop(s');
  }

  // ready is Ready, for the states asked about, and follows is Follows.
  ghost predicate IsReady(ready: (Pipeline, Distance) -> bool) {
    forall s, d {:trigger Asked((s, d))} :: Asked((s, d)) ==> (ready(s, d) <==> Ready(s, d))
  }

  ghost predicate IsFollows(follows: (Pipeline, Pipeline) -> bool) {
    forall s, s' {:trigger Asked((s, s'))} :: Asked((s, s')) ==> (follows(s, s') <==> Follows(s, s'))
  }

  lemma ReadyAndFollows() returns (ready: (Pipeline, Distance) -> bool, follows: (Pipeline, Pipeline) -> bool)
    ensures IsReady(ready) && IsFollows(follows)
  {
    ready := (s, d) => Ready(s, d);
    follows := (s, s') => Follows(s, s');
  }

  lemma OneDescent(ready: (Pipeline, Distance) -> bool, follows: (Pipeline, Pipeline) -> bool, s: Pipeline, d: Distance)
    returns (s': Pipeline, d': Distance)
    requires IsReady(ready) && IsFollows(follows) && ready(s, d) && d.phase > 0
    ensures ready(s', d') && follows(s, s') && Less(d', d)
  {
    assert Asked((s, d));
    s', d' := ReadyStep(s, d);
    assert Asked((s', d')) && Asked((s, s'));
  }

  lemma ReadyDescends(ready: (Pipeline, Distance) -> bool, follows: (Pipeline, Pipeline) -> bool)
    requires IsReady(ready) && IsFollows(follows)
    ensures Descends(ready, follows)
  {
    forall s, d | ready(s, d) && d.phase > 0
      ensures exists s', d' :: ready(s', d') && follows(s, s') && Less(d', d)
    {
      var s', d' := OneDescent(ready, follows, s, d);
    }
  }

  // From whatever is ready at a distance, a step leads to something ready nearer by.
  ghost predicate Descends(ready: (Pipeline, Distance) -> bool, follows: (Pipeline, Pipeline) -> bool) {
    forall s, d {:trigger ready(s, d)} :: ready(s, d) && d.phase > 0 ==>
      exists s', d' {:trigger ready(s', d')} :: ready(s', d') && follows(s, s') && Less(d', d)
  }

  ghost predicate Chain(follows: (Pipeline, Pipeline) -> bool, run: seq<Pipeline>) {
    run != [] && forall i {:trigger run[i]} :: 0 < i < |run| ==> follows(run[i - 1], run[i])
  }

  lemma ChainPrepend(follows: (Pipeline, Pipeline) -> bool, s: Pipeline, run: seq<Pipeline>)
    requires Chain(follows, run) && follows(s, run[0])
    ensures Chain(follows, [s] + run)
  {
    var all := [s] + run;
    forall i {:trigger all[i]} | 0 < i < |all| ensures follows(all[i - 1], all[i]) {
      assert all[i] == run[i - 1] && all[i - 1] == if i == 1 then s else run[i - 2];
    }
  }

  /** Such steps cannot go on for ever: they end at distance 0. */
  lemma {:induction false} DescentEnds(ready: (Pipeline, Distance) -> bool, follows: (Pipeline, Pipeline) -> bool,
          s: Pipeline, d: Distance)
    returns (run: seq<Pipeline>, end: Distance)
    requires Descends(ready, follows) && ready(s, d)
    ensures Chain(follows, run) && run[0] == s && ready(run[|run| - 1], end) && end.phase == 0
    decreases d.phase, d.work, d.load, d.stage, d.rank
  {
    if d.phase == 0 {
      run, end := [s], d;
    } else {
      var s', d' :| ready(s', d') && follows(s, s') && Less(d', d);
      run, end := DescentEnds(ready, follows, s', d');
      ChainPrepend(follows, s, run);
      run := [s] + run;
    }
  }

  lemma ReadyStopped(s: Pipeline, d: Distance)
    requires Ready(s, d)
    ensures d.phase == 0 <==> s.control == Stopped
  {
  }

  /** From every reachable state the threads StopAll waits for, taking turns as it waits, bring it to
      its end, whatever the other threads are in the middle of. */
  lemma StopCompletes(run: seq<Pipeline>, i: nat) returns (rest: seq<Pipeline>)
    requires PipelineProtocol.Run(run) && i < |run|
    ensures AwaitedRun(rest) && rest[0] == run[i] && rest[|rest| - 1].control == Stopped
  {
    PipelineProtocol.RunInv(run, i);
    rest := StopsFrom(run[i]);
  }

  lemma StopsFrom(s: Pipeline) returns (run: seq<Pipeline>)
    requires PipelineProtocol.Inv(s)
    ensures AwaitedRun(run) && run[0] == s && run[|run| - 1].control == Stopped
  {
    var ready, follows := ReadyAndFollows();
    ReadyDescends(ready, follows);
    assert Asked((s, ToStop(s)));
    var end: Distance;
    run, end := DescentEnds(ready, follows, s, ToStop(s));
    LastStopped(ready, run[|run| - 1], end);
    ChainAwaited(follows, run);
  }

  lemma LastStopped(ready: (Pipeline, Distance) -> bool, s: Pipeline, d: Distance)
    requires IsReady(ready) && ready(s, d) && d.phase == 0
    ensures s.control == Stopped
  {
    assert Asked((s, d));
    ReadyStopped(s, d);
  }

  lemma ChainAwaited(follows: (Pipeline, Pipeline) -> bool, run: seq<Pipeline>)
    requires IsFollows(follows) && Chain(follows, run)
    ensures AwaitedRun(run)
  {
    forall i {:trigger run[i]} | 0 < i < |run| ensures Follows(run[i - 1], run[i]) {
      assert Asked((run[i - 1], run[i])) && follows(run[i - 1], run[i]);
    }
  }
}
