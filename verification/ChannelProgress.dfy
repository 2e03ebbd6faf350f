// src/core/engine/async_channel.h and src/core/memory/lock_free_queue.h: no call waits for
// another thread. Left alone, a thread leaves its call after a bounded number of steps,
// wherever all other threads have stopped.
module ChannelProgress {
  import opened ChannelProtocol
  import opened QueueProtocol
  import opened Wrappers

  // ---- a bound on the steps of one thread ----

  // A position loaded before the head or the tail moved on costs one more round.
  function QueueRank(q: State<Item>, t: nat): (r: nat)
    requires t < |q.threads|
    ensures 1 <= r <= 8
  {
    match q.threads[t]
    case Idle => 8
    case PushLoadSequence(_, pos) => if pos == q.head then 5 else 7
    case PopLoadSequence(pos) => if pos == q.tail then 5 else 7
    case PushLoadHead(_) => 6
    case PopLoadTail => 6
    case PushCas(_, pos) => if pos == q.head then 4 else 6
    case PopCas(pos) => if pos == q.tail then 4 else 6
    case PushWrite(_, _) => 3
    case PopRead(_) => 3
    case PushPublish(_, _) => 2
    case PopRelease(_, _) => 2
    case PushDone(_, _, _) => 1
    case PopDone(_, _) => 1
  }

  function UpdateStage(step: Backpressure): nat {
    match step
    case LoadFlag => 6 case LoadHead(_) => 5 case LoadTail(_, _) => 4 case Set => 3 case CountEvent => 2 case Clear => 2
  }

  // The parts of a call still ahead.
  function Stage(c: ChannelProtocol.Call): (n: nat)
    ensures n <= 11 && (n == 0 <==> c == Out)
  {
    match c
    case Out => 0
    case Finished(_) => 1
    case FlushDone(_) => 1
    case DeqEmpty => 1
    case FlushCount => 2
    case FlushPush(retry) => if retry then 3 else 6
    case FlushEvicted => 4
    case FlushEvict => 5
    case Updating(step, _) => UpdateStage(step)
    case EnqCount(_, _) => 7
    case EnqReject(_) => 7
    case DeqCount(_, _) => 7
    case Deq => 8
    case EnqPush(_, retry) => if retry then 8 else 11
    case EnqEvicted(_) => 9
    case EnqEvict(_) => 10
  }

  function Rank(ch: Channel, t: nat): (r: nat)
    requires t < |ch.calls| == |ch.q.threads|
    ensures r <= 118
  {
    10 * Stage(ch.calls[t]) + QueueRank(ch.q, t)
  }

  // A compare-and-swap that fails although nobody interfered, or a Dequeue that polls again.
  ghost predicate Retries(ch: Channel, ch': Channel, t: nat)
    requires t < |ch.calls| == |ch.q.threads| && t < |ch'.calls| && t < |ch'.q.threads|
  {
    || Spurious(ch.q, ch'.q, t)
    || (LeaveQueue(ch, ch', t) && ch.calls[t] == Deq && ch'.calls[t] == Deq)
  }

  predicate Spurious(q: State<Item>, q': State<Item>, t: nat)
    requires t < |q.threads| && t < |q'.threads|
  {
    || (q.threads[t].PushCas? && q.threads[t].pos == q.head && q'.threads[t].PushLoadSequence?)
    || (q.threads[t].PopCas? && q.threads[t].pos == q.tail && q'.threads[t].PopLoadSequence?)
  }

  // What the cells at the head and at the tail cannot hold.
  lemma EndsBounded(q: State<Item>)
    requires QueueProtocol.Inv(q)
    ensures At(q, q.head).sequence <= q.head && At(q, q.tail).sequence <= q.tail + 1
  {
    var h := WindowPosition(q, q.head);
    assert CellOk(q, h) && CellOk(q, q.tail);
  }

  lemma AccessDecreases(q: State<Item>, q': State<Item>, t: nat)
    requires QueueProtocol.Inv(q) && Access(q, q', t) && t < |q'.threads| && !Spurious(q, q', t)
    ensures QueueRank(q', t) < QueueRank(q, t)
  {
    EndsBounded(q);
  }

  lemma LeaveDecreases(ch: Channel, ch': Channel, t: nat)
    requires ChannelProtocol.Inv(ch) && LeaveQueue(ch, ch', t) && !(ch.calls[t] == Deq && ch'.calls[t] == Deq)
    ensures t < |ch'.calls| == |ch'.q.threads| && Rank(ch', t) < Rank(ch, t)
  {
    assert CallOk(ch, t);
    ContinuesDecreases(ch.policy, ch.calls[t], ch.q.threads[t], ch'.calls[t]);
  }

  lemma ContinuesDecreases(policy: DropPolicy, c: ChannelProtocol.Call, r: Pc<Item>, c': ChannelProtocol.Call)
    requires Continues(policy, c, r, c') && !(c == Deq && c' == Deq)
    ensures Stage(c') < Stage(c)
  {
  }

  lemma EnterDecreases(ch: Channel, ch': Channel, t: nat)
    requires EnterQueue(ch, ch', t) && t < |ch.calls| == |ch.q.threads| && t < |ch'.calls| == |ch'.q.threads|
    ensures Rank(ch', t) < Rank(ch, t)
  {
  }

  lemma OutsideDecreases(ch: Channel, ch': Channel, t: nat)
    requires Outside(ch, ch', t) && t < |ch.calls| == |ch.q.threads| && t < |ch'.calls| == |ch'.q.threads|
    ensures Rank(ch', t) < Rank(ch, t)
  {
    assert ch'.q == ch.q && Stage(ch'.calls[t]) < Stage(ch.calls[t]);
  }

  /** Every step a thread takes alone brings the end of its call nearer, but for a spurious failure or another poll. */
  lemma SoloDecreases(ch: Channel, ch': Channel, t: nat)
    requires ChannelProtocol.Inv(ch) && Inner(ch, ch', t) && t < |ch.calls|
    requires t < |ch'.calls| == |ch'.q.threads| && !Retries(ch, ch', t)
    ensures Rank(ch', t) < Rank(ch, t)
  {
    assert CallOk(ch, t);
    if InQueue(ch, ch', t) {
      AccessDecreases(ch.q, ch'.q, t);
    } else if LeaveQueue(ch, ch', t) {
      LeaveDecreases(ch, ch', t);
    } else if EnterQueue(ch, ch', t) {
      EnterDecreases(ch, ch', t);
    } else {
      OutsideDecreases(ch, ch', t);
    }
  }

  // ---- a step is always possible ----

  // Inside TryPush or TryPop some access is always possible.
  lemma AccessAdvances(q: State<Item>, t: nat) returns (q': State<Item>)
    requires t < |q.threads| && |q.cells| > 0
    requires var pc := q.threads[t]; pc != Idle && !pc.PushDone? && !pc.PopDone?
    ensures Access(q, q', t) && t < |q'.threads| && !Spurious(q, q', t)
  {
    match q.threads[t]
    case PushLoadHead(v) => q' := Goto(q, t, PushLoadSequence(v, q.head));
    case PushLoadSequence(v, pos) =>
      var diff := At(q, pos).sequence - pos;
      q' := Goto(q, t, if diff == 0 then PushCas(v, pos)
                       else if diff < 0 then PushDone(false, v, pos) else PushLoadHead(v));
    case PushCas(v, pos) =>
      q' := if q.head == pos
            then Goto(q, t, PushWrite(v, pos)).(head := pos + 1, log := q.log + [v], pushers := q.pushers + [t])
            else Goto(q, t, PushLoadSequence(v, q.head));
    case PushWrite(v, pos) => q' := Goto(Put(q, pos, At(q, pos).(data := v)), t, PushPublish(v, pos));
    case PushPublish(v, pos) => q' := Goto(Put(q, pos, At(q, pos).(sequence := pos + 1)), t, PushDone(true, v, pos));
    case PopLoadTail => q' := Goto(q, t, PopLoadSequence(q.tail));
    case PopLoadSequence(pos) =>
      var diff := At(q, pos).sequence - (pos + 1);
      q' := Goto(q, t, if diff == 0 then PopCas(pos) else if diff < 0 then PopDone(None, pos) else PopLoadTail);
    case PopCas(pos) =>
      q' := if q.tail == pos then Goto(q, t, PopRead(pos)).(tail := pos + 1, poppers := q.poppers + [t])
            else Goto(q, t, PopLoadSequence(q.tail));
    case PopRead(pos) => q' := Goto(q, t, PopRelease(At(q, pos).data, pos));
    case PopRelease(v, pos) =>
      q' := Goto(Put(q, pos, At(q, pos).(sequence := pos + |q.cells|)), t, PopDone(Some(v), pos));
  }

  // One way for a call to go on with the result of its queue operation.
  function After(policy: DropPolicy, c: ChannelProtocol.Call, r: Pc<Item>): ChannelProtocol.Call {
    if r.PushDone? then
      if c.EnqPush? then
        if r.ok then EnqCount(c.b, r.pos)
        else if policy == DropOldest && !c.retry then EnqEvict(c.b) else EnqReject(c.b)
      else if c.FlushPush? then
        if r.ok then FlushCount else if c.retry then FlushDone(false) else FlushEvict
      else Out
    else if r.PopDone? then
      if c.EnqEvict? then
        if r.result.Some? then EnqEvicted(c.b) else EnqPush(c.b, true)
      else if c.FlushEvict? then
        if r.result.Some? then FlushEvicted else FlushPush(true)
      else if r.result.Some? then DeqCount(r.result.value, r.pos) else DeqEmpty
    else Out
  }

  lemma ReturnAdvances(ch: Channel, t: nat) returns (ch': Channel)
    requires t < |ch.calls| == |ch.q.threads| && CallOk(ch, t) && !Wants(ch.calls[t]).Nothing?
    requires ch.q.threads[t].PushDone? || ch.q.threads[t].PopDone?
    ensures LeaveQueue(ch, ch', t) && !(ch.calls[t] == Deq && ch'.calls[t] == Deq)
  {
    var pc := ch.q.threads[t];
    var q' := Goto(ch.q, t, Idle);
    if pc.PopDone? && pc.result.Some? { q' := q'.(returned := ch.q.returned[pc.pos := pc.result.value]); }
    ch' := To(ch, t, After(ch.policy, ch.calls[t], pc)).(q := q');
  }

  // A thread inside a call can always take a step that brings its end nearer.
  lemma CallAdvances(ch: Channel, t: nat) returns (ch': Channel)
    requires t < |ch.calls| == |ch.q.threads| && |ch.q.cells| > 0 && CallOk(ch, t) && ch.calls[t] != Out
    ensures (Inner(ch, ch', t) && t < |ch'.calls| && t < |ch'.q.threads| && !Retries(ch, ch', t)) || End(ch, ch', t)
  {
    var c, pc := ch.calls[t], ch.q.threads[t];
    if !Wants(c).Nothing? {
      if pc == Idle {
        ch' := ch.(q := Goto(ch.q, t, if Wants(c).Pop? then PopLoadTail else PushLoadHead(Wants(c).item)));
      } else if pc.PushDone? || pc.PopDone? {
        ch' := ReturnAdvances(ch, t);
      } else {
        var q' := AccessAdvances(ch.q, t);
        ch' := ch.(q := q');
      }
    } else if Working(c) {
      ch' := LocalStep(ch, t);
    } else {
      ch' := To(ch, t, Out);
      if c.Finished? && c.outcome.Enqueued? {
        ch' := ch'.(completed := ch.completed + 1, accepted := ch.accepted + if c.outcome.ok then 1 else 0);
      }
    }
  }

  // ---- runs of one thread ----

  ghost predicate SoloStep(ch: Channel, ch': Channel, t: nat) {
    Inner(ch, ch', t) || End(ch, ch', t)
  }

  ghost predicate SoloRun(run: seq<Channel>, t: nat) {
    run != [] && forall i :: 0 < i < |run| ==> SoloStepAt(run, t, i)
  }

  ghost predicate SoloStepAt(run: seq<Channel>, t: nat, i: nat)
    requires 0 < i < |run|
  {
    SoloStep(run[i - 1], run[i], t)
  }

  lemma SoloPrepend(ch: Channel, run: seq<Channel>, t: nat)
    requires SoloRun(run, t) && SoloStep(ch, run[0], t)
    ensures SoloRun([ch] + run, t)
  {
    var all := [ch] + run;
    forall i | 0 < i < |all| ensures SoloStepAt(all, t, i) {
      assert all[i] == run[i - 1] && all[i - 1] == if i == 1 then ch else run[i - 2];
      if i > 1 { assert SoloStepAt(run, t, i - 1); }
    }
  }

  /** Wherever the other threads have stopped, a thread alone can finish its call within its rank:
      the channel is obstruction-free. */
  lemma {:induction false} SoloEnds(ch: Channel, t: nat) returns (run: seq<Channel>)
    requires ChannelProtocol.Inv(ch) && t < |ch.calls| && ch.calls[t] != Out
    ensures SoloRun(run, t) && run[0] == ch && |run| <= Rank(ch, t) + 2
    ensures t < |run[|run| - 1].calls| && run[|run| - 1].calls[t] == Out
    decreases Rank(ch, t)
  {
    assert CallOk(ch, t);
    var ch' := CallAdvances(ch, t);
    if End(ch, ch', t) {
      run := [ch, ch'];
    } else {
      ChannelProtocol.StepInv(ch, ch', t);
      SoloDecreases(ch, ch', t);
      StillIn(ch, ch', t);
      var rest := SoloEnds(ch', t);
      SoloPrepend(ch, rest, t);
      run := [ch] + rest;
    }
  }

  // Only End leaves a call.
  lemma StillIn(ch: Channel, ch': Channel, t: nat)
    requires Inner(ch, ch', t) && t < |ch.calls| && t < |ch'.calls| && ch.calls[t] != Out
    ensures ch'.calls[t] != Out
  {
    if LeaveQueue(ch, ch', t) { assert Continues(ch.policy, ch.calls[t], ch.q.threads[t], ch'.calls[t]); }
  }

  /** And it cannot take longer: without spurious failures and polls no run of one thread inside a
      call is longer than its rank. */
  lemma {:induction false} SoloBounded(run: seq<Channel>, t: nat)
    requires run != [] && ChannelProtocol.Inv(run[0]) && t < |run[0].calls|
    requires forall i {:trigger run[i]} :: 0 < i < |run| ==>
        Inner(run[i - 1], run[i], t) && HonestStep(run[i - 1], run[i], t)
    ensures |run| <= Rank(run[0], t) + 1
    decreases |run|
  {
    if |run| > 1 {
      var rest := run[1..];
      assert Inner(run[1 - 1], run[1], t) && HonestStep(run[1 - 1], run[1], t);
      ChannelProtocol.StepInv(run[0], run[1], t);
      SoloDecreases(run[0], run[1], t);
      forall i {:trigger rest[i]} | 0 < i < |rest|
          ensures Inner(rest[i - 1], rest[i], t) && HonestStep(rest[i - 1], rest[i], t) {
        assert rest[i] == run[i + 1] && rest[i - 1] == run[i];
      }
      SoloBounded(rest, t);
    }
  }

  ghost predicate HonestStep(ch: Channel, ch': Channel, t: nat) {
    && t < |ch.calls| == |ch.q.threads| && t < |ch'.calls| && t < |ch'.q.threads|
    && !Retries(ch, ch', t)
  }

  // ---- one thread among others ----

  // What the claims of all threads between two states can cost one of them.
  function Claims(ch: Channel, ch': Channel): int {
    2 * (ch'.q.head - ch.q.head) + 2 * (ch'.q.tail - ch.q.tail)
  }

  lemma QueueRankAmongOthers(q: State<Item>, q': State<Item>, t: nat)
    requires t < |q.threads| && t < |q'.threads| && q'.threads[t] == q.threads[t] && q.head <= q'.head
        && q.tail <= q'.tail
    ensures QueueRank(q', t) <= QueueRank(q, t) + 2 * (q'.head - q.head) + 2 * (q'.tail - q.tail)
  {
  }

  // A step of another thread costs t at most two steps for each position it claims.
  lemma OthersRaise(ch: Channel, ch': Channel, u: nat, t: nat)
    requires ChannelProtocol.Inv(ch) && ChannelProtocol.Step(ch, ch', u) && u != t && t < |ch.calls|
    ensures t < |ch'.calls| == |ch'.q.threads| && ch'.calls[t] == ch.calls[t]
    ensures Claims(ch, ch') >= 0 && Rank(ch', t) <= Rank(ch, t) + Claims(ch, ch')
  {
    StepMoves(ch, ch', u);
    QueueRankAmongOthers(ch.q, ch'.q, t);
  }

  lemma StepMoves(ch: Channel, ch': Channel, u: nat)
    requires ChannelProtocol.Inv(ch) && ChannelProtocol.Step(ch, ch', u)
    ensures u < |ch.calls| == |ch'.calls| == |ch.q.threads| == |ch'.q.threads|
    ensures ch'.calls == ch.calls[u := ch'.calls[u]] && ch'.q.threads == ch.q.threads[u := ch'.q.threads[u]]
    ensures ch.q.head <= ch'.q.head && ch.q.tail <= ch'.q.tail
  {
    if Inner(ch, ch', u) {
      InnerMoves(ch, ch', u);
      if ch'.q != ch.q { StepGrows(ch.q, ch'.q, u); }
    } else {
      Boundary(ch, ch', u);
    }
  }

  // A run with the thread of each step: t stays in its call, and does not retry.
  ghost predicate MixedRun(run: seq<Channel>, who: seq<nat>, t: nat) {
    && |run| == |who| + 1
    && forall i :: 0 <= i < |who| ==> MixedStep(run[i], run[i + 1], who[i], t)
  }

  ghost predicate MixedStep(ch: Channel, ch': Channel, u: nat, t: nat) {
    if u == t then Inner(ch, ch', t) && HonestStep(ch, ch', t) else ChannelProtocol.Step(ch, ch', u)
  }

  function StepsOf(who: seq<nat>, t: nat): nat {
    if who == [] then 0 else (if who[0] == t then 1 else 0) + StepsOf(who[1..], t)
  }

  /** Lock freedom: among any other threads, the steps a thread takes inside a call number no more than its rank
      and two for every position that anybody claims meanwhile. If it does not finish, others get through. */
  lemma {:induction false} StepsBounded(run: seq<Channel>, who: seq<nat>, t: nat)
    requires MixedRun(run, who, t) && ChannelProtocol.Inv(run[0]) && t < |run[0].calls|
    ensures StepsOf(who, t) <= Rank(run[0], t) + Claims(run[0], run[|who|])
    decreases |who|
  {
    if who != [] {
      var ch, ch', rest := run[0], run[1], run[1..];
      MixedOne(ch, ch', who[0], t);
      forall i | 0 <= i < |who[1..]| ensures MixedStep(rest[i], rest[i + 1], who[1..][i], t) {
        assert MixedStep(run[i + 1], run[i + 2], who[i + 1], t);
      }
      StepsBounded(rest, who[1..], t);
    }
  }

  lemma MixedOne(ch: Channel, ch': Channel, u: nat, t: nat)
    requires ChannelProtocol.Inv(ch) && MixedStep(ch, ch', u, t) && t < |ch.calls|
    ensures ChannelProtocol.Inv(ch') && t < |ch'.calls|
    ensures Rank(ch', t) + (if u == t then 1 else 0) <= Rank(ch, t) + Claims(ch, ch')
  {
    ChannelProtocol.StepInv(ch, ch', u);
    StepMoves(ch, ch', u);
    if u == t { SoloDecreases(ch, ch', t); } else { OthersRaise(ch, ch', u, t); }
  }
}
