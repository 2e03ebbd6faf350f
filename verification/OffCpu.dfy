// src/ebpf/probes/sched/offcpu_profiler.bpf.c: trace_offcpu on every context switch.
module OffCpu {

  // A sched_switch: when, who leaves, who comes, and whether the ring buffer has room.
  datatype Switch = Switch(ts: nat, prev_pid: nat, next_pid: nat, cpu: nat, snapshot: Snapshot, reserved: bool)

  datatype Snapshot = Snapshot(kernel_stack_id: int, user_stack_id: int, comm: string)

  datatype Start = Start(ts: nat, snapshot: Snapshot)

  datatype Event = Event(ts: nat, pid: nat, cpu: nat, duration_ns: nat, snapshot: Snapshot)

  datatype State = State(starts: map<nat, Start>, events: seq<Event>)

  function Leave(starts: map<nat, Start>, sw: Switch): map<nat, Start> {
    if sw.prev_pid != 0 then starts[sw.prev_pid := Start(sw.ts, sw.snapshot)] else starts
  }

  function Step(s: State, sw: Switch, min_duration_ns: nat): State {
    var starts := Leave(s.starts, sw);
    if sw.next_pid == 0 || sw.next_pid !in starts then State(starts, s.events)
    else
      var start := starts[sw.next_pid];
      State(starts - {sw.next_pid},
        if sw.reserved && Duration(sw, start) >= min_duration_ns
        then s.events + [Event(start.ts, sw.next_pid, sw.cpu, Duration(sw, start), start.snapshot)]
        else s.events)
  }

  // ts - start->timestamp_ns, on a clock that does not run backwards.
  function Duration(sw: Switch, start: Start): nat {
    if sw.ts < start.ts then 0 else sw.ts - start.ts
  }

  function Run(trace: seq<Switch>, min_duration_ns: nat): State {
    if trace == [] then State(map[], [])
    else Step(Run(trace[..|trace| - 1], min_duration_ns), trace[|trace| - 1], min_duration_ns)
  }

  predicate Monotone(trace: seq<Switch>) {
    forall i, j :: 0 <= i < j < |trace| ==> trace[i].ts <= trace[j].ts
  }

  // ---- when a task is off the CPU ----

  // Off the CPU since switch i: it left there, and neither came back nor left again before switch k.
  ghost predicate OffSince(trace: seq<Switch>, pid: nat, i: nat, k: nat) {
    && i < k <= |trace| && pid != 0 && trace[i].prev_pid == pid
    && (forall j :: i <= j < k ==> trace[j].next_pid != pid)
    && (forall j :: i < j < k ==> trace[j].prev_pid != pid)
  }

  // Switch k brings a task back that left at switch i.
  ghost predicate BackAt(trace: seq<Switch>, pid: nat, i: nat, k: nat) {
    && i <= k < |trace| && pid != 0 && trace[i].prev_pid == pid && trace[k].next_pid == pid
    && (forall j :: i <= j < k ==> trace[j].next_pid != pid)
    && (forall j :: i < j <= k ==> trace[j].prev_pid != pid)
  }

  function StartAt(sw: Switch): Start {
    Start(sw.ts, sw.snapshot)
  }

  function EventOf(from: Switch, to: Switch): Event {
    Event(from.ts, to.next_pid, to.cpu, Duration(to, StartAt(from)), from.snapshot)
  }

  // An event stands for an absence that was long enough and found room in the ring buffer.
  ghost predicate Stands(trace: seq<Switch>, min_duration_ns: nat, e: Event, i: nat, k: nat) {
    BackAt(trace, e.pid, i, k) && trace[k].reserved && e.duration_ns >= min_duration_ns
        && e == EventOf(trace[i], trace[k])
  }

  ghost predicate Explained(trace: seq<Switch>, min_duration_ns: nat, e: Event) {
    exists i: nat, k: nat :: Stands(trace, min_duration_ns, e, i, k)
  }

  ghost predicate Inv(trace: seq<Switch>, min_duration_ns: nat, s: State) {
    && StartsRight(trace, s.starts)
    && (forall e :: e in s.events <==> Explained(trace, min_duration_ns, e))
    && EventsApart(s)
  }

  ghost predicate StartsRight(trace: seq<Switch>, starts: map<nat, Start>) {
    && (forall pid :: pid in starts ==> Recorded(trace, pid, starts[pid]))
    && (forall pid: nat, i: nat :: OffSince(trace, pid, i, |trace|) ==>
        pid in starts && starts[pid] == StartAt(trace[i]))
  }

  ghost predicate Recorded(trace: seq<Switch>, pid: nat, start: Start) {
    exists i: nat :: OffSince(trace, pid, i, |trace|) && start == StartAt(trace[i])
  }

  function End(e: Event): nat {
    e.ts + e.duration_ns
  }

  ghost predicate EventsApart(s: State) {
    && (forall i, j :: 0 <= i < j < |s.events| && s.events[i].pid == s.events[j].pid ==>
        End(s.events[i]) <= s.events[j].ts)
    && (forall i :: 0 <= i < |s.events| && s.events[i].pid in s.starts ==>
        End(s.events[i]) <= s.starts[s.events[i].pid].ts)
  }

  lemma OffSinceMore(trace: seq<Switch>, sw: Switch, more: seq<Switch>, pid: nat, i: nat)
    requires more == trace + [sw] && i <= |trace|
    ensures OffSince(more, pid, i, |more|) <==>
      sw.next_pid != pid && if i == |trace| then pid != 0 && sw.prev_pid == pid
          else sw.prev_pid != pid && OffSince(trace, pid, i, |trace|)
  {
    assert more[|trace|] == sw && forall j :: 0 <= j < |trace| ==> more[j] == trace[j];
    assert OffSince(more, pid, i, |more|) && i < |trace| ==>
      OffSince(trace, pid, i, |trace|) && more[|trace|].next_pid != pid && more[|trace|].prev_pid != pid;
    assert OffSince(more, pid, i, |more|) && i == |trace| ==> more[i].next_pid != pid;
  }

  lemma BackAtMore(trace: seq<Switch>, sw: Switch, more: seq<Switch>, pid: nat, i: nat, k: nat)
    requires more == trace + [sw] && i <= k <= |trace|
    ensures k < |trace| ==> (BackAt(more, pid, i, k) <==> BackAt(trace, pid, i, k))
    ensures k == |trace| ==> (BackAt(more, pid, i, k) <==>
      sw.next_pid == pid && pid != 0 && if i == k then sw.prev_pid == pid
          else sw.prev_pid != pid && OffSince(trace, pid, i, k))
  {
    assert more[|trace|] == sw && forall j :: 0 <= j < |trace| ==> more[j] == trace[j];
    assert BackAt(more, pid, i, k) && i < k == |trace| ==> more[k].prev_pid != pid;
  }

  // Who is waiting once the leaving task is recorded, and since when.
  lemma LeaveRight(trace: seq<Switch>, starts: map<nat, Start>, sw: Switch, more: seq<Switch>, pid: nat)
    requires StartsRight(trace, starts) && more == trace + [sw] && pid in Leave(starts, sw)
    ensures exists i: nat ::
      && i <= |trace| && Leave(starts, sw)[pid] == StartAt(more[i])
      && if i == |trace| then pid != 0 && sw.prev_pid == pid else sw.prev_pid != pid && OffSince(trace, pid, i, |trace|)
  {
    if sw.prev_pid == pid && pid != 0 {
      assert more[|trace|] == sw;
    } else {
      assert Recorded(trace, pid, starts[pid]);
      var i: nat :| OffSince(trace, pid, i, |trace|) && starts[pid] == StartAt(trace[i]);
      assert more[i] == trace[i];
    }
  }

  lemma StartsStep(trace: seq<Switch>, s: State, sw: Switch, more: seq<Switch>, min_duration_ns: nat)
    requires StartsRight(trace, s.starts) && more == trace + [sw]
    ensures StartsRight(more, Step(s, sw, min_duration_ns).starts)
  {
    var starts' := Step(s, sw, min_duration_ns).starts;
    forall pid | pid in starts' ensures Recorded(more, pid, starts'[pid]) {
      LeaveRight(trace, s.starts, sw, more, pid);
      var i: nat :| i <= |trace| && Leave(s.starts, sw)[pid] == StartAt(more[i])
        && if i == |trace| then pid != 0 && sw.prev_pid == pid
            else sw.prev_pid != pid && OffSince(trace, pid, i, |trace|);
      OffSinceMore(trace, sw, more, pid, i);
    }
    forall pid: nat, i: nat | OffSince(more, pid, i, |more|)
        ensures pid in starts' && starts'[pid] == StartAt(more[i]) {
      OffSinceMore(trace, sw, more, pid, i);
    }
  }

  predicate Emits(s: State, sw: Switch, min_duration_ns: nat) {
    var starts := Leave(s.starts, sw);
    sw.next_pid != 0 && sw.next_pid in starts && sw.reserved && Duration(sw, starts[sw.next_pid]) >= min_duration_ns
  }

  function Emitted(s: State, sw: Switch): Event
    requires sw.next_pid in Leave(s.starts, sw)
  {
    var start := Leave(s.starts, sw)[sw.next_pid];
    Event(start.ts, sw.next_pid, sw.cpu, Duration(sw, start), start.snapshot)
  }

  // The event of this switch is the one that ends here.
  lemma EmittedRight(trace: seq<Switch>, s: State, sw: Switch, more: seq<Switch>, min_duration_ns: nat, e: Event)
    requires StartsRight(trace, s.starts) && more == trace + [sw]
    ensures Emits(s, sw, min_duration_ns) && e == Emitted(s, sw) <==>
        exists i: nat :: Stands(more, min_duration_ns, e, i, |trace|)
  {
    var n := |trace|;
    assert more[n] == sw;
    if Emits(s, sw, min_duration_ns) && e == Emitted(s, sw) {
      LeaveRight(trace, s.starts, sw, more, sw.next_pid);
      var i: nat :| i <= n && Leave(s.starts, sw)[sw.next_pid] == StartAt(more[i])
        && if i == n then sw.next_pid != 0 && sw.prev_pid == sw.next_pid
            else sw.prev_pid != sw.next_pid && OffSince(trace, sw.next_pid, i, n);
      BackAtMore(trace, sw, more, sw.next_pid, i, n);
      assert Stands(more, min_duration_ns, e, i, n);
    }
    if i: nat :| Stands(more, min_duration_ns, e, i, n) {
      BackAtMore(trace, sw, more, e.pid, i, n);
    }
  }

  lemma EventsStep(trace: seq<Switch>, s: State, sw: Switch, more: seq<Switch>, min_duration_ns: nat, e: Event)
    requires Inv(trace, min_duration_ns, s) && more == trace + [sw]
    ensures e in Step(s, sw, min_duration_ns).events <==> Explained(more, min_duration_ns, e)
  {
    EmittedRight(trace, s, sw, more, min_duration_ns, e);
    if e in s.events {
      assert Explained(trace, min_duration_ns, e);
      var i: nat, k: nat :| Stands(trace, min_duration_ns, e, i, k);
      BackAtMore(trace, sw, more, e.pid, i, k);
      assert Stands(more, min_duration_ns, e, i, k);
    }
    if Explained(more, min_duration_ns, e) {
      var i: nat, k: nat :| Stands(more, min_duration_ns, e, i, k);
      BackAtMore(trace, sw, more, e.pid, i, k);
      if k < |trace| { assert Stands(trace, min_duration_ns, e, i, k); }
    }
  }

  lemma ApartStep(trace: seq<Switch>, s: State, sw: Switch, more: seq<Switch>, min_duration_ns: nat)
    requires Inv(trace, min_duration_ns, s) && more == trace + [sw] && Monotone(more)
    ensures EventsApart(Step(s, sw, min_duration_ns))
  {
    forall i | 0 <= i < |s.events| ensures End(s.events[i]) <= sw.ts {
      var e := s.events[i];
      assert Explained(trace, min_duration_ns, e);
      var j: nat, k: nat :| Stands(trace, min_duration_ns, e, j, k);
      assert more[j] == trace[j] && more[k] == trace[k] && more[|trace|] == sw;
    }
    assert forall i :: 0 <= i < |s.events| && s.events[i].pid in Leave(s.starts, sw) ==>
      End(s.events[i]) <= Leave(s.starts, sw)[s.events[i].pid].ts;
  }

  lemma {:induction false} RunInv(trace: seq<Switch>, min_duration_ns: nat)
    requires Monotone(trace)
    ensures Inv(trace, min_duration_ns, Run(trace, min_duration_ns))
    decreases |trace|
  {
    if trace != [] {
      var n := |trace| - 1;
      var before, sw := trace[..n], trace[n];
      RunInv(before, min_duration_ns);
      assert trace == before + [sw];
      InvStep(before, Run(before, min_duration_ns), sw, trace, min_duration_ns);
    }
  }

  lemma InvStep(trace: seq<Switch>, s: State, sw: Switch, more: seq<Switch>, min_duration_ns: nat)
    requires Inv(trace, min_duration_ns, s) && more == trace + [sw] && Monotone(more)
    ensures Inv(more, min_duration_ns, Step(s, sw, min_duration_ns))
  {
    StartsStep(trace, s, sw, more, min_duration_ns);
    ApartStep(trace, s, sw, more, min_duration_ns);
    forall e ensures e in Step(s, sw, min_duration_ns).events <==> Explained(more, min_duration_ns, e) {
      EventsStep(trace, s, sw, more, min_duration_ns, e);
    }
  }

  /** Of one task no two reported absences overlap. */
  lemma AbsencesApart(trace: seq<Switch>, min_duration_ns: nat, i: nat, j: nat)
    requires Monotone(trace)
    requires var events := Run(trace, min_duration_ns).events; i < j < |events| && events[i].pid == events[j].pid
    ensures var events := Run(trace, min_duration_ns).events; events[i].ts + events[i].duration_ns <= events[j].ts
  {
    RunInv(trace, min_duration_ns);
  }

  // The event tells of the time from switch i to switch k: when it began and how long it was, the
  // CPU the task came back on, and the stacks and the name it left with.
  ghost predicate Tells(trace: seq<Switch>, min_duration_ns: nat, e: Event, i: nat, k: nat) {
    && BackAt(trace, e.pid, i, k) && trace[k].reserved
    && e.ts == trace[i].ts && e.duration_ns == trace[k].ts - trace[i].ts && e.duration_ns >= min_duration_ns
    && e.cpu == trace[k].cpu && e.snapshot == trace[i].snapshot
  }

  lemma StandsTells(trace: seq<Switch>, min_duration_ns: nat, e: Event, i: nat, k: nat)
    requires Monotone(trace)
    ensures Stands(trace, min_duration_ns, e, i, k) <==> Tells(trace, min_duration_ns, e, i, k)
  {
  }

  /** Reported is exactly what was off the CPU without a break, for long enough, with room in the buffer. */
  lemma ReportedIff(trace: seq<Switch>, min_duration_ns: nat, e: Event)
    requires Monotone(trace)
    ensures e in Run(trace, min_duration_ns).events <==>
        exists i: nat, k: nat :: Tells(trace, min_duration_ns, e, i, k)
  {
    RunInv(trace, min_duration_ns);
    if Explained(trace, min_duration_ns, e) {
      var i: nat, k: nat :| Stands(trace, min_duration_ns, e, i, k);
      StandsTells(trace, min_duration_ns, e, i, k);
    }
    if i: nat, k: nat :| Tells(trace, min_duration_ns, e, i, k) {
      StandsTells(trace, min_duration_ns, e, i, k);
    }
  }

  // ---- the program: maps updated in place ----

  class Probe {
    const min_duration_ns: nat
    var offcpu_start: map<nat, Start>
    var offcpu_events: seq<Event>

    function Abstract(): State
      reads this
    {
      State(offcpu_start, offcpu_events)
    }

    constructor (min_duration_ns: nat)
      ensures Abstract() == State(map[], []) && this.min_duration_ns == min_duration_ns
    {
      this.min_duration_ns, offcpu_start, offcpu_events := min_duration_ns, map[], [];
    }

    method TraceOffcpu(ctx: Switch)
      requires forall pid :: pid in offcpu_start ==> offcpu_start[pid].ts <= ctx.ts
      modifies this
      ensures Abstract() == Step(old(Abstract()), ctx, min_duration_ns)
    {
      if ctx.prev_pid != 0 {
        offcpu_start := offcpu_start[ctx.prev_pid := Start(ctx.ts, ctx.snapshot)];
      }
      if ctx.next_pid == 0 || ctx.next_pid !in offcpu_start { return; }
      var start := offcpu_start[ctx.next_pid];
      var duration := ctx.ts - start.ts;
      if duration < min_duration_ns || !ctx.reserved {
        offcpu_start := offcpu_start - {ctx.next_pid};
        return;
      }
      offcpu_events := offcpu_events + [Event(start.ts, ctx.next_pid, ctx.cpu, duration, start.snapshot)];
      offcpu_start := offcpu_start - {ctx.next_pid};
    }
  }
}
