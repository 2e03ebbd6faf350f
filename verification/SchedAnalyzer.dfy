// src/ebpf/probes/sched/sched_analyzer.bpf.c (three tracepoints) and
// src/sources/sched/sched_analyzer/sched_analyzer.h (Collect): run queue latency per process.
module SchedAnalyzer {
  import opened Wrappers

  // What can happen, one atomic step at a time: the tracepoints, the lookup and the delete that Collect does
  // for each process, and its end.
  datatype Step =
    | Wakeup(ts: nat, pid: nat)
    | Switch(ts: nat, next_pid: nat, comm: string)
    | Migrate(ts: nat, pid: nat, tracking: bool)
    | CollectRead(ts: nat, pid: nat)
    | CollectDelete(ts: nat, allowed: bool)
    | FinishCollect(ts: nat, now_ms: nat)

  datatype Stats = Stats(switch_count: nat, total_latency_ns: nat, max_latency_ns: nat, migrate_count: nat,
      comm: string)

  datatype Lookup = Lookup(pid: nat, stats: Stats)

  // What Collect saw of a process, and what it deleted later.
  datatype Taken = Taken(pid: nat, stats: Stats, deleted: Stats, allowed: bool)

  datatype Rollup = Rollup(total_sw: nat, total_lat: nat, max_lat: nat, total_mig: nat, proc_count: nat)

  datatype Point = Point(
    timestamp_ms: nat,
    total_switches: nat,
    avg_latency_us: real,
    max_latency_ns: nat,
    total_migrations: nat,
    process_count: nat)

  datatype State = State(
    wakeup_ts: map<nat, nat>,
    sched_agg: map<nat, Stats>,
    reading: Option<Lookup>,
    taken: seq<Taken>,
    rollup: Rollup,
    history: seq<Point>)

  const MAX_HISTORY: nat := 360
  const NO_ROLLUP := Rollup(0, 0, 0, 0, 0)
  const START := State(map[], map[], None, [], NO_ROLLUP, [])

  // ---- one step ----

  // ts - *enqueue_ts, on a clock that does not run backwards.
  function Since(ts: nat, from: nat): nat {
    if ts < from then 0 else ts - from
  }

  function Latency(wakeup_ts: map<nat, nat>, ts: nat, pid: nat): nat {
    if pid in wakeup_ts then Since(ts, wakeup_ts[pid]) else 0
  }

  function AddLatency(agg: map<nat, Stats>, pid: nat, latency_ns: nat, comm: string): map<nat, Stats> {
    if pid !in agg then agg[pid := Stats(1, latency_ns, latency_ns, 0, comm)]
    else
      var st := agg[pid];
      agg[pid := Stats(st.switch_count + 1, st.total_latency_ns + latency_ns,
                       if latency_ns > st.max_latency_ns then latency_ns else st.max_latency_ns,
                       st.migrate_count, comm)]
  }

  function AddMigration(agg: map<nat, Stats>, pid: nat): map<nat, Stats> {
    if pid in agg then agg[pid := agg[pid].(migrate_count := agg[pid].migrate_count + 1)]
    else agg[pid := Stats(0, 0, 0, 1, "")]
  }

  function Roll(r: Rollup, st: Stats): Rollup {
    Rollup(r.total_sw + st.switch_count, r.total_lat + st.total_latency_ns,
           if st.max_latency_ns > r.max_lat then st.max_latency_ns else r.max_lat,
           r.total_mig + st.migrate_count, r.proc_count + 1)
  }

  function PointOf(r: Rollup, now_ms: nat): Point {
    Point(now_ms, r.total_sw, if r.total_sw > 0 then r.total_lat as real / r.total_sw as real / 1000.0 else 0.0,
          r.max_lat, r.total_mig, r.proc_count)
  }

  function Trim(history: seq<Point>): (kept: seq<Point>)
    ensures |kept| <= MAX_HISTORY && forall p :: p in kept ==> p in history
  {
    if |history| > MAX_HISTORY then history[|history| - MAX_HISTORY..] else history
  }

  function Apply(s: State, e: Step): State {
    match e
    case Wakeup(ts, pid) => s.(wakeup_ts := s.wakeup_ts[pid := ts])
    case Switch(ts, next_pid, comm) =>
      var latency_ns := Latency(s.wakeup_ts, ts, next_pid);
      s.(wakeup_ts := s.wakeup_ts - {next_pid},
         sched_agg := if next_pid != 0 then AddLatency(s.sched_agg, next_pid, latency_ns, comm) else s.sched_agg)
    case Migrate(_, pid, tracking) => if tracking then s.(sched_agg := AddMigration(s.sched_agg, pid)) else s
    case CollectRead(_, pid) =>
      s.(reading := if pid in s.sched_agg then Some(Lookup(pid, s.sched_agg[pid])) else None)
    case CollectDelete(_, allowed) => if s.reading.None? then s else Delete(s, s.reading.value, allowed)
    case FinishCollect(_, now_ms) => s.(rollup := NO_ROLLUP, history := Trim(s.history + [PointOf(s.rollup, now_ms)]))
  }

  function Delete(s: State, l: Lookup, allowed: bool): State {
    var deleted := if l.pid in s.sched_agg then s.sched_agg[l.pid] else l.stats;
    s.(sched_agg := s.sched_agg - {l.pid}, reading := None,
        taken := s.taken + [Taken(l.pid, l.stats, deleted, allowed)],
       rollup := if allowed then Roll(s.rollup, l.stats) else s.rollup)
  }

  function Run(trace: seq<Step>): State {
    if trace == [] then START else Apply(Run(trace[..|trace| - 1]), trace[|trace| - 1])
  }

  predicate Monotone(trace: seq<Step>) {
    forall i, j :: 0 <= i < j < |trace| ==> trace[i].ts <= trace[j].ts
  }

  // ---- what a trace says, without the maps ----

  // The last wakeup of a process since it last got the CPU.
  function PendingWake(trace: seq<Step>, pid: nat): (i: Option<nat>)
    ensures i.Some? ==> i.value < |trace| && trace[i.value].Wakeup? && trace[i.value].pid == pid
  {
    if trace == [] then None
    else
      var n := |trace| - 1;
      if trace[n].Wakeup? && trace[n].pid == pid then Some(n)
      else if trace[n].Switch? && trace[n].next_pid == pid then None
      else PendingWake(trace[..n], pid)
  }

  // The wakeup that a switch is charged for.
  function Charge(trace: seq<Step>, k: nat): Option<nat>
    requires k < |trace|
  {
    if trace[k].Switch? then PendingWake(trace[..k], trace[k].next_pid) else None
  }

  // The three sums kept for a process.
  datatype Measure = Switches | Waited | Migrations

  function Read(m: Measure, st: Stats): nat {
    match m
    case Switches => st.switch_count
    case Waited => st.total_latency_ns
    case Migrations => st.migrate_count
  }

  function Of(m: Measure, trace: seq<Step>, pid: nat): nat {
    if trace == [] then 0 else Of(m, trace[..|trace| - 1], pid) + Last(m, trace, pid)
  }

  function Last(m: Measure, trace: seq<Step>, pid: nat): nat
    requires trace != []
  {
    var n := |trace| - 1;
    if trace[n].Switch? && trace[n].next_pid == pid && pid != 0 then
      match m
      case Switches => 1
      case Waited => (match Charge(trace, n) case None => 0 case Some(i) => Since(trace[n].ts, trace[i].ts))
      case Migrations => 0
    else if trace[n].Migrate? && trace[n].pid == pid && trace[n].tracking && m == Migrations then 1
    else 0
  }

  function Held(m: Measure, agg: map<nat, Stats>, pid: nat): nat {
    if pid in agg then Read(m, agg[pid]) else 0
  }

  // What Collect saw.
  function Gone(m: Measure, taken: seq<Taken>, pid: nat): nat {
    if taken == [] then 0
    else
      var t := taken[|taken| - 1];
      Gone(m, taken[..|taken| - 1], pid) + if t.pid == pid then Read(m, t.stats) else 0
  }

  // What it deleted.
  function Deleted(m: Measure, taken: seq<Taken>, pid: nat): nat {
    if taken == [] then 0
    else
      var t := taken[|taken| - 1];
      Deleted(m, taken[..|taken| - 1], pid) + if t.pid == pid then Read(m, t.deleted) else 0
  }

  // What it deleted without having seen it.
  function Missed(m: Measure, t: Taken): nat {
    if Read(m, t.deleted) > Read(m, t.stats) then Read(m, t.deleted) - Read(m, t.stats) else 0
  }

  function Lost(m: Measure, taken: seq<Taken>, pid: nat): nat {
    if taken == [] then 0
    else
      var t := taken[|taken| - 1];
      Lost(m, taken[..|taken| - 1], pid) + if t.pid == pid then Missed(m, t) else 0
  }

  // ---- each wakeup is charged once ----

  lemma {:induction false} SwitchConsumes(trace: seq<Step>, pid: nat, k: nat)
    requires PendingWake(trace, pid).Some? && k < |trace| && trace[k].Switch? && trace[k].next_pid == pid
    ensures k < PendingWake(trace, pid).value
    decreases |trace|
  {
    var n := |trace| - 1;
    if !(trace[n].Wakeup? && trace[n].pid == pid) {
      SwitchConsumes(trace[..n], pid, k);
    }
  }

  lemma LaterCharge(trace: seq<Step>, k: nat, l: nat)
    requires k < l < |trace| && trace[k].Switch? && Charge(trace, l).Some? && trace[l].next_pid == trace[k].next_pid
    ensures k < Charge(trace, l).value
  {
    assert trace[..l][k] == trace[k];
    SwitchConsumes(trace[..l], trace[l].next_pid, k);
  }

  /** A wakeup is charged to one switch at most, and to a later one. */
  lemma ChargedOnce(trace: seq<Step>, k: nat, l: nat)
    requires k < |trace| && l < |trace| && Charge(trace, k).Some? && Charge(trace, k) == Charge(trace, l)
    ensures k == l && Charge(trace, k).value < k
  {
    var i := Charge(trace, k).value;
    assert trace[..k][i] == trace[i] && trace[..l][i] == trace[i];
    if k < l { LaterCharge(trace, k, l); }
    if l < k { LaterCharge(trace, l, k); }
  }

  /** On a clock that does not run backwards the latency is the time since the charged wakeup. */
  lemma LatencyIsWait(trace: seq<Step>, k: nat)
    requires Monotone(trace) && k < |trace| && Charge(trace, k).Some?
    ensures var w := trace[Charge(trace, k).value];
      w.Wakeup? && w.pid == trace[k].next_pid && Since(trace[k].ts, w.ts) == trace[k].ts - w.ts
  {
    assert trace[..k][Charge(trace, k).value] == trace[Charge(trace, k).value];
  }

  // ---- what holds after every trace ----

  ghost predicate WakesRight(trace: seq<Step>, wakeup_ts: map<nat, nat>) {
    forall pid: nat :: (pid in wakeup_ts <==> PendingWake(trace, pid).Some?)
      && (pid in wakeup_ts ==> wakeup_ts[pid] == trace[PendingWake(trace, pid).value].ts)
  }

  ghost predicate Conserved(trace: seq<Step>, s: State) {
    forall m, pid: nat :: Of(m, trace, pid) == Both(m, s.sched_agg, s.taken, pid)
  }

  // max <= total <= count * max.
  predicate Sane(count: nat, total: nat, max: nat) {
    max <= total <= count * max
  }

  predicate PointSane(p: Point) {
    p.avg_latency_us <= p.max_latency_ns as real / 1000.0
  }

  // Entries only grow between the lookup and the delete.
  ghost predicate ReadsGrow(s: State) {
    && (s.reading.Some? ==>
          s.reading.value.pid in s.sched_agg && NoMore(s.reading.value.stats, s.sched_agg[s.reading.value.pid]))
    && (forall t :: t in s.taken ==> NoMore(t.stats, t.deleted))
  }

  predicate NoMore(a: Stats, b: Stats) {
    a.switch_count <= b.switch_count && a.total_latency_ns <= b.total_latency_ns && a.migrate_count <= b.migrate_count
  }

  ghost predicate AllSane(s: State) {
    && (forall pid :: pid in s.sched_agg ==> StatsSane(s.sched_agg[pid]))
    && (s.reading.Some? ==> StatsSane(s.reading.value.stats))
    && (forall t :: t in s.taken ==> StatsSane(t.stats))
    && Sane(s.rollup.total_sw, s.rollup.total_lat, s.rollup.max_lat)
    && (forall p :: p in s.history ==> PointSane(p))
    && |s.history| <= MAX_HISTORY
  }

  predicate StatsSane(st: Stats) {
    Sane(st.switch_count, st.total_latency_ns, st.max_latency_ns)
  }

  lemma SaneSum(count: nat, total: nat, max: nat, count': nat, total': nat, max': nat)
    requires Sane(count, total, max) && Sane(count', total', max')
    ensures Sane(count + count', total + total', if max' > max then max' else max)
  {
    var m := if max' > max then max' else max;
    Times(count, max, m);
    Times(count', max', m);
    assert (count + count') * m == count * m + count' * m;
  }

  lemma Times(count: nat, x: nat, y: nat)
    requires x <= y
    ensures count * x <= count * y
  {
  }

  lemma PointOfSane(r: Rollup, now_ms: nat)
    requires Sane(r.total_sw, r.total_lat, r.max_lat)
    ensures PointSane(PointOf(r, now_ms))
  {
    if r.total_sw > 0 {
      QuotientBound(r.total_lat as real, r.total_sw as real, r.max_lat as real);
    }
  }

  lemma QuotientBound(total: real, count: real, max: real)
    requires count > 0.0 && total <= count * max
    ensures total / count <= max
  {
    var q := total / count;
    assert q * count == total;
    assert q > max ==> (q - max) * count > 0.0;
  }

  lemma SaneStep(s: State, e: Step)
    requires AllSane(s)
    ensures AllSane(Apply(s, e))
  {
    match e
    case Switch(ts, next_pid, comm) => LatencySane(s.sched_agg, next_pid, Latency(s.wakeup_ts, ts, next_pid), comm);
    case CollectDelete(_, _) => if s.reading.Some? {
      var st := s.reading.value.stats;
      SaneSum(s.rollup.total_sw, s.rollup.total_lat, s.rollup.max_lat, st.switch_count, st.total_latency_ns,
          st.max_latency_ns);
    }
    case FinishCollect(_, now_ms) => PointOfSane(s.rollup, now_ms);
    case _ =>
  }

  lemma LatencySane(agg: map<nat, Stats>, pid: nat, latency_ns: nat, comm: string)
    requires forall p :: p in agg ==> StatsSane(agg[p])
    ensures forall p :: p in AddLatency(agg, pid, latency_ns, comm) ==>
        StatsSane(AddLatency(agg, pid, latency_ns, comm)[p])
  {
    if pid in agg {
      SaneSum(agg[pid].switch_count, agg[pid].total_latency_ns, agg[pid].max_latency_ns, 1, latency_ns, latency_ns);
    }
  }

  lemma WakesStep(trace: seq<Step>, more: seq<Step>, s: State, e: Step)
    requires WakesRight(trace, s.wakeup_ts) && more == trace + [e]
    ensures WakesRight(more, Apply(s, e).wakeup_ts)
  {
    assert more[..|trace|] == trace && more[|trace|] == e;
    forall pid: nat ensures (pid in Apply(s, e).wakeup_ts <==> PendingWake(more, pid).Some?)
      && (pid in Apply(s, e).wakeup_ts ==> Apply(s, e).wakeup_ts[pid] == more[PendingWake(more, pid).value].ts)
    {
      assert PendingWake(trace, pid).Some? ==>
          more[PendingWake(trace, pid).value] == trace[PendingWake(trace, pid).value];
    }
  }

  // What a step adds for a process.
  function Adds(m: Measure, wakeup_ts: map<nat, nat>, e: Step, pid: nat): nat {
    if e.Switch? && e.next_pid == pid && pid != 0 then
      match m
      case Switches => 1
      case Waited => Latency(wakeup_ts, e.ts, e.next_pid)
      case Migrations => 0
    else if e.Migrate? && e.pid == pid && e.tracking && m == Migrations then 1
    else 0
  }

  lemma LastIs(m: Measure, trace: seq<Step>, more: seq<Step>, wakeup_ts: map<nat, nat>, e: Step, pid: nat)
    requires WakesRight(trace, wakeup_ts) && more == trace + [e]
    ensures Of(m, more, pid) == Of(m, trace, pid) + Adds(m, wakeup_ts, e, pid)
  {
    assert more[..|trace|] == trace && more[|trace|] == e;
    if e.Switch? {
      var i := PendingWake(trace, e.next_pid);
      assert i.Some? ==> more[i.value] == trace[i.value];
    }
  }

  lemma GrowStep(s: State, e: Step)
    requires ReadsGrow(s)
    ensures ReadsGrow(Apply(s, e))
  {
  }

  // What waits and what was deleted, together.
  function Both(m: Measure, agg: map<nat, Stats>, taken: seq<Taken>, pid: nat): nat {
    Held(m, agg, pid) + Deleted(m, taken, pid)
  }

  lemma HeldAndDeleted(m: Measure, s: State, e: Step, pid: nat)
    requires ReadsGrow(s)
    ensures Both(m, Apply(s, e).sched_agg, Apply(s, e).taken, pid) == Both(m, s.sched_agg, s.taken, pid)
        + Adds(m, s.wakeup_ts, e, pid)
  {
    if e.CollectDelete? && s.reading.Some? {
      var l := s.reading.value;
      DeletedAppend(m, s.taken, Taken(l.pid, l.stats, s.sched_agg[l.pid], e.allowed), pid);
    } else if e.Switch? {
      HeldAfterSwitch(m, s.sched_agg, e.next_pid, Latency(s.wakeup_ts, e.ts, e.next_pid), e.comm, pid);
    } else if e.Migrate? {
      HeldAfterMigrate(m, s.sched_agg, e.pid, pid);
    }
  }

  lemma HeldAfterSwitch(m: Measure, agg: map<nat, Stats>, p: nat, latency_ns: nat, comm: string, pid: nat)
    ensures Held(m, AddLatency(agg, p, latency_ns, comm), pid)
         == Held(m, agg, pid) + if p != pid then 0
             else match m case Switches => 1 case Waited => latency_ns case Migrations => 0
  {
  }

  lemma HeldAfterMigrate(m: Measure, agg: map<nat, Stats>, p: nat, pid: nat)
    ensures Held(m, AddMigration(agg, p), pid) == Held(m, agg, pid) + if p == pid && m == Migrations then 1 else 0
  {
  }

  lemma DeletedAppend(m: Measure, taken: seq<Taken>, t: Taken, pid: nat)
    ensures Deleted(m, taken + [t], pid) == Deleted(m, taken, pid) + if t.pid == pid then Read(m, t.deleted) else 0
  {
    assert (taken + [t])[..|taken|] == taken;
  }

  lemma {:induction false} DeletedSplits(m: Measure, taken: seq<Taken>, pid: nat)
    requires forall t :: t in taken ==> NoMore(t.stats, t.deleted)
    ensures Deleted(m, taken, pid) == Gone(m, taken, pid) + Lost(m, taken, pid)
    decreases |taken|
  {
    if taken != [] {
      assert taken[|taken| - 1] in taken;
      DeletedSplits(m, taken[..|taken| - 1], pid);
    }
  }

  lemma ConservedStep(m: Measure, trace: seq<Step>, more: seq<Step>, s: State, e: Step, pid: nat)
    requires WakesRight(trace, s.wakeup_ts) && Conserved(trace, s) && ReadsGrow(s) && more == trace + [e]
    ensures Of(m, more, pid) == Both(m, Apply(s, e).sched_agg, Apply(s, e).taken, pid)
  {
    LastIs(m, trace, more, s.wakeup_ts, e, pid);
    HeldAndDeleted(m, s, e, pid);
  }

  ghost predicate Inv(trace: seq<Step>, s: State) {
    WakesRight(trace, s.wakeup_ts) && Conserved(trace, s) && ReadsGrow(s) && AllSane(s)
  }

  lemma InvStep(trace: seq<Step>, more: seq<Step>, s: State, e: Step)
    requires Inv(trace, s) && more == trace + [e]
    ensures Inv(more, Apply(s, e))
  {
    WakesStep(trace, more, s, e);
    SaneStep(s, e);
    GrowStep(s, e);
    forall m, pid: nat ensures Of(m, more, pid) == Both(m, Apply(s, e).sched_agg, Apply(s, e).taken, pid) {
      ConservedStep(m, trace, more, s, e, pid);
    }
  }

  lemma {:induction false} RunInv(trace: seq<Step>)
    ensures Inv(trace, Run(trace))
    decreases |trace|
  {
    if trace != [] {
      var n := |trace| - 1;
      RunInv(trace[..n]);
      InvStep(trace[..n], trace, Run(trace[..n]), trace[n]);
    }
  }

  /** Per process, what the trace holds is what was collected, what still waits, and what was lost between a
      lookup and its delete, however tracepoints and Collect interleave. */
  lemma CollectedAndWaiting(m: Measure, trace: seq<Step>, pid: nat)
    ensures var s := Run(trace);
      Of(m, trace, pid) == Held(m, s.sched_agg, pid) + Gone(m, s.taken, pid) + Lost(m, s.taken, pid)
  {
    RunInv(trace);
    DeletedSplits(m, Run(trace).taken, pid);
  }

  predicate NoCollect(steps: seq<Step>) {
    forall i :: 0 <= i < |steps| ==> !steps[i].CollectRead? && !steps[i].CollectDelete?
  }

  lemma ReadingKept(s: State, e: Step)
    requires !e.CollectRead? && !e.CollectDelete?
    ensures Apply(s, e).reading == s.reading && Apply(s, e).taken == s.taken
  {
  }

  lemma {:induction false} ReadingStays(trace: seq<Step>, mid: seq<Step>)
    requires NoCollect(mid)
    ensures Run(trace + mid).reading == Run(trace).reading && Run(trace + mid).taken == Run(trace).taken
    decreases |mid|
  {
    if mid == [] {
      assert trace + mid == trace;
    } else {
      var n := |mid| - 1;
      var seen := trace + mid[..n];
      ReadingStays(trace, mid[..n]);
      RunMore(seen, mid[n]);
      ReadingKept(Run(seen), mid[n]);
      assert trace + mid == seen + [mid[n]];
    }
  }

  lemma RunMore(trace: seq<Step>, e: Step)
    ensures Run(trace + [e]) == Apply(Run(trace), e)
  {
    assert (trace + [e])[..|trace|] == trace;
  }

  /** A collection loses exactly what the tracepoints add between its lookup and its delete. */
  lemma LossIsBetween(m: Measure, before: seq<Step>, read: Step, mid: seq<Step>, delete: Step)
    requires read.CollectRead? && delete.CollectDelete? && NoCollect(mid) && read.pid in Run(before).sched_agg
    ensures read.pid in Run(before + [read] + mid).sched_agg
    ensures var seen, all := before + [read] + mid, before + [read] + mid + [delete];
      && Run(all).taken == Run(before).taken + [Taken(read.pid, Run(before).sched_agg[read.pid],
                                                      Run(seen).sched_agg[read.pid], delete.allowed)]
      && Missed(m, Run(all).taken[|Run(before).taken|]) == Of(m, seen, read.pid) - Of(m, before, read.pid)
  {
    var seen := before + [read] + mid;
    RunMore(before, read);
    ReadingStays(before + [read], mid);
    RunMore(seen, delete);
    RunInv(before);
    RunInv(seen);
  }

  /** A switch between the two is lost. */
  lemma SwitchLost(pid: nat, comm: string)
    requires pid != 0
    ensures var trace := [Switch(1, pid, comm), CollectRead(2, pid), Switch(3, pid, comm), CollectDelete(4, true)];
      Of(Switches, trace, pid) == 2 && Gone(Switches, Run(trace).taken, pid) == 1 && pid !in Run(trace).sched_agg
  {
    var one, two := Switch(1, pid, comm), Switch(3, pid, comm);
    var read, delete := CollectRead(2, pid), CollectDelete(4, true);
    RunMore([], one);
    assert [] + [one] == [one];
    LossIsBetween(Switches, [one], read, [two], delete);
    assert [one] + [read] + [two] + [delete] == [one, read, two, delete];
    RunInv([one]);
    CollectedAndWaiting(Switches, [one, read, two, delete], pid);
    RunMore([one, read, two], delete);
    assert [one, read, two] + [delete] == [one, read, two, delete];
  }

  /** Every entry has max <= total <= count * max, and every history point an average not above its maximum. */
  lemma LatenciesSane(trace: seq<Step>)
    ensures forall pid :: pid in Run(trace).sched_agg ==> StatsSane(Run(trace).sched_agg[pid])
    ensures forall t :: t in Run(trace).taken ==> StatsSane(t.stats)
    ensures forall p :: p in Run(trace).history ==> p.avg_latency_us <= p.max_latency_ns as real / 1000.0
  {
    RunInv(trace);
  }

  // ---- the program: maps updated in place, and the Collect loop ----

  // The steps of one Collect that nothing interrupts.
  function PidSteps(pids: seq<nat>, allow: set<nat>, ts: nat): seq<Step> {
    if pids == [] then []
    else
      var n := |pids| - 1;
      PidSteps(pids[..n], allow, ts) + [CollectRead(ts, pids[n]), CollectDelete(ts, Allowed(allow, pids[n]))]
  }

  function CollectSteps(pids: seq<nat>, allow: set<nat>, now_ms: nat, ts: nat): seq<Step> {
    PidSteps(pids, allow, ts) + [FinishCollect(ts, now_ms)]
  }

  // AllowPid: an empty white list lets everything pass.
  predicate Allowed(allow: set<nat>, pid: nat) {
    allow == {} || pid in allow
  }

  function ApplyAll(s: State, steps: seq<Step>): State {
    if steps == [] then s else Apply(ApplyAll(s, steps[..|steps| - 1]), steps[|steps| - 1])
  }

  lemma ApplyOne(s: State, steps: seq<Step>, e: Step)
    ensures ApplyAll(s, steps + [e]) == Apply(ApplyAll(s, steps), e)
  {
    assert (steps + [e])[..|steps|] == steps;
  }

  lemma ApplyPid(s: State, pids: seq<nat>, allow: set<nat>, ts: nat, i: nat)
    requires i < |pids|
    ensures ApplyAll(s, PidSteps(pids[..i + 1], allow, ts)) == Apply(
              Apply(ApplyAll(s, PidSteps(pids[..i], allow, ts)), CollectRead(ts, pids[i])),
              CollectDelete(ts, Allowed(allow, pids[i])))
  {
    var steps, read, delete := PidSteps(pids[..i], allow, ts), CollectRead(ts, pids[i]),
        CollectDelete(ts, Allowed(allow, pids[i]));
    assert pids[..i + 1][..i] == pids[..i];
    assert steps + [read, delete] == steps + [read] + [delete];
    ApplyOne(s, steps, read);
    ApplyOne(s, steps + [read], delete);
  }

  lemma {:induction false} RunOn(trace: seq<Step>, steps: seq<Step>)
    ensures Run(trace + steps) == ApplyAll(Run(trace), steps)
    decreases |steps|
  {
    if steps == [] {
      assert trace + steps == trace;
    } else {
      assert (trace + steps)[..|trace + steps| - 1] == trace + steps[..|steps| - 1];
      RunOn(trace, steps[..|steps| - 1]);
    }
  }

  class SchedAnalyzer {
    const target_pid_allow: set<nat>
    var wakeup_ts: map<nat, nat>
    var sched_agg: map<nat, Stats>
    var history: seq<Point>
    ghost var taken: seq<Taken>

    // Between two calls of Collect no roll-up is under way.
    ghost function Abstract(): State
      reads this
    {
      State(wakeup_ts, sched_agg, None, taken, NO_ROLLUP, history)
    }

    constructor (allow: set<nat>)
      ensures Abstract() == START && target_pid_allow == allow
    {
      target_pid_allow, wakeup_ts, sched_agg, history, taken := allow, map[], map[], [], [];
    }

    method OnWakeup(ts: nat, pid: nat)
      modifies this
      ensures Abstract() == Apply(old(Abstract()), Wakeup(ts, pid))
    {
      wakeup_ts := wakeup_ts[pid := ts];
    }

    method OnSwitch(ts: nat, next_pid: nat, comm: string)
      requires next_pid in wakeup_ts ==> wakeup_ts[next_pid] <= ts
      modifies this
      ensures Abstract() == Apply(old(Abstract()), Switch(ts, next_pid, comm))
    {
      var latency_ns := 0;
      if next_pid in wakeup_ts {
        latency_ns := ts - wakeup_ts[next_pid];
      }
      wakeup_ts := wakeup_ts - {next_pid};
      if next_pid != 0 { SchedAggAddLatency(next_pid, latency_ns, comm); }
    }

    method SchedAggAddLatency(pid: nat, latency_ns: nat, comm: string)
      modifies this`sched_agg
      ensures sched_agg == AddLatency(old(sched_agg), pid, latency_ns, comm)
    {
      if pid !in sched_agg {
        sched_agg := sched_agg[pid := Stats(1, latency_ns, latency_ns, 0, comm)];
        return;
      }
      var st := sched_agg[pid];
      st := st.(switch_count := st.switch_count + 1, total_latency_ns := st.total_latency_ns + latency_ns);
      if latency_ns > st.max_latency_ns { st := st.(max_latency_ns := latency_ns); }
      sched_agg := sched_agg[pid := st.(comm := comm)];
    }

    method OnMigrate(ts: nat, pid: nat, tracking: bool)
      modifies this
      ensures Abstract() == Apply(old(Abstract()), Migrate(ts, pid, tracking))
    {
      if !tracking { return; }
      if pid in sched_agg {
        sched_agg := sched_agg[pid := sched_agg[pid].(migrate_count := sched_agg[pid].migrate_count + 1)];
      } else {
        sched_agg := sched_agg[pid := Stats(0, 0, 0, 1, "")];
      }
    }

    /** Snapshot, delete and roll up every listed process, then one history point. */
    method Collect(pids: seq<nat>, now_ms: nat, ts: nat) returns (batch: seq<Taken>)
      modifies this
      ensures Abstract() == ApplyAll(old(Abstract()), CollectSteps(pids, target_pid_allow, now_ms, ts))
      ensures old(taken) <= taken && batch == Records(taken[|old(taken)|..])
    {
      batch := [];
      var r := NO_ROLLUP;
      ghost var removed := [];
      for i := 0 to |pids|
        invariant taken == old(taken) + removed && batch == Records(removed)
        invariant During(r) == ApplyAll(old(Abstract()), PidSteps(pids[..i], target_pid_allow, ts))
      {
        ApplyPid(old(Abstract()), pids, target_pid_allow, ts, i);
        r, batch, removed := CollectOne(pids[i], ts, r, batch, removed);
      }
      assert pids[..|pids|] == pids;
      ApplyOne(old(Abstract()), PidSteps(pids, target_pid_allow, ts), FinishCollect(ts, now_ms));
      PushPoint(PointOf(r, now_ms));
    }

    // While a roll-up is under way.
    ghost function During(r: Rollup): State
      reads this
    {
      State(wakeup_ts, sched_agg, None, taken, r, history)
    }

    method CollectOne(pid: nat, ts: nat, r: Rollup, batch: seq<Taken>, ghost removed: seq<Taken>)
      returns (r': Rollup, batch': seq<Taken>, ghost removed': seq<Taken>)
      requires batch == Records(removed)
      modifies this`sched_agg, this`taken
      ensures During(r') == Apply(Apply(old(During(r)), CollectRead(ts, pid)),
          CollectDelete(ts, Allowed(target_pid_allow, pid)))
      ensures removed <= removed' && taken == old(taken) + removed'[|removed|..] && batch' == Records(removed')
    {
      r', batch', removed' := r, batch, removed;
      if pid !in sched_agg { return; }
      var t := Taken(pid, sched_agg[pid], sched_agg[pid], target_pid_allow == {} || pid in target_pid_allow);
      RecordsMore(removed, t);
      sched_agg, taken, removed' := sched_agg - {pid}, taken + [t], removed + [t];
      if t.allowed {
        batch' := batch + [t];
        r' := Roll(r, t.stats);
      }
    }

    method PushPoint(pt: Point)
      modifies this`history
      ensures history == Trim(old(history) + [pt])
    {
      history := history + [pt];
      while |history| > MAX_HISTORY
        invariant Trim(history) == Trim(old(history) + [pt])
      {
        history := history[1..];
      }
    }
  }

  // The records of a batch: what the white list lets through.
  function Records(taken: seq<Taken>): seq<Taken> {
    if taken == [] then []
    else Records(taken[..|taken| - 1]) + if taken[|taken| - 1].allowed then [taken[|taken| - 1]] else []
  }

  lemma RecordsMore(taken: seq<Taken>, t: Taken)
    ensures Records(taken + [t]) == Records(taken) + if t.allowed then [t] else []
  {
    assert (taken + [t])[..|taken|] == taken;
  }
}
