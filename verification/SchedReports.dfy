// What Collect reports, src/sources/sched/sched_analyzer/sched_analyzer.h: the figures of a
// history point, which points are kept, and the name and the worst latency of a process,
// told by the trace.
module SchedReports {
  import opened Wrappers
  import opened SchedAnalyzer

  // ---- one collection ----

  // What has been taken since the last collection ended.
  ghost function TakenSince(trace: seq<Step>): seq<Taken> {
    if trace == [] then []
    else
      var n := |trace| - 1;
      if trace[n].FinishCollect? then [] else TakenSince(trace[..n]) + NewlyTaken(Run(trace[..n]), Run(trace))
  }

  ghost function NewlyTaken(s: State, s': State): seq<Taken> {
    if |s'.taken| > |s.taken| then s'.taken[|s.taken|..] else []
  }

  // The sum of one measure over what the white list lets through.
  function Total(m: Measure, taken: seq<Taken>): nat {
    if taken == [] then 0
    else
      var t := taken[|taken| - 1];
      Total(m, taken[..|taken| - 1]) + if t.allowed then Read(m, t.stats) else 0
  }

  function Processes(taken: seq<Taken>): nat {
    if taken == [] then 0
    else Processes(taken[..|taken| - 1]) + if taken[|taken| - 1].allowed then 1 else 0
  }

  ghost predicate IsMax(max: nat, taken: seq<Taken>) {
    && (forall t :: t in taken && t.allowed ==> t.stats.max_latency_ns <= max)
    && (max == 0 || exists t :: t in taken && t.allowed && t.stats.max_latency_ns == max)
  }

  ghost predicate SumsUp(r: Rollup, taken: seq<Taken>) {
    && r.total_sw == Total(Switches, taken) && r.total_lat == Total(Waited, taken)
    && r.total_mig == Total(Migrations, taken) && r.proc_count == Processes(taken) && IsMax(r.max_lat, taken)
  }

  lemma SumsUpMore(r: Rollup, taken: seq<Taken>, t: Taken)
    requires SumsUp(r, taken)
    ensures SumsUp(if t.allowed then Roll(r, t.stats) else r, taken + [t])
  {
    assert (taken + [t])[..|taken|] == taken;
    var max := if t.allowed && t.stats.max_latency_ns > r.max_lat then t.stats.max_latency_ns else r.max_lat;
    if t.allowed && t.stats.max_latency_ns > r.max_lat {
      assert t in taken + [t];
    } else if r.max_lat != 0 {
      var u :| u in taken && u.allowed && u.stats.max_latency_ns == r.max_lat;
      assert u in taken + [t];
    }
    assert IsMax(max, taken + [t]);
  }

  lemma DeleteTakes(s: State, e: Step)
    ensures e.CollectDelete? && s.reading.Some? ==>
      && |NewlyTaken(s, Apply(s, e))| == 1
      && var t := NewlyTaken(s, Apply(s, e))[0];
      Apply(s, e).rollup == (if t.allowed then Roll(s.rollup, t.stats) else s.rollup)
    ensures !(e.CollectDelete? && s.reading.Some?) ==>
      NewlyTaken(s, Apply(s, e)) == [] && (!e.FinishCollect? ==> Apply(s, e).rollup == s.rollup)
  {
  }

  /** The roll-up holds the sums and the greatest latency of what has been taken and let through
      since the last collection ended. */
  lemma {:induction false} RollupIs(trace: seq<Step>)
    ensures SumsUp(Run(trace).rollup, TakenSince(trace))
  {
    if trace != [] {
      var n := |trace| - 1;
      var s, e, since := Run(trace[..n]), trace[n], TakenSince(trace[..n]);
      RollupIs(trace[..n]);
      DeleteTakes(s, e);
      if e.CollectDelete? && s.reading.Some? {
        var t := NewlyTaken(s, Run(trace))[0];
        SumsUpMore(s.rollup, since, t);
        assert TakenSince(trace) == since + [t];
      } else if !e.FinishCollect? {
        assert since + [] == since;
      }
    }
  }

  ghost predicate PointFor(p: Point, taken: seq<Taken>) {
    && p.process_count == Processes(taken)
    && p.total_switches == Total(Switches, taken) && p.total_migrations == Total(Migrations, taken)
    && IsMax(p.max_latency_ns, taken)
    && (if p.total_switches == 0 then p.avg_latency_us == 0.0
        else p.avg_latency_us * p.total_switches as real * 1000.0 == Total(Waited, taken) as real)
  }

  lemma PointOfSums(r: Rollup, now_ms: nat, taken: seq<Taken>)
    requires SumsUp(r, taken)
    ensures PointFor(PointOf(r, now_ms), taken) && PointOf(r, now_ms).timestamp_ms == now_ms
  {
    if r.total_sw > 0 { Quotient(r.total_lat as real, r.total_sw as real); }
  }

  lemma Quotient(total: real, count: real)
    requires count > 0.0
    ensures total / count / 1000.0 * count * 1000.0 == total
  {
    var q := total / count;
    assert q * count == total;
    assert q / 1000.0 * count * 1000.0 == q * count;
  }

  // Of a list and one more, the last ones, as many as there is room for.
  lemma TrimIs(history: seq<Point>, p: Point, kept: seq<Point>)
    requires |history| <= MAX_HISTORY && kept == Trim(history + [p])
    ensures |kept| == (if |history| < MAX_HISTORY then |history| + 1 else MAX_HISTORY) && kept[|kept| - 1] == p
    ensures kept[..|kept| - 1] == history[|history| + 1 - |kept|..]
  {
    assert |history + [p]| == |history| + 1;
  }

  /** A collection adds one point: the sums, the greatest latency and the mean latency in
      microseconds of what it took and the white list let through. Of the points before it the
      newest are kept, as many as there is room for. */
  lemma CollectionReports(trace: seq<Step>, e: Step)
    requires e.FinishCollect?
    ensures var was, now := Run(trace).history, Run(trace + [e]).history;
      && |now| == (if |was| < MAX_HISTORY then |was| + 1 else MAX_HISTORY)
      && now[..|now| - 1] == was[|was| + 1 - |now|..]
      && now[|now| - 1].timestamp_ms == e.now_ms && PointFor(now[|now| - 1], TakenSince(trace))
  {
    var s := Run(trace);
    RollupIs(trace);
    RunInv(trace);
    RunMore(trace, e);
    PointOfSums(s.rollup, e.now_ms, TakenSince(trace));
    TrimIs(s.history, PointOf(s.rollup, e.now_ms), Trim(s.history + [PointOf(s.rollup, e.now_ms)]));
  }

  // ---- one process ----

  // The name at the last switch to a process.
  function LastComm(trace: seq<Step>, pid: nat): string {
    if trace == [] then ""
    else
      var n := |trace| - 1;
      if trace[n].Switch? && trace[n].next_pid == pid && pid != 0 then trace[n].comm else LastComm(trace[..n], pid)
  }

  // The latencies charged to the switches to a process since it was last deleted.
  ghost function Latencies(trace: seq<Step>, pid: nat): seq<nat> {
    if trace == [] then []
    else
      var n := |trace| - 1;
      var front, e := Latencies(trace[..n], pid), trace[n];
      if e.Switch? && e.next_pid == pid && pid != 0 then front + [Last(Waited, trace, pid)]
      else if e.CollectDelete? && Run(trace[..n]).reading.Some? && Run(trace[..n]).reading.value.pid == pid then []
      else front
  }

  ghost predicate IsPeak(max: nat, latencies: seq<nat>) {
    && (forall l :: l in latencies ==> l <= max)
    && (if latencies == [] then max == 0 else max in latencies)
  }

  ghost predicate EntryRight(trace: seq<Step>, agg: map<nat, Stats>, pid: nat) {
    && (pid !in agg ==> Latencies(trace, pid) == [])
    && (pid in agg ==>
          && agg[pid].switch_count == |Latencies(trace, pid)|
          && IsPeak(agg[pid].max_latency_ns, Latencies(trace, pid))
          && agg[pid].comm == if agg[pid].switch_count > 0 then LastComm(trace, pid) else "")
  }

  lemma PeakMore(max: nat, latencies: seq<nat>, l: nat)
    requires IsPeak(max, latencies)
    ensures IsPeak(if l > max then l else max, latencies + [l])
  {
  }

  lemma ChargedLatency(trace: seq<Step>, pid: nat)
    requires trace != [] && trace[|trace| - 1].Switch? && trace[|trace| - 1].next_pid == pid && pid != 0
    ensures var n := |trace| - 1; Last(Waited, trace, pid) == Latency(Run(trace[..n]).wakeup_ts, trace[n].ts, pid)
  {
    RunInv(trace[..|trace| - 1]);
  }

  lemma SwitchEntry(agg: map<nat, Stats>, pid: nat, latency_ns: nat, comm: string)
    ensures var agg' := AddLatency(agg, pid, latency_ns, comm);
      && pid in agg' && agg'[pid].comm == comm
      && agg'[pid].switch_count == (if pid in agg then agg[pid].switch_count else 0) + 1
      && (agg'[pid].max_latency_ns ==
          if pid in agg && agg[pid].max_latency_ns >= latency_ns then agg[pid].max_latency_ns else latency_ns)
      && forall other :: other != pid ==>
        (other in agg' <==> other in agg) && (other in agg ==> agg'[other] == agg[other])
  {
  }

  lemma MigrateEntry(agg: map<nat, Stats>, p: nat, pid: nat)
    ensures var agg' := AddMigration(agg, p);
      && (pid in agg ==>
            && pid in agg' && agg'[pid].comm == agg[pid].comm
            && agg'[pid].switch_count == agg[pid].switch_count && agg'[pid].max_latency_ns == agg[pid].max_latency_ns)
      && (pid !in agg && pid in agg' ==> agg'[pid] == Stats(0, 0, 0, 1, ""))
  {
  }

  lemma SwitchRight(trace: seq<Step>, pid: nat)
    requires trace != [] && trace[|trace| - 1].Switch?
    requires EntryRight(trace[..|trace| - 1], Run(trace[..|trace| - 1]).sched_agg, pid)
    ensures EntryRight(trace, Run(trace).sched_agg, pid)
  {
    var n := |trace| - 1;
    var s, e := Run(trace[..n]), trace[n];
    if e.next_pid != 0 {
      SwitchEntry(s.sched_agg, e.next_pid, Latency(s.wakeup_ts, e.ts, e.next_pid), e.comm);
      if e.next_pid == pid {
        ChargedLatency(trace, pid);
        var before := Latencies(trace[..n], pid);
        PeakMore(if pid in s.sched_agg then s.sched_agg[pid].max_latency_ns else 0, before, Last(Waited, trace, pid));
      }
    }
  }

  /** The entry of a process counts the switches since it was last deleted, and has the worst of
      their latencies and the name at the last one. */
  lemma {:induction false} EntryIs(trace: seq<Step>, pid: nat)
    ensures EntryRight(trace, Run(trace).sched_agg, pid)
  {
    if trace != [] {
      var n := |trace| - 1;
      var s, e := Run(trace[..n]), trace[n];
      EntryIs(trace[..n], pid);
      if e.Switch? {
        SwitchRight(trace, pid);
      } else if e.Migrate? {
        MigrateEntry(s.sched_agg, e.pid, pid);
      }
    }
  }
}
