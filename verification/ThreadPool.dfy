// src/core/threading/thread_pool.h: any number of workers, submitters and the
// destructor. Each section under mutex_ is one step; cv_ may wake spuriously.
module ThreadPool {

  // AtLock: about to evaluate the wait predicate under the mutex.
  datatype Worker = AtLock | Asleep | Running(task: nat) | Exited

  datatype Lifetime = Alive | StopSet | Joining | Destroyed

  // unnotified counts Submit calls between releasing the mutex and notify_one.
  // submitted, taken and done are history; the n-th submitted task is named n, and
  // runners[n] is the worker that took it.
  datatype Pool = Pool(
    workers: seq<Worker>, tasks: seq<nat>, stop: bool, life: Lifetime, unnotified: nat,
    submitted: seq<nat>, taken: seq<nat>, runners: seq<nat>, done: seq<nat>)

  ghost predicate Init(s: Pool) {
    && |s.workers| >= 1 && (forall i :: 0 <= i < |s.workers| ==> s.workers[i] == AtLock)
    && s.tasks == [] && !s.stop && s.life == Alive && s.unnotified == 0
    && s.submitted == s.taken == s.runners == s.done == []
  }

  // ---- steps ----

  ghost predicate Submit(s: Pool, s': Pool) {
    && s.life == Alive
    && var task := |s.submitted|;
       s' == s.(tasks := s.tasks + [task], submitted := s.submitted + [task], unnotified := s.unnotified + 1)
  }

  ghost predicate NotifyOne(s: Pool, s': Pool) {
    && s.unnotified > 0
    && if exists i :: 0 <= i < |s.workers| && s.workers[i] == Asleep
       then exists i :: 0 <= i < |s.workers| && s.workers[i] == Asleep
              && s' == s.(unnotified := s.unnotified - 1, workers := s.workers[i := AtLock])
       else s' == s.(unnotified := s.unnotified - 1)
  }

  function Taking(s: Pool, i: nat): Pool
    requires i < |s.workers| && s.tasks != []
  {
    s.(workers := s.workers[i := Running(s.tasks[0])], tasks := s.tasks[1..],
       taken := s.taken + [s.tasks[0]], runners := s.runners + [i])
  }

  // The wait predicate, the exit test and the pop, all under the mutex.
  ghost predicate Acquire(s: Pool, s': Pool, i: nat) {
    && i < |s.workers| && s.workers[i] == AtLock
    && if !s.stop && s.tasks == [] then s' == s.(workers := s.workers[i := Asleep])
       else if s.stop && s.tasks == [] then s' == s.(workers := s.workers[i := Exited])
       else s' == Taking(s, i)
  }

  ghost predicate Finish(s: Pool, s': Pool, i: nat) {
    && i < |s.workers| && s.workers[i].Running?
    && s' == s.(workers := s.workers[i := AtLock], done := s.done + [s.workers[i].task])
  }

  ghost predicate SpuriousWake(s: Pool, s': Pool, i: nat) {
    i < |s.workers| && s.workers[i] == Asleep && s' == s.(workers := s.workers[i := AtLock])
  }

  ghost predicate WorkerStep(s: Pool, s': Pool, i: nat) {
    Acquire(s, s', i) || Finish(s, s', i) || SpuriousWake(s, s', i)
  }

  function Woken(ws: seq<Worker>): seq<Worker> {
    seq(|ws|, i requires 0 <= i < |ws| => if ws[i] == Asleep then AtLock else ws[i])
  }

  ghost predicate AllExited(s: Pool) {
    forall i {:trigger s.workers[i]} :: 0 <= i < |s.workers| ==> s.workers[i] == Exited
  }

  ghost predicate Destructor(s: Pool, s': Pool) {
    match s.life
    case Alive => s' == s.(stop := true, life := StopSet)
    case StopSet => s' == s.(workers := Woken(s.workers), life := Joining)
    case Joining => AllExited(s) && s' == s.(life := Destroyed)
    case Destroyed => false
  }

  ghost predicate Next(s: Pool, s': Pool) {
    Submit(s, s') || NotifyOne(s, s') || Destructor(s, s') || exists i: nat :: WorkerStep(s, s', i)
  }

  ghost predicate Run(run: seq<Pool>) {
    && run != [] && Init(run[0])
    && forall i {:trigger run[i]} :: 0 < i < |run| ==> Next(run[i - 1], run[i])
  }

  // ---- the invariant ----

  ghost predicate AllAsleep(s: Pool) {
    forall i {:trigger s.workers[i]} :: 0 <= i < |s.workers| ==> s.workers[i] == Asleep
  }

  ghost predicate Distinct(xs: seq<nat>) {
    forall j, k :: 0 <= j < k < |xs| ==> xs[j] != xs[k]
  }

  // Each taken task is done, or is with the worker that took it.
  ghost predicate Accounts(workers: seq<Worker>, taken: seq<nat>, runners: seq<nat>, done: seq<nat>) {
    && |runners| == |taken| && Distinct(done)
    && (forall n :: n in done ==> n < |taken|)
    && (forall n {:trigger runners[n]} :: 0 <= n < |taken| ==>
          n in done || (runners[n] < |workers| && workers[runners[n]] == Running(n)))
    && (forall i {:trigger workers[i]} :: 0 <= i < |workers| && workers[i].Running? ==>
          workers[i].task < |taken| && runners[workers[i].task] == i && workers[i].task !in done)
  }

  ghost predicate Inv(s: Pool) {
    && |s.workers| >= 1
    && s.submitted == s.taken + s.tasks
    && (forall n {:trigger s.submitted[n]} :: 0 <= n < |s.submitted| ==> s.submitted[n] == n)
    && Accounts(s.workers, s.taken, s.runners, s.done)
    && (s.stop <==> s.life != Alive)
    && (forall i {:trigger s.workers[i]} :: 0 <= i < |s.workers| && s.workers[i] == Exited ==> s.stop && s.tasks == [])
    && (s.life == Joining || s.life == Destroyed ==> forall i {:trigger s.workers[i]} :: 0 <= i < |s.workers| ==>
        s.workers[i] != Asleep)
    && (s.life == Destroyed ==> AllExited(s))
    && (s.tasks != [] && AllAsleep(s) ==> s.unnotified > 0)
  }

  lemma InitInv(s: Pool)
    requires Init(s)
    ensures Inv(s)
  {
  }

  // What WorkerStep keeps of the accounts: one case each.
  lemma AcquireAccounts(s: Pool, s': Pool, i: nat)
    requires Inv(s) && Acquire(s, s', i)
    ensures Accounts(s'.workers, s'.taken, s'.runners, s'.done) && s'.submitted == s'.taken + s'.tasks
  {
    if s'.taken != s.taken { assert s.submitted[|s.taken|] == s.tasks[0]; }
  }

  lemma FinishAccounts(s: Pool, s': Pool, i: nat)
    requires Inv(s) && (Finish(s, s', i) || SpuriousWake(s, s', i))
    ensures Accounts(s'.workers, s'.taken, s'.runners, s'.done)
  {
  }

  lemma WorkerInv(s: Pool, s': Pool, i: nat)
    requires Inv(s) && WorkerStep(s, s', i)
    ensures Inv(s')
  {
    if Acquire(s, s', i) { AcquireAccounts(s, s', i); } else { FinishAccounts(s, s', i); }
    assert s'.workers[i] != s.workers[i];
    assert AllAsleep(s') ==> s'.workers[i] == Asleep;
  }

  lemma NotifyInv(s: Pool, s': Pool)
    requires Inv(s) && NotifyOne(s, s')
    ensures Inv(s')
  {
    if s'.workers != s.workers {
      var i :| 0 <= i < |s.workers| && s.workers[i] == Asleep
        && s' == s.(unnotified := s.unnotified - 1, workers := s.workers[i := AtLock]);
      assert s'.workers[i] == AtLock;
    } else {
      assert s.workers[0] != Asleep;
    }
  }

  lemma NextInv(s: Pool, s': Pool)
    requires Inv(s) && Next(s, s')
    ensures Inv(s')
  {
    if Submit(s, s') {
      assert s'.submitted == s'.taken + s'.tasks;
    } else if NotifyOne(s, s') {
      NotifyInv(s, s');
    } else if Destructor(s, s') {
      assert s.life != Alive ==> s'.workers[0] != Asleep;
    } else {
      var i: nat :| WorkerStep(s, s', i);
      WorkerInv(s, s', i);
    }
  }

  lemma {:induction false} RunInv(run: seq<Pool>, i: nat)
    requires Run(run) && i < |run|
    ensures Inv(run[i])
  {
    if i == 0 {
      InitInv(run[0]);
    } else {
      RunInv(run, i - 1);
      NextInv(run[i - 1], run[i]);
    }
  }

  // ---- what it means ----

  /** When the destructor returns, every submitted task has run exactly once, and they were taken in order. */
  lemma ExecutedExactlyOnce(run: seq<Pool>, i: nat)
    requires Run(run) && i < |run| && run[i].life == Destroyed
    ensures run[i].taken == run[i].submitted && run[i].tasks == []
    ensures Distinct(run[i].done) && forall n: nat :: n in run[i].done <==> n < |run[i].submitted|
  {
    RunInv(run, i);
    var s := run[i];
    assert s.workers[0] == Exited && s.taken + [] == s.taken;
    forall n: nat | n < |s.submitted| ensures n in s.done { assert s.runners[n] >= 0; }
  }

  /** Tasks leave the queue in submission order, in every state of every run. */
  lemma TakenInOrder(run: seq<Pool>, i: nat)
    requires Run(run) && i < |run|
    ensures run[i].taken <= run[i].submitted && run[i].taken + run[i].tasks == run[i].submitted
  {
    RunInv(run, i);
  }

  /** No wake-up is lost: work with every worker asleep means a notification is still to come. */
  lemma NoLostWakeup(run: seq<Pool>, i: nat)
    requires Run(run) && i < |run| && run[i].tasks != [] && AllAsleep(run[i])
    ensures run[i].unnotified > 0
  {
    RunInv(run, i);
  }

  // Steps left before the join of the destructor can succeed.
  function Left(ws: seq<Worker>): nat {
    if ws == [] then 0 else Rank(ws[0]) + Left(ws[1..])
  }

  function Rank(w: Worker): nat {
    match w case Exited => 0 case AtLock => 1 case Asleep => 2 case Running(_) => 2
  }

  function Measure(s: Pool): nat {
    3 * |s.tasks| + Left(s.workers) + s.unnotified
  }

  lemma {:induction false} LeftUpdate(ws: seq<Worker>, i: nat, w: Worker)
    requires i < |ws|
    ensures Left(ws[i := w]) == Left(ws) - Rank(ws[i]) + Rank(w)
  {
    if i == 0 {
      assert ws[i := w][1..] == ws[1..];
    } else {
      assert ws[i := w][1..] == ws[1..][i - 1 := w];
      LeftUpdate(ws[1..], i - 1, w);
    }
  }

  /** The destructor cannot hang: after notify_all a worker can always move until all have exited. */
  lemma JoinProgresses(s: Pool)
    requires Inv(s) && s.life == Joining && !AllExited(s)
    ensures exists s', i: nat :: WorkerStep(s, s', i)
  {
    var i: nat :| i < |s.workers| && s.workers[i] != Exited;
    if s.workers[i].Running? {
      var s' := s.(workers := s.workers[i := AtLock], done := s.done + [s.workers[i].task]);
      assert WorkerStep(s, s', i);
    } else if s.tasks == [] {
      assert WorkerStep(s, s.(workers := s.workers[i := Exited]), i);
    } else {
      var s' := Taking(s, i);
      assert WorkerStep(s, s', i);
    }
  }

  /** Every step after notify_all brings the end of the join closer. */
  lemma JoinDecreases(s: Pool, s': Pool)
    requires Inv(s) && s.life == Joining && Next(s, s') && !Destructor(s, s')
    ensures s'.life == Joining && Measure(s') < Measure(s)
  {
    if !NotifyOne(s, s') {
      var i: nat :| WorkerStep(s, s', i);
      LeftUpdate(s.workers, i, s'.workers[i]);
    }
  }
}
