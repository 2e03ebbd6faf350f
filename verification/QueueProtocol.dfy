// src/core/memory/lock_free_queue.h, run by any number of threads: every load,
// compare-and-swap, data access and sequence store is a step of its own.
// Steps are sequentially consistent and the counters unbounded.
module QueueProtocol {
  import opened Wrappers
  import opened Bits

  datatype Cell<T> = Cell(sequence: nat, data: T)

  // Where a thread is inside TryPush or TryPop.
  datatype Pc<T> =
    | Idle
    | PushLoadHead(v: T)
    | PushLoadSequence(v: T, pos: nat)
    | PushCas(v: T, pos: nat)
    | PushWrite(v: T, pos: nat)
    | PushPublish(v: T, pos: nat)
    | PushDone(ok: bool, v: T, pos: nat)
    | PopLoadTail
    | PopLoadSequence(pos: nat)
    | PopCas(pos: nat)
    | PopRead(pos: nat)
    | PopRelease(v: T, pos: nat)
    | PopDone(result: Option<T>, pos: nat)

  // log, pushers, poppers and returned are history: the value and the thread that
  // claimed each position, and the value each finished pop handed to its caller.
  datatype State<T> = State(
    cells: seq<Cell<T>>, head: nat, tail: nat, threads: seq<Pc<T>>,
    log: seq<T>, pushers: seq<nat>, poppers: seq<nat>, returned: map<nat, T>)

  ghost predicate Init<T>(s: State<T>) {
    && |s.cells| >= 1
    && (forall i :: 0 <= i < |s.cells| ==> s.cells[i].sequence == i)
    && s.head == 0 && s.tail == 0
    && (forall t :: 0 <= t < |s.threads| ==> s.threads[t] == Idle)
    && s.log == [] && s.pushers == [] && s.poppers == [] && s.returned == map[]
  }

  function At<T>(s: State<T>, pos: nat): Cell<T>
    requires |s.cells| > 0
  {
    s.cells[pos % |s.cells|]
  }

  function Goto<T>(s: State<T>, t: nat, pc: Pc<T>): State<T>
    requires t < |s.threads|
  {
    s.(threads := s.threads[t := pc])
  }

  function Put<T>(s: State<T>, pos: nat, c: Cell<T>): State<T>
    requires |s.cells| > 0
  {
    s.(cells := s.cells[pos % |s.cells| := c])
  }

  // A thread that is not inside the queue starts an operation.
  ghost predicate Call<T(!new)>(s: State<T>, s': State<T>, t: nat) {
    && t < |s.threads| && s.threads[t] == Idle
    && (s' == Goto(s, t, PopLoadTail) || exists v :: s' == Goto(s, t, PushLoadHead(v)))
  }

  // A finished operation hands its result to the caller.
  ghost predicate Return<T>(s: State<T>, s': State<T>, t: nat) {
    && t < |s.threads|
    && match s.threads[t] {
         case PushDone(_, _, _) => s' == Goto(s, t, Idle)
         case PopDone(None, _) => s' == Goto(s, t, Idle)
         case PopDone(Some(v), pos) => s' == Goto(s, t, Idle).(returned := s.returned[pos := v])
         case _ => false
       }
  }

  // One atomic access by thread t. A compare-and-swap may fail spuriously.
  ghost predicate Access<T>(s: State<T>, s': State<T>, t: nat) {
    && t < |s.threads| && |s.cells| > 0
    && match s.threads[t] {
         case PushLoadHead(v) => s' == Goto(s, t, PushLoadSequence(v, s.head))
         case PushLoadSequence(v, pos) =>
           var diff := At(s, pos).sequence - pos;
           s' == Goto(s, t, if diff == 0 then PushCas(v, pos)
                            else if diff < 0 then PushDone(false, v, pos) else PushLoadHead(v))
         case PushCas(v, pos) =>
           || s' == Goto(s, t, PushLoadSequence(v, s.head))
           || (s.head == pos && s' == Goto(s, t, PushWrite(v, pos)).(
                 head := pos + 1, log := s.log + [v], pushers := s.pushers + [t]))
         case PushWrite(v, pos) =>
           s' == Goto(Put(s, pos, At(s, pos).(data := v)), t, PushPublish(v, pos))
         case PushPublish(v, pos) =>
           s' == Goto(Put(s, pos, At(s, pos).(sequence := pos + 1)), t, PushDone(true, v, pos))
         case PopLoadTail => s' == Goto(s, t, PopLoadSequence(s.tail))
         case PopLoadSequence(pos) =>
           var diff := At(s, pos).sequence - (pos + 1);
           s' == Goto(s, t, if diff == 0 then PopCas(pos)
                            else if diff < 0 then PopDone(None, pos) else PopLoadTail)
         case PopCas(pos) =>
           || s' == Goto(s, t, PopLoadSequence(s.tail))
           || (s.tail == pos && s' == Goto(s, t, PopRead(pos)).(
                 tail := pos + 1, poppers := s.poppers + [t]))
         case PopRead(pos) => s' == Goto(s, t, PopRelease(At(s, pos).data, pos))
         case PopRelease(v, pos) =>
           s' == Goto(Put(s, pos, At(s, pos).(sequence := pos + |s.cells|)), t, PopDone(Some(v), pos))
         case _ => false
       }
  }

  ghost predicate Step<T(!new)>(s: State<T>, s': State<T>, t: nat) {
    Call(s, s', t) || Return(s, s', t) || Access(s, s', t)
  }

  ghost predicate Next<T(!new)>(s: State<T>, s': State<T>) {
    exists t: nat :: Step(s, s', t)
  }

  ghost predicate Run<T(!new)>(run: seq<State<T>>) {
    && run != [] && Init(run[0])
    && forall i {:trigger run[i]} :: 0 < i < |run| ==> Next(run[i - 1], run[i])
  }

  // ---- the invariant ----

  predicate Pushing<T>(s: State<T>, t: nat, pos: nat) {
    t < |s.threads| && (s.threads[t].PushWrite? || s.threads[t].PushPublish?) && s.threads[t].pos == pos
  }

  predicate Popping<T>(s: State<T>, t: nat, pos: nat) {
    t < |s.threads| && (s.threads[t].PopRead? || s.threads[t].PopRelease?) && s.threads[t].pos == pos
  }

  predicate PoppedBy<T>(s: State<T>, t: nat, pos: nat) {
    Popping(s, t, pos) || (t < |s.threads| && s.threads[t].PopDone? && s.threads[t].result.Some?
        && s.threads[t].pos == pos)
  }

  ghost predicate Shape<T>(s: State<T>) {
    && |s.cells| >= 2
    && s.tail <= s.head <= s.tail + |s.cells|
    && |s.log| == |s.pushers| == s.head && |s.poppers| == s.tail
    && forall p :: p in s.returned ==> p < s.tail
  }

  // The cell of a position within one lap of the tail.
  ghost predicate CellOk<T>(s: State<T>, q: nat)
    requires Shape(s) && s.tail <= q < s.tail + |s.cells|
  {
    var c := At(s, q);
    if q < s.head then
      || (c.sequence == q && Pushing(s, s.pushers[q], q))
      || (c.sequence == q + 1 && c.data == s.log[q])
    else
      || c.sequence == q
      || (q >= |s.cells| && c.sequence == q - |s.cells| + 1
          && Popping(s, s.poppers[q - |s.cells|], q - |s.cells|))
  }

  ghost predicate ThreadOk<T>(s: State<T>, t: nat)
    requires Shape(s) && t < |s.threads|
  {
    match s.threads[t]
    case Idle => true
    case PushLoadHead(v) => true
    case PushLoadSequence(v, pos) => pos <= s.head
    case PushCas(v, pos) => pos <= s.head && (pos == s.head ==> At(s, pos).sequence == pos)
    case PushWrite(v, pos) =>
      s.tail <= pos < s.head && At(s, pos).sequence == pos && s.log[pos] == v && s.pushers[pos] == t
    case PushPublish(v, pos) =>
      s.tail <= pos < s.head && At(s, pos) == Cell(pos, v) && s.log[pos] == v && s.pushers[pos] == t
    case PushDone(ok, v, pos) => ok ==> pos < s.head && s.pushers[pos] == t && s.log[pos] == v
    case PopLoadTail => true
    case PopLoadSequence(pos) => pos <= s.tail
    case PopCas(pos) => pos <= s.tail && (pos == s.tail ==> At(s, pos).sequence == pos + 1)
    case PopRead(pos) =>
      && pos < s.tail <= pos + |s.cells| && At(s, pos) == Cell(pos + 1, s.log[pos])
      && s.poppers[pos] == t && pos !in s.returned
    case PopRelease(v, pos) =>
      && pos < s.tail <= pos + |s.cells| && At(s, pos).sequence == pos + 1 && v == s.log[pos]
      && s.poppers[pos] == t && pos !in s.returned
    case PopDone(result, pos) =>
      result.Some? ==> pos < s.tail && result.value == s.log[pos] && s.poppers[pos] == t && pos !in s.returned
  }

  ghost predicate ReturnedOk<T>(s: State<T>, p: nat)
    requires Shape(s) && p < s.tail
  {
    if p in s.returned then s.returned[p] == s.log[p] else PoppedBy(s, s.poppers[p], p)
  }

  ghost predicate Inv<T>(s: State<T>) {
    && Shape(s)
    && (forall q: nat :: s.tail <= q < s.tail + |s.cells| ==> CellOk(s, q))
    && (forall t: nat :: t < |s.threads| ==> ThreadOk(s, t))
    && (forall p: nat :: p < s.tail ==> ReturnedOk(s, p))
  }

  lemma InitInv<T>(s: State<T>)
    requires Init(s) && |s.cells| >= 2
    ensures Inv(s)
  {
    forall q: nat | q < |s.cells| ensures CellOk(s, q) {
      DivModUnique(q, |s.cells|, 0, q);
    }
  }

  // Slots of nearby positions are distinct.
  lemma Neighbours<T>(s: State<T>, pos: nat)
    requires |s.cells| > 0
    ensures forall q: nat {:trigger At(s, q)} ::
      q != pos && q < pos + |s.cells| && pos < q + |s.cells| ==> q % |s.cells| != pos % |s.cells|
    ensures (pos + |s.cells|) % |s.cells| == pos % |s.cells|
  {
    SlotNextLap(pos, |s.cells|);
    forall q: nat | q != pos && q < pos + |s.cells| && pos < q + |s.cells|
      ensures q % |s.cells| != pos % |s.cells|
    {
      if q % |s.cells| == pos % |s.cells| {
        if q < pos { SlotUnique(q, pos, |s.cells|); } else { SlotUnique(pos, q, |s.cells|); }
      }
    }
  }

  // A step that moves only the program counter of t, which owns no position.
  lemma LocalInv<T>(s: State<T>, s': State<T>, t: nat, pc: Pc<T>)
    requires Inv(s) && t < |s.threads| && s' == Goto(s, t, pc) && ThreadOk(s', t)
    requires forall p: nat :: !Pushing(s, t, p) && !PoppedBy(s, t, p)
    ensures Inv(s')
  {
    forall q: nat | s'.tail <= q < s'.tail + |s'.cells| ensures CellOk(s', q) {
      assert CellOk(s, q) && !Pushing(s, t, q);
      if q >= |s.cells| { assert !PoppedBy(s, t, q - |s.cells|); }
    }
    forall u: nat | u < |s'.threads| ensures ThreadOk(s', u) {
      assert ThreadOk(s, u);
    }
    forall p: nat | p < s'.tail ensures ReturnedOk(s', p) {
      assert ReturnedOk(s, p);
    }
  }

  // The window position that shares a slot with the head.
  lemma HeadSlot<T>(s: State<T>)
    requires Inv(s)
    ensures At(s, s.head).sequence == s.head ==> s.head < s.tail + |s.cells|
  {
    if s.head == s.tail + |s.cells| {
      Neighbours(s, s.tail);
      assert CellOk(s, s.tail);
    }
  }

  lemma PushClaimInv<T>(s: State<T>, s': State<T>, t: nat, v: T)
    requires Inv(s) && t < |s.threads| && s.threads[t] == PushCas(v, s.head)
    requires s' == Goto(s, t, PushWrite(v, s.head)).(head := s.head + 1, log := s.log + [v], pushers := s.pushers + [t])
    ensures Inv(s')
  {
    assert ThreadOk(s, t);
    HeadSlot(s);
    Neighbours(s, s.head);
    forall q: nat | s'.tail <= q < s'.tail + |s'.cells| ensures CellOk(s', q) {
      assert CellOk(s, q);
    }
    forall u: nat | u < |s'.threads| ensures ThreadOk(s', u) {
      assert ThreadOk(s, u);
    }
    forall p: nat | p < s'.tail ensures ReturnedOk(s', p) {
      assert ReturnedOk(s, p);
    }
  }

  lemma PushWriteInv<T>(s: State<T>, s': State<T>, t: nat, v: T, pos: nat)
    requires Inv(s) && t < |s.threads| && s.threads[t] == PushWrite(v, pos)
    requires s' == Goto(Put(s, pos, At(s, pos).(data := v)), t, PushPublish(v, pos))
    ensures Inv(s')
  {
    assert ThreadOk(s, t);
    Neighbours(s, pos);
    forall q: nat | s'.tail <= q < s'.tail + |s'.cells| ensures CellOk(s', q) {
      assert CellOk(s, q);
    }
    forall u: nat | u < |s'.threads| ensures ThreadOk(s', u) {
      assert ThreadOk(s, u);
    }
    forall p: nat | p < s'.tail ensures ReturnedOk(s', p) {
      assert ReturnedOk(s, p);
    }
  }

  lemma PushPublishInv<T>(s: State<T>, s': State<T>, t: nat, v: T, pos: nat)
    requires Inv(s) && t < |s.threads| && s.threads[t] == PushPublish(v, pos)
    requires s' == Goto(Put(s, pos, At(s, pos).(sequence := pos + 1)), t, PushDone(true, v, pos))
    ensures Inv(s')
  {
    assert ThreadOk(s, t);
    Neighbours(s, pos);
    forall q: nat | s'.tail <= q < s'.tail + |s'.cells| ensures CellOk(s', q) {
      assert CellOk(s, q);
    }
    forall u: nat | u < |s'.threads| ensures ThreadOk(s', u) {
      assert ThreadOk(s, u);
    }
    forall p: nat | p < s'.tail ensures ReturnedOk(s', p) {
      assert ReturnedOk(s, p);
    }
  }

  // A full cell at the tail is a published push.
  lemma TailSlot<T>(s: State<T>)
    requires Inv(s) && At(s, s.tail).sequence == s.tail + 1
    ensures s.tail < s.head && At(s, s.tail).data == s.log[s.tail]
  {
    assert CellOk(s, s.tail);
  }

  lemma PopClaimThread<T>(s: State<T>, s': State<T>, t: nat, u: nat)
    requires Inv(s) && Shape(s') && t < |s.threads| && u < |s.threads| && s.threads[t] == PopCas(s.tail)
    requires s.tail < s.head && At(s, s.tail) == Cell(s.tail + 1, s.log[s.tail])
    requires s' == Goto(s, t, PopRead(s.tail)).(tail := s.tail + 1, poppers := s.poppers + [t])
    ensures ThreadOk(s', u)
  {
    assert ThreadOk(s, u);
    match s.threads[u]
    case PopRead(pos) => if pos + |s.cells| == s.tail { SlotNextLap(pos, |s.cells|); }
    case PopRelease(v, pos) => if pos + |s.cells| == s.tail { SlotNextLap(pos, |s.cells|); }
    case _ =>
  }

  lemma PopClaimInv<T>(s: State<T>, s': State<T>, t: nat)
    requires Inv(s) && t < |s.threads| && s.threads[t] == PopCas(s.tail)
    requires s' == Goto(s, t, PopRead(s.tail)).(tail := s.tail + 1, poppers := s.poppers + [t])
    ensures Inv(s')
  {
    assert ThreadOk(s, t);
    TailSlot(s);
    forall q: nat | s'.tail <= q < s'.tail + |s'.cells| ensures CellOk(s', q) {
      if q < s.tail + |s.cells| { assert CellOk(s, q); } else { SlotNextLap(s.tail, |s.cells|); }
    }
    forall u: nat | u < |s'.threads| ensures ThreadOk(s', u) {
      assert ThreadOk(s, u);
      PopClaimThread(s, s', t, u);
    }
    forall p: nat | p < s'.tail ensures ReturnedOk(s', p) {
      if p < s.tail { assert ReturnedOk(s, p); }
    }
  }

  lemma PopReadInv<T>(s: State<T>, s': State<T>, t: nat, pos: nat)
    requires Inv(s) && t < |s.threads| && s.threads[t] == PopRead(pos)
    requires s' == Goto(s, t, PopRelease(At(s, pos).data, pos))
    ensures Inv(s')
  {
    assert ThreadOk(s, t);
    forall q: nat | s'.tail <= q < s'.tail + |s'.cells| ensures CellOk(s', q) {
      assert CellOk(s, q);
    }
    forall u: nat | u < |s'.threads| ensures ThreadOk(s', u) {
      assert ThreadOk(s, u);
    }
    forall p: nat | p < s'.tail ensures ReturnedOk(s', p) {
      assert ReturnedOk(s, p);
    }
  }

  lemma PopReleaseCells<T>(s: State<T>, s': State<T>, t: nat, v: T, pos: nat)
    requires Inv(s) && t < |s.threads| && s.threads[t] == PopRelease(v, pos)
    requires s' == Goto(Put(s, pos, At(s, pos).(sequence := pos + |s.cells|)), t, PopDone(Some(v), pos))
    ensures Shape(s') && forall q: nat :: s'.tail <= q < s'.tail + |s'.cells| ==> CellOk(s', q)
  {
    assert ThreadOk(s, t);
    Neighbours(s, pos);
    Neighbours(s, pos + |s.cells|);
    forall q: nat | s'.tail <= q < s'.tail + |s'.cells| ensures CellOk(s', q) {
      assert CellOk(s, q);
    }
  }

  lemma PopReleaseInv<T>(s: State<T>, s': State<T>, t: nat, v: T, pos: nat)
    requires Inv(s) && t < |s.threads| && s.threads[t] == PopRelease(v, pos)
    requires s' == Goto(Put(s, pos, At(s, pos).(sequence := pos + |s.cells|)), t, PopDone(Some(v), pos))
    ensures Inv(s')
  {
    assert ThreadOk(s, t);
    PopReleaseCells(s, s', t, v, pos);
    Neighbours(s, pos);
    forall u: nat | u < |s'.threads| ensures ThreadOk(s', u) {
      assert ThreadOk(s, u);
    }
    forall p: nat | p < s'.tail ensures ReturnedOk(s', p) {
      assert ReturnedOk(s, p);
    }
  }

  lemma HandOverInv<T>(s: State<T>, s': State<T>, t: nat, v: T, pos: nat)
    requires Inv(s) && t < |s.threads| && s.threads[t] == PopDone(Some(v), pos)
    requires s' == Goto(s, t, Idle).(returned := s.returned[pos := v])
    ensures Inv(s')
  {
    assert ThreadOk(s, t);
    forall q: nat | s'.tail <= q < s'.tail + |s'.cells| ensures CellOk(s', q) {
      assert CellOk(s, q);
    }
    forall u: nat | u < |s'.threads| ensures ThreadOk(s', u) {
      assert ThreadOk(s, u);
    }
    forall p: nat | p < s'.tail ensures ReturnedOk(s', p) {
      assert ReturnedOk(s, p);
    }
  }

  lemma LoadInv<T>(s: State<T>, s': State<T>, t: nat)
    requires Inv(s) && Access(s, s', t) && s'.head == s.head && s'.tail == s.tail
    requires match s.threads[t] { case PushWrite(_, _) => false case PushPublish(_, _) => false
        case PopRead(_) => false case PopRelease(_, _) => false case _ => true }
    ensures Inv(s')
  {
    assert ThreadOk(s, t);
    LocalInv(s, s', t, s'.threads[t]);
  }

  lemma AccessInv<T>(s: State<T>, s': State<T>, t: nat)
    requires Inv(s) && Access(s, s', t)
    ensures Inv(s')
  {
    match s.threads[t]
    case PushCas(v, pos) => if s'.head != s.head { PushClaimInv(s, s', t, v); } else { LoadInv(s, s', t); }
    case PushWrite(v, pos) => PushWriteInv(s, s', t, v, pos);
    case PushPublish(v, pos) => PushPublishInv(s, s', t, v, pos);
    case PopCas(pos) => if s'.tail != s.tail { PopClaimInv(s, s', t); } else { LoadInv(s, s', t); }
    case PopRead(pos) => PopReadInv(s, s', t, pos);
    case PopRelease(v, pos) => PopReleaseInv(s, s', t, v, pos);
    case _ => LoadInv(s, s', t);
  }

  lemma StepInv<T(!new)>(s: State<T>, s': State<T>, t: nat)
    requires Inv(s) && Step(s, s', t)
    ensures Inv(s')
  {
    if Access(s, s', t) {
      AccessInv(s, s', t);
    } else if s.threads[t].PopDone? && s.threads[t].result.Some? {
      HandOverInv(s, s', t, s.threads[t].result.value, s.threads[t].pos);
    } else {
      LocalInv(s, s', t, s'.threads[t]);
    }
  }

  // History only grows.
  ghost predicate Grows<T>(s: State<T>, s': State<T>) {
    && s.log <= s'.log && s.pushers <= s'.pushers && s.poppers <= s'.poppers
    && s.returned.Keys <= s'.returned.Keys
  }

  lemma StepGrows<T(!new)>(s: State<T>, s': State<T>, t: nat)
    requires Step(s, s', t)
    ensures Grows(s, s') && |s'.cells| == |s.cells|
    ensures t < |s.threads| == |s'.threads| && s'.threads == s.threads[t := s'.threads[t]]
  {
  }

  // ---- what the invariant means ----

  // The abstract queue: pushed positions no pop has claimed yet, oldest first.
  function Queue<T>(s: State<T>): seq<T>
    requires s.tail <= |s.log|
  {
    s.log[s.tail..]
  }

  /** Every step is a FIFO push onto a queue with room, a FIFO pop, or leaves the queue alone. */
  lemma StepRefinesFifo<T(!new)>(s: State<T>, s': State<T>, t: nat)
    requires Inv(s) && Step(s, s', t)
    ensures Inv(s') && |s'.cells| == |s.cells| && |Queue(s)| <= |s.cells|
    ensures
      || (Queue(s') == Queue(s) && s'.head == s.head && s'.tail == s.tail)
      || (exists v :: |Queue(s)| < |s.cells| && Queue(s') == Queue(s) + [v] && s'.threads[t] == PushWrite(v, s.head))
      || (Queue(s) != [] && Queue(s') == Queue(s)[1..] && s'.threads[t] == PopRead(s.tail))
  {
    StepInv(s, s', t);
    assert ThreadOk(s, t);
    if s'.head != s.head {
      var v := s.threads[t].v;
      HeadSlot(s);
      assert Queue(s') == Queue(s) + [v] && s'.threads[t] == PushWrite(v, s.head);
    } else if s'.tail != s.tail {
      TailSlot(s);
    }
  }

  /** Each claimed position has one pusher and one popper, and the pop yields the value pushed there. */
  lemma PositionsExclusive<T>(s: State<T>)
    requires Inv(s)
    ensures forall t: nat, u: nat, p: nat {:trigger Pushing(s, t, p), Pushing(s, u, p)} ::
              Pushing(s, t, p) && Pushing(s, u, p) ==> t == u
    ensures forall t: nat, u: nat, p: nat {:trigger PoppedBy(s, t, p), PoppedBy(s, u, p)} ::
              PoppedBy(s, t, p) && PoppedBy(s, u, p) ==> t == u
    ensures forall t: nat, p: nat :: PoppedBy(s, t, p) ==> p < s.tail && p !in s.returned
    ensures forall p :: p in s.returned ==> p < s.tail && s.returned[p] == s.log[p]
    ensures forall t: nat :: t < |s.threads| && s.threads[t].PopDone? && s.threads[t].result.Some? ==>
                               s.threads[t].pos < s.tail && s.threads[t].result.value == s.log[s.threads[t].pos]
  {
    forall t: nat, p: nat | Pushing(s, t, p) ensures p < s.head && s.pushers[p] == t { assert ThreadOk(s, t); }
    forall t: nat, p: nat | PoppedBy(s, t, p) ensures p < s.tail && s.poppers[p] == t && p !in s.returned {
      assert ThreadOk(s, t);
    }
    forall t: nat | t < |s.threads| && s.threads[t].PopDone? && s.threads[t].result.Some?
      ensures s.threads[t].pos < s.tail && s.threads[t].result.value == s.log[s.threads[t].pos]
    {
      assert ThreadOk(s, t);
    }
    forall p | p in s.returned ensures p < s.tail && s.returned[p] == s.log[p] { assert ReturnedOk(s, p); }
  }

  ghost predicate Quiescent<T>(s: State<T>) {
    forall t :: 0 <= t < |s.threads| ==> s.threads[t] == Idle
  }

  /** With no operation under way, every pushed value is in the queue or was returned once, at its position. */
  lemma QuiescentConserves<T>(s: State<T>)
    requires Inv(s) && Quiescent(s)
    ensures forall p: nat :: p in s.returned <==> p < s.tail
    ensures forall p: nat :: p < s.tail ==> s.returned[p] == s.log[p]
    ensures forall p: nat {:trigger At(s, p)} :: s.tail <= p < s.head ==> At(s, p) == Cell(p + 1, s.log[p])
    ensures forall p: nat {:trigger At(s, p)} :: s.head <= p < s.tail + |s.cells| ==> At(s, p).sequence == p
  {
    forall p: nat | p < s.tail ensures p in s.returned && s.returned[p] == s.log[p] { assert ReturnedOk(s, p); }
    forall p: nat | s.tail <= p < s.tail + |s.cells|
      ensures if p < s.head then At(s, p) == Cell(p + 1, s.log[p]) else At(s, p).sequence == p
    {
      assert CellOk(s, p);
    }
  }

  // A pop that has not released its slot keeps it from the push one lap later.
  lemma HeldByPop<T>(s: State<T>, p: nat)
    requires Inv(s) && p < s.tail && Popping(s, s.poppers[p], p)
    ensures At(s, p + |s.cells|).sequence == p + 1
  {
    assert ThreadOk(s, s.poppers[p]);
    SlotNextLap(p, |s.cells|);
  }

  /** TryPush gives up only on a queue that is full once the pop still releasing the slot is counted. */
  lemma FailedPush<T>(s: State<T>, t: nat, v: T, pos: nat)
    requires Inv(s) && t < |s.threads| && s.threads[t] == PushLoadSequence(v, pos)
    ensures At(s, pos).sequence < pos <==>
      && pos == s.head
      && (|Queue(s)| == |s.cells|
          || (pos >= |s.cells| && Popping(s, s.poppers[pos - |s.cells|], pos - |s.cells|)))
  {
    var cap := |s.cells|;
    assert ThreadOk(s, t);
    var q := WindowPosition(s, pos);
    assert CellOk(s, q);
    if cap <= pos == s.head && pos - cap < s.tail && Popping(s, s.poppers[pos - cap], pos - cap) {
      HeldByPop(s, pos - cap);
    }
  }

  lemma HeldByPush<T>(s: State<T>, p: nat)
    requires Inv(s) && p < s.head && Pushing(s, s.pushers[p], p)
    ensures At(s, p).sequence == p
  {
    assert ThreadOk(s, s.pushers[p]);
  }

  /** TryPop gives up only on an empty queue or one whose oldest push is not published yet. */
  lemma FailedPop<T>(s: State<T>, t: nat, pos: nat)
    requires Inv(s) && t < |s.threads| && s.threads[t] == PopLoadSequence(pos)
    ensures At(s, pos).sequence < pos + 1 <==> pos == s.tail && (Queue(s) == [] || Pushing(s, s.pushers[pos], pos))
  {
    assert ThreadOk(s, t);
    var q := WindowPosition(s, pos);
    assert CellOk(s, q);
    if s.tail == pos < s.head && Pushing(s, s.pushers[pos], pos) { HeldByPush(s, pos); }
  }

  /** The step that makes TryPush return false meets a ring that is full, or whose slot a pop still holds. */
  lemma PushGivesUp<T>(s: State<T>, s': State<T>, t: nat)
    requires Inv(s) && Access(s, s', t) && t < |s'.threads| && s'.threads[t].PushDone? && !s'.threads[t].ok
    ensures var pos := s'.threads[t].pos;
      && pos == s.head
      && (|Queue(s)| == |s.cells|
          || (pos >= |s.cells| && Popping(s, s.poppers[pos - |s.cells|], pos - |s.cells|)))
  {
    var pc := s.threads[t];
    FailedPush(s, t, pc.v, pc.pos);
  }

  /** The step that makes TryPop return false meets an empty queue, or one whose oldest push is not published. */
  lemma PopGivesUp<T>(s: State<T>, s': State<T>, t: nat)
    requires Inv(s) && Access(s, s', t) && t < |s'.threads| && s'.threads[t].PopDone? && s'.threads[t].result.None?
    ensures var pos := s'.threads[t].pos; pos == s.tail && (Queue(s) == [] || Pushing(s, s.pushers[pos], pos))
  {
    FailedPop(s, t, s.threads[t].pos);
  }

  // The position within one lap of the tail that uses the cell of pos.
  lemma {:induction false} WindowPosition<T>(s: State<T>, pos: nat) returns (q: nat)
    requires Shape(s) && pos <= s.tail + |s.cells|
    ensures s.tail <= q < s.tail + |s.cells| && q % |s.cells| == pos % |s.cells| && At(s, q) == At(s, pos)
    ensures pos < s.tail ==> q >= pos + |s.cells|
    ensures s.tail <= pos < s.tail + |s.cells| ==> q == pos
    ensures pos == s.tail + |s.cells| ==> q == s.tail
    decreases s.tail - pos
  {
    var cap := |s.cells|;
    if pos < s.tail {
      SlotNextLap(pos, cap);
      q := WindowPosition(s, pos + cap);
    } else if pos == s.tail + cap {
      SlotNextLap(s.tail, cap);
      q := s.tail;
    } else {
      q := pos;
    }
  }

  // ---- whole runs ----

  ghost predicate Bounded<T>(s: State<T>) {
    s.tail <= s.head <= s.tail + |s.cells|
  }

  lemma NextInv<T(!new)>(s: State<T>, s': State<T>)
    requires Inv(s) && Next(s, s')
    ensures Inv(s') && |s'.cells| == |s.cells|
  {
    var t: nat :| Step(s, s', t);
    StepInv(s, s', t);
  }

  lemma {:induction false} RunInv<T(!new)>(run: seq<State<T>>, i: nat)
    requires Run(run) && |run[0].cells| >= 2 && i < |run|
    ensures Inv(run[i]) && |run[i].cells| == |run[0].cells|
  {
    if i == 0 {
      InitInv(run[0]);
    } else {
      RunInv(run, i - 1);
      NextInv(run[i - 1], run[i]);
    }
  }

  // A lone thread pushes v at position p of a one-cell ring whose cell reads p.
  function LonePush<T>(s: State<T>, v: T): (s': State<T>)
    requires |s.cells| == 1 && |s.threads| == 1
    ensures |s'.cells| == 1 && |s'.threads| == 1
  {
    Goto(s, 0, PushWrite(v, s.head)).(head := s.head + 1, log := s.log + [v], pushers := s.pushers + [0])
  }

  function LonePublish<T>(s: State<T>, v: T, p: nat): (s': State<T>)
    requires |s.cells| == 1 && |s.threads| == 1
    ensures |s'.cells| == 1 && |s'.threads| == 1
  {
    s.(cells := [Cell(p + 1, v)], threads := [Idle])
  }

  lemma LonePushRun<T(!new)>(s: State<T>, v: T) returns (run: seq<State<T>>)
    requires |s.cells| == 1 && s.threads == [Idle] && s.cells[0].sequence == s.head
    ensures |run| == 5 && run[0] == s && run[4] == LonePush(s, v)
    ensures forall i {:trigger run[i]} :: 0 < i < |run| ==> Next(run[i - 1], run[i])
  {
    var s1 := Goto(s, 0, PushLoadHead(v));
    var s2 := Goto(s, 0, PushLoadSequence(v, s.head));
    var s3 := Goto(s, 0, PushCas(v, s.head));
    var s4 := LonePush(s, v);
    assert Call(s, s1, 0);
    assert Access(s1, s2, 0) && Access(s2, s3, 0) && Access(s3, s4, 0);
    assert Step(s, s1, 0) && Step(s1, s2, 0) && Step(s2, s3, 0) && Step(s3, s4, 0);
    run := [s, s1, s2, s3, s4];
  }

  lemma LonePublishRun<T(!new)>(s: State<T>, v: T, p: nat) returns (run: seq<State<T>>)
    requires |s.cells| == 1 && s.threads == [PushWrite(v, p)]
    ensures |run| == 4 && run[0] == s && run[3] == LonePublish(s, v, p)
    ensures forall i {:trigger run[i]} :: 0 < i < |run| ==> Next(run[i - 1], run[i])
  {
    assert p % 1 == 0;
    var c := s.cells[0];
    var s1 := s.(cells := [c.(data := v)], threads := [PushPublish(v, p)]);
    var s2 := s.(cells := [Cell(p + 1, v)], threads := [PushDone(true, v, p)]);
    var s3 := LonePublish(s, v, p);
    assert Access(s, s1, 0) && Access(s1, s2, 0) && Return(s2, s3, 0);
    assert Step(s, s1, 0) && Step(s1, s2, 0) && Step(s2, s3, 0);
    run := [s, s1, s2, s3];
  }

  // One thread, one cell: the second push reuses the cell of the first.
  lemma OneCellRun<T(!new)>(v: T) returns (run: seq<State<T>>)
    ensures Run(run) && |run[0].cells| == 1
    ensures !Bounded(run[|run| - 1])
  {
    var s := State([Cell(0, v)], 0, 0, [Idle], [], [], [], map[]);
    var a := LonePushRun(s, v);
    var b := LonePublishRun(a[4], v, 0);
    var c := LonePushRun(b[3], v);
    run := a + b[1..] + c[1..];
  }

  /** No run over-fills the ring exactly when it has at least two cells. */
  lemma BoundedIffTwoCells<T(!new)>(capacity: nat, v: T)
    requires capacity >= 1
    ensures capacity >= 2 <==>
      forall run: seq<State<T>>, i: nat {:trigger run[i]} :: Run(run) && |run[0].cells| == capacity && i < |run| ==>
          Bounded(run[i])
  {
    if capacity >= 2 {
      forall run: seq<State<T>>, i: nat {:trigger run[i]} | Run(run) && |run[0].cells| == capacity && i < |run|
        ensures Bounded(run[i])
      {
        RunInv(run, i);
      }
    } else {
      var run := OneCellRun(v);
      assert !Bounded(run[|run| - 1]);
    }
  }
}
