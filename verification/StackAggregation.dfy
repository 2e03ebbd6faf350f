// src/aggregators/cpu_stats_aggregator/cpu_stats_aggregator.h: stack samples are added up
// per process, thread and pair of stacks until the window is flushed.
module StackAggregation {
  import opened Wrappers
  import opened Samples
  import opened Grouping
  import opened Decimal
  import opened Separators

  type Buffer = map<string, AggregatedStack>

  // Identities with counts, in order.
  type Counts = seq<Item<StackId>>

  type KeyFunction = StackId -> string

  // What a sample is added up under.
  datatype StackId = StackId(pid: nat, tid: nat, user: seq<nat>, kernel: seq<nat>)

  datatype AggregatedStack = AggregatedStack(
    pid: nat,
    tid: nat,
    comm: string,
    count: nat,
    user_stack: seq<Frame>,
    kernel_stack: seq<Frame>)

  function Addresses(stack: seq<Frame>): (addresses: seq<nat>)
    ensures |addresses| == |stack| && forall i :: 0 <= i < |stack| ==> addresses[i] == stack[i].address
  {
    seq(|stack|, i requires 0 <= i < |stack| => stack[i].address)
  }

  function IdOfSample(s: Sample): StackId {
    StackId(s.pid, s.tid, Addresses(s.user_stack), Addresses(s.kernel_stack))
  }

  function IdOfStack(a: AggregatedStack): StackId {
    StackId(a.pid, a.tid, Addresses(a.user_stack), Addresses(a.kernel_stack))
  }

  // ---- MakeStackKey ----

  function Listing(addresses: seq<nat>): string {
    if addresses == [] then "" else ToString(addresses[0]) + "," + Listing(addresses[1..])
  }

  function Key(id: StackId): string {
    ToString(id.pid) + ":" + (ToString(id.tid) + ":" + (Listing(id.user) + "|" + Listing(id.kernel)))
  }

  lemma {:induction false} NoBar(addresses: seq<nat>)
    ensures '|' !in Listing(addresses)
    decreases |addresses|
  {
    if addresses != [] {
      NotInNumber(addresses[0], '|');
      NoBar(addresses[1..]);
    }
  }

  lemma {:induction false} ListingInjective(a: seq<nat>, b: seq<nat>)
    requires Listing(a) == Listing(b)
    ensures a == b
    decreases |a|
  {
    if a != [] && b != [] {
      NotInNumber(a[0], ',');
      NotInNumber(b[0], ',');
      SplitOnce(ToString(a[0]), ToString(b[0]), ',', Listing(a[1..]), Listing(b[1..]));
      ToStringInjective(a[0], b[0]);
      ListingInjective(a[1..], b[1..]);
    }
  }

  /** Different stacks never share a key. */
  lemma KeyInjective(a: StackId, b: StackId)
    requires Key(a) == Key(b)
    ensures a == b
  {
    NotInNumber(a.pid, ':');
    NotInNumber(b.pid, ':');
    NotInNumber(a.tid, ':');
    NotInNumber(b.tid, ':');
    NoBar(a.user);
    NoBar(b.user);
    var ra, rb := Listing(a.user) + "|" + Listing(a.kernel), Listing(b.user) + "|" + Listing(b.kernel);
    SplitOnce(ToString(a.pid), ToString(b.pid), ':', ToString(a.tid) + ":" + ra, ToString(b.tid) + ":" + rb);
    SplitOnce(ToString(a.tid), ToString(b.tid), ':', ra, rb);
    SplitOnce(Listing(a.user), Listing(b.user), '|', Listing(a.kernel), Listing(b.kernel));
    ToStringInjective(a.pid, b.pid);
    ToStringInjective(a.tid, b.tid);
    ListingInjective(a.user, b.user);
    ListingInjective(a.kernel, b.kernel);
  }

  lemma {:induction false} ListingMore(addresses: seq<nat>, n: nat)
    ensures Listing(addresses + [n]) == Listing(addresses) + ToString(n) + ","
    decreases |addresses|
  {
    if addresses == [] {
      assert [n][1..] == [] && addresses + [n] == [n];
    } else {
      assert (addresses + [n])[1..] == addresses[1..] + [n];
      ListingMore(addresses[1..], n);
    }
  }

  method MakeStackKey(s: Sample) returns (key: string)
    ensures key == Key(IdOfSample(s))
  {
    key := ToString(s.pid) + ":" + ToString(s.tid) + ":";
    key := AppendListing(key, s.user_stack);
    key := key + "|";
    key := AppendListing(key, s.kernel_stack);
  }

  method AppendListing(before: string, stack: seq<Frame>) returns (key: string)
    ensures key == before + Listing(Addresses(stack))
  {
    key := before;
    ghost var addresses := Addresses(stack);
    for i := 0 to |stack|
      invariant key == before + Listing(addresses[..i])
    {
      ListingMore(addresses[..i], addresses[i]);
      assert addresses[..i + 1] == addresses[..i] + [addresses[i]];
      key := key + (ToString(stack[i].address) + ",");
    }
    assert addresses[..|stack|] == addresses;
  }

  // ---- the buffer ----

  const NOTHING := AggregatedStack(0, 0, "", 0, [], [])

  // What Add does to one entry.
  function Absorb(agg: AggregatedStack, s: Sample): AggregatedStack {
    AggregatedStack(s.pid, s.tid, s.comm, agg.count + s.count,
      if agg.user_stack == [] && s.user_stack != [] then s.user_stack else agg.user_stack,
      if agg.kernel_stack == [] && s.kernel_stack != [] then s.kernel_stack else agg.kernel_stack)
  }

  lemma AbsorbKeepsId(agg: AggregatedStack, s: Sample)
    requires agg == NOTHING || IdOfStack(agg) == IdOfSample(s)
    ensures IdOfStack(Absorb(agg, s)) == IdOfSample(s) && Absorb(agg, s).count == agg.count + s.count
  {
    assert IdOfStack(agg) == IdOfSample(s) ==>
        |agg.user_stack| == |s.user_stack| && |agg.kernel_stack| == |s.kernel_stack|;
  }

  ghost function ItemOfSample(s: Sample): Item<StackId> {
    Item(IdOfSample(s), s.count)
  }

  ghost function Items(samples: seq<Sample>): (items: Counts)
    ensures |items| == |samples| && forall i :: 0 <= i < |samples| ==> items[i] == ItemOfSample(samples[i])
  {
    seq(|samples|, i requires 0 <= i < |samples| => ItemOfSample(samples[i]))
  }

  ghost function ItemsOut(out: seq<AggregatedStack>): (items: Counts)
    ensures |items| == |out| && forall i :: 0 <= i < |out| ==> items[i] == Item(IdOfStack(out[i]), out[i].count)
  {
    seq(|out|, i requires 0 <= i < |out| => Item(IdOfStack(out[i]), out[i].count))
  }

  // The entry of a key: some stack of the window, with all its counts.
  ghost predicate Right(keyOf: KeyFunction, window: Counts, key: string, agg: AggregatedStack) {
    var id := IdOfStack(agg);
    keyOf(id) == key && HasKey(window, id) && agg.count == CountOf(window, id)
  }

  ghost predicate Buffered(keyOf: KeyFunction, window: Counts, buffer: Buffer) {
    && (forall i :: 0 <= i < |window| ==> keyOf(window[i].key) in buffer)
    && (forall key :: key in buffer ==> Right(keyOf, window, key, buffer[key]))
  }

  ghost predicate Injective(keyOf: KeyFunction) {
    forall a, b {:trigger keyOf(a), keyOf(b)} :: keyOf(a) == keyOf(b) ==> a == b
  }

  lemma CountMore(window: Counts, item: Item<StackId>, more: Counts, id: StackId)
    requires more == window + [item]
    ensures CountOf(more, id) == CountOf(window, id) + if item.key == id then item.count else 0
    ensures HasKey(more, id) <==> HasKey(window, id) || item.key == id
    ensures !HasKey(window, id) ==> CountOf(window, id) == 0
  {
    assert more[..|window|] == window;
    KeyOfLast(more, id);
    if !HasKey(window, id) { CountOfAbsent(window, id); }
  }

  lemma AbsorbRight(keyOf: KeyFunction, window: Counts, more: Counts, s: Sample, first: bool, agg: AggregatedStack)
    requires Injective(keyOf) && more == window + [ItemOfSample(s)]
    requires if first then agg == NOTHING && !HasKey(window, IdOfSample(s))
        else Right(keyOf, window, keyOf(IdOfSample(s)), agg)
    ensures Right(keyOf, more, keyOf(IdOfSample(s)), Absorb(agg, s))
  {
    AbsorbKeepsId(agg, s);
    CountMore(window, ItemOfSample(s), more, IdOfSample(s));
  }

  lemma OtherRight(keyOf: KeyFunction, window: Counts, more: Counts, s: Sample, key: string, agg: AggregatedStack)
    requires more == window + [ItemOfSample(s)] && Right(keyOf, window, key, agg) && key != keyOf(IdOfSample(s))
    ensures Right(keyOf, more, key, agg)
  {
    CountMore(window, ItemOfSample(s), more, IdOfStack(agg));
  }

  ghost function Next(keyOf: KeyFunction, buffer: Buffer, s: Sample): Buffer {
    var key := keyOf(IdOfSample(s));
    buffer[key := Absorb(if key in buffer then buffer[key] else NOTHING, s)]
  }

  lemma BufferStep(keyOf: KeyFunction, window: Counts, more: Counts, buffer: Buffer, s: Sample)
    requires Injective(keyOf) && Buffered(keyOf, window, buffer) && more == window + [ItemOfSample(s)]
    ensures Buffered(keyOf, more, Next(keyOf, buffer, s))
  {
    var key, buffer' := keyOf(IdOfSample(s)), Next(keyOf, buffer, s);
    assert key !in buffer ==> !HasKey(window, IdOfSample(s));
    assert key in buffer ==> Right(keyOf, window, key, buffer[key]);
    AbsorbRight(keyOf, window, more, s, key !in buffer, if key in buffer then buffer[key] else NOTHING);
    forall k | k in buffer' && k != key ensures Right(keyOf, more, k, buffer'[k]) {
      OtherRight(keyOf, window, more, s, k, buffer[k]);
    }
    forall i | 0 <= i < |more| ensures keyOf(more[i].key) in buffer' {
      if i < |window| { assert more[i] == window[i]; }
    }
  }

  // ---- where an entry comes from ----

  ghost predicate IsFirst(samples: seq<Sample>, id: StackId, f: nat) {
    f < |samples| && IdOfSample(samples[f]) == id && forall j :: 0 <= j < f ==> IdOfSample(samples[j]) != id
  }

  ghost predicate IsLast(samples: seq<Sample>, id: StackId, l: nat) {
    l < |samples| && IdOfSample(samples[l]) == id && forall j :: l < j < |samples| ==> IdOfSample(samples[j]) != id
  }

  // The stacks of the first sample of its identity and the command name of the last.
  ghost predicate DrawnFrom(samples: seq<Sample>, agg: AggregatedStack) {
    HasStacks(samples, agg) && HasComm(samples, agg)
  }

  ghost predicate HasStacks(samples: seq<Sample>, agg: AggregatedStack) {
    exists f: nat :: IsFirst(samples, IdOfStack(agg), f)
      && agg.user_stack == samples[f].user_stack && agg.kernel_stack == samples[f].kernel_stack
  }

  ghost predicate HasComm(samples: seq<Sample>, agg: AggregatedStack) {
    exists l: nat :: IsLast(samples, IdOfStack(agg), l) && agg.comm == samples[l].comm
  }

  ghost predicate Drawn(samples: seq<Sample>, buffer: Buffer) {
    forall key :: key in buffer ==> DrawnFrom(samples, buffer[key])
  }

  lemma ItemsMore(samples: seq<Sample>, s: Sample)
    ensures Items(samples + [s]) == Items(samples) + [ItemOfSample(s)]
  {
  }

  lemma DrawnStays(samples: seq<Sample>, more: seq<Sample>, s: Sample, agg: AggregatedStack)
    requires more == samples + [s] && DrawnFrom(samples, agg) && IdOfStack(agg) != IdOfSample(s)
    ensures DrawnFrom(more, agg)
  {
    var id := IdOfStack(agg);
    var f: nat :| IsFirst(samples, id, f) && agg.user_stack == samples[f].user_stack
        && agg.kernel_stack == samples[f].kernel_stack;
    var l: nat :| IsLast(samples, id, l) && agg.comm == samples[l].comm;
    assert more[|samples|] == s && forall j :: 0 <= j < |samples| ==> more[j] == samples[j];
    assert IsFirst(more, id, f) && IsLast(more, id, l);
  }

  lemma DrawnAgain(samples: seq<Sample>, more: seq<Sample>, s: Sample, agg: AggregatedStack)
    requires more == samples + [s] && DrawnFrom(samples, agg) && IdOfStack(agg) == IdOfSample(s)
    ensures DrawnFrom(more, Absorb(agg, s))
  {
    AbsorbKeepsId(agg, s);
    var id, n := IdOfStack(agg), |samples|;
    var f: nat :| IsFirst(samples, id, f) && agg.user_stack == samples[f].user_stack
        && agg.kernel_stack == samples[f].kernel_stack;
    assert more[n] == s && forall j :: 0 <= j < n ==> more[j] == samples[j];
    assert IsFirst(more, id, f) && IsLast(more, id, n);
    assert |agg.user_stack| == |s.user_stack| && |agg.kernel_stack| == |s.kernel_stack|;
  }

  lemma DrawnNew(samples: seq<Sample>, more: seq<Sample>, s: Sample)
    requires more == samples + [s] && !HasKey(Items(samples), IdOfSample(s))
    ensures DrawnFrom(more, Absorb(NOTHING, s))
  {
    AbsorbKeepsId(NOTHING, s);
    var id, n := IdOfSample(s), |samples|;
    forall j | 0 <= j < n ensures IdOfSample(more[j]) != id {
      assert more[j] == samples[j] && Items(samples)[j].key != id;
    }
    assert more[n] == s && IsFirst(more, id, n) && IsLast(more, id, n);
  }

  lemma DrawnStep(keyOf: KeyFunction, samples: seq<Sample>, more: seq<Sample>, buffer: Buffer, s: Sample)
    requires Agrees(keyOf) && Buffered(keyOf, Items(samples), buffer) && Drawn(samples, buffer) && more == samples + [s]
    ensures Drawn(more, Next(keyOf, buffer, s))
  {
    AgreesInjective(keyOf);
    var id, key := IdOfSample(s), keyOf(IdOfSample(s));
    if key in buffer {
      assert Right(keyOf, Items(samples), key, buffer[key]);
      DrawnAgain(samples, more, s, buffer[key]);
    } else {
      assert !HasKey(Items(samples), id);
      DrawnNew(samples, more, s);
    }
    forall k | k in buffer && k != key ensures DrawnFrom(more, buffer[k]) {
      assert Right(keyOf, Items(samples), k, buffer[k]);
      DrawnStays(samples, more, s, buffer[k]);
    }
  }

  // ---- the aggregator ----

  ghost function KeyFn(): KeyFunction {
    id => Key(id)
  }

  // keyOf is Key, for the stacks asked about.
  ghost predicate Agrees(keyOf: KeyFunction) {
    forall id {:trigger Asked(id)} :: Asked(id) ==> keyOf(id) == Key(id)
  }

  lemma KeyFnAgrees()
    ensures Agrees(KeyFn())
  {
  }

  lemma AgreesInjective(keyOf: KeyFunction)
    requires Agrees(keyOf)
    ensures Injective(keyOf)
  {
    forall a, b | keyOf(a) == keyOf(b) ensures a == b {
      assert Asked(a) && Asked(b);
      KeyInjective(a, b);
    }
  }

  lemma BufferStepKey(keyOf: KeyFunction, window: Counts, more: Counts, buffer: Buffer, s: Sample)
    requires Agrees(keyOf) && Buffered(keyOf, window, buffer) && more == window + [ItemOfSample(s)]
    ensures Buffered(keyOf, more, Next(keyOf, buffer, s))
  {
    AgreesInjective(keyOf);
    BufferStep(keyOf, window, more, buffer, s);
  }

  // What holds between calls: everything added, everything flushed, the samples since the
  // last flush and the buffer.
  ghost predicate Consistent(keyOf: KeyFunction, samples: seq<Sample>, buffer: Buffer, added: Counts, flushed: Counts) {
    && Agrees(keyOf) && Buffered(keyOf, Items(samples), buffer) && Drawn(samples, buffer)
    && Balanced(added, flushed, Items(samples))
  }

  lemma ConsistentStart()
    ensures Consistent(KeyFn(), [], map[], [], [])
  {
    KeyFnAgrees();
  }

  lemma ConsistentAdd(keyOf: KeyFunction, samples: seq<Sample>, buffer: Buffer, added: Counts, flushed: Counts,
          s: Sample)
    requires Consistent(keyOf, samples, buffer, added, flushed)
    ensures Consistent(keyOf, samples + [s], Next(keyOf, buffer, s), added + [ItemOfSample(s)], flushed)
  {
    ItemsMore(samples, s);
    BufferStepKey(keyOf, Items(samples), Items(samples + [s]), buffer, s);
    DrawnStep(keyOf, samples, samples + [s], buffer, s);
    BalancedAdd(added, flushed, Items(samples), ItemOfSample(s), added + [ItemOfSample(s)], Items(samples + [s]));
  }

  lemma ConsistentFlush(keyOf: KeyFunction, samples: seq<Sample>, buffer: Buffer, added: Counts, flushed: Counts,
          out: Counts)
    requires Consistent(keyOf, samples, buffer, added, flushed) && Grouped(Items(samples), out)
    ensures Consistent(keyOf, [], map[], added, flushed + out)
  {
    BalancedFlush(added, flushed, Items(samples), out);
    assert Items([]) == [];
  }

  lemma OneMore(samples: seq<Sample>, added: Counts, batch: seq<Sample>, i: nat)
    requires i < |batch|
    ensures samples + batch[..i] + [batch[i]] == samples + batch[..i + 1]
    ensures added + Items(batch[..i]) + [ItemOfSample(batch[i])] == added + Items(batch[..i + 1])
  {
    ItemsMore(batch[..i], batch[i]);
    assert batch[..i + 1] == batch[..i] + [batch[i]];
  }

  class Aggregator {
    var stack_buffer: Buffer
    ghost var samples: seq<Sample>
    ghost var added: Counts
    ghost var flushed: Counts
    ghost const keyOf: KeyFunction

    ghost predicate Valid()
      reads this
    {
      Consistent(keyOf, samples, stack_buffer, added, flushed)
    }

    constructor ()
      ensures Valid() && added == [] && flushed == [] && samples == [] && stack_buffer == map[]
    {
      ConsistentStart();
      stack_buffer, added, flushed, samples := map[], [], [], [];
      keyOf := KeyFn();
    }

    /** Every sample of the batch is counted under its own process, thread and stacks. */
    method Add(batch: seq<Sample>)
      requires Valid()
      modifies this
      ensures Valid() && added == old(added) + Items(batch) && flushed == old(flushed)
          && samples == old(samples) + batch
    {
      for i := 0 to |batch|
        invariant Valid() && Added(old(samples), old(added), old(flushed), batch[..i])
      {
        AddNext(old(samples), old(added), old(flushed), batch, i);
      }
      assert batch[..|batch|] == batch;
    }

    // What has been added to what was there.
    ghost predicate Added(samples0: seq<Sample>, added0: Counts, flushed0: Counts, more: seq<Sample>)
      reads this
    {
      samples == samples0 + more && added == added0 + Items(more) && flushed == flushed0
    }

    method AddNext(ghost samples0: seq<Sample>, ghost added0: Counts, ghost flushed0: Counts, batch: seq<Sample>,
            i: nat)
      requires i < |batch| && Valid() && Added(samples0, added0, flushed0, batch[..i])
      modifies this
      ensures Valid() && Added(samples0, added0, flushed0, batch[..i + 1])
    {
      OneMore(samples0, added0, batch, i);
      AddSample(batch[i]);
    }

    method AddSample(s: Sample)
      requires Valid()
      modifies this
      ensures Valid() && added == old(added) + [ItemOfSample(s)] && flushed == old(flushed)
          && samples == old(samples) + [s]
    {
      ConsistentAdd(keyOf, samples, stack_buffer, added, flushed, s);
      var buffer := AddTo(stack_buffer, keyOf, s);
      Become(buffer, samples + [s], added + [ItemOfSample(s)]);
    }

    method Become(buffer: Buffer, ghost samples': seq<Sample>, ghost added': Counts)
      requires Consistent(keyOf, samples', buffer, added', flushed)
      modifies this
      ensures Valid() && stack_buffer == buffer && samples == samples' && added == added' && flushed == old(flushed)
    {
      stack_buffer, samples, added := buffer, samples', added';
    }

    /** One stack for each of the window, with its total; the next window starts empty. */
    method Flush() returns (out: seq<AggregatedStack>)
      requires Valid()
      modifies this
      ensures Valid() && samples == [] && stack_buffer == map[]
      ensures added == old(added) && flushed == old(flushed) + ItemsOut(out)
      ensures Grouped(Items(old(samples)), ItemsOut(out))
      ensures forall k :: 0 <= k < |out| ==> DrawnFrom(old(samples), out[k])
    {
      assert forall key :: key in stack_buffer ==> Right(keyOf, Items(samples), key, stack_buffer[key]);
      out := ReadOut(KeyOfStack(keyOf), stack_buffer);
      AllRead(keyOf, samples, stack_buffer, out);
      ConsistentFlush(keyOf, samples, stack_buffer, added, flushed, ItemsOut(out));
      flushed, samples, stack_buffer := flushed + ItemsOut(out), [], map[];
    }
  }

  method AddTo(buffer: Buffer, ghost keyOf: KeyFunction, s: Sample) returns (buffer': Buffer)
    requires Agrees(keyOf)
    ensures buffer' == Next(keyOf, buffer, s)
  {
    var key := MakeStackKey(s);
    assert Asked(IdOfSample(s));
    buffer' := buffer[key := Absorb(if key in buffer then buffer[key] else NOTHING, s)];
  }

  // Nothing is lost between what came in, what went out and what is waiting.
  ghost predicate Balanced(added: Counts, flushed: Counts, window: Counts) {
    && Total(added) == Total(flushed) + Total(window)
    && forall id :: CountOf(added, id) == CountOf(flushed, id) + CountOf(window, id)
  }

  lemma BalancedAdd(added: Counts, flushed: Counts, window: Counts, item: Item<StackId>, added': Counts,
          window': Counts)
    requires Balanced(added, flushed, window) && added' == added + [item] && window' == window + [item]
    ensures Balanced(added', flushed, window')
  {
    assert added'[..|added|] == added && window'[..|window|] == window;
  }

  lemma {:induction false} CountOfConcat(a: Counts, b: Counts, id: StackId)
    ensures CountOf(a + b, id) == CountOf(a, id) + CountOf(b, id)
    ensures Total(a + b) == Total(a) + Total(b)
    decreases |b|
  {
    if b == [] {
      assert a + b == a;
    } else {
      var n := |b| - 1;
      assert (a + b)[..|a + b| - 1] == a + b[..n];
      CountOfConcat(a, b[..n], id);
    }
  }

  lemma BalancedFlush(added: Counts, flushed: Counts, window: Counts, out: Counts)
    requires Balanced(added, flushed, window) && Grouped(window, out)
    ensures Balanced(added, flushed + out, [])
  {
    GroupedKeepsTotal(window, out);
    forall id ensures CountOf(added, id) == CountOf(flushed + out, id) + CountOf([], id) {
      CountOfConcat(flushed, out, id);
      GroupedKeepsCount(window, out, id);
    }
    CountOfConcat(flushed, out, IdOfStack(NOTHING));
  }

  lemma GroupedKeepsCount(window: Counts, out: Counts, id: StackId)
    requires Grouped(window, out)
    ensures CountOf(out, id) == CountOf(window, id)
  {
    assert HasKey(window, id) ==> HasKey(out, id) by {
      if i :| 0 <= i < |window| && window[i].key == id { assert HasKey(out, window[i].key); }
    }
    if i :| 0 <= i < |out| && out[i].key == id {
      CountOfDistinct(out, i);
    } else {
      CountOfAbsent(out, id);
      CountOfAbsent(window, id);
    }
  }

  ghost function KeyOfStack(keyOf: KeyFunction): AggregatedStack -> string {
    agg => keyOf(IdOfStack(agg))
  }

  lemma AllRead(keyOf: KeyFunction, samples: seq<Sample>, buffer: Buffer, out: seq<AggregatedStack>)
    requires Agrees(keyOf) && Buffered(keyOf, Items(samples), buffer) && Drawn(samples, buffer)
        && Read(KeyOfStack(keyOf), buffer, {}, out)
    ensures Grouped(Items(samples), ItemsOut(out))
    ensures forall k :: 0 <= k < |out| ==> DrawnFrom(samples, out[k])
  {
    AgreesInjective(keyOf);
    AllReadGrouped(keyOf, Items(samples), buffer, out);
  }

  lemma AllReadGrouped(keyOf: KeyFunction, window: Counts, buffer: Buffer, out: seq<AggregatedStack>)
    requires Buffered(keyOf, window, buffer) && Injective(keyOf) && Read(KeyOfStack(keyOf), buffer, {}, out)
    ensures Grouped(window, ItemsOut(out))
  {
    forall k | 0 <= k < |out|
      ensures HasKey(window, IdOfStack(out[k])) && out[k].count == CountOf(window, IdOfStack(out[k]))
    {
      assert Right(keyOf, window, keyOf(IdOfStack(out[k])), out[k]);
    }
    forall i | 0 <= i < |window| ensures HasKey(ItemsOut(out), window[i].key) {
      var key := keyOf(window[i].key);
      assert Right(keyOf, window, key, buffer[key]) && buffer[key] in out;
      var k :| 0 <= k < |out| && out[k] == buffer[key];
      assert ItemsOut(out)[k].key == window[i].key;
    }
  }
}
