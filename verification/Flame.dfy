// web/src/pages/DiffView.tsx (convertToFlameNode, insertStack), the same code as in
// web/src/pages/FlameGraph.tsx: stack samples become a tree that is updated in place.
module Flame {

  datatype Sample = Sample(
    comm: string,
    user_stack: seq<string>,
    kernel_stack: seq<string>,
    duration_ns: nat,
    count: nat)

  datatype Stack = Stack(frames: seq<string>, weight: nat)

  // What a node holds, without the heap.
  datatype Tree = Tree(name: string, value: nat, below: seq<Tree>)

  // ---- one sample ----

  // '' and undefined are both falsy, so a missing name is "" here.
  function Or(s: string, default: string): string {
    if s == "" then default else s
  }

  function UserFrame(comm: string, f: string): string {
    if "[0x" <= f then "[" + comm + "]" else Or(f, "[" + comm + "]")
  }

  // Stacks list the innermost frame first; the tree wants the outermost first.
  function UserFrames(comm: string, stack: seq<string>): (frames: seq<string>)
    ensures |frames| == |stack| && forall i :: 0 <= i < |stack| ==> frames[i] == UserFrame(comm, stack[|stack| - 1 - i])
  {
    if stack == [] then [] else UserFrames(comm, stack[1..]) + [UserFrame(comm, stack[0])]
  }

  function KernelFrames(stack: seq<string>): (frames: seq<string>)
    ensures |frames| == |stack| && forall i :: 0 <= i < |stack| ==> frames[i] == Or(stack[|stack| - 1 - i], "[kernel]")
  {
    if stack == [] then [] else KernelFrames(stack[1..]) + [Or(stack[0], "[kernel]")]
  }

  function Frames(s: Sample): (frames: seq<string>)
    ensures |frames| >= 2
  {
    var comm := Or(s.comm, "unknown");
    var frames := [comm] + UserFrames(comm, s.user_stack) + KernelFrames(s.kernel_stack);
    if |frames| == 1 then frames + ["[no stack]"] else frames
  }

  // Math.round rounds halves up.
  function Weight(s: Sample, is_off_cpu: bool): (w: nat)
    ensures w >= 1
  {
    if is_off_cpu && s.duration_ns != 0 then
      var rounded := (s.duration_ns + 500) / 1000;
      if rounded < 1 then 1 else rounded
    else if s.count == 0 then 1 else s.count
  }

  /** Off-CPU time counts in whole microseconds, the nearest and the upper of two, and at least
      one; all else counts samples, and at least one. */
  lemma WeightIs(s: Sample, w: nat)
    ensures w == Weight(s, true) && s.duration_ns >= 500 ==> -500 < 1000 * w - s.duration_ns <= 500
    ensures s.duration_ns == 1000 * w && w > 0 ==> Weight(s, true) == w
    ensures 0 < s.duration_ns < 1500 ==> Weight(s, true) == 1
    ensures !(s.duration_ns > 0) ==> Weight(s, true) == Weight(s, false)
    ensures s.count > 0 ==> Weight(s, false) == s.count
    ensures s.count == 0 ==> Weight(s, false) == 1
  {
  }

  /** Behind the command come the user frames and then the kernel frames, each stack from its
      outermost frame inwards; a sample without either gets a frame that says so. */
  lemma FramesAre(s: Sample, i: nat)
    requires i < |Frames(s)|
    ensures var comm, u, k := if s.comm == "" then "unknown" else s.comm, |s.user_stack|, |s.kernel_stack|;
      && |Frames(s)| == (if u + k == 0 then 2 else 1 + u + k)
      && Frames(s)[0] == comm
      && (u + k == 0 ==> Frames(s)[1] == "[no stack]")
      && (0 < i <= u ==> Frames(s)[i] == UserFrame(comm, s.user_stack[u - i]))
      && (u < i <= u + k ==> Frames(s)[i] == if s.kernel_stack[u + k - i] == "" then "[kernel]"
                                              else s.kernel_stack[u + k - i])
  {
  }

  /** A user frame without a name, or with only its address, is named after the command. */
  lemma UserFrameIs(comm: string, f: string)
    ensures f == "" || (exists rest :: f == "[0x" + rest) ==> UserFrame(comm, f) == "[" + comm + "]"
    ensures f != "" && !(exists rest :: f == "[0x" + rest) ==> UserFrame(comm, f) == f
  {
    if "[0x" <= f { assert f == "[0x" + f[3..]; }
  }

  function Stacks(samples: seq<Sample>, is_off_cpu: bool): (stacks: seq<Stack>)
    ensures |stacks| == |samples|
    ensures forall i :: 0 <= i < |samples| ==> stacks[i] == Stack(Frames(samples[i]), Weight(samples[i], is_off_cpu))
  {
    seq(|samples|, i requires 0 <= i < |samples| => Stack(Frames(samples[i]), Weight(samples[i], is_off_cpu)))
  }

  // ---- what insertion does to a list of siblings ----

  // The first sibling of that name, or their number.
  function Find(siblings: seq<Tree>, name: string): (i: nat)
    ensures i <= |siblings|
    ensures i < |siblings| ==> siblings[i].name == name
    ensures forall j :: 0 <= j < i ==> siblings[j].name != name
  {
    if siblings == [] then 0 else if siblings[0].name == name then 0 else 1 + Find(siblings[1..], name)
  }

  function Insert(siblings: seq<Tree>, frames: seq<string>, count: nat): seq<Tree>
    decreases |frames|
  {
    if frames == [] then siblings
    else
      var i := Find(siblings, frames[0]);
      if i == |siblings| then siblings + [Tree(frames[0], count, Insert([], frames[1..], count))]
      else siblings[i := Tree(frames[0], siblings[i].value + count, Insert(siblings[i].below, frames[1..], count))]
  }

  function InsertAll(stacks: seq<Stack>): seq<Tree> {
    if stacks == [] then []
    else
      var s := stacks[|stacks| - 1];
      Insert(InsertAll(stacks[..|stacks| - 1]), s.frames, s.weight)
  }

  function SumOfValues(siblings: seq<Tree>): nat {
    if siblings == [] then 0 else SumOfValues(siblings[..|siblings| - 1]) + siblings[|siblings| - 1].value
  }

  // ---- what the tree means ----

  // The value at a path of names, 0 where there is no such node.
  function ValueAt(siblings: seq<Tree>, path: seq<string>): nat
    requires path != []
    decreases |path|
  {
    var i := Find(siblings, path[0]);
    if i == |siblings| then 0
    else if |path| == 1 then siblings[i].value
    else ValueAt(siblings[i].below, path[1..])
  }

  // The total weight of the stacks that start with a path.
  function WeightOf(stacks: seq<Stack>, path: seq<string>): nat {
    if stacks == [] then 0
    else WeightOf(stacks[..|stacks| - 1], path) + Share(stacks[|stacks| - 1], path)
  }

  function Share(s: Stack, path: seq<string>): nat {
    if path <= s.frames then s.weight else 0
  }

  ghost predicate SiblingsUnique(siblings: seq<Tree>)
    decreases siblings
  {
    && (forall i, j :: 0 <= i < j < |siblings| ==> siblings[i].name != siblings[j].name)
    && (forall i :: 0 <= i < |siblings| ==> SiblingsUnique(siblings[i].below))
  }

  lemma FindIs(siblings: seq<Tree>, name: string, i: nat)
    requires i <= |siblings| && (i < |siblings| ==> siblings[i].name == name)
    requires forall j :: 0 <= j < i ==> siblings[j].name != name
    ensures Find(siblings, name) == i
  {
  }

  lemma {:induction false} ValueAtInsert(siblings: seq<Tree>, frames: seq<string>, count: nat, path: seq<string>)
    requires path != []
    ensures ValueAt(Insert(siblings, frames, count), path) == ValueAt(siblings, path) + if path <= frames then count
        else 0
    decreases |path|
  {
    if frames != [] {
      var i, after := Find(siblings, frames[0]), Insert(siblings, frames, count);
      var below := if i < |siblings| then siblings[i].below else [];
      if path[0] == frames[0] {
        FindIs(after, path[0], i);
        if |path| > 1 {
          ValueAtInsert(below, frames[1..], count, path[1..]);
          assert path <= frames <==> path[1..] <= frames[1..];
        }
      } else {
        var k := Find(siblings, path[0]);
        FindIs(after, path[0], if k < |siblings| then k else |after|);
      }
    }
  }

  /** The node at a path weighs as much as the stacks that start with that path. */
  lemma {:induction false} ValueIsWeight(stacks: seq<Stack>, path: seq<string>)
    requires path != []
    ensures ValueAt(InsertAll(stacks), path) == WeightOf(stacks, path)
    decreases |stacks|
  {
    if stacks != [] {
      var s := stacks[|stacks| - 1];
      ValueIsWeight(stacks[..|stacks| - 1], path);
      ValueAtInsert(InsertAll(stacks[..|stacks| - 1]), s.frames, s.weight, path);
    }
  }

  lemma {:induction false} InsertUnique(siblings: seq<Tree>, frames: seq<string>, count: nat)
    requires SiblingsUnique(siblings)
    ensures SiblingsUnique(Insert(siblings, frames, count))
    decreases |frames|
  {
    if frames != [] {
      var i := Find(siblings, frames[0]);
      InsertUnique(if i < |siblings| then siblings[i].below else [], frames[1..], count);
    }
  }

  lemma {:induction false} AllUnique(stacks: seq<Stack>)
    ensures SiblingsUnique(InsertAll(stacks))
    decreases |stacks|
  {
    if stacks != [] {
      var s := stacks[|stacks| - 1];
      AllUnique(stacks[..|stacks| - 1]);
      InsertUnique(InsertAll(stacks[..|stacks| - 1]), s.frames, s.weight);
    }
  }

  lemma {:induction false} SumChanges(siblings: seq<Tree>, i: nat, t: Tree)
    requires i < |siblings|
    ensures SumOfValues(siblings[i := t]) == SumOfValues(siblings) - siblings[i].value + t.value
    ensures SumOfValues(siblings) >= siblings[i].value
    decreases |siblings|
  {
    var n := |siblings| - 1;
    if i == n {
      assert siblings[i := t][..n] == siblings[..n];
    } else {
      assert siblings[i := t][..n] == siblings[..n][i := t];
      SumChanges(siblings[..n], i, t);
    }
  }

  lemma InsertAddsToSum(siblings: seq<Tree>, frames: seq<string>, count: nat)
    requires frames != []
    ensures SumOfValues(Insert(siblings, frames, count)) == SumOfValues(siblings) + count
  {
    var i := Find(siblings, frames[0]);
    if i == |siblings| {
      assert Insert(siblings, frames, count)[..|siblings|] == siblings;
    } else {
      SumChanges(siblings, i, Insert(siblings, frames, count)[i]);
    }
  }

  /** The root weighs as much as all stacks together. */
  lemma {:induction false} RootIsTotal(stacks: seq<Stack>)
    requires forall i :: 0 <= i < |stacks| ==> stacks[i].frames != []
    ensures SumOfValues(InsertAll(stacks)) == WeightOf(stacks, [])
    decreases |stacks|
  {
    if stacks != [] {
      var s := stacks[|stacks| - 1];
      RootIsTotal(stacks[..|stacks| - 1]);
      InsertAddsToSum(InsertAll(stacks[..|stacks| - 1]), s.frames, s.weight);
      assert [] <= s.frames;
    }
  }

  predicate HasNode(siblings: seq<Tree>, path: seq<string>)
    decreases |path|
  {
    path == [] || var i := Find(siblings, path[0]); i < |siblings| && HasNode(siblings[i].below, path[1..])
  }

  lemma {:induction false} HasNodeInsert(siblings: seq<Tree>, frames: seq<string>, count: nat, path: seq<string>)
    ensures HasNode(Insert(siblings, frames, count), path) <==> HasNode(siblings, path) || path <= frames
    decreases |path|
  {
    if path != [] && frames != [] {
      var i, after := Find(siblings, frames[0]), Insert(siblings, frames, count);
      if path[0] == frames[0] {
        FindIs(after, path[0], i);
        HasNodeInsert(if i < |siblings| then siblings[i].below else [], frames[1..], count, path[1..]);
        assert path <= frames <==> path[1..] <= frames[1..];
        assert i == |siblings| ==> (HasNode([], path[1..]) <==> path[1..] == []);
        assert path[1..] == [] ==> path[1..] <= frames[1..];
      } else {
        var k := Find(siblings, path[0]);
        FindIs(after, path[0], if k < |siblings| then k else |after|);
      }
    }
  }

  predicate Passes(stacks: seq<Stack>, path: seq<string>) {
    exists i :: 0 <= i < |stacks| && path <= stacks[i].frames
  }

  lemma PassesLast(stacks: seq<Stack>, path: seq<string>)
    requires stacks != []
    ensures var n := |stacks| - 1; Passes(stacks, path) <==> Passes(stacks[..n], path) || path <= stacks[n].frames
  {
    var n := |stacks| - 1;
    assert forall i :: 0 <= i < n ==> stacks[..n][i] == stacks[i];
  }

  /** A node exists exactly where some stack passes. */
  lemma {:induction false} NodesAreStacks(stacks: seq<Stack>, path: seq<string>)
    requires path != []
    ensures HasNode(InsertAll(stacks), path) <==> Passes(stacks, path)
    decreases |stacks|
  {
    if stacks != [] {
      var n := |stacks| - 1;
      NodesAreStacks(stacks[..n], path);
      HasNodeInsert(InsertAll(stacks[..n]), stacks[n].frames, stacks[n].weight, path);
      PassesLast(stacks, path);
    }
  }

  // ---- the order of the samples ----

  lemma {:induction false} TakeOut(stacks: seq<Stack>, i: nat, path: seq<string>)
    requires i < |stacks|
    ensures WeightOf(stacks, path) == WeightOf(stacks[..i] + stacks[i + 1..], path) + Share(stacks[i], path)
    decreases |stacks|
  {
    var n := |stacks| - 1;
    if i == n {
      assert stacks[..i] + stacks[i + 1..] == stacks[..n];
    } else {
      TakeOut(stacks[..n], i, path);
      var rest := stacks[..i] + stacks[i + 1..];
      assert rest[..n - 1] == stacks[..n][..i] + stacks[..n][i + 1..];
      assert rest[n - 1] == stacks[n];
    }
  }

  lemma {:induction false} WeightIgnoresOrder(a: seq<Stack>, b: seq<Stack>, path: seq<string>)
    requires multiset(a) == multiset(b)
    ensures WeightOf(a, path) == WeightOf(b, path)
    decreases |a|
  {
    assert |a| == |multiset(a)| == |multiset(b)| == |b|;
    if a != [] {
      var n := |a| - 1;
      var s := a[n];
      assert a == a[..n] + [s];
      assert s in multiset(b);
      var i :| 0 <= i < |b| && b[i] == s;
      assert b == b[..i] + [s] + b[i + 1..];
      TakeOut(b, i, path);
      assert multiset(a[..n]) == multiset(a) - multiset{s};
      assert multiset(b[..i] + b[i + 1..]) == multiset(b) - multiset{s};
      WeightIgnoresOrder(a[..n], b[..i] + b[i + 1..], path);
    }
  }

  /** Samples in any order give a tree with the same value at every path. */
  lemma OrderDoesNotMatter(a: seq<Stack>, b: seq<Stack>, path: seq<string>)
    requires multiset(a) == multiset(b) && path != []
    ensures ValueAt(InsertAll(a), path) == ValueAt(InsertAll(b), path)
  {
    ValueIsWeight(a, path);
    ValueIsWeight(b, path);
    WeightIgnoresOrder(a, b, path);
  }

  // ---- the program: nodes updated in place ----

  class FlameNode {
    const name: string
    var value: nat
    var children: seq<FlameNode>
    ghost var repr: set<FlameNode>
    ghost var below: seq<Tree>

    ghost predicate Valid()
      reads this, repr
      ensures Valid() ==> this in repr
      decreases repr
    {
      && this in repr
      && |children| == |below|
      && (forall i {:trigger children[i]} {:trigger below[i]} :: 0 <= i < |children| ==>
            && children[i] in repr && children[i].repr <= repr - {this} && children[i].Valid()
            && below[i] == children[i].Abstract())
      && (forall i, j {:trigger children[i], children[j]} :: 0 <= i < j < |children| ==>
          children[i].repr !! children[j].repr)
    }

    ghost function Abstract(): Tree
      reads this
    {
      Tree(name, value, below)
    }

    constructor (name: string)
      ensures Valid() && repr == {this} && this.name == name && value == 0 && below == []
    {
      this.name, value, children := name, 0, [];
      repr, below := {this}, [];
    }

    // node.children.find(c => c.name === name)
    method FindChild(name: string) returns (i: nat)
      requires Valid()
      ensures i == Find(below, name)
    {
      i := 0;
      while i < |children| && children[i].name != name
        invariant i <= |children|
        invariant forall j :: 0 <= j < i ==> below[j].name != name
      {
        assert below[i].name == children[i].name;
        i := i + 1;
      }
      FindIs(below, name, i);
    }

    method InsertStack(frames: seq<string>, count: nat)
      requires Valid()
      modifies repr
      ensures Valid() && fresh(repr - old(repr)) && value == old(value)
      ensures below == Insert(old(below), frames, count)
      decreases |frames|, 1
    {
      if frames == [] { return; }
      var i := FindChild(frames[0]);
      if i == |children| { AddChild(frames[0]); }
      Descend(i, frames, count);
    }

    // What happens to the child once it is found.
    method Descend(i: nat, frames: seq<string>, count: nat)
      requires Valid() && i < |children| && frames != []
      modifies repr
      ensures Valid() && fresh(repr - old(repr)) && value == old(value)
      ensures below == old(below)[i := Tree(old(below)[i].name, old(below)[i].value + count,
          Insert(old(below)[i].below, frames[1..], count))]
      decreases |frames|, 0
    {
      Weigh(i, children[i], count);
      if |frames| > 1 { InsertBelow(i, children[i], frames[1..], count); }
    }

    method InsertBelow(i: nat, child: FlameNode, frames: seq<string>, count: nat)
      requires Valid() && i < |children| && child == children[i]
      modifies repr
      ensures Valid() && fresh(repr - old(repr)) && value == old(value)
      ensures below == old(below)[i := old(below)[i].(below := Insert(old(below)[i].below, frames, count))]
      decreases |frames|, 2
    {
      assert forall j {:trigger children[j]} :: 0 <= j < |children| && j != i ==> children[j].repr !! child.repr;
      child.InsertStack(frames, count);
      assert child.value == old(child.value);
      Adopt(i, child);
    }

    // Takes over what a child has become.
    method Adopt(i: nat, child: FlameNode)
      requires i < |children| == |below| && child == children[i] && child.Valid() && this in repr && this !in child.repr
      requires forall j {:trigger children[j]} :: 0 <= j < |children| && j != i ==>
        && children[j] in repr && children[j].repr <= repr - {this} && children[j].Valid()
        && below[j] == children[j].Abstract() && children[j].repr !! child.repr
      requires forall j, k {:trigger children[j], children[k]} :: 0 <= j < k < |children| && j != i && k != i ==>
          children[j].repr !! children[k].repr
      modifies this`repr, this`below
      ensures Valid() && repr == old(repr) + child.repr && below == old(below)[i := old(child.Abstract())]
    {
      repr, below := repr + child.repr, below[i := child.Abstract()];
      assert child.Valid();
      assert forall j {:trigger children[j]} :: 0 <= j < |children| && j != i ==>
          children[j].Valid() && children[j].Abstract() == below[j];
    }

    // child.value += count
    method Weigh(i: nat, child: FlameNode, count: nat)
      requires Valid() && i < |children| && child == children[i]
      modifies this`below, child`value
      ensures Valid() && value == old(value)
      ensures below == old(below)[i := Tree(old(below)[i].name, old(below)[i].value + count, old(below)[i].below)]
    {
      assert child != this && forall j :: 0 <= j < |child.children| ==> child !in child.children[j].repr;
      assert forall j {:trigger children[j]} :: 0 <= j < |children| && j != i ==> children[j].repr !! child.repr;
      child.value, below := child.value + count, below[i := below[i].(value := child.value + count)];
      assert child.Valid();
      assert forall j {:trigger children[j]} :: 0 <= j < |children| && j != i ==>
          children[j].Valid() && children[j].Abstract() == below[j];
    }

    // root.children.reduce((s, c) => s + c.value, 0)
    method SetSum()
      requires Valid()
      modifies this
      ensures Valid() && repr == old(repr) && below == old(below) && value == SumOfValues(below)
    {
      var sum := 0;
      for i := 0 to |children|
        invariant sum == SumOfValues(below[..i])
      {
        assert below[..i + 1][..i] == below[..i] && below[i].value == children[i].value;
        sum := sum + children[i].value;
      }
      assert below[..|below|] == below;
      SetValue(sum);
    }

    method SetValue(sum: nat)
      requires Valid()
      modifies this`value
      ensures Valid() && value == sum
    {
      value := sum;
      assert forall j {:trigger children[j]} :: 0 <= j < |children| ==>
          children[j].Valid() && children[j].Abstract() == below[j];
    }

    method AddChild(name: string)
      requires Valid()
      modifies this
      ensures Valid() && fresh(repr - old(repr)) && value == old(value)
      ensures below == old(below) + [Tree(name, 0, [])]
    {
      var child := new FlameNode(name);
      children := children + [child];
      repr := repr + child.repr;
      below := below + [child.Abstract()];
    }
  }

  lemma OneMore(samples: seq<Sample>, is_off_cpu: bool, i: nat)
    requires i < |samples|
    ensures Built(samples, is_off_cpu, i + 1)
         == Insert(Built(samples, is_off_cpu, i), Frames(samples[i]), Weight(samples[i], is_off_cpu))
  {
    OneMoreStack(Stacks(samples, is_off_cpu), i);
  }

  lemma OneMoreStack(stacks: seq<Stack>, i: nat)
    requires i < |stacks|
    ensures InsertAll(stacks[..i + 1]) == Insert(InsertAll(stacks[..i]), stacks[i].frames, stacks[i].weight)
  {
    assert stacks[..i + 1][..i] == stacks[..i];
  }

  // The tree after the first n samples.
  function Built(samples: seq<Sample>, is_off_cpu: bool, n: nat): seq<Tree>
    requires n <= |samples|
  {
    InsertAll(Stacks(samples, is_off_cpu)[..n])
  }

  method BuildFrames(s: Sample) returns (frames: seq<string>)
    ensures frames == Frames(s)
  {
    var comm := Or(s.comm, "unknown");
    frames := PushUser(comm, s.user_stack);
    frames := PushKernel(frames, s.kernel_stack);
    if |frames| == 1 { frames := frames + ["[no stack]"]; }
  }

  method PushUser(comm: string, stack: seq<string>) returns (frames: seq<string>)
    ensures frames == [comm] + UserFrames(comm, stack)
  {
    frames := [comm];
    for i := |stack| downto 0
      invariant frames == [comm] + UserFrames(comm, stack[i..])
    {
      assert stack[i..][1..] == stack[i + 1..];
      frames := frames + [UserFrame(comm, stack[i])];
    }
    assert stack[0..] == stack;
  }

  method PushKernel(before: seq<string>, stack: seq<string>) returns (frames: seq<string>)
    ensures frames == before + KernelFrames(stack)
  {
    frames := before;
    for i := |stack| downto 0
      invariant frames == before + KernelFrames(stack[i..])
    {
      assert stack[i..][1..] == stack[i + 1..];
      frames := frames + [Or(stack[i], "[kernel]")];
    }
    assert stack[0..] == stack;
  }

  /** The tree of a list of samples, with the root at their total weight. */
  method ConvertToFlameNode(samples: seq<Sample>, is_off_cpu: bool) returns (root: FlameNode)
    ensures fresh(root) && root.Valid() && root.name == "root"
    ensures root.below == InsertAll(Stacks(samples, is_off_cpu))
    ensures root.value == WeightOf(Stacks(samples, is_off_cpu), [])
  {
    root := new FlameNode("root");
    AddSamples(root, samples, is_off_cpu);
    RootIsTotal(Stacks(samples, is_off_cpu));
    root.SetSum();
  }

  method AddSamples(root: FlameNode, samples: seq<Sample>, is_off_cpu: bool)
    requires root.Valid() && root.below == []
    modifies root.repr
    ensures root.Valid() && fresh(root.repr - old(root.repr)) && root.below == InsertAll(Stacks(samples, is_off_cpu))
  {
    for i := 0 to |samples|
      invariant root.Valid() && fresh(root.repr - old(root.repr))
      invariant root.below == Built(samples, is_off_cpu, i)
    {
      OneMore(samples, is_off_cpu, i);
      var frames := BuildFrames(samples[i]);
      root.InsertStack(frames, Weight(samples[i], is_off_cpu));
    }
    assert Stacks(samples, is_off_cpu)[..|samples|] == Stacks(samples, is_off_cpu);
  }
}
