// src/processors/stack_merger/stack_merger.h: samples with the same key become one.
module StackMerger {
  import opened Wrappers
  import opened Samples
  import opened Grouping
  import opened Decimal
  import opened Separators

  datatype GroupBy = Comm | Pid | Tid | Global

  datatype Config = Config(group_by: GroupBy, include_kernel: bool)

  // ---- StackKey ----

  function Prefix(group_by: GroupBy, s: Sample): string {
    match group_by
    case Comm => s.comm + "|"
    case Pid => ToString(s.pid) + "|"
    case Tid => ToString(s.pid) + ":" + ToString(s.tid) + "|"
    case Global => ""
  }

  // Names joined by ';', an address where there is no name.
  function Chain(mark: char, stack: seq<Frame>): string {
    if stack == [] then ""
    else
      Chain(mark, stack[..|stack| - 1]) + Label(mark, stack[|stack| - 1]) + ";"
  }

  function Label(mark: char, f: Frame): string {
    if f.function_name != "" then f.function_name else [mark, ':'] + ToString(f.address)
  }

  /** A frame is labelled with its name; without one, with the mark and the decimal digits of its
      address, which tell unnamed frames of one kind apart, and kernel from user frames. */
  lemma LabelIs(mark: char, f: Frame, mark': char, g: Frame)
    ensures f.function_name != "" ==> Label(mark, f) == f.function_name
    ensures f.function_name == g.function_name == "" ==>
      (Label(mark, f) == Label(mark', g) <==> mark == mark' && f.address == g.address)
    ensures f.function_name == "" ==> var text := Label(mark, f);
      |text| > 2 && text[..2] == [mark, ':'] && AllDigits(text[2..]) && ValueOf(text[2..]) == f.address
  {
    if f.function_name == "" {
      ToStringDigits(f.address);
      assert Label(mark, f)[2..] == ToString(f.address);
    }
    if f.function_name == g.function_name == "" && Label(mark, f) == Label(mark', g) {
      assert Label(mark, f)[0] == mark && Label(mark', g)[0] == mark';
      assert Label(mark', g)[2..] == ToString(g.address);
      ToStringInjective(f.address, g.address);
    }
  }

  function StackKey(config: Config, s: Sample): string {
    Prefix(config.group_by, s)
    + (if config.include_kernel then Chain('k', s.kernel_stack) + "|" else "")
    + Chain('u', s.user_stack)
  }

  method BuildStackKey(config: Config, s: Sample) returns (os: string)
    ensures os == StackKey(config, s)
  {
    os := Prefix(config.group_by, s);
    if config.include_kernel {
      os := AppendChain(os, 'k', s.kernel_stack);
      os := os + "|";
    }
    os := AppendChain(os, 'u', s.user_stack);
  }

  method AppendChain(before: string, mark: char, stack: seq<Frame>) returns (os: string)
    ensures os == before + Chain(mark, stack)
  {
    os := before;
    for i := 0 to |stack|
      invariant os == before + Chain(mark, stack[..i])
    {
      ChainLast(mark, stack[..i], stack[i]);
      Regroup(before, Chain(mark, stack[..i]), Label(mark, stack[i]), ";");
      assert stack[..i + 1] == stack[..i] + [stack[i]];
      os := os + Label(mark, stack[i]) + ";";
    }
    assert stack[..|stack|] == stack;
  }

  // ---- when keys tell stacks apart ----

  // What the key is made of.
  datatype Group = OfComm(comm: string) | OfPid(pid: nat) | OfTid(pid: nat, tid: nat) | All

  function GroupOf(group_by: GroupBy, s: Sample): Group {
    match group_by
    case Comm => OfComm(s.comm)
    case Pid => OfPid(s.pid)
    case Tid => OfTid(s.pid, s.tid)
    case Global => All
  }

  function Labels(mark: char, stack: seq<Frame>): (labels: seq<string>)
    ensures |labels| == |stack| && forall i :: 0 <= i < |stack| ==> labels[i] == Label(mark, stack[i])
  {
    if stack == [] then [] else [Label(mark, stack[0])] + Labels(mark, stack[1..])
  }

  predicate Lacks(stack: seq<Frame>, c: char) {
    forall i :: 0 <= i < |stack| ==> c !in stack[i].function_name
  }

  // Which names may hold which separator.
  datatype Allowed = Allowed(commBar: bool, kernelBar: bool, userBar: bool, kernelSemicolon: bool, userSemicolon: bool)

  ghost predicate Conforms(a: Allowed, s: Sample) {
    && (a.commBar || '|' !in s.comm)
    && (a.kernelBar || Lacks(s.kernel_stack, '|')) && (a.userBar || Lacks(s.user_stack, '|'))
    && (a.kernelSemicolon || Lacks(s.kernel_stack, ';')) && (a.userSemicolon || Lacks(s.user_stack, ';'))
  }

  // Equal keys mean the same group and the same labels, frame by frame.
  ghost predicate SameParts(config: Config, s: Sample, t: Sample) {
    && GroupOf(config.group_by, s) == GroupOf(config.group_by, t)
    && Labels('u', s.user_stack) == Labels('u', t.user_stack)
    && (config.include_kernel ==> Labels('k', s.kernel_stack) == Labels('k', t.kernel_stack))
  }

  ghost predicate TellsApart(config: Config, a: Allowed) {
    forall s, t :: Conforms(a, s) && Conforms(a, t) && StackKey(config, s) == StackKey(config, t) ==>
        SameParts(config, s, t)
  }

  // ';' in no frame name of the key, and '|' in one kind of its names at most.
  predicate Separable(config: Config, a: Allowed) {
    var comm, kernel := config.group_by == Comm && a.commBar, config.include_kernel && a.kernelBar;
    && !a.userSemicolon && !(config.include_kernel && a.kernelSemicolon)
    && !(comm && kernel) && !(comm && a.userBar) && !(kernel && a.userBar)
  }

  lemma ChainLast(mark: char, stack: seq<Frame>, f: Frame)
    ensures Chain(mark, stack + [f]) == Chain(mark, stack) + Label(mark, f) + ";"
  {
    assert (stack + [f])[..|stack|] == stack;
  }

  lemma Regroup(a: string, b: string, c: string, d: string)
    ensures a + b + c + d == a + (b + c + d)
  {
  }

  lemma {:induction false} ChainFront(mark: char, f: Frame, stack: seq<Frame>)
    ensures Chain(mark, [f] + stack) == Label(mark, f) + ";" + Chain(mark, stack)
    decreases |stack|
  {
    if stack == [] {
      ChainLast(mark, [], f);
      assert [] + [f] == [f] + stack;
    } else {
      var n := |stack| - 1;
      ChainFront(mark, f, stack[..n]);
      ChainLast(mark, [f] + stack[..n], stack[n]);
      assert [f] + stack[..n] + [stack[n]] == [f] + stack;
      Regroup(Label(mark, f) + ";", Chain(mark, stack[..n]), Label(mark, stack[n]), ";");
    }
  }

  lemma CleanLabel(mark: char, f: Frame, c: char)
    requires c !in f.function_name && c !in [mark, ':'] && !IsDigit(c)
    ensures c !in Label(mark, f)
  {
    NotInNumber(f.address, c);
  }

  lemma {:induction false} NoBar(mark: char, stack: seq<Frame>)
    requires Lacks(stack, '|') && mark != '|'
    ensures '|' !in Chain(mark, stack)
    decreases |stack|
  {
    if stack != [] {
      CleanLabel(mark, stack[|stack| - 1], '|');
      NoBar(mark, stack[..|stack| - 1]);
    }
  }

  lemma LabelSplits(mark: char, f: Frame, g: Frame, x: string, y: string)
    requires ';' !in f.function_name && ';' !in g.function_name && mark != ';'
    requires Label(mark, f) + ";" + x == Label(mark, g) + ";" + y
    ensures Label(mark, f) == Label(mark, g) && x == y
  {
    CleanLabel(mark, f, ';');
    CleanLabel(mark, g, ';');
    SplitOnce(Label(mark, f), Label(mark, g), ';', x, y);
  }

  lemma {:induction false} ChainInjective(mark: char, a: seq<Frame>, b: seq<Frame>)
    requires Lacks(a, ';') && Lacks(b, ';') && mark != ';' && Chain(mark, a) == Chain(mark, b)
    ensures Labels(mark, a) == Labels(mark, b)
    decreases |a|
  {
    if a != [] && b != [] {
      ChainFront(mark, a[0], a[1..]);
      ChainFront(mark, b[0], b[1..]);
      assert a == [a[0]] + a[1..] && b == [b[0]] + b[1..];
      LabelSplits(mark, a[0], b[0], Chain(mark, a[1..]), Chain(mark, b[1..]));
      ChainInjective(mark, a[1..], b[1..]);
    }
  }

  // The key behind the group.
  function Stacks(config: Config, s: Sample): string {
    (if config.include_kernel then Chain('k', s.kernel_stack) + "|" else "") + Chain('u', s.user_stack)
  }

  // The group without the '|' behind it.
  function GroupText(group_by: GroupBy, s: Sample): string {
    match group_by
    case Comm => s.comm
    case Pid => ToString(s.pid)
    case Tid => ToString(s.pid) + ":" + ToString(s.tid)
    case Global => ""
  }

  lemma GroupTextOf(group_by: GroupBy, s: Sample, t: Sample)
    requires GroupText(group_by, s) == GroupText(group_by, t)
    ensures GroupOf(group_by, s) == GroupOf(group_by, t)
  {
    match group_by
    case Comm =>
    case Pid => ToStringInjective(s.pid, t.pid);
    case Tid =>
      NotInNumber(s.pid, ':');
      NotInNumber(t.pid, ':');
      SplitOnce(ToString(s.pid), ToString(t.pid), ':', ToString(s.tid), ToString(t.tid));
      ToStringInjective(s.pid, t.pid);
      ToStringInjective(s.tid, t.tid);
    case Global =>
  }

  lemma NoBarInGroup(group_by: GroupBy, s: Sample)
    requires group_by == Comm ==> '|' !in s.comm
    ensures '|' !in GroupText(group_by, s)
  {
    NotInNumber(s.pid, '|');
    NotInNumber(s.tid, '|');
  }

  // g, perhaps a kernel chain, and a user chain, with '|' between them.
  function Layout(grouped: bool, kernels: bool, g: string, k: string, u: string): string {
    (if grouped then g + "|" else "") + ((if kernels then k + "|" else "") + u)
  }

  lemma KeyLayout(config: Config, s: Sample)
    ensures StackKey(config, s) == Layout(config.group_by != Global, config.include_kernel,
              GroupText(config.group_by, s), Chain('k', s.kernel_stack), Chain('u', s.user_stack))
  {
  }

  lemma UserSplits(kernels: bool, k: string, u: string, l: string, v: string)
    requires (if kernels then k + "|" else "") + u == (if kernels then l + "|" else "") + v
    requires kernels ==> ('|' !in k && '|' !in l) || ('|' !in u && '|' !in v)
    ensures (kernels ==> k == l) && u == v
  {
    if !kernels {
      assert "" + u == u && "" + v == v;
    } else if '|' !in k && '|' !in l {
      SplitOnce(k, l, '|', u, v);
    } else {
      SplitLast(k, l, '|', u, v);
    }
  }

  /** Three texts with '|' between them come apart when at most one of them holds a '|'. */
  lemma LayoutSplits(grouped: bool, kernels: bool, g: string, k: string, u: string, h: string, l: string, v: string)
    requires Layout(grouped, kernels, g, k, u) == Layout(grouped, kernels, h, l, v)
    requires var bars := '|' in g || '|' in h; grouped && bars ==>
        '|' !in u && '|' !in v && (kernels ==> '|' !in k && '|' !in l)
    requires kernels ==> ('|' !in k && '|' !in l) || ('|' !in u && '|' !in v)
    ensures (grouped ==> g == h) && (kernels ==> k == l) && u == v
  {
    var x, y := (if kernels then k + "|" else "") + u, (if kernels then l + "|" else "") + v;
    if !grouped {
      assert "" + x == x && "" + y == y;
      UserSplits(kernels, k, u, l, v);
    } else if '|' !in g && '|' !in h {
      SplitOnce(g, h, '|', x, y);
      UserSplits(kernels, k, u, l, v);
    } else if kernels {
      assert g + "|" + (k + "|" + u) == g + "|" + k + "|" + u && h + "|" + (l + "|" + v) == h + "|" + l + "|" + v;
      SplitLast(g + "|" + k, h + "|" + l, '|', u, v);
      SplitLast(g, h, '|', k, l);
    } else {
      assert x == u && y == v;
      SplitLast(g, h, '|', u, v);
    }
  }

  lemma StackKeyInjective(config: Config, a: Allowed, s: Sample, t: Sample)
    requires Separable(config, a) && Conforms(a, s) && Conforms(a, t) && StackKey(config, s) == StackKey(config, t)
    ensures SameParts(config, s, t)
  {
    BarsOf(config, a, s);
    BarsOf(config, a, t);
    KeyLayout(config, s);
    KeyLayout(config, t);
    LayoutSplits(config.group_by != Global, config.include_kernel,
      GroupText(config.group_by, s), Chain('k', s.kernel_stack), Chain('u', s.user_stack),
      GroupText(config.group_by, t), Chain('k', t.kernel_stack), Chain('u', t.user_stack));
    GroupTextOf(config.group_by, s, t);
    ChainInjective('u', s.user_stack, t.user_stack);
    if config.include_kernel { ChainInjective('k', s.kernel_stack, t.kernel_stack); }
  }

  lemma BarsOf(config: Config, a: Allowed, s: Sample)
    requires Conforms(a, s)
    ensures !(config.group_by == Comm && a.commBar) ==> '|' !in GroupText(config.group_by, s)
    ensures !a.kernelBar ==> '|' !in Chain('k', s.kernel_stack)
    ensures !a.userBar ==> '|' !in Chain('u', s.user_stack)
  {
    if !(config.group_by == Comm && a.commBar) { NoBarInGroup(config.group_by, s); }
    if !a.kernelBar { NoBar('k', s.kernel_stack); }
    if !a.userBar { NoBar('u', s.user_stack); }
  }

  // ---- a collision for each way to break the rule ----

  function Named(name: string): Frame {
    Frame(0, name, "", 0, "")
  }

  function Taken(comm: string, kernel: seq<Frame>, user: seq<Frame>): Sample {
    Sample(1, 1, comm, kernel, user, 1, Origin(0, 0, false, 0, -1, -1))
  }

  function TakenIn(kernel: bool, comm: string, stack: seq<Frame>): Sample {
    if kernel then Taken(comm, stack, []) else Taken(comm, [], stack)
  }

  lemma ChainOfNames(mark: char, a: string, b: string)
    requires a != "" && b != ""
    ensures Chain(mark, []) == "" && Chain(mark, [Named(a)]) == a + ";"
        && Chain(mark, [Named(a), Named(b)]) == a + ";" + b + ";"
  {
    ChainLast(mark, [], Named(a));
    ChainLast(mark, [Named(a)], Named(b));
    assert [] + [Named(a)] == [Named(a)] && [Named(a)] + [Named(b)] == [Named(a), Named(b)];
  }

  lemma SemicolonCollides(config: Config, kernel: bool) returns (s: Sample, t: Sample)
    requires kernel ==> config.include_kernel
    ensures Lacks(s.kernel_stack, '|') && Lacks(s.user_stack, '|') && '|' !in s.comm
    ensures Lacks(t.kernel_stack, '|') && Lacks(t.user_stack, '|') && '|' !in t.comm
    ensures (kernel || (Lacks(s.kernel_stack, ';') && Lacks(t.kernel_stack, ';')))
    ensures (!kernel || (Lacks(s.user_stack, ';') && Lacks(t.user_stack, ';')))
    ensures StackKey(config, s) == StackKey(config, t) && !SameParts(config, s, t)
  {
    var one, two := [Named("a;b")], [Named("a"), Named("b")];
    s, t := TakenIn(kernel, "", one), TakenIn(kernel, "", two);
    var mark := if kernel then 'k' else 'u';
    ChainOfNames(mark, "a;b", "b");
    ChainOfNames(mark, "a", "b");
    assert "a;b" + ";" == "a" + ";" + "b" + ";";
  }

  lemma CommAndStackCollide(config: Config, kernel: bool) returns (s: Sample, t: Sample)
    requires config.group_by == Comm && (kernel ==> config.include_kernel)
    ensures var plain := Allowed(true, kernel, !kernel, false, false); Conforms(plain, s) && Conforms(plain, t)
    ensures StackKey(config, s) == StackKey(config, t) && !SameParts(config, s, t)
  {
    var c, d := [Named("c")], [Named("|c")];
    s, t := TakenIn(kernel, "a|", c), TakenIn(kernel, "a", d);
    var mark := if kernel then 'k' else 'u';
    ChainOfNames(mark, "c", "c");
    ChainOfNames(mark, "|c", "c");
  }

  lemma KernelAndUserCollide(config: Config) returns (s: Sample, t: Sample)
    requires config.include_kernel
    ensures var plain := Allowed(false, true, true, false, false); Conforms(plain, s) && Conforms(plain, t)
    ensures StackKey(config, s) == StackKey(config, t) && !SameParts(config, s, t)
  {
    s := Taken("", [Named("b")], [Named("x"), Named("|c")]);
    t := Taken("", [Named("b"), Named("|x")], [Named("c")]);
    ChainOfNames('k', "b", "|x");
    ChainOfNames('u', "x", "|c");
    ChainOfNames('u', "c", "c");
    SameStacks(config, s, t);
  }

  lemma SameStacks(config: Config, s: Sample, t: Sample)
    requires s.comm == t.comm && s.pid == t.pid && s.tid == t.tid && config.include_kernel
    requires Chain('k', s.kernel_stack) + "|" + Chain('u', s.user_stack) == Chain('k', t.kernel_stack) + "|"
        + Chain('u', t.user_stack)
    ensures StackKey(config, s) == StackKey(config, t)
  {
    KeyLayout(config, s);
    KeyLayout(config, t);
  }

  /** Keys tell stacks apart exactly when ';' is in no frame name that enters the key, and '|' in one kind of
      names at most: the command, where samples are grouped by it, the kernel names, where they are included,
      and the user names. */
  lemma TellsApartIff(config: Config, a: Allowed)
    ensures TellsApart(config, a) <==> Separable(config, a)
  {
    if Separable(config, a) {
      forall s, t | Conforms(a, s) && Conforms(a, t) && StackKey(config, s) == StackKey(config, t)
        ensures SameParts(config, s, t)
      {
        StackKeyInjective(config, a, s, t);
      }
    } else {
      var s, t := Collision(config, a);
    }
  }

  lemma Collision(config: Config, a: Allowed) returns (s: Sample, t: Sample)
    requires !Separable(config, a)
    ensures Conforms(a, s) && Conforms(a, t) && StackKey(config, s) == StackKey(config, t) && !SameParts(config, s, t)
  {
    if a.userSemicolon {
      s, t := SemicolonCollides(config, false);
    } else if config.include_kernel && a.kernelSemicolon {
      s, t := SemicolonCollides(config, true);
    } else if config.group_by == Comm && a.commBar {
      s, t := CommAndStackCollide(config, !a.userBar);
    } else {
      s, t := KernelAndUserCollide(config);
    }
  }

  // ---- Process over an abstract key ----

  ghost function KeyOf(config: Config): Sample -> string {
    s => StackKey(config, s)
  }

  // keyOf is StackKey, for the samples asked about.
  ghost predicate Agrees(config: Config, keyOf: Sample -> string) {
    forall s {:trigger Asked(s)} :: Asked(s) ==> keyOf(s) == StackKey(config, s)
  }

  lemma StackKeyIgnoresCount(config: Config)
    ensures IgnoresCount(KeyOf(config)) && Agrees(config, KeyOf(config))
  {
  }

  method KeyFor(config: Config, ghost keyOf: Sample -> string, s: Sample) returns (key: string)
    requires Agrees(config, keyOf)
    ensures key == keyOf(s)
  {
    assert Asked(s);
    key := BuildStackKey(config, s);
  }

  // ---- Process ----

  ghost function Items(keyOf: Sample -> string, samples: seq<Sample>): (items: seq<Item<string>>)
    ensures |items| == |samples|
    ensures forall i :: 0 <= i < |samples| ==> items[i] == Item(keyOf(samples[i]), samples[i].count)
  {
    seq(|samples|, i requires 0 <= i < |samples| => Item(keyOf(samples[i]), samples[i].count))
  }

  // Everything but the count.
  ghost predicate SameBut(s: Sample, t: Sample) {
    s == t.(count := s.count)
  }

  ghost predicate IgnoresCount(keyOf: Sample -> string) {
    forall s, t {:trigger SameBut(s, t)} :: SameBut(s, t) ==> keyOf(s) == keyOf(t)
  }

  // t comes from the first sample of its key.
  ghost predicate FromFirst(keyOf: Sample -> string, samples: seq<Sample>, t: Sample) {
    exists i :: 0 <= i < |samples| && IsFirst(keyOf, samples, i) && SameBut(samples[i], t)
  }

  ghost predicate IsFirst(keyOf: Sample -> string, samples: seq<Sample>, i: nat)
    requires i < |samples|
  {
    forall j :: 0 <= j < i ==> keyOf(samples[j]) != keyOf(samples[i])
  }

  // What a key should be mapped to.
  ghost predicate Right(keyOf: Sample -> string, samples: seq<Sample>, key: string, t: Sample) {
    keyOf(t) == key && FromFirst(keyOf, samples, t) && t.count == CountOf(Items(keyOf, samples), key)
  }

  ghost predicate Merged(keyOf: Sample -> string, samples: seq<Sample>, merged: map<string, Sample>) {
    && (forall i :: 0 <= i < |samples| ==> keyOf(samples[i]) in merged)
    && (forall key :: key in merged ==> Right(keyOf, samples, key, merged[key]))
  }

  /** One sample per key, made from the first of that key, with the sum of the counts. */
  method Process(config: Config, input: seq<Sample>) returns (out: seq<Sample>)
    ensures input == [] ==> out == []
    ensures Grouped(Items(KeyOf(config), input), Items(KeyOf(config), out))
    ensures forall k :: 0 <= k < |out| ==> FromFirst(KeyOf(config), input, out[k])
  {
    if input == [] { return []; }
    StackKeyIgnoresCount(config);
    var merged := Merge(config, KeyOf(config), input);
    out := ReadOut(KeyOf(config), merged);
    AllRead(KeyOf(config), input, merged, out);
  }

  method Merge(config: Config, ghost keyOf: Sample -> string, input: seq<Sample>) returns (merged: map<string, Sample>)
    requires Agrees(config, keyOf) && IgnoresCount(keyOf)
    ensures Merged(keyOf, input, merged)
  {
    merged := map[];
    for i := 0 to |input|
      invariant Merged(keyOf, input[..i], merged)
    {
      MergeStep(keyOf, input[..i], input[i], input[..i + 1], merged);
      merged := MergeOne(config, keyOf, input[i], merged);
    }
    assert input[..|input|] == input;
  }

  method MergeOne(config: Config, ghost keyOf: Sample -> string, src: Sample, merged: map<string, Sample>)
          returns (merged': map<string, Sample>)
    requires Agrees(config, keyOf)
    ensures merged' == Next(keyOf, merged, src)
  {
    var key := KeyFor(config, keyOf, src);
    if key !in merged {
      merged' := merged[key := src];
    } else {
      merged' := merged[key := Plus(merged[key], src.count)];
    }
  }

  function Plus(t: Sample, n: nat): Sample {
    t.(count := t.count + n)
  }

  ghost function Next(keyOf: Sample -> string, merged: map<string, Sample>, src: Sample): map<string, Sample> {
    merged[keyOf(src) := if keyOf(src) in merged then Plus(merged[keyOf(src)], src.count) else src]
  }

  lemma MergeStep(keyOf: Sample -> string, samples: seq<Sample>, src: Sample, more: seq<Sample>, merged: map<string,
          Sample>)
    requires Merged(keyOf, samples, merged) && IgnoresCount(keyOf) && more == samples + [src]
    ensures Merged(keyOf, more, Next(keyOf, merged, src))
  {
    var key, merged' := keyOf(src), Next(keyOf, merged, src);
    if key in merged { RightAdds(keyOf, samples, src, merged[key]); } else { RightNew(keyOf, samples, src, merged); }
    forall k | k in merged' && k != key ensures Right(keyOf, more, k, merged'[k]) {
      RightStays(keyOf, samples, src, k, merged[k]);
    }
    forall i | 0 <= i < |more| ensures keyOf(more[i]) in merged' {
      if i < |samples| { assert keyOf(samples[i]) in merged; }
    }
  }

  lemma CountMore(keyOf: Sample -> string, samples: seq<Sample>, src: Sample, key: string)
    ensures CountOf(Items(keyOf, samples + [src]), key) == CountOf(Items(keyOf, samples), key) +
        if keyOf(src) == key then src.count else 0
  {
    ItemsMore(keyOf, samples, src);
    assert Items(keyOf, samples + [src])[..|samples|] == Items(keyOf, samples);
  }

  lemma ItemsMore(keyOf: Sample -> string, samples: seq<Sample>, src: Sample)
    ensures Items(keyOf, samples + [src]) == Items(keyOf, samples) + [Item(keyOf(src), src.count)]
  {
  }

  lemma StillFirst(keyOf: Sample -> string, samples: seq<Sample>, src: Sample, t: Sample, t': Sample)
    requires FromFirst(keyOf, samples, t) && SameBut(t, t')
    ensures FromFirst(keyOf, samples + [src], t')
  {
    var i :| 0 <= i < |samples| && IsFirst(keyOf, samples, i) && SameBut(samples[i], t);
    var more := samples + [src];
    assert more[..|samples|] == samples && more[i] == samples[i];
    assert IsFirst(keyOf, more, i);
    assert SameBut(more[i], t');
  }

  lemma RightStays(keyOf: Sample -> string, samples: seq<Sample>, src: Sample, key: string, t: Sample)
    requires Right(keyOf, samples, key, t) && keyOf(src) != key
    ensures Right(keyOf, samples + [src], key, t)
  {
    StillFirst(keyOf, samples, src, t, t);
    CountMore(keyOf, samples, src, key);
  }

  lemma RightAdds(keyOf: Sample -> string, samples: seq<Sample>, src: Sample, t: Sample)
    requires Right(keyOf, samples, keyOf(src), t) && IgnoresCount(keyOf)
    ensures Right(keyOf, samples + [src], keyOf(src), Plus(t, src.count))
  {
    assert SameBut(t, Plus(t, src.count));
    StillFirst(keyOf, samples, src, t, Plus(t, src.count));
    CountMore(keyOf, samples, src, keyOf(src));
  }

  lemma LastIsFirst(keyOf: Sample -> string, samples: seq<Sample>, src: Sample, merged: map<string, Sample>)
    requires Merged(keyOf, samples, merged) && keyOf(src) !in merged
    ensures FromFirst(keyOf, samples + [src], src) && !HasKey(Items(keyOf, samples), keyOf(src))
  {
    var n, more := |samples|, samples + [src];
    forall j | 0 <= j < n ensures keyOf(more[j]) != keyOf(src) {
      assert more[j] == samples[j] && keyOf(samples[j]) in merged;
    }
    assert more[n] == src && IsFirst(keyOf, more, n) && SameBut(more[n], src);
  }

  lemma RightNew(keyOf: Sample -> string, samples: seq<Sample>, src: Sample, merged: map<string, Sample>)
    requires Merged(keyOf, samples, merged) && keyOf(src) !in merged
    ensures Right(keyOf, samples + [src], keyOf(src), src)
  {
    LastIsFirst(keyOf, samples, src, merged);
    CountMore(keyOf, samples, src, keyOf(src));
    CountOfAbsent(Items(keyOf, samples), keyOf(src));
  }

  lemma AllRead(keyOf: Sample -> string, input: seq<Sample>, merged: map<string, Sample>, out: seq<Sample>)
    requires Merged(keyOf, input, merged) && Read(keyOf, merged, {}, out) && IgnoresCount(keyOf)
    ensures Grouped(Items(keyOf, input), Items(keyOf, out))
    ensures forall k :: 0 <= k < |out| ==> FromFirst(keyOf, input, out[k])
  {
    var from, to := Items(keyOf, input), Items(keyOf, out);
    forall k | 0 <= k < |out|
      ensures FromFirst(keyOf, input, out[k])
      ensures HasKey(from, to[k].key) && to[k].count == CountOf(from, to[k].key)
    {
      assert Right(keyOf, input, keyOf(out[k]), out[k]);
      FromFirstHasKey(keyOf, input, out[k]);
    }
    forall i | 0 <= i < |input| ensures HasKey(to, from[i].key) {
      var t := merged[keyOf(input[i])];
      assert Right(keyOf, input, keyOf(input[i]), t) && t in out;
      var k :| 0 <= k < |out| && out[k] == t;
      assert to[k].key == from[i].key;
    }
  }

  lemma FromFirstHasKey(keyOf: Sample -> string, samples: seq<Sample>, t: Sample)
    requires FromFirst(keyOf, samples, t) && IgnoresCount(keyOf)
    ensures HasKey(Items(keyOf, samples), keyOf(t))
  {
    var i :| 0 <= i < |samples| && IsFirst(keyOf, samples, i) && SameBut(samples[i], t);
    assert Items(keyOf, samples)[i].key == keyOf(t);
  }

  // ---- what Process promises ----

  /** No sample weight is lost or made. */
  lemma ProcessKeepsTotal(config: Config, input: seq<Sample>, out: seq<Sample>)
    requires Grouped(Items(KeyOf(config), input), Items(KeyOf(config), out))
    ensures Total(Items(KeyOf(config), out)) == Total(Items(KeyOf(config), input))
  {
    GroupedKeepsTotal(Items(KeyOf(config), input), Items(KeyOf(config), out));
  }

  /** Processing again changes no (key, count) pair. */
  lemma ProcessIsIdempotent(config: Config, input: seq<Sample>, once: seq<Sample>, twice: seq<Sample>)
    requires Grouped(Items(KeyOf(config), input), Items(KeyOf(config), once))
    requires Grouped(Items(KeyOf(config), once), Items(KeyOf(config), twice))
    ensures forall x :: x in Items(KeyOf(config), once) <==> x in Items(KeyOf(config), twice)
    ensures |once| == |twice|
  {
    GroupedIdempotent(Items(KeyOf(config), input), Items(KeyOf(config), once), Items(KeyOf(config), twice));
    SameElementsSameLength(Items(KeyOf(config), once), Items(KeyOf(config), twice));
  }
}
