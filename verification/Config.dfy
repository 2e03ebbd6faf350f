// src/core/config/yaml_config_loader.h (ParseConfigValue, ParseSequenceInto) and
// src/core/common/config.h (ConfigValue): a YAML tree becomes a flat map with dotted
// keys, and looking keys up one by one walks the tree.
module Config {
  import opened Wrappers
  import opened Decimal
  import opened Bits

  datatype Entry = Entry(key: string, value: Yaml)

  datatype Yaml = Null | Scalar(text: string) | Mapping(entries: seq<Entry>) | Sequence(items: seq<Yaml>)

  type Values = map<string, string>

  // ---- ConfigValue ----

  // parent, or parent.nested
  function Full(parent: string, nested: string): string {
    if nested == "" then parent else parent + "." + nested
  }

  function Prefixed(parent: string, m: Values): Values {
    map full | full in FullKeys(parent, m) :: m[Nested(parent, full)]
  }

  function FullKeys(parent: string, m: Values): (ks: set<string>)
    ensures forall k :: k in m ==> Full(parent, k) in ks
    ensures forall full :: full in ks ==> Nested(parent, full) in m && full == Full(parent, Nested(parent, full))
  {
    forall k | k in m ensures Nested(parent, Full(parent, k)) == k { NestedFull(parent, k); }
    set k | k in m :: Full(parent, k)
  }

  function Nested(parent: string, full: string): string {
    if |full| <= |parent| then "" else full[|parent| + 1..]
  }

  lemma NestedFull(parent: string, k: string)
    ensures Nested(parent, Full(parent, k)) == k
  {
  }

  // operator[]: the exact key, and below it every key that starts with "key."
  function Index(m: Values, key: string): Values {
    var dot := key + ".";
    (if key in m then map["" := m[key]] else map[]) + map k | k in Suffixes(m, dot) :: m[dot + k]
  }

  function Suffixes(m: Values, dot: string): (ks: set<string>)
    ensures forall k :: k in ks <==> dot + k in m
  {
    var ks := set full | full in m && dot <= full :: full[|dot|..];
    assert forall k :: dot + k in m ==> (dot + k)[|dot|..] == k;
    assert forall full :: full in m && dot <= full ==> dot + full[|dot|..] == full;
    ks
  }

  function TextOf(m: Values, def: string): string {
    if "" in m then m[""] else def
  }

  // None where result.reserve(n) throws: reservable is the largest size it can provide.
  function ListOf(m: Values, reservable: nat): Option<seq<string>> {
    if "_size" !in m then Some(if "" in m && m[""] != "" then [m[""]] else [])
    else match Stoull(m["_size"])
      case None => Some([])
      case Some(n) => if n > reservable then None else Some(Listed(m, n))
  }

  function Listed(m: Values, n: nat): seq<string> {
    if n == 0 then [] else Listed(m, n - 1) + if ToString(n - 1) in m then [m[ToString(n - 1)]] else []
  }

  // ---- what a node looks like from outside ----

  // Only maps and sequences clear all_scalar.
  predicate AllScalar(items: seq<Yaml>) {
    forall i {:trigger items[i]} :: 0 <= i < |items| ==> items[i].Scalar? || items[i].Null?
  }

  function Joined(items: seq<Yaml>): string {
    if items == [] then ""
    else
      var n := |items| - 1;
      Joined(items[..n]) + if items[n].Scalar? then (if n > 0 then "," else "") + items[n].text else ""
  }

  // The values of a node as operator[] hands them out.
  function Flat(node: Yaml): Values
    decreases node, 1
  {
    match node
    case Null => map[]
    case Scalar(text) => map["" := text]
    case Mapping(entries) => FlatEntries(entries)
    case Sequence(items) => FlatItems(items) + SizeOf(|items|) + if AllScalar(items) then map["" := Joined(items)]
        else map[]
  }

  function FlatEntries(entries: seq<Entry>): Values
    decreases entries, 0
  {
    if entries == [] then map[]
    else
      var n := |entries| - 1;
      FlatEntries(entries[..n]) + FlatEntry(entries[n].key, entries[n].value)
  }

  // An empty key leaves a sequence without its prefix and its joined text.
  function FlatEntry(key: string, value: Yaml): Values
    decreases value, 2
  {
    if key == "" && value.Sequence? then FlatSequence("", value.items) else Prefixed(key, Flat(value))
  }

  function FlatItems(items: seq<Yaml>): Values
    decreases items, 0
  {
    if items == [] then map[]
    else
      var n := |items| - 1;
      FlatItems(items[..n]) + Prefixed(ToString(n), Flat(items[n]))
  }

  // What ParseSequenceInto adds below a prefix.
  function FlatSequence(prefix: string, items: seq<Yaml>): Values
    decreases items, 1
  {
    var sized := Under(prefix, FlatItems(items)) + map[SizeKey(prefix) := ToString(|items|)];
    if AllScalar(items) && prefix != "" then sized + map[prefix := Joined(items)] else sized
  }

  function SizeKey(prefix: string): string {
    if prefix == "" then "_size" else prefix + "." + "_size"
  }

  function Under(prefix: string, m: Values): Values {
    if prefix == "" then m else Prefixed(prefix, m)
  }

  function Parsed(node: Yaml): Values {
    if node.Sequence? then FlatSequence("", node.items) else Flat(node)
  }

  // ---- algebra of prefixes ----

  lemma InPrefixed(key: string, m: Values, k: string)
    ensures Full(key, k) in Prefixed(key, m) <==> k in m
    ensures k in m ==> Prefixed(key, m)[Full(key, k)] == m[k]
  {
    NestedFull(key, k);
  }

  predicate Within(a: Values, b: Values) {
    forall k :: k in a ==> k in b && b[k] == a[k]
  }

  lemma Antisymmetric(a: Values, b: Values)
    requires Within(a, b) && Within(b, a)
    ensures a == b
  {
  }

  lemma SumAt(p: string, a: Values, b: Values, full: string)
    ensures full in Prefixed(p, a + b) <==> full in Prefixed(p, a) + Prefixed(p, b)
    ensures full in Prefixed(p, a + b) ==> Prefixed(p, a + b)[full] == (Prefixed(p, a) + Prefixed(p, b))[full]
  {
    var k := Nested(p, full);
    InPrefixed(p, a, k);
    InPrefixed(p, b, k);
    InPrefixed(p, a + b, k);
  }

  lemma PrefixedSum(p: string, a: Values, b: Values)
    ensures Prefixed(p, a + b) == Prefixed(p, a) + Prefixed(p, b)
  {
    var l, r := Prefixed(p, a + b), Prefixed(p, a) + Prefixed(p, b);
    forall full ensures (full in l <==> full in r) && (full in l ==> l[full] == r[full]) { SumAt(p, a, b, full); }
    Antisymmetric(l, r);
  }

  lemma PrefixedOne(p: string, k: string, v: string)
    ensures Prefixed(p, map[k := v]) == map[Full(p, k) := v]
  {
    NestedFull(p, k);
  }

  lemma FullTwice(p: string, k: string, n: string)
    requires k != ""
    ensures Full(p + "." + k, n) == Full(p, Full(k, n))
  {
    if n != "" { assert p + "." + k + "." + n == p + "." + (k + "." + n); }
  }

  lemma OnceInTwice(p: string, k: string, pk: string, m: Values, full: string)
    requires k != "" && pk == p + "." + k && full in Prefixed(pk, m)
    ensures full in Prefixed(p, Prefixed(k, m)) && Prefixed(p, Prefixed(k, m))[full] == Prefixed(pk, m)[full]
  {
    var n := Nested(pk, full);
    FullTwice(p, k, n);
    InPrefixed(k, m, n);
    InPrefixed(p, Prefixed(k, m), Full(k, n));
  }

  lemma TwiceInOnce(p: string, k: string, pk: string, m: Values, full: string)
    requires k != "" && pk == p + "." + k && full in Prefixed(p, Prefixed(k, m))
    ensures full in Prefixed(pk, m)
  {
    var n := Nested(k, Nested(p, full));
    FullTwice(p, k, n);
    InPrefixed(pk, m, n);
  }

  lemma OnceWithinTwice(p: string, k: string, pk: string, m: Values)
    requires k != "" && pk == p + "." + k
    ensures Within(Prefixed(pk, m), Prefixed(p, Prefixed(k, m)))
  {
    forall full | full in Prefixed(pk, m)
      ensures full in Prefixed(p, Prefixed(k, m)) && Prefixed(p, Prefixed(k, m))[full] == Prefixed(pk, m)[full]
    {
      OnceInTwice(p, k, pk, m, full);
    }
  }

  lemma PrefixedTwice(p: string, k: string, m: Values)
    requires k != ""
    ensures Prefixed(p, Prefixed(k, m)) == Prefixed(p + "." + k, m)
  {
    var pk := p + "." + k;
    OnceWithinTwice(p, k, pk, m);
    forall full | full in Prefixed(p, Prefixed(k, m))
      ensures full in Prefixed(pk, m) && Prefixed(pk, m)[full] == Prefixed(p, Prefixed(k, m))[full]
    {
      TwiceInOnce(p, k, pk, m, full);
    }
    Antisymmetric(Prefixed(pk, m), Prefixed(p, Prefixed(k, m)));
  }

  // The elements of a sequence and their number.
  function Counted(items: seq<Yaml>): Values {
    FlatItems(items) + SizeOf(|items|)
  }

  function SizeOf(n: nat): Values {
    map["_size" := ToString(n)]
  }

  lemma FlatOfSequence(items: seq<Yaml>)
    ensures Flat(Sequence(items)) == if AllScalar(items) then Counted(items) + map["" := Joined(items)]
        else Counted(items)
    ensures Parsed(Sequence(items)) == Counted(items)
  {
  }

  lemma SizedPrefixed(prefix: string, items: seq<Yaml>)
    requires prefix != ""
    ensures Prefixed(prefix, Counted(items)) == Under(prefix, FlatItems(items))
        + map[SizeKey(prefix) := ToString(|items|)]
  {
    PrefixedSum(prefix, FlatItems(items), SizeOf(|items|));
    PrefixedOne(prefix, "_size", ToString(|items|));
  }

  /** A sequence below a prefix adds what the prefix puts before its own values. */
  lemma SequenceIsPrefixed(prefix: string, items: seq<Yaml>)
    requires prefix != ""
    ensures FlatSequence(prefix, items) == Prefixed(prefix, Flat(Sequence(items)))
  {
    FlatOfSequence(items);
    SizedPrefixed(prefix, items);
    PrefixedSum(prefix, Counted(items), map["" := Joined(items)]);
    PrefixedOne(prefix, "", Joined(items));
  }

  /** A dotted key cannot be told from nesting. */
  lemma DottedIsNested(p: string, k: string, node: Yaml)
    requires p != "" && k != ""
    ensures Parsed(Mapping([Entry(p + "." + k, node)])) == Parsed(Mapping([Entry(p, Mapping([Entry(k, node)]))]))
  {
    OneEntry(p + "." + k, node);
    OneEntry(k, node);
    OneEntry(p, Mapping([Entry(k, node)]));
    PrefixedTwice(p, k, Flat(node));
  }

  lemma OneEntry(key: string, node: Yaml)
    requires key != ""
    ensures Flat(Mapping([Entry(key, node)])) == Prefixed(key, Flat(node))
  {
    AddEntry([], Entry(key, node));
    var m := Prefixed(key, Flat(node));
    assert FlatEntries([]) + m == m;
    assert [] + [Entry(key, node)] == [Entry(key, node)];
  }

  lemma AddEntry(entries: seq<Entry>, e: Entry)
    ensures FlatEntries(entries + [e]) == FlatEntries(entries) + FlatEntry(e.key, e.value)
  {
    assert (entries + [e])[..|entries|] == entries;
  }

  // ---- looking up a key ----

  predicate DotFree(s: string) {
    forall i {:trigger s[i]} :: 0 <= i < |s| ==> s[i] != '.'
  }

  predicate GoodKey(key: string) {
    key != "" && DotFree(key)
  }

  ghost predicate Touches(m: Values, key: string) {
    key in m || exists k :: key + "." + k in m
  }

  lemma IndexRight(a: Values, b: Values, key: string)
    requires !Touches(a, key)
    ensures Index(a + b, key) == Index(b, key)
  {
  }

  lemma IndexLeft(a: Values, b: Values, key: string)
    requires !Touches(b, key)
    ensures Index(a + b, key) == Index(a, key)
  {
  }

  lemma NoEmptySuffix(key: string, m: Values)
    ensures key + "." + "" !in Prefixed(key, m)
  {
    var full := key + "." + "";
    assert Nested(key, full) == "" && Full(key, "") != full;
  }

  lemma IndexPrefixed(key: string, m: Values)
    ensures Index(Prefixed(key, m), key) == m
  {
    var r := Index(Prefixed(key, m), key);
    NoEmptySuffix(key, m);
    forall k ensures (k in r <==> k in m) && (k in m ==> r[k] == m[k]) {
      InPrefixed(key, m, k);
      if k == "" { assert key + "." + k !in Prefixed(key, m); } else { assert Full(key, k) == key + "." + k; }
    }
  }

  // What comes before the first dot.
  function Head(s: string): string {
    if s == "" || s[0] == '.' then "" else [s[0]] + Head(s[1..])
  }

  lemma {:induction false} HeadIsKey(key: string, rest: string)
    requires DotFree(key) && (rest == "" || rest[0] == '.')
    ensures Head(key + rest) == key
  {
    if key != "" {
      assert key[0] != '.' && (key + rest)[1..] == key[1..] + rest;
      assert DotFree(key[1..]) by {
        forall i | 0 <= i < |key[1..]| ensures key[1..][i] != '.' { assert key[1..][i] == key[i + 1]; }
      }
      HeadIsKey(key[1..], rest);
    } else {
      assert key + rest == rest;
    }
  }

  lemma HeadOfFull(parent: string, nested: string)
    requires DotFree(parent)
    ensures Head(Full(parent, nested)) == parent
  {
    HeadIsKey(parent, "");
    HeadIsKey(parent, "." + nested);
    assert parent + "" == parent && parent + ("." + nested) == parent + "." + nested;
  }

  ghost predicate GoodTree(node: Yaml)
    decreases node
  {
    match node
    case Mapping(entries) =>
      && (forall i :: 0 <= i < |entries| ==> GoodKey(entries[i].key) && GoodTree(entries[i].value))
      && (forall i, j :: 0 <= i < j < |entries| ==> entries[i].key != entries[j].key)
    case Sequence(items) => forall i :: 0 <= i < |items| ==> GoodTree(items[i])
    case _ => true
  }

  // The child a key names; _size is the length of a sequence.
  function Child(node: Yaml, key: string): Yaml {
    match node
    case Mapping(entries) => Find(entries, key)
    case Sequence(items) => if key == "_size" then Scalar(ToString(|items|)) else Item(items, key)
    case _ => Null
  }

  function Find(entries: seq<Entry>, key: string): Yaml {
    if entries == [] then Null
    else
      var n := |entries| - 1;
      if entries[n].key == key then entries[n].value else Find(entries[..n], key)
  }

  function Item(items: seq<Yaml>, key: string): Yaml {
    if items == [] then Null
    else
      var n := |items| - 1;
      if ToString(n) == key then items[n] else Item(items[..n], key)
  }

  lemma NumberKey(n: nat)
    ensures GoodKey(ToString(n)) && ToString(n) != "_size"
  {
    ToStringDigits(n);
    assert IsDigit(ToString(n)[0]);
  }

  lemma {:induction false} IndexItems(items: seq<Yaml>, key: string)
    requires GoodKey(key)
    ensures Index(FlatItems(items), key) == Flat(Item(items, key))
    ensures (forall i: nat :: i < |items| ==> ToString(i) != key) ==> !Touches(FlatItems(items), key)
    decreases |items|
  {
    if items != [] {
      var n := |items| - 1;
      var value := Flat(items[n]);
      IndexItems(items[..n], key);
      NumberKey(n);
      if ToString(n) == key {
        forall i: nat | i < n ensures ToString(i) != key { if ToString(i) == key { ToStringInjective(i, n); } }
        IndexRight(FlatItems(items[..n]), Prefixed(key, value), key);
        IndexPrefixed(key, value);
      } else {
        SplitHead(ToString(n));
        UntouchedByHead(ToString(n), value, key);
        IndexLeft(FlatItems(items[..n]), Prefixed(ToString(n), value), key);
      }
    }
  }

  lemma SizeTouches(n: nat, key: string)
    requires GoodKey(key)
    ensures key != "_size" ==> !Touches(SizeOf(n), key)
    ensures key == "_size" ==> Index(SizeOf(n), key) == map["" := ToString(n)]
  {
    forall k ensures key + "." + k != "_size" {
      assert (key + "." + k)[|key|] == '.';
      assert DotFree("_size");
    }
  }

  lemma IndexCounted(items: seq<Yaml>, key: string)
    requires GoodKey(key)
    ensures Index(Counted(items), key) == Flat(Child(Sequence(items), key))
  {
    SizeTouches(|items|, key);
    IndexItems(items, key);
    if key == "_size" {
      forall i: nat | i < |items| ensures ToString(i) != key { NumberKey(i); }
      IndexRight(FlatItems(items), SizeOf(|items|), key);
    } else {
      IndexLeft(FlatItems(items), SizeOf(|items|), key);
    }
  }

  lemma OwnTextUntouched(text: string, key: string)
    requires GoodKey(key)
    ensures !Touches(map["" := text], key) && Index(map["" := text], key) == map[]
  {
    forall k ensures key + "." + k != "" { assert |key + "." + k| > 0; }
  }

  lemma IndexSequence(items: seq<Yaml>, key: string)
    requires GoodKey(key)
    ensures Index(Flat(Sequence(items)), key) == Flat(Child(Sequence(items), key))
  {
    IndexCounted(items, key);
    FlatOfSequence(items);
    if AllScalar(items) {
      OwnTextUntouched(Joined(items), key);
      IndexLeft(Counted(items), map["" := Joined(items)], key);
    }
  }

  /** operator[] on a flattened node is the flattened child, whatever the node and the key. */
  lemma IndexIsChild(node: Yaml, key: string)
    requires GoodTree(node) && GoodKey(key)
    ensures Index(Flat(node), key) == Flat(Child(node, key))
    ensures Index(Parsed(node), key) == Flat(Child(node, key))
  {
    GoodIsPlain(node);
    PlainIndex(node, key);
    ParsedIndex(node, key);
  }

  // ---- whole paths ----

  function LookUp(m: Values, path: seq<string>): Values
    decreases |path|
  {
    if path == [] then m else LookUp(Index(m, path[0]), path[1..])
  }

  function Descend(node: Yaml, path: seq<string>): Yaml
    decreases |path|
  {
    if path == [] then node else Descend(Child(node, path[0]), path[1..])
  }

  /** Flattening preserves lookup along every path: a scalar is found with its text, a missing key with nothing. */
  lemma FlatteningPreservesLookup(node: Yaml, path: seq<string>, def: string)
    requires GoodTree(node) && path != [] && forall i :: 0 <= i < |path| ==> GoodKey(path[i])
    ensures var found, sub := LookUp(Parsed(node), path), Descend(node, path);
      && found == Flat(sub)
      && (sub.Scalar? ==> TextOf(found, def) == sub.text)
      && (sub.Null? ==> found == map[] && TextOf(found, def) == def)
  {
    GoodIsPlain(node);
    ParsedLookUp(node, path);
    PlainLookUp(node, path);
  }

  lemma {:induction false} GoodIsPlain(node: Yaml)
    requires GoodTree(node)
    ensures Tidy(node) && Plain(node)
    decreases node
  {
    if node.Mapping? {
      forall i | 0 <= i < |node.entries| ensures Tidy(node.entries[i].value) && PlainEntry(node.entries[i]) {
        GoodIsPlain(node.entries[i].value);
      }
      forall i | 0 <= i < |node.entries| ensures Head(node.entries[i].key) == node.entries[i].key {
        SplitHead(node.entries[i].key);
      }
    } else if node.Sequence? {
      forall i | 0 <= i < |node.items| ensures Tidy(node.items[i]) && Plain(node.items[i]) {
        GoodIsPlain(node.items[i]);
      }
    }
  }

  // ---- what dots in keys do ----

  ghost predicate GoodPath(path: seq<string>) {
    path != [] && forall i :: 0 <= i < |path| ==> GoodKey(path[i])
  }

  // Chained lookups find in the flat map what the tree holds.
  ghost predicate LookupsAgree(doc: Yaml) {
    forall path: seq<string> :: GoodPath(path) ==> LookUp(Parsed(doc), path) == Flat(Descend(doc, path))
  }

  function Single(key: string, node: Yaml): Yaml {
    Mapping([Entry(key, node)])
  }

  lemma ChildOfSingle(key: string, node: Yaml, other: string)
    ensures Child(Single(key, node), other) == if key == other then node else Null
  {
    var entries := [Entry(key, node)];
    assert entries[..0] == [] && Find([], other) == Null;
    assert Find(entries, other) == if entries[0].key == other then entries[0].value else Find(entries[..0], other);
  }

  lemma {:induction false} NothingBelow(path: seq<string>)
    ensures LookUp(map[], path) == map[] && Descend(Null, path) == Null
    decreases |path|
  {
    if path != [] {
      assert Index(map[], path[0]) == map[];
      NothingBelow(path[1..]);
    }
  }

  /** A lookup goes wrong: below a dotted key the flat map finds a node the tree does not have there. */
  lemma DottedLookupFails(p: string, k: string, node: Yaml)
    requires GoodKey(p) && GoodKey(k) && GoodTree(node)
    ensures LookUp(Parsed(Single(p + "." + k, node)), [p, k]) == Flat(node)
    ensures Descend(Single(p + "." + k, node), [p, k]) == Null
  {
    var nested := Single(p, Single(k, node));
    DottedIsNested(p, k, node);
    assert [p, k][1..] == [k] && [k][1..] == [];
    ChildOfSingle(p, Single(k, node), p);
    ChildOfSingle(k, node, k);
    assert Descend(nested, [p, k]) == Descend(Single(k, node), [k]) == Descend(node, []) == node;
    FlatteningPreservesLookup(nested, [p, k], "");
    ChildOfSingle(p + "." + k, node, p);
    NothingBelow([k]);
  }

  lemma {:induction false} SplitHead(s: string)
    ensures DotFree(Head(s)) && (DotFree(s) ==> Head(s) == s)
    ensures !DotFree(s) ==> |Head(s)| < |s| && s == Head(s) + "." + s[|Head(s)| + 1..]
    decreases |s|
  {
    if s != "" && s[0] != '.' {
      SplitHead(s[1..]);
      assert DotFree(s) <==> DotFree(s[1..]) by {
        assert forall i :: 0 <= i < |s[1..]| ==> s[1..][i] == s[i + 1];
        assert DotFree(s[1..]) ==> forall i :: 0 < i < |s| ==> s[i] == s[1..][i - 1] != '.';
      }
    }
  }

  lemma InIndex(m: Values, p: string, suffix: string)
    requires p + "." + suffix in m
    ensures Index(m, p) != map[]
  {
    assert suffix in Suffixes(m, p + ".");
    assert suffix in Index(m, p);
  }

  // A key with a dot inside makes what comes before the dot look like a parent.
  lemma PhantomEntries(p: string, rest: string, key: string, m: Values)
    requires key == p + "." + rest && m != map[]
    ensures Index(Prefixed(key, m), p) != map[]
  {
    var n :| n in m;
    InPrefixed(key, m, n);
    var suffix := if n == "" then rest else rest + "." + n;
    assert Full(key, n) == p + "." + suffix;
    InIndex(Prefixed(key, m), p, suffix);
  }

  lemma {:induction false} HeadOfSum(key: string, rest: string)
    requires rest == "" || rest[0] == '.'
    ensures Head(key + rest) == Head(key)
    decreases |key|
  {
    if key == "" {
      assert key + rest == rest;
    } else if key[0] != '.' {
      assert (key + rest)[1..] == key[1..] + rest;
      HeadOfSum(key[1..], rest);
    }
  }

  // Below a key everything has the head of the key.
  lemma HeadOfKeys(key: string, m: Values, full: string)
    requires key != "" && full in Prefixed(key, m)
    ensures Head(full) == Head(key)
  {
    var n := Nested(key, full);
    HeadOfSum(key, if n == "" then "" else "." + n);
    assert full == key + if n == "" then "" else "." + n;
  }

  lemma UntouchedByHead(key: string, m: Values, q: string)
    requires key != "" && GoodKey(q) && Head(key) != q
    ensures !Touches(Prefixed(key, m), q)
  {
    forall full | full in Prefixed(key, m) ensures Head(full) != q { HeadOfKeys(key, m, full); }
    HeadOfFull(q, "");
    forall k ensures Head(q + "." + k) == q {
      HeadIsKey(q, "." + k);
      assert q + ("." + k) == q + "." + k;
    }
  }

  // Keys are not empty, and no two start with the same segment, unless with an empty one.
  ghost predicate Apart(entries: seq<Entry>) {
    && (forall i :: 0 <= i < |entries| ==> entries[i].key != "")
    && (forall i, j {:trigger entries[i], entries[j]} :: 0 <= i < j < |entries| ==>
          Head(entries[i].key) != Head(entries[j].key) || Head(entries[i].key) == "")
  }

  ghost predicate Tidy(node: Yaml)
    decreases node
  {
    match node
    case Mapping(entries) => Apart(entries) && forall i :: 0 <= i < |entries| ==> Tidy(entries[i].value)
    case Sequence(items) => forall i :: 0 <= i < |items| ==> Tidy(items[i])
    case _ => true
  }

  // No dotted key that a lookup meets holds anything.
  ghost predicate Plain(node: Yaml)
    decreases node
  {
    match node
    case Mapping(entries) => forall i :: 0 <= i < |entries| ==> PlainEntry(entries[i])
    case Sequence(items) => forall i :: 0 <= i < |items| ==> Plain(items[i])
    case _ => true
  }

  ghost predicate PlainEntry(e: Entry)
    decreases e
  {
    if DotFree(e.key) then Plain(e.value) else Head(e.key) == "" || Flat(e.value) == map[]
  }

  // The entry whose first segment is q, or their number.
  function Owner(entries: seq<Entry>, q: string): (i: nat)
    ensures i <= |entries| && (i < |entries| ==> Head(entries[i].key) == q)
    ensures forall j :: 0 <= j < i ==> Head(entries[j].key) != q
  {
    if entries == [] || Head(entries[0].key) == q then 0 else 1 + Owner(entries[1..], q)
  }

  lemma FlatLast(entries: seq<Entry>, before: seq<Entry>, e: Entry)
    requires entries == before + [e] && e.key != ""
    ensures FlatEntries(entries) == FlatEntries(before) + Prefixed(e.key, Flat(e.value))
  {
    AddEntry(before, e);
  }

  lemma {:induction false} Unowned(entries: seq<Entry>, q: string)
    requires GoodKey(q) && forall i :: 0 <= i < |entries| ==> entries[i].key != "" && Head(entries[i].key) != q
    ensures !Touches(FlatEntries(entries), q)
    decreases |entries|
  {
    if entries != [] {
      var n := |entries| - 1;
      var e := entries[n];
      FlatLast(entries, entries[..n], e);
      Unowned(entries[..n], q);
      UntouchedByHead(e.key, Flat(e.value), q);
      UntouchedSum(FlatEntries(entries[..n]), Prefixed(e.key, Flat(e.value)), q);
    }
  }

  lemma IndexUnowned(entries: seq<Entry>, q: string)
    requires GoodKey(q) && forall i :: 0 <= i < |entries| ==> entries[i].key != "" && Head(entries[i].key) != q
    ensures !Touches(FlatEntries(entries), q) && Index(FlatEntries(entries), q) == map[]
  {
    Unowned(entries, q);
    UntouchedIndex(FlatEntries(entries), q);
  }

  lemma UntouchedSum(a: Values, b: Values, q: string)
    requires !Touches(a, q) && !Touches(b, q)
    ensures !Touches(a + b, q)
  {
  }

  lemma UntouchedIndex(m: Values, q: string)
    requires !Touches(m, q)
    ensures Index(m, q) == map[]
  {
  }

  lemma {:induction false} IndexOwned(entries: seq<Entry>, q: string, i: nat)
    requires Apart(entries) && GoodKey(q) && i < |entries| && Head(entries[i].key) == q
    ensures Index(FlatEntries(entries), q) == Index(Prefixed(entries[i].key, Flat(entries[i].value)), q)
    decreases |entries|
  {
    var n := |entries| - 1;
    var e := entries[n];
    var before, last := FlatEntries(entries[..n]), Prefixed(e.key, Flat(e.value));
    FlatLast(entries, entries[..n], e);
    if i == n {
      IndexUnowned(entries[..n], q);
      IndexRight(before, last, q);
    } else {
      IndexOwned(entries[..n], q, i);
      UntouchedByHead(e.key, Flat(e.value), q);
      IndexLeft(before, last, q);
    }
  }

  lemma {:induction false} FindOwned(entries: seq<Entry>, q: string)
    requires Apart(entries) && GoodKey(q)
    ensures var i := Owner(entries, q);
      Find(entries, q) == if i < |entries| && entries[i].key == q then entries[i].value else Null
    decreases |entries|
  {
    if entries != [] {
      var n, i := |entries| - 1, Owner(entries, q);
      SplitHead(q);
      OwnerOfFirst(entries, q, n);
      FindOwned(entries[..n], q);
    }
  }

  lemma OwnerOfFirst(entries: seq<Entry>, q: string, n: nat)
    requires n <= |entries|
    ensures Owner(entries[..n], q) == if Owner(entries, q) < n then Owner(entries, q) else n
  {
    assert forall j :: 0 <= j < n ==> entries[..n][j] == entries[j];
  }

  lemma DottedIndex(key: string, m: Values, q: string)
    requires Head(key) == q && !DotFree(key)
    ensures Index(Prefixed(key, m), q) == map[] <==> m == map[]
  {
    SplitHead(key);
    if m == map[] {
      assert Prefixed(key, m) == map[];
      UntouchedIndex(map[], q);
    } else {
      PhantomEntries(q, key[|q| + 1..], key, m);
    }
  }

  // The entry that answers for q, if it is dotted, answers wrongly exactly when it holds something.
  lemma EntryIndex(key: string, node: Yaml, q: string)
    requires GoodKey(q) && Head(key) == q
    ensures DotFree(key) ==> key == q && Index(Prefixed(key, Flat(node)), q) == Flat(node)
    ensures !DotFree(key) ==> key != q && (Index(Prefixed(key, Flat(node)), q) == map[] <==> Flat(node) == map[])
  {
    SplitHead(key);
    if DotFree(key) {
      IndexPrefixed(key, Flat(node));
    } else {
      DottedIndex(key, Flat(node), q);
    }
  }

  /** One lookup in a mapping goes wrong exactly at the head of a dotted key that holds something. */
  lemma MappingIndex(entries: seq<Entry>, q: string)
    requires Apart(entries) && GoodKey(q)
    ensures var i := Owner(entries, q);
      Index(FlatEntries(entries), q) == Flat(Child(Mapping(entries), q)) <==>
        i == |entries| || DotFree(entries[i].key) || Flat(entries[i].value) == map[]
  {
    var i := Owner(entries, q);
    FindOwned(entries, q);
    if i < |entries| {
      IndexOwned(entries, q, i);
      EntryIndex(entries[i].key, entries[i].value, q);
    } else {
      IndexUnowned(entries, q);
    }
  }

  // operator[] sees the same in a document as below it.
  lemma ParsedIndex(node: Yaml, q: string)
    requires GoodKey(q)
    ensures Index(Parsed(node), q) == Index(Flat(node), q)
    ensures !node.Mapping? ==> Index(Flat(node), q) == Flat(Child(node, q))
  {
    if node.Scalar? {
      OwnTextUntouched(node.text, q);
    } else if node.Sequence? {
      IndexSequence(node.items, q);
      IndexCounted(node.items, q);
      FlatOfSequence(node.items);
    }
  }

  lemma PlainIndex(node: Yaml, q: string)
    requires Tidy(node) && Plain(node) && GoodKey(q)
    ensures Index(Flat(node), q) == Flat(Child(node, q)) && Tidy(Child(node, q)) && Plain(Child(node, q))
  {
    ParsedIndex(node, q);
    if node.Mapping? {
      var i := Owner(node.entries, q);
      MappingIndex(node.entries, q);
      FindOwned(node.entries, q);
      if i < |node.entries| {
        SplitHead(node.entries[i].key);
        assert PlainEntry(node.entries[i]);
      }
    } else if node.Sequence? {
      ItemPlain(node.items, q);
    }
  }

  lemma {:induction false} ItemPlain(items: seq<Yaml>, q: string)
    requires forall i :: 0 <= i < |items| ==> Tidy(items[i]) && Plain(items[i])
    ensures Tidy(Item(items, q)) && Plain(Item(items, q))
    decreases |items|
  {
    if items != [] { ItemPlain(items[..|items| - 1], q); }
  }

  lemma {:induction false} PlainLookUp(node: Yaml, path: seq<string>)
    requires Tidy(node) && Plain(node) && forall i :: 0 <= i < |path| ==> GoodKey(path[i])
    ensures LookUp(Flat(node), path) == Flat(Descend(node, path))
    decreases |path|
  {
    if path != [] {
      PlainIndex(node, path[0]);
      PlainLookUp(Child(node, path[0]), path[1..]);
    }
  }

  // Where a lookup goes wrong.
  ghost predicate Wrong(node: Yaml, path: seq<string>) {
    GoodPath(path) && LookUp(Flat(node), path) != Flat(Descend(node, path))
  }

  lemma PathStep(m: Values, node: Yaml, q: string, path: seq<string>)
    ensures LookUp(m, [q] + path) == LookUp(Index(m, q), path)
    ensures Descend(node, [q] + path) == Descend(Child(node, q), path)
    ensures GoodKey(q) && GoodPath(path) ==> GoodPath([q] + path)
  {
    var all := [q] + path;
    assert all[0] == q && all[1..] == path;
    assert forall i :: 0 < i < |all| ==> all[i] == path[i - 1];
  }

  lemma WrongBelow(node: Yaml, q: string, child: Yaml, path: seq<string>)
    requires GoodKey(q) && Child(node, q) == child && Index(Flat(node), q) == Flat(child) && Wrong(child, path)
    ensures Wrong(node, [q] + path)
  {
    PathStep(Flat(node), node, q, path);
  }

  lemma WrongHere(entries: seq<Entry>, i: nat) returns (path: seq<string>)
    requires Apart(entries) && i < |entries|
    requires !DotFree(entries[i].key) && Head(entries[i].key) != "" && Flat(entries[i].value) != map[]
    ensures Wrong(Mapping(entries), path)
  {
    var q := Head(entries[i].key);
    SplitHead(entries[i].key);
    OwnerIs(entries, i);
    MappingIndex(entries, q);
    path := [q];
    assert path[1..] == [];
  }

  lemma OwnerIs(entries: seq<Entry>, i: nat)
    requires Apart(entries) && i < |entries| && Head(entries[i].key) != ""
    ensures Owner(entries, Head(entries[i].key)) == i
  {
    var o := Owner(entries, Head(entries[i].key));
    assert o <= i;
  }

  lemma ItemIs(items: seq<Yaml>, i: nat)
    requires i < |items|
    ensures Item(items, ToString(i)) == items[i]
    decreases |items|
  {
    var n := |items| - 1;
    if i < n {
      ItemIs(items[..n], i);
      if ToString(i) == ToString(n) { ToStringInjective(i, n); }
    }
  }

  lemma {:induction false} FindWrong(node: Yaml) returns (path: seq<string>)
    requires Tidy(node) && !Plain(node)
    ensures Wrong(node, path)
    decreases node
  {
    if node.Mapping? {
      var i :| 0 <= i < |node.entries| && !PlainEntry(node.entries[i]);
      var e := node.entries[i];
      if DotFree(e.key) {
        var rest := FindWrong(e.value);
        EntryReached(node.entries, i);
        WrongBelow(node, e.key, e.value, rest);
        path := [e.key] + rest;
      } else {
        path := WrongHere(node.entries, i);
      }
    } else {
      var i :| 0 <= i < |node.items| && !Plain(node.items[i]);
      var rest := FindWrong(node.items[i]);
      NumberKey(i);
      ItemIs(node.items, i);
      ParsedIndex(node, ToString(i));
      WrongBelow(node, ToString(i), node.items[i], rest);
      path := [ToString(i)] + rest;
    }
  }

  lemma EntryReached(entries: seq<Entry>, i: nat)
    requires Apart(entries) && i < |entries| && DotFree(entries[i].key)
    ensures GoodKey(entries[i].key)
    ensures Child(Mapping(entries), entries[i].key) == entries[i].value
    ensures Index(FlatEntries(entries), entries[i].key) == Flat(entries[i].value)
  {
    SplitHead(entries[i].key);
    OwnerIs(entries, i);
    FindOwned(entries, entries[i].key);
    MappingIndex(entries, entries[i].key);
  }

  lemma ParsedLookUp(doc: Yaml, path: seq<string>)
    requires GoodPath(path)
    ensures LookUp(Parsed(doc), path) == LookUp(Flat(doc), path)
  {
    ParsedIndex(doc, path[0]);
  }

  /** In a document whose keys have first segments of their own, all lookups agree with the tree exactly
      when no dotted key that a lookup meets holds anything. */
  lemma LookupsAgreeIff(doc: Yaml)
    requires Tidy(doc)
    ensures LookupsAgree(doc) <==> Plain(doc)
  {
    if Plain(doc) {
      forall path | GoodPath(path) ensures LookUp(Parsed(doc), path) == Flat(Descend(doc, path)) {
        ParsedLookUp(doc, path);
        PlainLookUp(doc, path);
      }
    } else {
      var path := FindWrong(doc);
      ParsedLookUp(doc, path);
    }
  }

  // ---- lists ----

  function Scalars(texts: seq<string>): (items: seq<Yaml>)
    ensures |items| == |texts| && forall i :: 0 <= i < |texts| ==> items[i] == Scalar(texts[i])
  {
    seq(|texts|, i requires 0 <= i < |texts| => Scalar(texts[i]))
  }

  /** A sequence of scalars comes back as the list of its elements, in order. */
  lemma ListsSurvive(texts: seq<string>, reservable: nat)
    requires |texts| < TWO_64 && |texts| <= reservable
    ensures ListOf(Flat(Sequence(Scalars(texts))), reservable) == Some(texts)
    ensures ListOf(Parsed(Sequence(Scalars(texts))), reservable) == Some(texts)
  {
    var items := Scalars(texts);
    forall i: nat | i < |texts| ensures HoldsAt(Counted(items), texts, i) && HoldsAt(Flat(Sequence(items)), texts, i) {
      ItemsHold(items, i);
      NumberKey(i);
    }
    ListedAll(Counted(items), texts, |texts|);
    ListedAll(Flat(Sequence(items)), texts, |texts|);
    ListOfSize(Counted(items), |texts|, reservable);
    ListOfSize(Flat(Sequence(items)), |texts|, reservable);
    assert texts[..|texts|] == texts;
  }

  /** A bare scalar is a list of one, unless it is empty; a missing value is an empty list. */
  lemma ScalarIsList(text: string, reservable: nat)
    ensures ListOf(Flat(Scalar(text)), reservable) == Some(if text == "" then [] else [text])
    ensures ListOf(Flat(Null), reservable) == ListOf(map[], reservable) == Some([])
  {
    assert "_size" !in Flat(Scalar(text));
  }

  // The pieces of a text between its commas.
  function Pieces(s: string): (pieces: seq<string>)
    ensures pieces != []
  {
    if s == "" then [""]
    else
      var n, front := |s| - 1, Pieces(s[..|s| - 1]);
      if s[n] == ',' then front + [""] else front[..|front| - 1] + [front[|front| - 1] + [s[n]]]
  }

  lemma {:induction false} OnePiece(x: string)
    requires ',' !in x
    ensures Pieces(x) == [x]
  {
    if x != "" {
      OnePiece(x[..|x| - 1]);
      assert x == x[..|x| - 1] + [x[|x| - 1]];
    }
  }

  lemma {:induction false} OneMorePiece(a: string, x: string)
    requires ',' !in x
    ensures Pieces(a + "," + x) == Pieces(a) + [x]
    decreases |x|
  {
    var s := a + "," + x;
    if x == "" {
      assert s[..|s| - 1] == a;
    } else {
      var y := x[..|x| - 1];
      OneMorePiece(a, y);
      assert s[..|s| - 1] == a + "," + y && x == y + [x[|x| - 1]];
    }
  }

  // The texts of the scalars among the items; nulls have none.
  function Texts(items: seq<Yaml>): seq<string> {
    if items == [] then []
    else
      var n := |items| - 1;
      Texts(items[..n]) + if items[n].Scalar? then [items[n].text] else []
  }

  lemma LastItem(items: seq<Yaml>, front: seq<Yaml>, last: Yaml)
    requires items == front + [last] && front != []
    ensures last.Scalar? ==>
      Joined(items) == Joined(front) + "," + last.text && Texts(items) == Texts(front) + [last.text]
    ensures !last.Scalar? ==> Joined(items) == Joined(front) && Texts(items) == Texts(front)
  {
    assert items[..|front|] == front;
    if last.Scalar? { assert Joined(front) + ("," + last.text) == Joined(front) + "," + last.text; }
  }

  lemma FirstItem(item: Yaml)
    ensures Joined([item]) == (if item.Scalar? then item.text else "")
    ensures Texts([item]) == if item.Scalar? then [item.text] else []
  {
    assert [item][..0] == [];
  }

  // A null at the front leaves an empty piece.
  lemma {:induction false} JoinedPieces(items: seq<Yaml>)
    requires items != [] && forall i :: 0 <= i < |items| && items[i].Scalar? ==> ',' !in items[i].text
    ensures Pieces(Joined(items)) == (if items[0].Scalar? then [] else [""]) + Texts(items)
  {
    var n := |items| - 1;
    var front, last := items[..n], items[n];
    if n == 0 {
      assert items == [last];
      FirstItem(last);
      OnePiece(Joined([last]));
    } else {
      assert items == front + [last];
      JoinedPieces(front);
      LastItem(items, front, last);
      if last.Scalar? { OneMorePiece(Joined(front), last.text); }
    }
  }

  /** Read as a string, a sequence of scalars and nulls comes apart at the commas into the texts of the
      scalars, behind an empty one where the first item is null. */
  lemma SequenceAsString(items: seq<Yaml>, def: string)
    requires items != [] && AllScalar(items)
    requires forall i :: 0 <= i < |items| && items[i].Scalar? ==> ',' !in items[i].text
    ensures Pieces(TextOf(Flat(Sequence(items)), def)) == (if items[0].Scalar? then [] else [""]) + Texts(items)
  {
    JoinedPieces(items);
  }

  lemma ListOfSize(m: Values, n: nat, reservable: nat)
    requires n < TWO_64 && n <= reservable && "_size" in m && m["_size"] == ToString(n)
    ensures ListOf(m, reservable) == Some(Listed(m, n))
  {
    StoullInvertsToString(n);
  }

  predicate HoldsAt(m: Values, texts: seq<string>, i: nat)
    requires i < |texts|
  {
    ToString(i) in m && m[ToString(i)] == texts[i]
  }

  lemma {:induction false} ItemsHold(items: seq<Yaml>, i: nat)
    requires i < |items| && forall j :: 0 <= j < |items| ==> items[j].Scalar?
    ensures ToString(i) in FlatItems(items) && FlatItems(items)[ToString(i)] == items[i].text
    decreases |items|
  {
    var n := |items| - 1;
    PrefixedOne(ToString(n), "", items[n].text);
    if i < n {
      ItemsHold(items[..n], i);
      if ToString(i) == ToString(n) { ToStringInjective(i, n); }
    }
  }

  lemma {:induction false} ListedAll(m: Values, texts: seq<string>, n: nat)
    requires n <= |texts| && forall i: nat :: i < n ==> HoldsAt(m, texts, i)
    ensures Listed(m, n) == texts[..n]
  {
    if n > 0 {
      ListedAll(m, texts, n - 1);
      assert HoldsAt(m, texts, n - 1);
    }
  }

  // ---- the program: values set one by one ----

  class ConfigValue {
    var values: Values

    constructor ()
      ensures values == map[]
    {
      values := map[];
    }

    method Set(key: string, value: string)
      modifies this
      ensures values == old(values)[key := value]
    {
      values := values[key := value];
    }

    // Adds another node's values below a key.
    method SetBelow(key: string, nested: Values)
      modifies this
      ensures values == old(values) + Prefixed(key, nested)
    {
      var left := nested.Keys;
      assert values == old(values) + Prefixed(key, Without(nested, left));
      while left != {}
        invariant left <= nested.Keys
        invariant values == old(values) + Prefixed(key, Without(nested, left))
      {
        var nk :| nk in left;
        OneMoreBelow(old(values), key, nested, left, nk);
        Set(if nk == "" then key else key + "." + nk, nested[nk]);
        left := left - {nk};
      }
      assert Without(nested, left) == nested;
    }

    // operator[]
    method At(key: string) returns (child: ConfigValue)
      ensures fresh(child) && child.values == Index(values, key)
    {
      child := new ConfigValue();
      if key in values { child.Set("", values[key]); }
      var prefix := key + ".";
      var left := values.Keys;
      while left != {}
        invariant left <= values.Keys
        invariant forall k :: k in child.values <==>
            (k == "" && key in values) || (prefix + k in values && prefix + k !in left)
        invariant forall k :: k in child.values ==>
            child.values[k] == if prefix + k in values && prefix + k !in left then values[prefix + k] else values[key]
      {
        var k :| k in left;
        if prefix <= k {
          assert k == prefix + k[|prefix|..];
          child.Set(k[|prefix|..], values[k]);
        }
        left := left - {k};
      }
      IndexAt(values, key, child.values);
    }

    method AsString(def: string) returns (text: string)
      ensures text == TextOf(values, def)
    {
      text := if "" in values then values[""] else def;
    }

    method AsList(reservable: nat) returns (list: Option<seq<string>>)
      ensures list == ListOf(values, reservable)
    {
      if "_size" !in values {
        return Some(if "" in values && values[""] != "" then [values[""]] else []);
      }
      var size := Stoull(values["_size"]);
      if size.None? { return Some([]); }
      if size.value > reservable { return None; }
      var result := [];
      for i := 0 to size.value
        invariant result == Listed(values, i)
      {
        if ToString(i) in values { result := result + [values[ToString(i)]]; }
      }
      list := Some(result);
    }
  }

  lemma IndexAt(m: Values, key: string, r: Values)
    requires forall k :: k in r <==> (k == "" && key in m) || key + "." + k in m
    requires forall k :: k in r ==> r[k] == if key + "." + k in m then m[key + "." + k] else m[key]
    ensures r == Index(m, key)
  {
  }

  function Without(m: Values, left: set<string>): Values {
    map k | k in m && k !in left :: m[k]
  }

  lemma WithoutLess(m: Values, left: set<string>, k: string)
    requires k in m && k in left
    ensures Without(m, left - {k}) == Without(m, left) + map[k := m[k]]
  {
  }

  lemma OneMoreBelow(base: Values, key: string, nested: Values, left: set<string>, nk: string)
    requires nk in nested && nk in left
    ensures (base + Prefixed(key, Without(nested, left)))[Full(key, nk) := nested[nk]] == base
        + Prefixed(key, Without(nested, left - {nk}))
  {
    WithoutLess(nested, left, nk);
    PrefixedSum(key, Without(nested, left), map[nk := nested[nk]]);
    PrefixedOne(key, nk, nested[nk]);
    SetIsSum(base, Prefixed(key, Without(nested, left)), Full(key, nk), nested[nk]);
  }

  lemma SetIsSum(base: Values, m: Values, k: string, v: string)
    ensures (base + m)[k := v] == base + (m + map[k := v])
  {
  }

  /** A whole document becomes the values Parsed describes. */
  method ParseConfigValue(node: Yaml) returns (cv: ConfigValue)
    ensures fresh(cv) && cv.values == Parsed(node)
    decreases node, 1
  {
    cv := new ConfigValue();
    match node
    case Null =>
    case Scalar(text) => cv.Set("", text);
    case Sequence(items) =>
      ParseSequenceInto(cv, "", items);
      assert map[] + FlatSequence("", items) == FlatSequence("", items);
    case Mapping(entries) =>
      for i := 0 to |entries|
        invariant cv.values == FlatEntries(entries[..i])
      {
        assert entries[..i + 1][..i] == entries[..i];
        ParseEntry(cv, entries[i].key, entries[i].value);
      }
      assert entries[..|entries|] == entries;
  }

  method ParseEntry(cv: ConfigValue, key: string, value: Yaml)
    modifies cv
    ensures cv.values == old(cv.values) + FlatEntry(key, value)
    decreases value, 2
  {
    if value.Scalar? {
      PrefixedOne(key, "", value.text);
      cv.Set(key, value.text);
    } else if value.Sequence? {
      ParseSequenceInto(cv, key, value.items);
      if key != "" { SequenceIsPrefixed(key, value.items); }
    } else if value.Mapping? {
      var nested := ParseConfigValue(value);
      cv.SetBelow(key, nested.values);
    } else {
      assert Prefixed(key, map[]) == map[];
    }
  }

  function Place(prefix: string, n: nat): string {
    if prefix == "" then ToString(n) else prefix + "." + ToString(n)
  }

  lemma UnderItem(prefix: string, n: nat, items: Values, item: Values)
    ensures Under(prefix, items + Prefixed(ToString(n), item)) == Under(prefix, items)
        + Prefixed(Place(prefix, n), item)
  {
    if prefix != "" {
      PrefixedSum(prefix, items, Prefixed(ToString(n), item));
      PrefixedTwice(prefix, ToString(n), item);
    }
  }

  lemma NextItem(base: Values, prefix: string, items: seq<Yaml>, i: nat)
    requires i < |items|
    ensures base + Under(prefix, FlatItems(items[..i + 1]))
         == base + Under(prefix, FlatItems(items[..i])) + FlatEntry(Place(prefix, i), items[i])
  {
    assert items[..i + 1][..i] == items[..i];
    UnderItem(prefix, i, FlatItems(items[..i]), Flat(items[i]));
    assert Place(prefix, i) != "";
    SumAssociates(base, Under(prefix, FlatItems(items[..i])), Prefixed(Place(prefix, i), Flat(items[i])));
  }

  lemma SumAssociates(a: Values, b: Values, c: Values)
    ensures a + b + c == a + (b + c)
  {
  }

  lemma SizeAndText(base: Values, prefix: string, items: seq<Yaml>)
    ensures var sized := (base + Under(prefix, FlatItems(items)))[SizeKey(prefix) := ToString(|items|)];
      base + FlatSequence(prefix, items) == if AllScalar(items) && prefix != "" then sized[prefix := Joined(items)]
          else sized
  {
    var under := Under(prefix, FlatItems(items));
    var size := ToString(|items|);
    SetIsSum(base, under, SizeKey(prefix), size);
    SetIsSum(base, under + map[SizeKey(prefix) := size], prefix, Joined(items));
  }

  method ParseSequenceInto(cv: ConfigValue, prefix: string, items: seq<Yaml>)
    modifies cv
    ensures cv.values == old(cv.values) + FlatSequence(prefix, items)
    decreases items, 1
  {
    var joined := ParseItems(cv, prefix, items);
    SizeAndText(old(cv.values), prefix, items);
    cv.Set(SizeKey(prefix), ToString(|items|));
    if joined.Some? && prefix != "" { cv.Set(prefix, joined.value); }
  }

  // The loop over the elements; the joined text unless all_scalar was cleared.
  method ParseItems(cv: ConfigValue, prefix: string, items: seq<Yaml>) returns (text: Option<string>)
    modifies cv
    ensures cv.values == old(cv.values) + Under(prefix, FlatItems(items))
    ensures text == if AllScalar(items) then Some(Joined(items)) else None
    decreases items, 0
  {
    var joined := "";
    var all_scalar := true;
    assert cv.values == old(cv.values) + Under(prefix, FlatItems([])) by { assert Under(prefix, map[]) == map[]; }
    for i := 0 to |items|
      invariant cv.values == old(cv.values) + Under(prefix, FlatItems(items[..i]))
      invariant joined == Joined(items[..i]) && all_scalar == AllScalar(items[..i])
    {
      NextItem(old(cv.values), prefix, items, i);
      ParseEntry(cv, Place(prefix, i), items[i]);
      joined, all_scalar := Note(items, i, joined, all_scalar);
    }
    assert items[..|items|] == items;
    text := if all_scalar then Some(joined) else None;
  }

  // One turn of the joined text and the all_scalar flag.
  method Note(items: seq<Yaml>, i: nat, joined: string, all_scalar: bool) returns (joined': string, all_scalar': bool)
    requires i < |items| && joined == Joined(items[..i]) && all_scalar == AllScalar(items[..i])
    ensures joined' == Joined(items[..i + 1]) && all_scalar' == AllScalar(items[..i + 1])
  {
    assert items[..i + 1][..i] == items[..i];
    joined', all_scalar' := joined, all_scalar;
    if items[i].Scalar? {
      if i > 0 { joined' := joined' + ","; }
      joined' := joined' + items[i].text;
    } else if items[i].Mapping? || items[i].Sequence? {
      all_scalar' := false;
    }
    assert items[..i + 1][i] == items[i];
    assert AllScalar(items[..i + 1]) ==> AllScalar(items[..i]) by {
      if AllScalar(items[..i + 1]) {
        forall j | 0 <= j < i ensures items[..i][j].Scalar? || items[..i][j].Null? {
          assert items[..i + 1][j] == items[..i][j];
        }
      }
    }
  }
}
