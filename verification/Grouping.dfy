// What merging by key means, whatever the key: every key once, with the sum of its counts.
module Grouping {

  datatype Item<K> = Item(key: K, count: nat)

  ghost function CountOf<K>(items: seq<Item<K>>, key: K): nat {
    if items == [] then 0
    else
      var last := items[|items| - 1];
      CountOf(items[..|items| - 1], key) + if last.key == key then last.count else 0
  }

  ghost function Total<K>(items: seq<Item<K>>): nat {
    if items == [] then 0 else Total(items[..|items| - 1]) + items[|items| - 1].count
  }

  ghost predicate HasKey<K>(items: seq<Item<K>>, key: K) {
    exists i :: 0 <= i < |items| && items[i].key == key
  }

  ghost predicate DistinctKeys<K>(items: seq<Item<K>>) {
    forall i, j :: 0 <= i < j < |items| ==> items[i].key != items[j].key
  }

  // groups is items merged by key.
  ghost predicate Grouped<K>(items: seq<Item<K>>, groups: seq<Item<K>>) {
    && DistinctKeys(groups)
    && (forall i :: 0 <= i < |items| ==> HasKey(groups, items[i].key))
    && (forall i :: 0 <= i < |groups| ==>
        HasKey(items, groups[i].key) && groups[i].count == CountOf(items, groups[i].key))
  }

  ghost function SumOver<K>(groups: seq<Item<K>>, items: seq<Item<K>>): nat {
    if groups == [] then 0 else SumOver(groups[..|groups| - 1], items) + CountOf(items, groups[|groups| - 1].key)
  }

  lemma {:induction false} SumOverStep<K>(groups: seq<Item<K>>, items: seq<Item<K>>, last: Item<K>)
    requires DistinctKeys(groups)
    ensures SumOver(groups, items + [last]) == SumOver(groups, items) + if HasKey(groups, last.key) then last.count
        else 0
    decreases |groups|
  {
    assert (items + [last])[..|items|] == items;
    if groups != [] {
      var n := |groups| - 1;
      SumOverStep(groups[..n], items, last);
      assert HasKey(groups, last.key) <==> HasKey(groups[..n], last.key) || groups[n].key == last.key by {
        KeyOfLast(groups, last.key);
      }
      assert groups[n].key == last.key ==> !HasKey(groups[..n], last.key);
    }
  }

  lemma KeyOfLast<K>(items: seq<Item<K>>, key: K)
    requires items != []
    ensures HasKey(items, key) <==> HasKey(items[..|items| - 1], key) || items[|items| - 1].key == key
  {
    var n := |items| - 1;
    assert forall i :: 0 <= i < n ==> items[..n][i] == items[i];
  }

  lemma {:induction false} SumOverIsTotal<K>(groups: seq<Item<K>>, items: seq<Item<K>>)
    requires DistinctKeys(groups) && forall i :: 0 <= i < |items| ==> HasKey(groups, items[i].key)
    ensures SumOver(groups, items) == Total(items)
    decreases |items|
  {
    if items == [] {
      NothingToSum(groups, items);
    } else {
      var n := |items| - 1;
      assert items == items[..n] + [items[n]];
      SumOverIsTotal(groups, items[..n]);
      SumOverStep(groups, items[..n], items[n]);
    }
  }

  lemma {:induction false} NothingToSum<K>(groups: seq<Item<K>>, items: seq<Item<K>>)
    requires items == []
    ensures SumOver(groups, items) == 0
    decreases |groups|
  {
    if groups != [] { NothingToSum(groups[..|groups| - 1], items); }
  }

  lemma {:induction false} SumOverIsGroups<K>(groups: seq<Item<K>>, items: seq<Item<K>>)
    requires forall i :: 0 <= i < |groups| ==> groups[i].count == CountOf(items, groups[i].key)
    ensures SumOver(groups, items) == Total(groups)
    decreases |groups|
  {
    if groups != [] { SumOverIsGroups(groups[..|groups| - 1], items); }
  }

  /** Merging keeps the total count. */
  lemma GroupedKeepsTotal<K>(items: seq<Item<K>>, groups: seq<Item<K>>)
    requires Grouped(items, groups)
    ensures Total(groups) == Total(items)
  {
    SumOverIsTotal(groups, items);
    SumOverIsGroups(groups, items);
  }

  lemma {:induction false} CountOfDistinct<K>(items: seq<Item<K>>, i: nat)
    requires DistinctKeys(items) && i < |items|
    ensures CountOf(items, items[i].key) == items[i].count
    decreases |items|
  {
    var n := |items| - 1;
    if i < n {
      CountOfDistinct(items[..n], i);
    } else {
      CountOfAbsent(items[..n], items[n].key);
    }
  }

  lemma {:induction false} CountOfAbsent<K>(items: seq<Item<K>>, key: K)
    requires !HasKey(items, key)
    ensures CountOf(items, key) == 0
    decreases |items|
  {
    if items != [] {
      KeyOfLast(items, key);
      CountOfAbsent(items[..|items| - 1], key);
    }
  }

  /** Two ways of merging the same items differ in order only. */
  lemma GroupedUnique<K>(items: seq<Item<K>>, g: seq<Item<K>>, h: seq<Item<K>>)
    requires Grouped(items, g) && Grouped(items, h)
    ensures forall x :: x in g <==> x in h
  {
    GroupedWithin(items, g, h);
    GroupedWithin(items, h, g);
  }

  lemma GroupedWithin<K>(items: seq<Item<K>>, g: seq<Item<K>>, h: seq<Item<K>>)
    requires Grouped(items, g) && Grouped(items, h)
    ensures forall x :: x in g ==> x in h
  {
    forall x | x in g ensures x in h {
      var i :| 0 <= i < |g| && g[i] == x;
      var k :| 0 <= k < |items| && items[k].key == x.key;
      assert HasKey(h, items[k].key);
      var j :| 0 <= j < |h| && h[j].key == x.key;
      assert h[j] == x;
    }
  }

  lemma GroupedItself<K>(items: seq<Item<K>>)
    requires DistinctKeys(items)
    ensures Grouped(items, items)
  {
    forall i | 0 <= i < |items| ensures HasKey(items, items[i].key) && items[i].count == CountOf(items, items[i].key) {
      CountOfDistinct(items, i);
    }
  }

  /** Merging what is merged changes nothing but the order. */
  lemma GroupedIdempotent<K>(items: seq<Item<K>>, g: seq<Item<K>>, h: seq<Item<K>>)
    requires Grouped(items, g) && Grouped(g, h)
    ensures forall x :: x in g <==> x in h
  {
    GroupedItself(g);
    GroupedUnique(g, g, h);
  }

  lemma {:induction false} DistinctSize<K>(items: seq<Item<K>>)
    requires DistinctKeys(items)
    ensures |set x | x in items| == |items|
    decreases |items|
  {
    if items != [] {
      var n := |items| - 1;
      DistinctSize(items[..n]);
      assert (set x | x in items) == (set x | x in items[..n]) + {items[n]};
      assert items[n] !in items[..n];
    }
  }

  lemma SameElementsSameLength<K>(g: seq<Item<K>>, h: seq<Item<K>>)
    requires DistinctKeys(g) && DistinctKeys(h) && forall x :: x in g <==> x in h
    ensures |g| == |h|
  {
    DistinctSize(g);
    DistinctSize(h);
    assert (set x | x in g) == (set x | x in h);
  }

  // ---- reading out a map whose entries know their keys ----

  // out holds the entries that are not left, once each.
  ghost predicate Read<V>(keyOf: V -> string, entries: map<string, V>, left: set<string>, out: seq<V>) {
    && (forall k :: 0 <= k < |out| ==>
          keyOf(out[k]) in entries && keyOf(out[k]) !in left && entries[keyOf(out[k])] == out[k])
    && (forall k, l :: 0 <= k < l < |out| ==> keyOf(out[k]) != keyOf(out[l]))
    && (forall key :: key in entries && key !in left ==> entries[key] in out)
  }

  lemma ReadMore<V>(keyOf: V -> string, entries: map<string, V>, left: set<string>, out: seq<V>, key: string)
    requires Read(keyOf, entries, left, out) && key in left && key in entries && keyOf(entries[key]) == key
    ensures Read(keyOf, entries, left - {key}, out + [entries[key]])
  {
  }

  /** Every entry once; the order in which the map is read does not matter. */
  method ReadOut<V>(ghost keyOf: V -> string, entries: map<string, V>) returns (out: seq<V>)
    requires forall key :: key in entries ==> keyOf(entries[key]) == key
    ensures Read(keyOf, entries, {}, out)
  {
    out := [];
    var left := entries.Keys;
    while left != {}
      invariant left <= entries.Keys
      invariant Read(keyOf, entries, left, out)
    {
      var key :| key in left;
      ReadMore(keyOf, entries, left, out, key);
      out := out + [entries[key]];
      left := left - {key};
    }
  }
}
