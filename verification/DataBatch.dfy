// src/core/engine/data_batch.h: InternString keeps one copy of each string in the arena.
module DataBatch {
  import opened Bits
  import opened Arena

  ghost function SumOfLengths(texts: seq<seq<Byte>>): nat {
    if texts == [] then 0 else SumOfLengths(texts[..|texts| - 1]) + |texts[|texts| - 1]|
  }

  // The cache holds the interned strings, each at a place of its own.
  ghost predicate Cached(cache: map<seq<Byte>, Region>, interned: seq<seq<Byte>>, places: seq<nat>,
          live: seq<Region>, texts: seq<seq<Byte>>) {
    && |interned| == |places| && |live| == |texts|
    && (forall s :: s in cache <==> s in interned)
    && (forall i :: 0 <= i < |interned| ==> Holds(i, cache, interned, places, live, texts))
    && (forall i, j :: 0 <= i < j < |places| ==> places[i] < places[j])
  }

  ghost predicate Holds(i: nat, cache: map<seq<Byte>, Region>, interned: seq<seq<Byte>>, places: seq<nat>,
          live: seq<Region>, texts: seq<seq<Byte>>)
    requires i < |interned| == |places| && |live| == |texts|
  {
    && places[i] < |live|
    && interned[i] != [] && interned[i] in cache && cache[interned[i]] == live[places[i]]
    && texts[places[i]] == interned[i]
  }

  lemma CachedMore(cache: map<seq<Byte>, Region>, interned: seq<seq<Byte>>, places: seq<nat>, live: seq<Region>,
          texts: seq<seq<Byte>>, s: seq<Byte>, r: Region)
    requires Cached(cache, interned, places, live, texts) && s != [] && s !in cache
    ensures Cached(cache[s := r], interned + [s], places + [|live|], live + [r], texts + [s])
  {
    var n, cache', interned', places' := |interned|, cache[s := r], interned + [s], places + [|live|];
    var live', texts' := live + [r], texts + [s];
    forall i | 0 <= i <= n ensures Holds(i, cache', interned', places', live', texts') {
      if i < n {
        assert Holds(i, cache, interned, places, live, texts);
        assert interned'[i] == interned[i] && places'[i] == places[i];
      }
    }
    forall i | 0 <= i < n ensures places[i] < |live| { assert Holds(i, cache, interned, places, live, texts); }
  }

  class Batch {
    const arena: Arena
    var intern_cache: map<seq<Byte>, Region>
    // The distinct strings in the order of their first use, and where each is among the live regions.
    ghost var interned: seq<seq<Byte>>
    ghost var places: seq<nat>

    ghost predicate Valid()
      reads this, arena, arena.blocks
    {
      arena.Valid() && Cached(intern_cache, interned, places, arena.live, arena.Texts())
    }

    // Nobody but InternString has used the arena.
    ghost predicate OnlyInterning()
      reads this, arena
    {
      |arena.live| == |places|
    }

    constructor (arena: Arena)
      requires arena.Valid()
      ensures Valid() && this.arena == arena && intern_cache == map[] && interned == []
    {
      this.arena, intern_cache, interned, places := arena, map[], [], [];
    }

    /** The view of a string: the same one for as long as the batch is not cleared. */
    method InternString(s: seq<Byte>, place: nat) returns (v: View)
      requires Valid()
      requires s != [] && s !in intern_cache && arena.Overflows(|s|, 4) ==>
          arena.Free(place, arena.NewBlockSize(|s|, 4))
      modifies this, arena, arena.blocks
      ensures Valid()
      ensures s == [] ==> v == Empty && intern_cache == old(intern_cache)
      ensures s != [] ==> s in intern_cache && v == At(intern_cache[s])
      ensures s != [] ==> intern_cache.Keys == old(intern_cache).Keys + {s}
      ensures forall t :: t in old(intern_cache) ==> t in intern_cache && intern_cache[t] == old(intern_cache)[t]
      ensures old(arena.live) <= arena.live && old(arena.Texts()) <= arena.Texts()
      ensures arena.total_allocated == old(arena.total_allocated) + if s == [] || s in old(intern_cache) then 0 else |s|
      ensures old(OnlyInterning()) ==> OnlyInterning()
      ensures forall i :: |old(arena.blocks)| <= i < |arena.blocks| ==> fresh(arena.blocks[i])
    {
      if s == [] { return Empty; }
      if s in intern_cache { return At(intern_cache[s]); }
      var r := Miss(s, place);
      v := At(r);
    }

    method Miss(s: seq<Byte>, place: nat) returns (r: Region)
      requires Valid() && s != [] && s !in intern_cache
      requires arena.Overflows(|s|, 4) ==> arena.Free(place, arena.NewBlockSize(|s|, 4))
      modifies this, arena, arena.blocks
      ensures Valid() && intern_cache == old(intern_cache)[s := r]
      ensures interned == old(interned) + [s] && places == old(places) + [|old(arena.live)|]
      ensures arena.live == old(arena.live) + [r] && arena.Texts() == old(arena.Texts()) + [s]
      ensures arena.total_allocated == old(arena.total_allocated) + |s|
      ensures forall i :: |old(arena.blocks)| <= i < |arena.blocks| ==> fresh(arena.blocks[i])
    {
      var v := arena.CopyString(s, place);
      r := v.region;
      Remember(s, r, old(arena.live), old(arena.Texts()));
    }

    // Enters a string that the arena has just copied.
    method Remember(s: seq<Byte>, r: Region, ghost live: seq<Region>, ghost texts: seq<seq<Byte>>)
      requires Cached(intern_cache, interned, places, live, texts) && s != [] && s !in intern_cache
      requires arena.Valid() && arena.live == live + [r] && arena.Texts() == texts + [s]
      modifies this
      ensures Valid() && intern_cache == old(intern_cache)[s := r]
      ensures interned == old(interned) + [s] && places == old(places) + [|live|]
    {
      CachedMore(intern_cache, interned, places, live, texts, s, r);
      intern_cache, interned, places := intern_cache[s := r], interned + [s], places + [|live|];
    }

    /** An interned string is where the cache says, and different strings are apart. */
    lemma ViewsAgree(s: seq<Byte>, t: seq<Byte>)
      requires Valid() && s in intern_cache && t in intern_cache
      ensures intern_cache[s] in arena.live && arena.Text(intern_cache[s]) == s
      ensures s != t ==> Disjoint(intern_cache[s], intern_cache[t]) && intern_cache[s] != intern_cache[t]
    {
      var i :| 0 <= i < |interned| && interned[i] == s;
      var j :| 0 <= j < |interned| && interned[j] == t;
      assert Holds(i, intern_cache, interned, places, arena.live, arena.Texts());
      assert Holds(j, intern_cache, interned, places, arena.live, arena.Texts());
      if i < j { assert places[i] < places[j]; }
      if j < i { assert places[j] < places[i]; }
    }

    /** With interning alone the arena grows by each distinct string once. */
    lemma TotalIsDistinct()
      requires Valid() && OnlyInterning()
      ensures arena.total_allocated == SumOfLengths(interned)
      ensures forall i, j :: 0 <= i < j < |interned| ==> interned[i] != interned[j]
      ensures forall s :: s in interned <==> s in intern_cache
    {
      forall i | 0 <= i < |places| ensures places[i] < |arena.live| {
        assert Holds(i, intern_cache, interned, places, arena.live, arena.Texts());
      }
      IncreasingIsIdentity(places, |arena.live|);
      forall i | 0 <= i < |interned| ensures arena.live[i].size == |interned[i]| {
        assert Holds(i, intern_cache, interned, places, arena.live, arena.Texts());
      }
      SumsAgree(arena.live, interned);
      forall i, j | 0 <= i < j < |interned| ensures interned[i] != interned[j] {
        assert Holds(i, intern_cache, interned, places, arena.live, arena.Texts());
        assert Holds(j, intern_cache, interned, places, arena.live, arena.Texts());
        assert Disjoint(arena.live[i], arena.live[j]);
      }
    }

    /** Clearing forgets every string and empties the arena. */
    method Clear()
      requires Valid()
      modifies this, arena
      ensures Valid() && intern_cache == map[] && interned == [] && OnlyInterning() && arena.total_allocated == 0
    {
      intern_cache, interned, places := map[], [], [];
      arena.Reset();
    }
  }

  lemma {:induction false} IncreasingIsIdentity(places: seq<nat>, n: nat)
    requires |places| == n
    requires forall i :: 0 <= i < n ==> places[i] < n
    requires forall i, j :: 0 <= i < j < n ==> places[i] < places[j]
    ensures forall i :: 0 <= i < n ==> places[i] == i
    decreases n
  {
    if n > 0 {
      assert forall i :: 0 <= i < n - 1 ==> places[i] < places[n - 1];
      IncreasingIsIdentity(places[..n - 1], n - 1);
      assert forall i :: 0 <= i < n - 1 ==> places[..n - 1][i] == places[i];
      if n > 1 { assert places[n - 2] < places[n - 1]; }
    }
  }

  lemma {:induction false} SumsAgree(live: seq<Region>, texts: seq<seq<Byte>>)
    requires |live| == |texts| && forall i :: 0 <= i < |live| ==> live[i].size == |texts[i]|
    ensures SumOfSizes(live) == SumOfLengths(texts)
    decreases |live|
  {
    if live != [] { SumsAgree(live[..|live| - 1], texts[..|texts| - 1]); }
  }
}
