// src/core/memory/arena.h: a bump allocator over blocks that malloc places.
module Arena {
  import opened Bits

  // malloc aligns blocks for std::max_align_t.
  const MAX_ALIGN: nat := 16
  const DEFAULT_BLOCK_SIZE: nat := 65536

  type Byte = bv8

  // An address and a length: which block, where in it, how many bytes.
  datatype Region = Region(block: nat, offset: nat, size: nat)

  // AlignUp: (offset + alignment - 1) & ~(alignment - 1) on 64-bit numbers.
  function AlignUp(offset: nat, k: nat): nat
    requires k <= WORD
  {
    And(offset + Pow2(k) - 1, HighMask(k, WORD))
  }

  ghost predicate IsMultiple(x: nat, a: nat)
    requires a > 0
  {
    x % a == 0
  }

  // r is the least multiple of a from an offset on.
  ghost predicate LeastFrom(r: nat, offset: nat, a: nat)
    requires a > 0
  {
    offset <= r < offset + a && IsMultiple(r, a) && forall m: nat :: offset <= m && IsMultiple(m, a) ==> r <= m
  }

  /** AlignUp is the least multiple of the alignment that is not below the offset. */
  lemma AlignUpLeast(offset: nat, k: nat)
    requires k <= WORD && offset + Pow2(k) - 1 < Pow2(WORD)
    ensures LeastFrom(AlignUp(offset, k), offset, Pow2(k))
  {
    var x := offset + Pow2(k) - 1;
    AlignUpClears(offset, k, x);
    LeastMultiple(offset, Pow2(k), x);
  }

  lemma AlignUpClears(offset: nat, k: nat, x: nat)
    requires k <= WORD && x == offset + Pow2(k) - 1 && x < Pow2(WORD)
    ensures AlignUp(offset, k) == x - x % Pow2(k)
  {
    AndHighMask(x, k, WORD);
  }

  lemma LeastMultiple(offset: nat, a: nat, x: nat)
    requires a > 0 && x == offset + a - 1
    ensures LeastFrom(x - x % a, offset, a)
  {
    RoundedDown(x, a);
    forall m: nat | offset <= m && IsMultiple(m, a) ensures x - x % a <= m {
      if m < x - x % a { CloseMultiples(m, x - x % a, a); }
    }
  }

  lemma RoundedDown(x: nat, a: nat)
    requires a > 0
    ensures x % a < a && IsMultiple(x - x % a, a)
  {
    DivModUnique(x - x % a, a, x / a, 0);
  }

  lemma CloseMultiples(m: nat, n: nat, a: nat)
    requires a > 0 && m < n && IsMultiple(m, a) && IsMultiple(n, a)
    ensures n - m >= a
  {
    if n - m < a { SlotUnique(m, n, a); }
  }

  lemma AlignUpZero(k: nat)
    requires k < WORD
    ensures AlignUp(0, k) == 0
  {
    Pow2Monotone(k, WORD);
    AlignUpLeast(0, k);
    assert IsMultiple(0, Pow2(k));
  }

  // ---- regions ----

  predicate Disjoint(r: Region, s: Region) {
    r.block != s.block || r.offset + r.size <= s.offset || s.offset + s.size <= r.offset
  }

  ghost function SumOfSizes(live: seq<Region>): nat {
    if live == [] then 0 else SumOfSizes(live[..|live| - 1]) + live[|live| - 1].size
  }

  // A string_view: nothing, or bytes in an arena.
  datatype View = Empty | At(region: Region)

  // malloc gives no block of 2^63 bytes or more.
  const HALF: nat := 0x8000_0000_0000_0000

  lemma HalfIsHalf()
    ensures HALF == 2 * Pow2(WORD - 2) && Pow2(WORD) == 4 * Pow2(WORD - 2)
  {
    Pow2Add(2, WORD - 2);
    assert Pow2(62) == 0x4000_0000_0000_0000 by { Sixtytwo(); }
  }

  lemma Sixtytwo()
    ensures Pow2(62) == 0x4000_0000_0000_0000
  {
    assert Pow2(16) == 0x1_0000;
    Pow2Add(16, 16);
    assert Pow2(15) == 0x8000;
    Pow2Add(15, 15);
    Pow2Add(32, 30);
  }

  class Arena {
    const block_size: nat
    var blocks: seq<array<Byte>>
    var bases: seq<nat>
    var current_offset: nat
    var total_allocated: nat
    ghost var live: seq<Region>

    ghost predicate Valid()
      reads this
    {
      && |blocks| == |bases| && |blocks| > 0
      && BlocksApart(blocks, bases)
      && current_offset <= blocks[|blocks| - 1].Length
      && LiveFits(live, blocks, current_offset)
      && total_allocated == SumOfSizes(live)
    }

    // Live regions are pairwise disjoint, in bounds and below the bump offset.
    static ghost predicate LiveFits(live: seq<Region>, blocks: seq<array<Byte>>, end: nat)
      requires |blocks| > 0
    {
      && (forall i :: 0 <= i < |live| ==> Fits(live[i], blocks, end))
      && (forall i, j :: 0 <= i < j < |live| ==> Disjoint(live[i], live[j]))
    }

    static ghost predicate Fits(r: Region, blocks: seq<array<Byte>>, end: nat)
      requires |blocks| > 0
    {
      r.block < |blocks| && r.offset + r.size <= blocks[r.block].Length
          && (r.block == |blocks| - 1 ==> r.offset + r.size <= end)
    }

    // What malloc promises.
    static ghost predicate BlocksApart(blocks: seq<array<Byte>>, bases: seq<nat>)
      requires |blocks| == |bases|
    {
      && (forall i :: 0 <= i < |bases| ==> IsMultiple(bases[i], MAX_ALIGN) && blocks[i].Length < HALF)
      && (forall i, j :: 0 <= i < j < |blocks| ==>
          blocks[i] != blocks[j] && Apart(bases[i], blocks[i].Length, bases[j], blocks[j].Length))
    }

    static predicate Apart(b: nat, n: nat, c: nat, m: nat) {
      b + n <= c || c + m <= b
    }

    ghost function Text(r: Region): seq<Byte>
      requires r.block < |blocks| && r.offset + r.size <= blocks[r.block].Length
      reads this, blocks
    {
      blocks[r.block][r.offset..r.offset + r.size]
    }

    // What the live regions hold.
    ghost function Texts(): (texts: seq<seq<Byte>>)
      requires Valid()
      reads this, blocks
      ensures |texts| == |live| && forall i :: 0 <= i < |live| ==> texts[i] == Text(live[i])
    {
      seq(|live|, i requires 0 <= i < |live| && Valid() reads this, blocks => Text(live[i]))
    }

    ghost function Address(r: Region): nat
      requires r.block < |bases|
      reads this
    {
      bases[r.block] + r.offset
    }

    // Where malloc may put a block of n bytes.
    ghost predicate Free(place: nat, n: nat)
      reads this
      requires |blocks| == |bases|
    {
      && n < HALF && IsMultiple(place, MAX_ALIGN)
      && forall i :: 0 <= i < |blocks| ==> Apart(bases[i], blocks[i].Length, place, n)
    }

    constructor (block_size: nat, place: nat)
      requires block_size < HALF && IsMultiple(place, MAX_ALIGN)
      ensures Valid() && fresh(blocks) && live == [] && this.block_size == block_size
      ensures |blocks| == 1 && blocks[0].Length == block_size && bases == [place] && current_offset == 0
    {
      this.block_size := block_size;
      var data := new Byte[block_size];
      blocks, bases, current_offset, total_allocated, live := [data], [place], 0, 0, [];
    }

    method AllocateBlock(size: nat, place: nat) returns (data: array<Byte>)
      requires Valid() && Free(place, size)
      modifies this`blocks, this`bases, this`current_offset
      ensures Valid() && current_offset == 0
      ensures fresh(data) && data.Length == size && blocks == old(blocks) + [data] && bases == old(bases) + [place]
      ensures Texts() == old(Texts())
    {
      data := new Byte[size];
      OneMoreBlock(blocks, bases, data, place);
      LiveFitsMore(live, blocks, current_offset, data);
      blocks, bases, current_offset := blocks + [data], bases + [place], 0;
      assert BlocksApart(blocks, bases) && LiveFits(live, blocks, 0);
      assert forall i :: 0 <= i < |live| ==> Text(live[i]) == old(Text(live[i]));
    }

    static lemma OneMoreBlock(blocks: seq<array<Byte>>, bases: seq<nat>, data: array<Byte>, place: nat)
      requires |blocks| == |bases| && BlocksApart(blocks, bases)
      requires data !in blocks && data.Length < HALF && IsMultiple(place, MAX_ALIGN)
      requires forall i :: 0 <= i < |blocks| ==> Apart(bases[i], blocks[i].Length, place, data.Length)
      ensures BlocksApart(blocks + [data], bases + [place])
    {
    }

    static lemma LiveFitsMore(live: seq<Region>, blocks: seq<array<Byte>>, end: nat, data: array<Byte>)
      requires |blocks| > 0 && LiveFits(live, blocks, end)
      ensures LiveFits(live, blocks + [data], 0)
    {
      forall i | 0 <= i < |live| ensures Fits(live[i], blocks + [data], 0) {
        assert Fits(live[i], blocks, end);
      }
    }

    static lemma LiveFitsNew(live: seq<Region>, blocks: seq<array<Byte>>, end: nat, r: Region)
      requires |blocks| > 0 && LiveFits(live, blocks, end)
      requires r.block == |blocks| - 1 && end <= r.offset && r.offset + r.size <= blocks[r.block].Length
      ensures LiveFits(live + [r], blocks, r.offset + r.size)
    {
      forall i | 0 <= i < |live| ensures Fits(live[i], blocks, r.offset + r.size) && Disjoint(live[i], r) {
        assert Fits(live[i], blocks, end);
      }
    }

    // A block for the request and its alignment, or a default one if that is larger.
    function NewBlockSize(size: nat, k: nat): nat {
      if block_size < size + Pow2(k) then size + Pow2(k) else block_size
    }

    predicate Overflows(size: nat, k: nat)
      reads this
      requires |blocks| > 0 && k <= WORD
    {
      AlignUp(current_offset, k) + size > blocks[|blocks| - 1].Length
    }

    /** A new live region of the asked size and alignment, away from all others. */
    method Allocate(size: nat, k: nat, place: nat) returns (r: Region)
      requires Valid() && k < WORD - 1
      requires Overflows(size, k) ==> Free(place, NewBlockSize(size, k))
      modifies this`blocks, this`bases, this`current_offset, this`total_allocated, this`live
      ensures Valid() && live == old(live) + [r]
      ensures r.size == size && IsMultiple(r.offset, Pow2(k))
      ensures r.block < |bases| && (k <= 4 ==> IsMultiple(Address(r), Pow2(k)))
      ensures total_allocated == old(total_allocated) + size
      ensures Texts()[..|old(live)|] == old(Texts())
      ensures old(blocks) <= blocks && old(bases) <= bases
          && (forall i :: |old(blocks)| <= i < |blocks| ==> fresh(blocks[i]))
      ensures |blocks| == |old(blocks)| + if old(Overflows(size, k)) then 1 else 0
      ensures r.block == |blocks| - 1 && current_offset == r.offset + size
      ensures !old(Overflows(size, k)) ==> r.offset == AlignUp(old(current_offset), k)
      ensures old(Overflows(size, k)) ==>
        && r.offset == 0 && bases[r.block] == place
        && blocks[r.block].Length >= block_size && blocks[r.block].Length >= size + Pow2(k)
        && (blocks[r.block].Length == block_size || blocks[r.block].Length == size + Pow2(k))
    {
      r := Reserve(size, k, place);
      Push(r);
      LiveAligned(r, k);
    }

    lemma LiveAligned(r: Region, k: nat)
      requires Valid() && r in live && IsMultiple(r.offset, Pow2(k))
      ensures r.block < |bases| && (k <= 4 ==> IsMultiple(Address(r), Pow2(k)))
    {
      LiveInBounds(r);
      AlignedAddress(bases[r.block], r.offset, k);
    }

    lemma LiveInBounds(r: Region)
      requires Valid() && r in live
      ensures r.block < |blocks| && r.offset + r.size <= blocks[r.block].Length && IsMultiple(bases[r.block], MAX_ALIGN)
    {
      var i :| 0 <= i < |live| && live[i] == r;
      assert Fits(live[i], blocks, current_offset);
    }

    // Room for a region in the last block, which may have to be added first.
    method Reserve(size: nat, k: nat, place: nat) returns (r: Region)
      requires Valid() && k < WORD - 1
      requires Overflows(size, k) ==> Free(place, NewBlockSize(size, k))
      modifies this`blocks, this`bases, this`current_offset
      ensures Valid() && Texts() == old(Texts())
      ensures r.block == |blocks| - 1 && r.offset >= current_offset && r.offset + r.size <= blocks[r.block].Length
      ensures r.size == size && IsMultiple(r.offset, Pow2(k))
      ensures old(blocks) <= blocks && old(bases) <= bases
          && (forall i :: |old(blocks)| <= i < |blocks| ==> fresh(blocks[i]))
      ensures |blocks| == |old(blocks)| + if old(Overflows(size, k)) then 1 else 0
      ensures !old(Overflows(size, k)) ==> r.offset == AlignUp(old(current_offset), k)
      ensures old(Overflows(size, k)) ==>
        r.offset == 0 && bases[r.block] == place && blocks[r.block].Length == NewBlockSize(size, k)
    {
      var aligned_offset, fits := Place(size, k);
      if !fits {
        aligned_offset := Restart(size, k, place);
      }
      r := Region(|blocks| - 1, aligned_offset, size);
    }

    method Place(size: nat, k: nat) returns (offset: nat, fits: bool)
      requires Valid() && k < WORD - 1
      ensures fits <==> !Overflows(size, k)
      ensures current_offset <= offset && IsMultiple(offset, Pow2(k))
      ensures fits ==> offset + size <= blocks[|blocks| - 1].Length
      ensures offset == AlignUp(current_offset, k)
    {
      offset := NextOffset(k);
      fits := offset + size <= blocks[|blocks| - 1].Length;
    }

    // A new block, and the first aligned offset in it.
    method Restart(size: nat, k: nat, place: nat) returns (offset: nat)
      requires Valid() && k < WORD - 1 && Free(place, NewBlockSize(size, k))
      modifies this`blocks, this`bases, this`current_offset
      ensures Valid() && Texts() == old(Texts()) && current_offset == 0
      ensures offset + size <= blocks[|blocks| - 1].Length && IsMultiple(offset, Pow2(k))
      ensures old(blocks) <= blocks && old(bases) <= bases && |blocks| == |old(blocks)| + 1
      ensures fresh(blocks[|old(blocks)|]) && offset == 0 && bases[|blocks| - 1] == place
      ensures blocks[|blocks| - 1].Length == NewBlockSize(size, k)
    {
      var _ := AllocateBlock(NewBlockSize(size, k), place);
      AlignUpZero(k);
      offset := NextOffset(k);
    }

    method NextOffset(k: nat) returns (offset: nat)
      requires Valid() && k < WORD - 1
      ensures offset == AlignUp(current_offset, k) && current_offset <= offset && IsMultiple(offset, Pow2(k))
    {
      RoomToAlign(k);
      AlignUpLeast(current_offset, k);
      offset := AlignUp(current_offset, k);
    }

    method Push(r: Region)
      requires Valid() && r.block == |blocks| - 1 && r.offset >= current_offset
          && r.offset + r.size <= blocks[r.block].Length
      modifies this`current_offset, this`total_allocated, this`live
      ensures Valid() && live == old(live) + [r] && total_allocated == old(total_allocated) + r.size
      ensures Texts()[..|old(live)|] == old(Texts()) && current_offset == r.offset + r.size
    {
      LiveFitsNew(live, blocks, current_offset, r);
      current_offset := r.offset + r.size;
      total_allocated := total_allocated + r.size;
      live := live + [r];
      assert live[..|live| - 1] == old(live);
    }

    lemma RoomToAlign(k: nat)
      requires Valid() && k < WORD - 1
      ensures current_offset + Pow2(k) - 1 < Pow2(WORD)
    {
      Pow2Monotone(k, WORD - 2);
      HalfIsHalf();
    }

    /** No two live regions share an address. */
    lemma LiveApart(i: nat, j: nat)
      requires Valid() && i < j < |live|
      ensures Apart(Address(live[i]), live[i].size, Address(live[j]), live[j].size)
    {
    }

    /** A copy holds the bytes it was made of, and no earlier region changes. */
    method CopyString(src: seq<Byte>, place: nat) returns (v: View)
      requires Valid()
      requires Overflows(|src|, 4) ==> Free(place, NewBlockSize(|src|, 4))
      modifies this`blocks, this`bases, this`current_offset, this`total_allocated, this`live, blocks
      ensures Valid() && old(blocks) <= blocks && old(bases) <= bases
      ensures src == [] ==> v == Empty && live == old(live) && Texts() == old(Texts())
      ensures src != [] ==> v.At? && live == old(live) + [v.region] && Texts() == old(Texts()) + [src]
      ensures total_allocated == old(total_allocated) + |src|
      ensures (forall i :: |old(blocks)| <= i < |blocks| ==> fresh(blocks[i]))
    {
      if src == [] { return Empty; }
      var dst := Allocate(|src|, 4, place);
      Fill(dst, blocks[dst.block], src);
      v := At(dst);
    }

    method Fill(dst: Region, data: array<Byte>, src: seq<Byte>)
      requires Valid() && live != [] && dst == live[|live| - 1] && |src| == dst.size && data == blocks[dst.block]
      modifies data
      ensures Texts() == old(Texts())[..|live| - 1] + [src]
    {
      Memcpy(data, dst.offset, src);
      forall i | 0 <= i < |live| - 1 ensures Text(live[i]) == old(Text(live[i])) {
        assert Disjoint(live[i], dst);
        assert live[i].block != dst.block ==> blocks[live[i].block] != data;
      }
    }

    static method Memcpy(data: array<Byte>, offset: nat, src: seq<Byte>)
      requires offset + |src| <= data.Length
      modifies data
      ensures data[offset..offset + |src|] == src
      ensures data[..offset] == old(data[..offset]) && data[offset + |src|..] == old(data[offset + |src|..])
      ensures forall p :: 0 <= p < data.Length && !(offset <= p < offset + |src|) ==> data[p] == old(data[p])
    {
      for n := 0 to |src|
        invariant data[offset..offset + n] == src[..n]
        invariant forall p :: 0 <= p < data.Length && !(offset <= p < offset + n) ==> data[p] == old(data[p])
      {
        data[offset + n] := src[n];
      }
    }

    /** Only the first block stays, and nothing is live. */
    method Reset()
      requires Valid()
      modifies this`blocks, this`bases, this`current_offset, this`total_allocated, this`live
      ensures Valid() && live == [] && total_allocated == 0 && current_offset == 0
      ensures blocks == old(blocks)[..1] && bases == old(bases)[..1]
    {
      live, total_allocated, current_offset := [], 0, 0;
      while |blocks| > 1
        invariant live == [] && total_allocated == 0 && current_offset == 0
        invariant 1 <= |blocks| == |bases| <= |old(blocks)|
        invariant blocks == old(blocks)[..|blocks|] && bases == old(bases)[..|bases|]
      {
        blocks := blocks[..|blocks| - 1];
        bases := bases[..|bases| - 1];
      }
    }
  }

  // ---- absolute alignment ----

  /** An address inside a block is aligned exactly when the block is; malloc settles that up to 16. */
  lemma AlignedAddress(base: nat, offset: nat, k: nat)
    requires IsMultiple(base, MAX_ALIGN) && IsMultiple(offset, Pow2(k))
    ensures IsMultiple(base + offset, Pow2(k)) <==> IsMultiple(base, Pow2(k))
    ensures k <= 4 ==> IsMultiple(base + offset, Pow2(k))
  {
    var a := Pow2(k);
    SumOfMultiples(base, offset, a);
    if k <= 4 {
      Pow2Add(4 - k, k);
      MultipleOfProduct(base, Pow2(4 - k), a);
    }
  }

  lemma SumOfMultiples(x: nat, y: nat, a: nat)
    requires a > 0 && IsMultiple(y, a)
    ensures IsMultiple(x + y, a) <==> IsMultiple(x, a)
  {
    assert x + y == (x / a + y / a) * a + x % a;
    DivModUnique(x + y, a, x / a + y / a, x % a);
  }

  lemma MultipleOfProduct(x: nat, m: nat, a: nat)
    requires m > 0 && a > 0 && m * a > 0 && IsMultiple(x, m * a)
    ensures IsMultiple(x, a)
  {
    var q := x / (m * a);
    assert x == q * (m * a) == (q * m) * a;
    DivModUnique(x, a, q * m, 0);
  }

  // What malloc's own alignment is worth for an alignment of 2^k.
  ghost predicate MallocAligns(k: nat) {
    forall base: nat, offset: nat {:trigger IsMultiple(base, MAX_ALIGN), IsMultiple(offset, Pow2(k))} ::
      IsMultiple(base, MAX_ALIGN) && IsMultiple(offset, Pow2(k)) ==> IsMultiple(base + offset, Pow2(k))
  }

  lemma SixteenIsNot(k: nat)
    requires k > 4
    ensures !IsMultiple(16, Pow2(k))
  {
    Pow2Monotone(5, k);
    assert Pow2(5) == 32;
    DivModUnique(16, Pow2(k), 0, 16);
  }

  /** Aligned offsets give aligned addresses exactly for alignments up to 16. */
  lemma AlignedIffSmall(k: nat)
    ensures MallocAligns(k) <==> k <= 4
  {
    if k <= 4 {
      forall base: nat, offset: nat | IsMultiple(base, MAX_ALIGN) && IsMultiple(offset, Pow2(k))
        ensures IsMultiple(base + offset, Pow2(k))
      {
        AlignedAddress(base, offset, k);
      }
    } else {
      SixteenIsNot(k);
      assert IsMultiple(16, MAX_ALIGN) && IsMultiple(0, Pow2(k));
      assert !IsMultiple(16 + 0, Pow2(k));
    }
  }

  /** For every larger alignment there is an arena, its block at address 16, whose Allocate misses it. */
  method OverAligned(k: nat) returns (arena: Arena, r: Region)
    requires 4 < k < WORD - 1
    ensures arena.Valid() && r in arena.live && !IsMultiple(arena.Address(r), Pow2(k))
  {
    arena := new Arena(DEFAULT_BLOCK_SIZE, 16);
    AlignUpZero(k);
    r := arena.Allocate(1, k, 0);
    arena.LiveInBounds(r);
    SixteenIsNot(k);
    SumOfMultiples(16, r.offset, Pow2(k));
  }
}
