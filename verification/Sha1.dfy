// src/server/websocket_server.h, detail::Sha1: streaming SHA-1 against the one-shot
// definition of RFC 3174.
module Sha1 {
  import Bits
  import opened Wrappers

  type word = bv32

  // ---- RFC 3174 ----

  datatype Hash = Hash(a: word, b: word, c: word, d: word, e: word)

  const H0 := Hash(0x67452301, 0xEFCDAB89, 0x98BADCFE, 0x10325476, 0xC3D2E1F0)

  // The circular left shift of section 3.
  function RotL(x: word, n: nat): word
    requires n < 32
  {
    x.RotateLeft(n)
  }

  // Section 5.
  function F(t: nat, b: word, c: word, d: word): word {
    if t < 20 then (b & c) | (!b & d)
    else if t < 40 then b ^ c ^ d
    else if t < 60 then (b & c) | (b & d) | (c & d)
    else b ^ c ^ d
  }

  function K(t: nat): word {
    if t < 20 then 0x5A827999 else if t < 40 then 0x6ED9EBA1 else if t < 60 then 0x8F1BBCDC else 0xCA62C1D6
  }

  function Join(b0: bv8, b1: bv8, b2: bv8, b3: bv8): word {
    ((b0 as word) << 24) | ((b1 as word) << 16) | ((b2 as word) << 8) | (b3 as word)
  }

  function Expand(w3: word, w8: word, w14: word, w16: word): word {
    RotL(w3 ^ w8 ^ w14 ^ w16, 1)
  }

  // Section 6.1, steps a and b.
  function Word(block: seq<bv8>, t: nat): word
    requires |block| == 64
  {
    if t < 16 then Join(block[t * 4], block[t * 4 + 1], block[t * 4 + 2], block[t * 4 + 3])
    else
      Expand(Word(block, t - 3), Word(block, t - 8), Word(block, t - 14), Word(block, t - 16))
  }

  function Temp(s: Hash, t: nat, w: word): word {
    RotL(s.a, 5) + F(t, s.b, s.c, s.d) + s.e + K(t) + w
  }

  // Step d, once and t times.
  function Round(s: Hash, t: nat, w: word): Hash {
    Hash(Temp(s, t, w), s.a, RotL(s.b, 30), s.c, s.d)
  }

  function Rounds(block: seq<bv8>, h: Hash, t: nat): Hash
    requires |block| == 64
  {
    if t == 0 then h else Round(Rounds(block, h, t - 1), t - 1, Word(block, t - 1))
  }

  function Add(h: Hash, s: Hash): Hash {
    Hash(h.a + s.a, h.b + s.b, h.c + s.c, h.d + s.d, h.e + s.e)
  }

  // Steps c to e.
  function Compress(h: Hash, block: seq<bv8>): Hash
    requires |block| == 64
  {
    Add(h, Rounds(block, h, 80))
  }

  function CompressAll(h: Hash, m: seq<bv8>): Hash
    requires |m| % 64 == 0
    decreases |m|
  {
    if m == [] then h else CompressAll(Compress(h, m[..64]), m[64..])
  }

  function Zeros(n: nat): (z: seq<bv8>)
    ensures |z| == n
  {
    seq(n, _ => 0)
  }

  // The length as 8 octets, most significant first.
  function LengthOctets(bits: nat, k: nat): (r: seq<bv8>)
    ensures |r| == k
  {
    if k == 0 then [] else LengthOctets(bits / 256, k - 1) + [(bits % 256) as bv8]
  }

  // The fewest zero octets that leave room for the length at the end of a block.
  function PadZeros(n: nat): (z: nat)
    ensures z < 64 && (n + 1 + z) % 64 == 56
  {
    (119 - n % 64) % 64
  }

  lemma PaddedLength(n: nat)
    ensures (n + 1 + PadZeros(n) + 8) % 64 == 0
  {
  }

  // Section 4. From 2^64 bits on, where the RFC stops, the length wraps.
  function Pad(m: seq<bv8>): (p: seq<bv8>)
    ensures |p| % 64 == 0
  {
    PaddedLength(|m|);
    m + [0x80] + Zeros(PadZeros(|m|)) + LengthOctets(|m| * 8 % Bits.TWO_64, 8)
  }

  function WordOctets(x: word): seq<bv8> {
    [((x >> 24) & 0xFF) as bv8, ((x >> 16) & 0xFF) as bv8, ((x >> 8) & 0xFF) as bv8, (x & 0xFF) as bv8]
  }

  function Octets(h: Hash): seq<bv8> {
    WordOctets(h.a) + WordOctets(h.b) + WordOctets(h.c) + WordOctets(h.d) + WordOctets(h.e)
  }

  // The message digest of m.
  function Digest(m: seq<bv8>): seq<bv8> {
    Octets(CompressAll(H0, Pad(m)))
  }

  // ---- the parts, told apart from their definitions ----

  /** In the first twenty rounds bit i of b chooses between bit i of c and of d. */
  lemma FChooses(t: nat, b: word, c: word, d: word)
    requires t < 20
    ensures F(t, b, c, d) & b == c & b && F(t, b, c, d) & !b == d & !b
  {
  }

  /** In rounds 20 to 39 and from 60 on, two equal ones of the three cancel out. */
  lemma FIsParity(t: nat, b: word, c: word)
    requires 20 <= t < 40 || t >= 60
    ensures F(t, b, b, c) == F(t, b, c, b) == F(t, c, b, b) == c
  {
  }

  /** In rounds 40 to 59 the result agrees with any two of the three where those two agree. */
  lemma FIsMajority(t: nat, b: word, c: word, d: word)
    requires 40 <= t < 60
    ensures (F(t, b, c, d) ^ b) & !(b ^ c) == 0 && (F(t, b, c, d) ^ b) & !(b ^ d) == 0
    ensures (F(t, b, c, d) ^ c) & !(c ^ d) == 0
  {
  }

  /** The constants are the roots of 2, 3, 5 and 10, with 30 bits behind the point. */
  lemma KIsRoot(t: nat)
    ensures var k, n := K(t) as nat, if t < 20 then 2 else if t < 40 then 3 else if t < 60 then 5 else 10;
      k * k <= n * 0x1000_0000_0000_0000 < (k + 1) * (k + 1)
  {
  }

  /** Words are big-endian, and writing one undoes reading it. */
  lemma WordsAreBigEndian(b0: bv8, b1: bv8, b2: bv8, b3: bv8, x: word)
    ensures Join(b0, b1, b2, b3) == ((b0 as word * 256 + b1 as word) * 256 + b2 as word) * 256 + b3 as word
    ensures WordOctets(Join(b0, b1, b2, b3)) == [b0, b1, b2, b3]
    ensures var o := WordOctets(x); Join(o[0], o[1], o[2], o[3]) == x
  {
  }

  /** The shift is circular for the three amounts in use. */
  lemma RotLIsCircular(x: word)
    ensures RotL(x, 1) == (x << 1) | (x >> 31) && RotL(x, 5) == (x << 5) | (x >> 27)
    ensures RotL(x, 30) == (x << 30) | (x >> 2)
  {
  }

  function Power256(k: nat): (r: nat)
    ensures r > 0
  {
    if k == 0 then 1 else 256 * Power256(k - 1)
  }

  lemma DivTwice(n: nat, a: nat)
    requires a > 0
    ensures n / 256 / a == n / (256 * a)
  {
    var q, r := n / 256 / a, n / 256 % a;
    assert n == 256 * (q * a + r) + n % 256;
    assert n == q * (256 * a) + (256 * r + n % 256);
    Bits.DivModUnique(n, 256 * a, q, 256 * r + n % 256);
  }

  /** The length octets are the digits of the length in base 256, most significant first. */
  lemma {:induction false} LengthOctet(n: nat, k: nat, i: nat)
    requires i < k
    ensures LengthOctets(n, k)[i] == (n / Power256(k - 1 - i) % 256) as bv8
  {
    if i < k - 1 {
      LengthOctet(n / 256, k - 1, i);
      DivTwice(n, Power256(k - 2 - i));
    }
  }

  /** PadZeros is the least padding that fits, and the only one shorter than a block. */
  lemma PadZerosLeast(n: nat, z: nat)
    requires (n + 1 + z) % 64 == 56
    ensures z >= PadZeros(n)
    ensures z < 64 <==> z == PadZeros(n)
  {
  }

  // ---- blocks ----

  // The part of m in whole blocks.
  function Whole(m: seq<bv8>): (n: nat)
    ensures n <= |m| && n % 64 == 0 && |m| - n < 64
  {
    |m| - |m| % 64
  }

  lemma {:induction false} CompressAppend(h: Hash, m: seq<bv8>, block: seq<bv8>)
    requires |m| % 64 == 0 && |block| == 64
    ensures CompressAll(h, m + block) == Compress(CompressAll(h, m), block)
    decreases |m|
  {
    if m == [] {
      assert m + block == block && block[..64] == block && block[64..] == [];
      assert CompressAll(Compress(h, block), []) == Compress(h, block);
    } else {
      assert (m + block)[..64] == m[..64] && (m + block)[64..] == m[64..] + block;
      CompressAppend(Compress(h, m[..64]), m[64..], block);
    }
  }

  // ---- the streaming object ----

  class Context {
    var h: Hash
    const buf: array<bv8>
    var bufLen: nat
    var total: nat
    // Everything passed to Update so far.
    ghost var Message: seq<bv8>

    ghost predicate Valid()
      reads this, buf
    {
      && buf.Length == 64 && bufLen < 64
      && total == |Message| % Bits.TWO_64
      && bufLen == |Message| % 64
      && buf[..bufLen] == Message[Whole(Message)..]
      && h == CompressAll(H0, Message[..Whole(Message)])
    }

    constructor ()
      ensures Valid() && Message == [] && fresh(buf)
    {
      h, bufLen, total, Message := H0, 0, 0, [];
      buf := new bv8[64](_ => 0);
    }

    method ProcessBlock(block: array<bv8>)
      requires block.Length == 64
      modifies `h
      ensures h == Compress(old(h), block[..])
    {
      var w := Schedule(block);
      h := Mix(h, w, block[..]);
    }

    // The 64 buffered octets are complete: append piece, compress, start over.
    method Absorb(piece: seq<bv8>)
      requires Valid() && 0 < |piece| <= 64 - bufLen
      modifies this, buf
      ensures Valid() && Message == old(Message) + piece
    {
      ghost var before, was := buf[..bufLen], Message;
      forall i | 0 <= i < |piece| { buf[bufLen + i] := piece[i]; }
      assert buf[..bufLen + |piece|] == before + piece;
      bufLen := bufLen + |piece|;
      Message := Message + piece;
      total := AddLength(total, |piece|, |was|);
      if bufLen == 64 {
        assert buf[..] == buf[..64];
        FillsBlock(was, piece, buf[..]);
        ProcessBlock(buf);
        bufLen := 0;
        assert buf[..0] == Message[Whole(Message)..];
      } else {
        StaysInBlock(was, piece);
      }
    }

    method Update(data: seq<bv8>)
      requires Valid()
      modifies this, buf
      ensures Valid() && Message == old(Message) + data
    {
      var p := 0;
      while p < |data|
        invariant p <= |data| && Valid() && Message == old(Message) + data[..p]
      {
        var room := 64 - bufLen;
        var take := if |data| - p < room then |data| - p else room;
        assert old(Message) + data[..p] + data[p..p + take] == old(Message) + data[..p + take];
        Absorb(data[p..p + take]);
        p := p + take;
      }
      assert data[..|data|] == data;
    }

    method Final() returns (digest: seq<bv8>)
      requires Valid()
      modifies this, buf
      ensures digest == Digest(old(Message))
    {
      ghost var m := Message;
      var bits := total * 8 % Bits.TWO_64;
      BitLength(|m|);
      Update([0x80]);
      AddZeros(m);
      var lenBe := EncodeLength(bits);
      Update(lenBe);
      assert Message == Pad(m);
      assert Message[..Whole(Message)] == Message;
      digest := Octets(h);
    }

    // Zero octets until only the length is missing from the block.
    method AddZeros(ghost m: seq<bv8>)
      requires Valid() && Message == m + [0x80]
      modifies this, buf
      ensures Valid() && Message == m + [0x80] + Zeros(PadZeros(|m|))
    {
      ghost var zeros := 0;
      while bufLen != 56
        invariant Valid() && Message == m + [0x80] + Zeros(zeros) && zeros <= PadZeros(|m|)
        decreases PadZeros(|m|) - zeros
      {
        PadProgress(|m|, zeros);
        Update([0]);
        assert m + [0x80] + Zeros(zeros) + [0] == m + [0x80] + Zeros(zeros + 1);
        zeros := zeros + 1;
      }
      PadZerosLeast(|m|, zeros);
    }
  }

  // The message schedule.
  method Schedule(block: array<bv8>) returns (w: array<word>)
    requires block.Length == 64
    ensures fresh(w) && w.Length == 80 && forall j :: 0 <= j < 80 ==> w[j] == Word(block[..], j)
  {
    w := new word[80];
    for i := 0 to 16
      invariant forall j :: 0 <= j < i ==> w[j] == Word(block[..], j)
    {
      w[i] := Join(block[i * 4], block[i * 4 + 1], block[i * 4 + 2], block[i * 4 + 3]);
    }
    for i := 16 to 80
      invariant forall j :: 0 <= j < i ==> w[j] == Word(block[..], j)
    {
      w[i] := Expand(w[i - 3], w[i - 8], w[i - 14], w[i - 16]);
    }
  }

  method Mix(h: Hash, w: array<word>, ghost block: seq<bv8>) returns (r: Hash)
    requires |block| == 64 && w.Length == 80 && forall j :: 0 <= j < 80 ==> w[j] == Word(block, j)
    ensures r == Compress(h, block)
  {
    var a, b, c, d, e := h.a, h.b, h.c, h.d, h.e;
    for i := 0 to 80
      invariant Hash(a, b, c, d, e) == Rounds(block, h, i)
    {
      var tmp := Temp(Hash(a, b, c, d, e), i, w[i]);
      e := d;
      d := c;
      c := RotL(b, 30);
      b := a;
      a := tmp;
    }
    r := Add(h, Hash(a, b, c, d, e));
  }

  method EncodeLength(bits: nat) returns (lenBe: seq<bv8>)
    ensures lenBe == LengthOctets(bits, 8)
  {
    lenBe := [];
    var left := bits;
    for i := 0 to 8
      invariant LengthOctets(bits, 8) == LengthOctets(left, 8 - i) + lenBe
    {
      lenBe := [(left % 256) as bv8] + lenBe;
      left := left / 256;
    }
  }

  function AddLength(total: nat, take: nat, ghost n: nat): (r: nat)
    requires total == n % Bits.TWO_64
    ensures r == (n + take) % Bits.TWO_64
  {
    (total + take) % Bits.TWO_64
  }

  lemma BitLength(n: nat)
    ensures n % Bits.TWO_64 * 8 % Bits.TWO_64 == n * 8 % Bits.TWO_64
  {
    var x := n % Bits.TWO_64 * 8;
    Bits.DivModUnique(n * 8, Bits.TWO_64, x / Bits.TWO_64 + n / Bits.TWO_64 * 8, x % Bits.TWO_64);
  }

  lemma PadProgress(n: nat, zeros: nat)
    requires zeros <= PadZeros(n) && (n + 1 + zeros) % 64 != 56
    ensures zeros < PadZeros(n)
  {
  }

  lemma FillsBlock(m: seq<bv8>, piece: seq<bv8>, block: seq<bv8>)
    requires |block| == 64 && block == m[Whole(m)..] + piece
    ensures Whole(m + piece) == |m + piece| == Whole(m) + 64
    ensures CompressAll(H0, (m + piece)[..Whole(m + piece)]) == Compress(CompressAll(H0, m[..Whole(m)]), block)
  {
    var w := Whole(m);
    assert (w + 64) % 64 == 0;
    assert m + piece == m[..w] + block;
    assert (m + piece)[..Whole(m + piece)] == m + piece;
    CompressAppend(H0, m[..w], block);
  }

  lemma StaysInBlock(m: seq<bv8>, piece: seq<bv8>)
    requires |m| % 64 + |piece| < 64
    ensures Whole(m + piece) == Whole(m) && |m + piece| % 64 == |m| % 64 + |piece|
    ensures (m + piece)[..Whole(m)] == m[..Whole(m)] && (m + piece)[Whole(m)..] == m[Whole(m)..] + piece
  {
  }

  /** Any split of a message over Update calls gives the one-shot digest. */
  method HashPieces(pieces: seq<seq<bv8>>) returns (digest: seq<bv8>)
    ensures digest == Digest(Concat(pieces))
  {
    var ctx := new Context();
    for i := 0 to |pieces|
      invariant ctx.Valid() && fresh(ctx) && fresh(ctx.buf)
      invariant ctx.Message + Concat(pieces[i..]) == Concat(pieces)
    {
      assert pieces[i..][0] == pieces[i] && pieces[i..][1..] == pieces[i + 1..];
      ghost var before := ctx.Message;
      ctx.Update(pieces[i]);
      assert before + (pieces[i] + Concat(pieces[i + 1..])) == before + pieces[i] + Concat(pieces[i + 1..]);
    }
    assert pieces[|pieces|..] == [];
    assert ctx.Message + [] == ctx.Message;
    digest := ctx.Final();
  }
}
