// The digest of the octets of abc, section 7.3 of RFC 3174: the words of its one block, four in
// a row, and the state after each row of rounds, every one checked against the definitions.
module Sha1Abc {
  import Bits
  import opened Sha1
  import opened Sha1Rows

  const W0 := Row(0x61626380, 0x00000000, 0x00000000, 0x00000000)
  const W1 := Row(0x00000000, 0x00000000, 0x00000000, 0x00000000)
  const W2 := Row(0x00000000, 0x00000000, 0x00000000, 0x00000000)
  const W3 := Row(0x00000000, 0x00000000, 0x00000000, 0x00000018)
  const W4 := Row(0xC2C4C700, 0x00000000, 0x00000030, 0x85898E01)
  const W5 := Row(0x00000000, 0x00000060, 0x0B131C03, 0x00000030)
  const W6 := Row(0x85898EC1, 0x16263806, 0x00000000, 0x00000180)
  const W7 := Row(0x2C4C700C, 0x000000F0, 0x93AFB507, 0x5898E048)
  const W8 := Row(0x8E9A9202, 0x00000600, 0xB131C0F0, 0x16263BC6)
  const W9 := Row(0x4EBED41E, 0x626380A1, 0x16263806, 0x000018C0)
  const W10 := Row(0xD2E138C4, 0x00000F00, 0x3AFB5079, 0x898E04E5)
  const W11 := Row(0xE2BA3C2B, 0x000060C0, 0x053A37CD, 0x74458547)
  const W12 := Row(0xDA9415ED, 0x26380A16, 0x626383A1, 0x4EBF54DE)
  const W13 := Row(0x3835B44B, 0x0000F600, 0x1E84C7A3, 0x98E04D98)
  const W14 := Row(0x651D16A0, 0x62658CA1, 0x458544D6, 0x44584CB7)
  const W15 := Row(0x7BA06619, 0x6380AEA2, 0x0AE55269, 0x627B49A1)
  const W16 := Row(0x7CD45C9D, 0x000F0000, 0xFB50753A, 0xEC6765E8)
  const W17 := Row(0xBA3C2BE2, 0x0060C000, 0x3A37CD05, 0x458546F4)
  const W18 := Row(0xB8599DD6, 0x380A1A26, 0x01E02203, 0xE7CC3456)
  const W19 := Row(0xE6E60B69, 0x00F60A00, 0x5795EF4F, 0x822E0879)

  const S1 := Hash(0xCDD8E11B, 0xA1390F08, 0x626414DB, 0xC045BF0C, 0x59D148C0)
  const S2 := Hash(0x9E8C07D4, 0x993E30C1, 0x0FF1F290, 0xB3F52677, 0xF3763846)
  const S3 := Hash(0x63188FE4, 0xFBDA9E89, 0x60D47E4A, 0x12DAB8CA, 0x27A301F5)
  const S4 := Hash(0x20BDD62F, 0x196BEE77, 0x644A3DA5, 0x1181ED99, 0x18C623F9)
  const S5 := Hash(0xFD9E1D7D, 0xDC64901D, 0x20AA99CA, 0xD3A49608, 0xC82F758B)
  const S6 := Hash(0xD541F12D, 0x21283486, 0x0CE88EFF, 0x868DEC32, 0x7F67875F)
  const S7 := Hash(0x4AA84D97, 0xBE35FBD5, 0x12104EE9, 0xB1D59F71, 0x75507C4B)
  const S8 := Hash(0x3B845D33, 0x1267B407, 0x717EEBD7, 0xA0DC2D4B, 0xD2AA1365)
  const S9 := Hash(0xDCBBB0CB, 0x21796AD4, 0x4B03AF04, 0x811BEA82, 0xCEE1174C)
  const S10 := Hash(0x32DE1CBA, 0x4C986405, 0xF718E5CF, 0x03D447F6, 0xF72EEC32)
  const S11 := Hash(0xEE1B1AAF, 0x7F193DC5, 0x25C28357, 0xFF21F7B7, 0x8CB7872E)
  const S12 := Hash(0xBEAD02CA, 0xA01B846C, 0x8714787C, 0x503CA382, 0xFB86C6AB)
  const S13 := Hash(0x3847AD66, 0x641DB2CE, 0x4481CC71, 0xEEBCE4CD, 0xAFAB40B2)
  const S14 := Hash(0x5E6456AF, 0x7B71F76D, 0x09FA7C76, 0x792410DB, 0x8E11EB59)
  const S15 := Hash(0x3F52DE5A, 0x09D785FD, 0x3498BFD4, 0xF211824F, 0xD79915AB)
  const S16 := Hash(0x6B61C9E1, 0xB66C020B, 0x9523272C, 0xF5D5B051, 0x8FD4B796)
  const S17 := Hash(0x78DD4D2B, 0x0C3DF2B4, 0x4405957E, 0x0677E9EB, 0x5AD87278)
  const S18 := Hash(0x39859DE7, 0xC199F8C7, 0x8FC96230, 0x125C24F0, 0xDE37534A)
  const S19 := Hash(0x63F7DAB7, 0x5EE76897, 0xC45E4FDB, 0x3B6D0B79, 0xCE616779)
  const S20 := Hash(0x42541B35, 0x5738D5E1, 0x21834873, 0x681E6DF6, 0xD8FDF6AD)

  lemma First0(s: Hash, t: nat, r: Row, next: Hash)
    requires s == H0 && t == 0 && r == W0 && next == S1
    ensures FourRounds(s, t, r) == next
  {
    assert Round(Round(s, t, r.a), t + 1, r.b) == Hash(0x8990536D, 0x0116FC33, 0x59D148C0, 0x7BF36AE2, 0x98BADCFE);
  }

  lemma First4(s: Hash, t: nat, r: Row, next: Hash)
    requires s == S1 && t == 4 && r == W1 && next == S2
    ensures FourRounds(s, t, r) == next
  {
    assert Round(Round(s, t, r.a), t + 1, r.b) == Hash(0x3FC7CA40, 0xCFD499DE, 0xF3763846, 0x284E43C2, 0x626414DB);
  }

  lemma First8(s: Hash, t: nat, r: Row, next: Hash)
    requires s == S2 && t == 8 && r == W2 && next == S3
    ensures FourRounds(s, t, r) == next
  {
    assert Round(Round(s, t, r.a), t + 1, r.b) == Hash(0x8351F929, 0x4B6AE328, 0x27A301F5, 0x664F8C30, 0x0FF1F290);
  }

  lemma First12(s: Hash, t: nat, r: Row, next: Hash)
    requires s == S3 && t == 12 && r == W3 && next == S4
    ensures FourRounds(s, t, r) == next
  {
    assert Round(Round(s, t, r.a), t + 1, r.b) == Hash(0x9128F695, 0x4607B664, 0x18C623F9, 0x7EF6A7A2, 0x60D47E4A);
  }

  lemma From16(block: seq<bv8>, h: Hash, t: nat)
    requires t == 16 && Reached(block, h, t, W0, W1, W2, W3, S4)
    ensures Reached(block, h, t + 8, W2, W3, W4, W5, S6)
  {
    Advance(block, h, t, W0, W1, W2, W3, S4, W4, S5);
    Advance(block, h, t + 4, W1, W2, W3, W4, S5, W5, S6);
  }

  lemma From24(block: seq<bv8>, h: Hash, t: nat)
    requires t == 24 && Reached(block, h, t, W2, W3, W4, W5, S6)
    ensures Reached(block, h, t + 8, W4, W5, W6, W7, S8)
  {
    Advance(block, h, t, W2, W3, W4, W5, S6, W6, S7);
    Advance(block, h, t + 4, W3, W4, W5, W6, S7, W7, S8);
  }

  lemma From32(block: seq<bv8>, h: Hash, t: nat)
    requires t == 32 && Reached(block, h, t, W4, W5, W6, W7, S8)
    ensures Reached(block, h, t + 8, W6, W7, W8, W9, S10)
  {
    Advance(block, h, t, W4, W5, W6, W7, S8, W8, S9);
    Advance(block, h, t + 4, W5, W6, W7, W8, S9, W9, S10);
  }

  lemma From40(block: seq<bv8>, h: Hash, t: nat)
    requires t == 40 && Reached(block, h, t, W6, W7, W8, W9, S10)
    ensures Reached(block, h, t + 8, W8, W9, W10, W11, S12)
  {
    Advance(block, h, t, W6, W7, W8, W9, S10, W10, S11);
    Advance(block, h, t + 4, W7, W8, W9, W10, S11, W11, S12);
  }

  lemma From48(block: seq<bv8>, h: Hash, t: nat)
    requires t == 48 && Reached(block, h, t, W8, W9, W10, W11, S12)
    ensures Reached(block, h, t + 8, W10, W11, W12, W13, S14)
  {
    Advance(block, h, t, W8, W9, W10, W11, S12, W12, S13);
    Advance(block, h, t + 4, W9, W10, W11, W12, S13, W13, S14);
  }

  lemma From56(block: seq<bv8>, h: Hash, t: nat)
    requires t == 56 && Reached(block, h, t, W10, W11, W12, W13, S14)
    ensures Reached(block, h, t + 8, W12, W13, W14, W15, S16)
  {
    Advance(block, h, t, W10, W11, W12, W13, S14, W14, S15);
    Advance(block, h, t + 4, W11, W12, W13, W14, S15, W15, S16);
  }

  lemma From64(block: seq<bv8>, h: Hash, t: nat)
    requires t == 64 && Reached(block, h, t, W12, W13, W14, W15, S16)
    ensures Reached(block, h, t + 8, W14, W15, W16, W17, S18)
  {
    Advance(block, h, t, W12, W13, W14, W15, S16, W16, S17);
    Advance(block, h, t + 4, W13, W14, W15, W16, S17, W17, S18);
  }

  lemma From72(block: seq<bv8>, h: Hash, t: nat)
    requires t == 72 && Reached(block, h, t, W14, W15, W16, W17, S18)
    ensures Reached(block, h, t + 8, W16, W17, W18, W19, S20)
  {
    Advance(block, h, t, W14, W15, W16, W17, S18, W18, S19);
    Advance(block, h, t + 4, W15, W16, W17, W18, S19, W19, S20);
  }

  lemma Sixteen(block: seq<bv8>, n: nat)
    requires |block| == 64 && n == 0
    requires RowAt(block, n) == W0 && RowAt(block, n + 4) == W1
    requires RowAt(block, n + 8) == W2 && RowAt(block, n + 12) == W3
    ensures Reached(block, H0, n + 16, W0, W1, W2, W3, S4)
  {
    First0(H0, n, W0, S1);
    First4(S1, n + 4, W1, S2);
    First8(S2, n + 8, W2, S3);
    First12(S3, n + 12, W3, S4);
    NoRounds(block, H0, n);
    OneRow(block, H0, n, H0, W0, S1);
    OneRow(block, H0, n + 4, S1, W1, S2);
    OneRow(block, H0, n + 8, S2, W2, S3);
    OneRow(block, H0, n + 12, S3, W3, S4);
  }

  lemma Eighty(block: seq<bv8>, h: Hash, n: nat)
    requires n == 16 && Reached(block, h, n, W0, W1, W2, W3, S4)
    ensures Rounds(block, h, n + 64) == S20
  {
    From16(block, h, n);
    From24(block, h, n + 8);
    From32(block, h, n + 16);
    From40(block, h, n + 24);
    From48(block, h, n + 32);
    From56(block, h, n + 40);
    From64(block, h, n + 48);
    From72(block, h, n + 56);
  }

  lemma PadThree(m: seq<bv8>)
    requires |m| == 3
    ensures Pad(m) == m + [0x80] + Zeros(52) + (Zeros(7) + [24])
  {
    assert PadZeros(|m|) == 52 && |m| * 8 % Bits.TWO_64 == 24;
    ShortLength(24, 8);
  }

  lemma ShortLength(n: nat, k: nat)
    requires n < 256 && k > 0
    ensures LengthOctets(n, k) == Zeros(k - 1) + [n as bv8]
  {
    ZeroLength(k - 1);
  }

  lemma BlockWord(block: seq<bv8>, t: nat)
    requires t < 16 && block == [0x61, 0x62, 0x63] + [0x80] + Zeros(52) + (Zeros(7) + [24])
    ensures WordOf(block, t) == if t == 0 then 0x61626380 else if t == 15 then 24 else 0
  {
  }

  lemma BlockRow(block: seq<bv8>, t: nat, r: Row)
    requires block == [0x61, 0x62, 0x63] + [0x80] + Zeros(52) + (Zeros(7) + [24])
    requires (t == 0 && r == W0) || (t == 4 && r == W1) || (t == 8 && r == W2) || (t == 12 && r == W3)
    ensures RowAt(block, t) == r
  {
    RowOf(block, t);
    BlockWord(block, t);
    BlockWord(block, t + 1);
    BlockWord(block, t + 2);
    BlockWord(block, t + 3);
  }

  lemma BlockState(block: seq<bv8>, n: nat)
    requires block == [0x61, 0x62, 0x63] + [0x80] + Zeros(52) + (Zeros(7) + [24]) && n == 0
    ensures Compress(H0, block) == Add(H0, S20)
  {
    BlockRow(block, n, W0);
    BlockRow(block, n + 4, W1);
    BlockRow(block, n + 8, W2);
    BlockRow(block, n + 12, W3);
    Sixteen(block, n);
    Eighty(block, H0, n + 16);
    Compressed(block, H0, n + 80, S20);
  }

  lemma OneBlock(m: seq<bv8>, block: seq<bv8>)
    requires Pad(m) == block && |block| == 64
    ensures Digest(m) == Octets(Compress(H0, block))
  {
    assert block[..64] == block && block[64..] == [];
    assert CompressAll(H0, block) == CompressAll(Compress(H0, block), []);
  }

  /** The known answer: a9993e36 4706816a ba3e2571 7850c26c 9cd0d89d. */
  lemma DigestOfAbc(m: seq<bv8>)
    requires m == [0x61, 0x62, 0x63]
    ensures Digest(m) == [
      0xA9, 0x99, 0x3E, 0x36, 0x47, 0x06, 0x81, 0x6A, 0xBA, 0x3E,
      0x25, 0x71, 0x78, 0x50, 0xC2, 0x6C, 0x9C, 0xD0, 0xD8, 0x9D]
  {
    PadThree(m);
    BlockState(Pad(m), 0);
    OneBlock(m, Pad(m));
    LastOctets(Add(H0, S20));
  }

  lemma LastOctets(h: Hash)
    requires h == Add(H0, S20)
    ensures Octets(h) == [
      0xA9, 0x99, 0x3E, 0x36, 0x47, 0x06, 0x81, 0x6A, 0xBA, 0x3E,
      0x25, 0x71, 0x78, 0x50, 0xC2, 0x6C, 0x9C, 0xD0, 0xD8, 0x9D]
  {
  }
}
