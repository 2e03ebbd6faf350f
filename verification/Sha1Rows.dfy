// Evaluating the compression function on one block, four words and four rounds at a time.
module Sha1Rows {
  import opened Sha1

  datatype Row = Row(a: word, b: word, c: word, d: word)

  function RowAt(block: seq<bv8>, t: nat): Row
    requires |block| == 64
  {
    Row(Word(block, t), Word(block, t + 1), Word(block, t + 2), Word(block, t + 3))
  }

  // The row that follows rows p, q, r and s.
  function NextRow(p: Row, q: Row, r: Row, s: Row): Row {
    var a := Expand(s.b, r.a, p.c, p.a);
    Row(a, Expand(s.c, r.b, p.d, p.b), Expand(s.d, r.c, q.a, p.c), Expand(a, r.d, q.b, p.d))
  }

  function FourRounds(s: Hash, t: nat, r: Row): Hash {
    Round(Round(Round(Round(s, t, r.a), t + 1, r.b), t + 2, r.c), t + 3, r.d)
  }

  lemma WordExpands(block: seq<bv8>, t: nat)
    requires |block| == 64 && t >= 16
    ensures Word(block, t) == Expand(Word(block, t - 3), Word(block, t - 8), Word(block, t - 14), Word(block, t - 16))
  {
  }

  lemma RowFollows(block: seq<bv8>, t: nat)
    requires |block| == 64 && t >= 16
    ensures RowAt(block, t)
      == NextRow(RowAt(block, t - 16), RowAt(block, t - 12), RowAt(block, t - 8), RowAt(block, t - 4))
  {
    WordExpands(block, t);
    WordExpands(block, t + 1);
    WordExpands(block, t + 2);
    WordExpands(block, t + 3);
  }

  lemma OneMore(block: seq<bv8>, h: Hash, t: nat)
    requires |block| == 64
    ensures Rounds(block, h, t + 1) == Round(Rounds(block, h, t), t, Word(block, t))
  {
  }

  lemma FourMore(block: seq<bv8>, h: Hash, t: nat)
    requires |block| == 64
    ensures Rounds(block, h, t + 4) == FourRounds(Rounds(block, h, t), t, RowAt(block, t))
  {
    OneMore(block, h, t);
    OneMore(block, h, t + 1);
    OneMore(block, h, t + 2);
    OneMore(block, h, t + 3);
  }

  // After t rounds the last four rows and the state are these.
  ghost predicate Reached(block: seq<bv8>, h: Hash, t: nat, p: Row, q: Row, r: Row, s: Row, state: Hash) {
    && |block| == 64 && t >= 16
    && RowAt(block, t - 16) == p && RowAt(block, t - 12) == q && RowAt(block, t - 8) == r && RowAt(block, t - 4) == s
    && Rounds(block, h, t) == state
  }

  lemma Advance(block: seq<bv8>, h: Hash, t: nat, p: Row, q: Row, r: Row, s: Row, state: Hash, next: Row, after: Hash)
    requires Reached(block, h, t, p, q, r, s, state)
    requires NextRow(p, q, r, s) == next && FourRounds(state, t, next) == after
    ensures Reached(block, h, t + 4, q, r, s, next, after)
  {
    RowFollows(block, t);
    FourMore(block, h, t);
  }

  lemma OneRow(block: seq<bv8>, h: Hash, t: nat, state: Hash, next: Row, after: Hash)
    requires |block| == 64 && Rounds(block, h, t) == state
    requires RowAt(block, t) == next && FourRounds(state, t, next) == after
    ensures Rounds(block, h, t + 4) == after
  {
    FourMore(block, h, t);
  }

  lemma NoRounds(block: seq<bv8>, h: Hash, t: nat)
    requires |block| == 64 && t == 0
    ensures Rounds(block, h, t) == h
  {
  }

  // The first word is Join of the first octets, and so on.
  lemma RowOf(block: seq<bv8>, t: nat)
    requires |block| == 64 && t <= 12
    ensures RowAt(block, t) == Row(WordOf(block, t), WordOf(block, t + 1), WordOf(block, t + 2), WordOf(block, t + 3))
  {
  }

  function WordOf(block: seq<bv8>, t: nat): word
    requires |block| == 64 && t < 16
  {
    Join(block[t * 4], block[t * 4 + 1], block[t * 4 + 2], block[t * 4 + 3])
  }

  lemma Compressed(block: seq<bv8>, h: Hash, n: nat, s: Hash)
    requires |block| == 64 && n == 80 && Rounds(block, h, n) == s
    ensures Compress(h, block) == Add(h, s)
  {
  }

  lemma {:induction false} ZeroLength(k: nat)
    ensures LengthOctets(0, k) == Zeros(k)
  {
    if k > 0 { ZeroLength(k - 1); }
  }
}
