// Shared by several modules: optional values, bytes as numbers, and concatenation.
module Wrappers {
  datatype Option<+T> = None | Some(value: T)

  type byte = b: nat | b < 256

  function Concat<T>(pieces: seq<seq<T>>): seq<T> {
    if pieces == [] then [] else pieces[0] + Concat(pieces[1..])
  }

  lemma {:induction false} ConcatSplit<T>(pieces: seq<seq<T>>, n: nat)
    requires n <= |pieces|
    ensures Concat(pieces[..n]) + Concat(pieces[n..]) == Concat(pieces)
    decreases n
  {
    if n == 0 {
      assert pieces[..0] == [] && pieces[0..] == pieces;
    } else {
      ConcatSplit(pieces[1..], n - 1);
      assert pieces[..n][0] == pieces[0] && pieces[..n][1..] == pieces[1..][..n - 1];
      assert pieces[1..][n - 1..] == pieces[n..];
    }
  }

  // A fact stated for the values asked about: a trigger that the prover cannot find by itself.
  ghost predicate Asked<T>(x: T) {
    true
  }
}
