// Strings put together with separators come apart in one way only.
module Separators {
  import opened Decimal

  // A separator that the part before it cannot contain.
  lemma {:induction false} SplitOnce(a: string, b: string, c: char, x: string, y: string)
    requires a + [c] + x == b + [c] + y
    requires c !in a && c !in b
    ensures a == b && x == y
    decreases |a|
  {
    var s, t := a + [c] + x, b + [c] + y;
    assert s[0] == (if a == "" then c else a[0]) && t[0] == if b == "" then c else b[0];
    if a == "" {
      assert s[1..] == x && t[1..] == y;
    } else {
      assert s[1..] == a[1..] + [c] + x && t[1..] == b[1..] + [c] + y;
      SplitOnce(a[1..], b[1..], c, x, y);
    }
  }

  lemma NotInNumber(n: nat, c: char)
    requires !IsDigit(c)
    ensures c !in ToString(n)
  {
    ToStringDigits(n);
  }

  // A separator that the part after it cannot contain.
  lemma {:induction false} SplitLast(a: string, b: string, c: char, x: string, y: string)
    requires a + [c] + x == b + [c] + y
    requires c !in x && c !in y
    ensures a == b && x == y
    decreases |x|
  {
    var s, t := a + [c] + x, b + [c] + y;
    var n := |s| - 1;
    assert s[n] == (if x == "" then c else x[|x| - 1]) && t[n] == if y == "" then c else y[|y| - 1];
    if x == "" {
      assert s[..n] == a && t[..n] == b;
    } else {
      assert s[..n] == a + [c] + x[..|x| - 1] && t[..n] == b + [c] + y[..|y| - 1];
      SplitLast(a, b, c, x[..|x| - 1], y[..|y| - 1]);
    }
  }
}
