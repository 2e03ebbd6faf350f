// Bitwise operators of an unsigned machine word, written out on natural numbers.
module Bits {

  function Pow2(n: nat): (r: nat)
    ensures r >= 1
  {
    if n == 0 then 1 else 2 * Pow2(n - 1)
  }

  const WORD: nat := 64
  const TWO_64: nat := 0x1_0000_0000_0000_0000

  function And(a: nat, b: nat): nat {
    if a == 0 || b == 0 then 0
    else 2 * And(a / 2, b / 2) + (if a % 2 == 1 && b % 2 == 1 then 1 else 0)
  }

  function Or(a: nat, b: nat): nat {
    if a == 0 then b
    else if b == 0 then a
    else 2 * Or(a / 2, b / 2) + (if a % 2 == 1 || b % 2 == 1 then 1 else 0)
  }

  function Xor(a: nat, b: nat): nat {
    if a == 0 then b
    else if b == 0 then a
    else 2 * Xor(a / 2, b / 2) + (if a % 2 != b % 2 then 1 else 0)
  }

  // Bit k of n.
  predicate Bit(n: nat, k: nat) {
    if k == 0 then n % 2 == 1 else Bit(n / 2, k - 1)
  }

  // ---- quotient and remainder ----

  lemma DivModUnique(x: int, d: int, q: int, r: int)
    requires d > 0 && 0 <= r < d && x == q * d + r
    ensures x / d == q && x % d == r
  {
    var q', r' := x / d, x % d;
    assert x == q' * d + r';
    assert (q - q') * d == r' - r;
    if q > q' {
      MulAtLeast(q - q', d);
    } else if q < q' {
      MulAtLeast(q' - q, d);
    }
  }

  lemma MulAtLeast(k: int, d: int)
    requires k >= 1 && d > 0
    ensures k * d >= d
  {
  }

  // Two positions less than one lap apart that share a slot are equal.
  lemma SlotUnique(p: nat, q: nat, cap: nat)
    requires cap > 0 && p <= q < p + cap && p % cap == q % cap
    ensures p == q
  {
    DivModUnique(q - p, cap, q / cap - p / cap, 0);
    DivModUnique(q - p, cap, 0, q - p);
  }

  lemma SlotNextLap(p: nat, cap: nat)
    requires cap > 0
    ensures (p + cap) % cap == p % cap
  {
    DivModUnique(p + cap, cap, p / cap + 1, p % cap);
  }

  lemma {:induction false} Pow2Add(a: nat, b: nat)
    ensures Pow2(a + b) == Pow2(a) * Pow2(b)
  {
    if a > 0 { Pow2Add(a - 1, b); }
  }

  lemma {:induction false} Pow2Monotone(a: nat, b: nat)
    requires a <= b
    ensures Pow2(a) <= Pow2(b)
    ensures a < b ==> 2 * Pow2(a) <= Pow2(b)
    decreases b - a
  {
    if a < b { Pow2Monotone(a + 1, b); }
  }

  lemma ModDouble(x: nat, p: nat)
    requires p > 0
    ensures x % (2 * p) == 2 * (x / 2 % p) + x % 2
    ensures x / (2 * p) == x / 2 / p
  {
    var y := x / 2;
    assert y == y / p * p + y % p;
    assert x == y / p * (2 * p) + (2 * (y % p) + x % 2);
    DivModUnique(x, 2 * p, y / p, 2 * (y % p) + x % 2);
  }

  // ---- masks ----

  lemma AndOdd(x: nat, m: nat)
    ensures And(x, 2 * m + 1) == 2 * And(x / 2, m) + x % 2
  {
    assert (2 * m + 1) / 2 == m && (2 * m + 1) % 2 == 1;
  }

  /** x & (2^k - 1) is x modulo 2^k. */
  lemma {:induction false} AndMask(x: nat, k: nat)
    ensures And(x, Pow2(k) - 1) == x % Pow2(k)
    decreases k
  {
    if k == 0 {
      DivModUnique(x, 1, x, 0);
    } else {
      AndMask(x / 2, k - 1);
      AndMaskStep(x, Pow2(k - 1));
    }
  }

  lemma {:induction false} AndMaskStep(x: nat, p: nat)
    requires p >= 1 && And(x / 2, p - 1) == x / 2 % p
    ensures And(x, 2 * p - 1) == x % (2 * p)
  {
    ModDouble(x, p);
    AndOdd(x, p - 1);
    assert 2 * (p - 1) + 1 == 2 * p - 1;
  }

  // ~(2^k - 1) in a word of w bits.
  function HighMask(k: nat, w: nat): nat
    requires k <= w
  {
    Pow2Monotone(k, w);
    Pow2(w) - Pow2(k)
  }

  lemma HighMaskHalf(k: nat, w: nat)
    requires k < w
    ensures k > 0 ==> HighMask(k, w) == 2 * HighMask(k - 1, w - 1)
    ensures k == 0 ==> HighMask(0, w) == 2 * HighMask(0, w - 1) + 1
  {
  }

  lemma AndEven(x: nat, m: nat)
    ensures And(x, 2 * m) == 2 * And(x / 2, m)
  {
    if x > 0 && m > 0 { assert 2 * m / 2 == m && 2 * m % 2 == 0; }
  }

  /** x & ~(2^k - 1), in a word of w bits, clears the low k bits of x. */
  lemma {:induction false} AndHighMask(x: nat, k: nat, w: nat)
    requires k <= w && x < Pow2(w)
    ensures And(x, HighMask(k, w)) == x - x % Pow2(k)
    decreases w
  {
    if k == w {
      DivModUnique(x, Pow2(w), 0, x);
    } else if k == 0 {
      AndMask(x, w);
      DivModUnique(x, Pow2(w), 0, x);
      assert x % 1 == 0;
    } else {
      AndHighMask(x / 2, k - 1, w - 1);
      HighMaskStep(x, k, w);
    }
  }

  lemma HighMaskStep(x: nat, k: nat, w: nat)
    requires 0 < k < w
    requires And(x / 2, HighMask(k - 1, w - 1)) == x / 2 - x / 2 % Pow2(k - 1)
    ensures And(x, HighMask(k, w)) == x - x % Pow2(k)
  {
    var m, p := HighMask(k - 1, w - 1), Pow2(k - 1);
    HighMaskHalf(k, w);
    AndEven(x, m);
    ModDouble(x, p);
  }

  // ---- or ----

  lemma {:induction false} OrBounds(a: nat, b: nat, m: nat)
    requires a < Pow2(m) && b < Pow2(m)
    ensures Or(a, b) < Pow2(m) && Or(a, b) >= a && Or(a, b) >= b
    decreases m
  {
    if m > 0 && a > 0 && b > 0 { OrBounds(a / 2, b / 2, m - 1); }
  }

  /** Bits at and above m are untouched when the other operand lies below m. */
  lemma {:induction false} OrHigh(h: nat, a: nat, b: nat, m: nat)
    requires a < Pow2(m) && b < Pow2(m)
    ensures Or(h * Pow2(m) + a, b) == h * Pow2(m) + Or(a, b)
    decreases m
  {
    if m == 0 {
      assert Or(h, 0) == h;
    } else {
      var p := h * Pow2(m - 1);
      assert h * Pow2(m) == 2 * p;
      assert (2 * p + a) / 2 == p + a / 2 && (2 * p + a) % 2 == a % 2;
      OrHigh(h, a / 2, b / 2, m - 1);
    }
  }

  // ---- xor ----

  lemma {:induction false} XorCancel(a: nat, k: nat, m: nat)
    requires a < Pow2(m) && k < Pow2(m)
    ensures Xor(a, k) < Pow2(m) && Xor(Xor(a, k), k) == a
    decreases m
  {
    if a == 0 {
      XorSelf(k);
    } else if k != 0 {
      XorCancel(a / 2, k / 2, m - 1);
      XorHalves(a, k);
      XorHalves(Xor(a, k), k);
    }
  }

  lemma XorHalves(a: nat, k: nat)
    ensures Xor(a, k) / 2 == Xor(a / 2, k / 2)
    ensures Xor(a, k) % 2 == if a % 2 != k % 2 then 1 else 0
  {
  }

  lemma XorSelf(k: nat)
    ensures Xor(k, k) == 0
  {
  }

  // ---- src/core/memory/lock_free_queue.h: detail::RoundUpPow2 ----

  ghost predicate IsPow2(r: nat) {
    exists k: nat :: r == Pow2(k)
  }

  ghost predicate LeastPow2(r: nat, v: nat) {
    IsPow2(r) && v <= r && forall k: nat :: v <= Pow2(k) ==> r <= Pow2(k)
  }

  function Quotient(v: nat, d: nat): nat
    requires d >= 1
  {
    v / d
  }

  // v | (v >> t)
  function ShiftOr(v: nat, t: nat): nat {
    Or(v, Quotient(v, Pow2(t)))
  }

  // The topmost Min(t, n) of the low n bits of v are set, and no bit above them.
  ghost predicate TopSet(v: nat, n: nat, t: nat) {
    v < Pow2(n) && v >= Pow2(n) - Pow2(if t < n then n - t else 0)
  }

  // The bits of v above m, all set, stay; the others are joined with b.
  lemma OrBelow(v: nat, n: nat, m: nat, b: nat)
    requires m <= n && Pow2(n) - Pow2(m) <= v < Pow2(n) && b < Pow2(m)
    ensures Or(v, b) == Pow2(n) - Pow2(m) + Or(v - (Pow2(n) - Pow2(m)), b)
  {
    var h, a := Pow2(n - m) - 1, v - (Pow2(n) - Pow2(m));
    Pow2Add(n - m, m);
    MulLess(Pow2(n - m), Pow2(m));
    assert h * Pow2(m) == Pow2(n) - Pow2(m);
    OrHigh(h, a, b, m);
  }

  lemma ShiftedBelow(v: nat, n: nat, t: nat)
    requires t <= n && v < Pow2(n)
    ensures v / Pow2(t) < Pow2(n - t)
  {
    Pow2Add(t, n - t);
    DivBelow(v, Pow2(t), Pow2(n - t));
  }

  // v with a copy b of its top stretch, shifted down by t, joined in.
  lemma JoinRuns(v: nat, n: nat, t: nat, b: nat)
    requires TopSet(v, n, t) && t >= 1 && b <= v
    requires t < n ==> b < Pow2(n - t) && b >= Pow2(n - t) - Pow2(if t < n - t then n - t - t else 0)
    ensures TopSet(Or(v, b), n, 2 * t)
  {
    OrBounds(v, b, n);
    if t < n {
      Pow2Monotone(n - t, n);
      OrBelow(v, n, n - t, b);
      OrBounds(v - (Pow2(n) - Pow2(n - t)), b, n - t);
    }
  }

  lemma TopQuotient(v: nat, n: nat, t: nat, b: nat)
    requires TopSet(v, n, t) && t >= 1 && b == Quotient(v, Pow2(t))
    ensures b <= v
    ensures t < n ==> b < Pow2(n - t) && b >= Pow2(n - t) - Pow2(if t < n - t then n - t - t else 0)
  {
    DivSmaller(v, Pow2(t));
    if t < n {
      ShiftedBelow(v, n, t);
      SmearedRun(v, n, t);
    }
  }

  /** One smearing step, v |= v >> t, doubles the run of ones under the leading bit. */
  lemma Smear(v: nat, n: nat, t: nat)
    requires TopSet(v, n, t) && t >= 1
    ensures TopSet(ShiftOr(v, t), n, 2 * t)
  {
    var b := Quotient(v, Pow2(t));
    TopQuotient(v, n, t, b);
    JoinRuns(v, n, t, b);
  }

  lemma SmearAll(v: nat, n: nat)
    requires TopSet(v, n, 1) && n <= 64
    ensures ShiftOr(ShiftOr(ShiftOr(ShiftOr(ShiftOr(ShiftOr(v, 1), 2), 4), 8), 16), 32) == Pow2(n) - 1
  {
    Smear(v, n, 1);
    var a := ShiftOr(v, 1);
    Smear(a, n, 2);
    var b := ShiftOr(a, 2);
    Smear(b, n, 4);
    var c := ShiftOr(b, 4);
    Smear(c, n, 8);
    var d := ShiftOr(c, 8);
    Smear(d, n, 16);
    var e := ShiftOr(d, 16);
    Smear(e, n, 32);
    assert TopSet(ShiftOr(e, 32), n, 64);
  }

  lemma MulLess(x: int, y: int)
    ensures (x - 1) * y == x * y - y
  {
  }

  // The shifted copy carries the run of ones one stretch further down.
  lemma SmearedRun(v: nat, n: nat, t: nat)
    requires 1 <= t < n && v >= Pow2(n) - Pow2(n - t)
    ensures v / Pow2(t) >= Pow2(n - t) - Pow2(if t < n - t then n - t - t else 0)
  {
    var m := n - t;
    var low := if t < m then m - t else 0;
    var pt, pm, pl := Pow2(t), Pow2(m), Pow2(low);
    Pow2Add(t, m);
    assert pt * pl >= pm by {
      if t < m { Pow2Add(t, low); } else { Pow2Monotone(m, t); }
    }
    RunArithmetic(v, pt, pm, pl);
  }

  lemma RunArithmetic(v: nat, pt: nat, pm: nat, pl: nat)
    requires pt >= 1 && v >= pt * pm - pm && pt * pl >= pm
    ensures v / pt >= pm - pl
  {
    MulSub(pt, pm, pl);
    if pm >= pl { DivAtLeast(v, pt, pm - pl); }
  }

  lemma MulSub(x: int, y: int, z: int)
    ensures x * (y - z) == x * y - x * z
  {
  }

  lemma DivSmaller(v: nat, d: nat)
    requires d >= 1
    ensures v / d <= v
  {
  }

  lemma DivBelow(v: nat, d: nat, q: nat)
    requires d >= 1 && v < d * q
    ensures v / d < q
  {
  }

  lemma DivAtLeast(v: nat, d: nat, q: nat)
    requires d >= 1 && v >= d * q
    ensures v / d >= q
  {
    MulSub(d, q, v / d + 1);
    if v / d < q { MulMonotone(d, v / d + 1, q); }
  }

  lemma MulMonotone(d: nat, x: int, y: int)
    requires x <= y
    ensures d * x <= d * y
  {
  }

  function BitLength(v: nat): (n: nat)
    ensures v < Pow2(n) && (v > 0 ==> n > 0 && Pow2(n - 1) <= v)
  {
    if v == 0 then 0 else 1 + BitLength(v / 2)
  }

  lemma LeastAboveBitLength(v: nat, n: nat, word: nat)
    requires v >= 1 && v - 1 < Pow2(n) && n <= word && (v > 1 ==> n > 0 && Pow2(n - 1) <= v - 1)
    requires v == 1 ==> n == 0
    ensures LeastPow2(Pow2(n), v)
    ensures word > 0 ==> (v <= Pow2(word - 1) <==> n < word)
  {
    forall k: nat | v <= Pow2(k)
      ensures Pow2(n) <= Pow2(k)
    {
      if k < n { Pow2Monotone(k, n - 1); } else { Pow2Monotone(n, k); }
    }
    if 0 < word {
      if n < word { Pow2Monotone(n, word - 1); }
    }
  }

  lemma {:induction false} BitLengthBound(v: nat, word: nat)
    requires v < Pow2(word)
    ensures BitLength(v) <= word
  {
    var n := BitLength(v);
    if n > word { Pow2Monotone(word, n - 1); }
  }

  /** Smallest power of two not below v; 0 maps to 1, and beyond 2^63 the word wraps to 0. */
  method RoundUpPow2(v: nat) returns (r: nat)
    requires v < Pow2(WORD)
    ensures v == 0 ==> r == 1
    ensures 1 <= v <= Pow2(WORD - 1) ==> LeastPow2(r, v)
    ensures v > Pow2(WORD - 1) ==> r == 0
  {
    if v == 0 { return 1; }
    var w := v - 1;
    ghost var n := BitLength(w);
    BitLengthBound(w, WORD);
    LeastAboveBitLength(v, n, WORD);
    SmearAll(w, n);
    w := ShiftOr(w, 1);
    w := ShiftOr(w, 2);
    w := ShiftOr(w, 4);
    w := ShiftOr(w, 8);
    w := ShiftOr(w, 16);
    w := ShiftOr(w, 32);
    r := WrapIncrement(w, n, WORD);
  }

  function WrapIncrement(w: nat, ghost n: nat, word: nat): (r: nat)
    requires n <= word && w == Pow2(n) - 1
    ensures n < word ==> r == Pow2(n)
    ensures n == word ==> r == 0
  {
    Pow2Monotone(n, word);
    DivModUnique(w + 1, Pow2(word), if n < word then 0 else 1, if n < word then w + 1 else 0);
    (w + 1) % Pow2(word)
  }

  // ---- bit by bit ----

  lemma {:induction false} BitIs(n: nat, k: nat)
    ensures Bit(n, k) <==> n / Pow2(k) % 2 == 1
  {
    if k > 0 {
      BitIs(n / 2, k - 1);
      ModDouble(n, Pow2(k - 1));
    }
  }

  lemma {:induction false} BitZero(k: nat)
    ensures !Bit(0, k)
  {
    if k > 0 { BitZero(k - 1); }
  }

  /** The operators are the bitwise ones. */
  lemma {:induction false} Bitwise(a: nat, b: nat, k: nat)
    ensures Bit(Xor(a, b), k) <==> (Bit(a, k) != Bit(b, k))
    ensures Bit(And(a, b), k) <==> (Bit(a, k) && Bit(b, k))
    ensures Bit(Or(a, b), k) <==> (Bit(a, k) || Bit(b, k))
  {
    BitZero(k);
    if k > 0 {
      XorHalves(a, b);
      Bitwise(a / 2, b / 2, k - 1);
    }
  }

  /** Numbers below 2^m with the same m bits are equal. */
  lemma {:induction false} BitsDetermine(a: nat, b: nat, m: nat)
    requires a < Pow2(m) && b < Pow2(m) && forall k: nat :: k < m ==> (Bit(a, k) <==> Bit(b, k))
    ensures a == b
  {
    if m > 0 {
      assert Bit(a, 0) <==> Bit(b, 0);
      forall k: nat | k < m - 1 ensures Bit(a / 2, k) <==> Bit(b / 2, k) {
        assert Bit(a, k + 1) <==> Bit(b, k + 1);
      }
      BitsDetermine(a / 2, b / 2, m - 1);
    }
  }

  // r has the m lowest bits of the exclusive or of a and b, and no others.
  predicate XorDigits(a: nat, b: nat, r: nat, m: nat) {
    if m == 0 then a == b == r == 0
    else (r % 2 == 1 <==> a % 2 != b % 2) && XorDigits(a / 2, b / 2, r / 2, m - 1)
  }

  lemma {:induction false} XorByDigits(a: nat, b: nat, r: nat, m: nat)
    requires XorDigits(a, b, r, m)
    ensures Xor(a, b) == r
  {
    if m > 0 {
      XorByDigits(a / 2, b / 2, r / 2, m - 1);
      XorHalves(a, b);
    }
  }
}
