// std::to_string and std::stoull for unsigned 64-bit numbers.
module Decimal {
  import opened Wrappers
  import opened Bits

  function ToString(n: nat): (s: string)
    ensures s != ""
  {
    if n < 10 then [DigitChar(n)] else ToString(n / 10) + [DigitChar(n % 10)]
  }

  function DigitChar(d: nat): (c: char)
    requires d < 10
    ensures IsDigit(c) && DigitValue(c) == d
  {
    '0' + d as char
  }

  predicate IsDigit(c: char) {
    '0' <= c <= '9'
  }

  function DigitValue(c: char): (d: nat)
    requires IsDigit(c)
    ensures d < 10
  {
    (c - '0') as nat
  }

  predicate AllDigits(s: string) {
    forall i {:trigger s[i]} :: 0 <= i < |s| ==> IsDigit(s[i])
  }

  function ValueOf(s: string): nat
    requires AllDigits(s)
  {
    if s == "" then 0 else ValueOf(s[..|s| - 1]) * 10 + DigitValue(s[|s| - 1])
  }

  lemma {:induction false} ToStringDigits(n: nat)
    ensures AllDigits(ToString(n)) && ValueOf(ToString(n)) == n
  {
    if n >= 10 {
      ToStringDigits(n / 10);
      var s := ToString(n);
      assert s[..|s| - 1] == ToString(n / 10);
    } else {
      assert [DigitChar(n)][..0] == "";
    }
  }

  // Digits without a leading zero.
  predicate Canonical(s: string) {
    s != "" && AllDigits(s) && (|s| > 1 ==> s[0] != '0')
  }

  lemma {:induction false} CanonicalValue(s: string)
    requires Canonical(s) && s[0] != '0'
    ensures ValueOf(s) > 0
  {
    if |s| > 1 { CanonicalValue(s[..|s| - 1]); } else { assert s[..0] == ""; }
  }

  lemma {:induction false} ToStringCanonical(n: nat)
    ensures Canonical(ToString(n)) && (n > 0 ==> ToString(n)[0] != '0')
  {
    ToStringDigits(n);
    if n >= 10 { ToStringCanonical(n / 10); }
  }

  /** What is printed are the decimal digits of the number, most significant first, without
      leading zeros. */
  lemma {:induction false} ToStringIs(n: nat, s: string)
    ensures s == ToString(n) <==> Canonical(s) && ValueOf(s) == n
    decreases |s|
  {
    ToStringDigits(n);
    ToStringCanonical(n);
    if Canonical(s) && ValueOf(s) == n {
      var front, d := s[..|s| - 1], s[|s| - 1];
      assert s == front + [d];
      if front == "" {
        assert n == DigitValue(d) && DigitChar(n) == d;
      } else {
        CanonicalValue(front);
        assert n / 10 == ValueOf(front) && n % 10 == DigitValue(d);
        ToStringIs(n / 10, front);
      }
    }
  }

  /** Different numbers print differently. */
  lemma ToStringInjective(m: nat, n: nat)
    requires ToString(m) == ToString(n)
    ensures m == n
  {
    ToStringDigits(m);
    ToStringDigits(n);
  }

  // The longest prefix of digits.
  function DigitPrefix(s: string): (p: string)
    ensures p <= s && AllDigits(p)
  {
    if s == "" || !IsDigit(s[0]) then "" else [s[0]] + DigitPrefix(s[1..])
  }

  lemma {:induction false} DigitPrefixAll(s: string)
    requires AllDigits(s)
    ensures DigitPrefix(s) == s
  {
    if s != "" {
      assert AllDigits(s[1..]) by {
        forall i | 0 <= i < |s[1..]| ensures IsDigit(s[1..][i]) { assert s[1..][i] == s[i + 1]; }
      }
      DigitPrefixAll(s[1..]);
    }
  }

  function SkipSpace(s: string): string {
    if s != "" && (s[0] == ' ' || '\t' <= s[0] <= '\r') then SkipSpace(s[1..]) else s
  }

  // None where std::stoull throws. A minus sign negates modulo 2^64.
  function Stoull(s: string): Option<nat> {
    var t := SkipSpace(s);
    var minus := t != "" && t[0] == '-';
    var digits := DigitPrefix(if t != "" && (t[0] == '-' || t[0] == '+') then t[1..] else t);
    if digits == "" || ValueOf(digits) >= TWO_64 then None
    else Some(if minus then (TWO_64 - ValueOf(digits)) % TWO_64 else ValueOf(digits))
  }

  lemma StoullInvertsToString(n: nat)
    requires n < TWO_64
    ensures Stoull(ToString(n)) == Some(n)
  {
    ToStringDigits(n);
    DigitPrefixAll(ToString(n));
    assert IsDigit(ToString(n)[0]);
  }

  predicate IsSpace(c: char) {
    c == ' ' || '\t' <= c <= '\r'
  }

  lemma {:induction false} SpaceSkipped(space: string, rest: string)
    requires (forall i :: 0 <= i < |space| ==> IsSpace(space[i])) && (rest != "" ==> !IsSpace(rest[0]))
    ensures SkipSpace(space + rest) == rest
  {
    if space == "" {
      assert space + rest == rest;
    } else {
      assert (space + rest)[1..] == space[1..] + rest;
      SpaceSkipped(space[1..], rest);
    }
  }

  lemma {:induction false} DigitsRead(digits: string, rest: string)
    requires AllDigits(digits) && (rest != "" ==> !IsDigit(rest[0]))
    ensures DigitPrefix(digits + rest) == digits
  {
    if digits == "" {
      assert digits + rest == rest;
    } else {
      assert AllDigits(digits[1..]) by {
        forall i | 0 <= i < |digits[1..]| ensures IsDigit(digits[1..][i]) { assert digits[1..][i] == digits[i + 1]; }
      }
      assert (digits + rest)[1..] == digits[1..] + rest && digits == [digits[0]] + digits[1..];
      DigitsRead(digits[1..], rest);
    }
  }

  predicate IsSign(c: char) {
    c == '+' || c == '-'
  }

  // What is read off the text behind the white space.
  lemma SignRead(s: string, sign: string, number: string)
    requires SkipSpace(s) == sign + number
    requires sign == "" || (|sign| == 1 && IsSign(sign[0]))
    requires sign == "" && number != "" ==> !IsSign(number[0])
    ensures Stoull(s) ==
      var digits := DigitPrefix(number);
      if digits == "" || ValueOf(digits) >= TWO_64 then None
      else Some(if sign == "-" then (TWO_64 - ValueOf(digits)) % TWO_64 else ValueOf(digits))
  {
    var t := sign + number;
    if sign == "" { assert t == number; } else { assert t[0] == sign[0] && t[1..] == number; }
  }

  lemma Starts(a: string, b: string)
    ensures a + b == "" <==> a == b == ""
    ensures a + b != "" ==> (a + b)[0] == if a == "" then b[0] else a[0]
  {
  }

  lemma NumberRead(sign: string, digits: string, rest: string, number: string)
    requires number == digits + rest && AllDigits(digits) && (rest != "" ==> !IsDigit(rest[0]))
    requires sign == "" || (|sign| == 1 && IsSign(sign[0]))
    requires sign == digits == "" && rest != "" ==> !IsSpace(rest[0]) && !IsSign(rest[0])
    ensures DigitPrefix(number) == digits
    ensures sign == "" && number != "" ==> !IsSign(number[0])
    ensures sign + number != "" ==> !IsSpace((sign + number)[0])
  {
    Starts(digits, rest);
    Starts(sign, number);
    DigitsRead(digits, rest);
  }

  /** std::stoull skips white space, takes one sign and then digits up to the first other character.
      Without digits, or from 2^64 on, it throws; a minus sign negates modulo 2^64. */
  lemma StoullIs(s: string, space: string, sign: string, digits: string, rest: string)
    requires s == space + (sign + (digits + rest))
    requires forall i :: 0 <= i < |space| ==> IsSpace(space[i])
    requires sign == "" || (|sign| == 1 && IsSign(sign[0]))
    requires AllDigits(digits) && (rest != "" ==> !IsDigit(rest[0]))
    requires sign == digits == "" && rest != "" ==> !IsSpace(rest[0]) && !IsSign(rest[0])
    ensures Stoull(s) ==
      if digits == "" || ValueOf(digits) >= TWO_64 then None
      else Some(if sign == "-" then (TWO_64 - ValueOf(digits)) % TWO_64 else ValueOf(digits))
  {
    var number := digits + rest;
    NumberRead(sign, digits, rest, number);
    SpaceSkipped(space, sign + number);
    SignRead(s, sign, number);
  }
}
