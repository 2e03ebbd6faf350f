// src/server/websocket_server.h, detail::Base64Encode, with a strict decoder of
// section 4 of RFC 4648 as its partner.
module Base64 {
  import opened Wrappers
  import opened Bits

  const UPPER := "ABCDEFGHIJKLMNOPQRSTUVWXYZ"
  const LOWER := "abcdefghijklmnopqrstuvwxyz"
  const OTHER := "0123456789+/"
  const ALPHABET := UPPER + LOWER + OTHER

  // The character of a 6-bit value, by ranges.
  function Digit(v: nat): char
    requires v < 64
  {
    if v < 26 then 'A' + v as char
    else if v < 52 then 'a' + (v - 26) as char
    else if v < 62 then '0' + (v - 52) as char
    else if v == 62 then '+' else '/'
  }

  // The value of an alphabet character.
  function Value(c: char): (v: Option<nat>)
    ensures v.Some? ==> v.value < 64
  {
    if 'A' <= c <= 'Z' then Some((c - 'A') as nat)
    else if 'a' <= c <= 'z' then Some((c - 'a') as nat + 26)
    else if '0' <= c <= '9' then Some((c - '0') as nat + 52)
    else if c == '+' then Some(62)
    else if c == '/' then Some(63)
    else None
  }

  lemma DigitValue(v: nat)
    requires v < 64
    ensures Value(Digit(v)) == Some(v) && Digit(v) != '='
  {
  }

  /** The table of the encoder is the alphabet. */
  method Lookup(v: nat) returns (c: char)
    requires v < 64
    ensures c == Digit(v)
  {
    c := ALPHABET[v];
    if v < 26 {
      UpperAt(v);
      assert c == UPPER[v];
    } else if v < 52 {
      LowerAt(v - 26);
      assert c == LOWER[v - 26];
    } else {
      assert c == OTHER[v - 52];
    }
  }

  lemma UpperAt(v: nat)
    requires v < 26
    ensures UPPER[v] == 'A' + v as char
  {
  }

  lemma LowerAt(v: nat)
    requires v < 26
    ensures LOWER[v] == 'a' + v as char
  {
  }

  // ---- 24-bit groups ----

  function Join(a: nat, b: nat, c: nat): nat {
    a * 65536 + b * 256 + c
  }

  // The k-th group of six bits of n, counted from the low end.
  function Sextet(n: nat, k: nat): (v: nat)
    ensures v < 64
  {
    if k == 0 then n % 64 else Sextet(n / 64, k - 1)
  }

  function Unjoin(v3: nat, v2: nat, v1: nat, v0: nat): nat {
    ((v3 * 64 + v2) * 64 + v1) * 64 + v0
  }

  lemma SextetsOf(n: nat)
    requires n < 0x100_0000
    ensures Unjoin(Sextet(n, 3), Sextet(n, 2), Sextet(n, 1), Sextet(n, 0)) == n
  {
    var q := n / 64;
    var q' := q / 64;
    assert n == q * 64 + Sextet(n, 0);
    assert q == q' * 64 + Sextet(n, 1) by { assert Sextet(n, 1) == Sextet(q, 0); }
    assert q' == q' / 64 * 64 + Sextet(n, 2) by { assert Sextet(n, 2) == Sextet(q, 1) == Sextet(q', 0); }
    assert q' / 64 == Sextet(n, 3) by { assert Sextet(n, 3) == Sextet(q, 2) == Sextet(q', 1) == Sextet(q' / 64, 0); }
  }

  // n >> 18, n >> 12 and n >> 6, cut to six bits.
  lemma ShiftedSextets(n: nat)
    ensures n / 262144 % 64 == Sextet(n, 3) && n / 4096 % 64 == Sextet(n, 2) && n / 64 % 64 == Sextet(n, 1)
  {
    var q := n / 64;
    var q' := q / 64;
    DivModUnique(n, 4096, q', q % 64 * 64 + n % 64);
    DivModUnique(n, 262144, q' / 64, q' % 64 * 4096 + q % 64 * 64 + n % 64);
    assert Sextet(n, 1) == Sextet(q, 0) && Sextet(n, 2) == Sextet(q, 1) == Sextet(q', 0);
    assert Sextet(n, 3) == Sextet(q, 2) == Sextet(q', 1) == Sextet(q' / 64, 0);
  }

  lemma OctetsOf(a: nat, b: nat, c: nat)
    requires a < 256 && b < 256 && c < 256
    ensures Join(a, b, c) < 0x100_0000
    ensures Join(a, b, c) / 65536 == a && Join(a, b, c) / 256 % 256 == b && Join(a, b, c) % 256 == c
    ensures c == 0 ==> Join(a, b, c) % 256 == 0 && Sextet(Join(a, b, c), 0) == 0
    ensures b == 0 && c == 0 ==> Join(a, b, c) % 65536 == 0 && Sextet(Join(a, b, c), 1) == 0
  {
    if c == 0 { DivModUnique(Join(a, b, c), 64, a * 1024 + b * 4, 0); }
    if b == 0 && c == 0 { DivModUnique(a * 1024, 64, a * 16, 0); }
    DivModUnique(Join(a, b, c), 65536, a, b * 256 + c);
    DivModUnique(Join(a, b, c), 256, a * 256 + b, c);
    DivModUnique(a * 256 + b, 256, a, b);
  }

  function At(data: seq<byte>, i: nat): byte {
    if i < |data| then data[i] else 0
  }

  // The four characters of the first three octets, or of the one or two there are.
  function Quad(data: seq<byte>): (s: string)
    requires data != []
    ensures |s| == 4
  {
    var n := Join(data[0], At(data, 1), At(data, 2));
    [Digit(Sextet(n, 3)), Digit(Sextet(n, 2)),
     if |data| > 1 then Digit(Sextet(n, 1)) else '=',
     if |data| > 2 then Digit(Sextet(n, 0)) else '=']
  }

  function Rest(data: seq<byte>): seq<byte> {
    if |data| > 3 then data[3..] else []
  }

  function Encode(data: seq<byte>): string
    decreases |data|
  {
    if data == [] then "" else Quad(data) + Encode(Rest(data))
  }

  // ---- the decoder: padding only in the last group, unused bits zero ----

  function DecodeQuad(s: string): Option<seq<byte>>
    requires |s| == 4
  {
    var v0, v1 := Value(s[0]), Value(s[1]);
    var v2, v3 := if s[2] == '=' then Some(0) else Value(s[2]), if s[3] == '=' then Some(0) else Value(s[3]);
    if v0.None? || v1.None? || v2.None? || v3.None? || (s[2] == '=' && s[3] != '=') then None
    else
      var n := Unjoin(v0.value, v1.value, v2.value, v3.value);
      if s[2] == '=' then (if n % 65536 == 0 then Some([n / 65536]) else None)
      else if s[3] == '=' then (if n % 256 == 0 then Some([n / 65536, n / 256 % 256]) else None)
      else Some([n / 65536, n / 256 % 256, n % 256])
  }

  function Decode(s: string): Option<seq<byte>> {
    if s == "" then Some([])
    else if |s| < 4 || (s[3] == '=' && |s| > 4) then None
    else
      var first, rest := DecodeQuad(s[..4]), Decode(s[4..]);
      if first.None? || rest.None? then None else Some(first.value + rest.value)
  }

  lemma QuadDecodes(data: seq<byte>)
    requires data != []
    ensures DecodeQuad(Quad(data)) == Some(if |data| > 3 then data[..3] else data)
    ensures Quad(data)[3] == '=' <==> |data| < 3
  {
    var a, b, c := data[0], At(data, 1), At(data, 2);
    var n := Join(a, b, c);
    OctetsOf(a, b, c);
    SextetsOf(n);
    DigitValue(Sextet(n, 0));
    DigitValue(Sextet(n, 1));
    DigitValue(Sextet(n, 2));
    DigitValue(Sextet(n, 3));
    if |data| == 1 {
      assert data == [a];
    } else if |data| == 2 {
      assert data == [a, b];
    } else {
      assert [a, b, c] == data[..3] && (|data| == 3 ==> data == [a, b, c]);
    }
  }

  /** Decoding inverts encoding, so distinct inputs have distinct encodings. */
  lemma {:induction false} RoundTrip(data: seq<byte>)
    ensures Decode(Encode(data)) == Some(data)
    decreases |data|
  {
    if data != [] {
      var s := Encode(data);
      assert s[..4] == Quad(data) && s[4..] == Encode(Rest(data));
      QuadDecodes(data);
      RoundTrip(Rest(data));
      assert data == (if |data| > 3 then data[..3] else data) + Rest(data);
    }
  }

  lemma UnjoinSextets(n: nat, v3: nat, v2: nat, v1: nat, v0: nat)
    requires n == Unjoin(v3, v2, v1, v0) && v3 < 64 && v2 < 64 && v1 < 64 && v0 < 64
    ensures Sextet(n, 3) == v3 && Sextet(n, 2) == v2 && Sextet(n, 1) == v1 && Sextet(n, 0) == v0
  {
    var p, q := (v3 * 64 + v2) * 64 + v1, v3 * 64 + v2;
    DivModUnique(n, 64, p, v0);
    DivModUnique(p, 64, q, v1);
    DivModUnique(q, 64, v3, v2);
    assert Sextet(n, 1) == Sextet(p, 0) && Sextet(n, 2) == Sextet(p, 1) == Sextet(q, 0);
    assert Sextet(n, 3) == Sextet(p, 2) == Sextet(q, 1) == Sextet(v3, 0);
  }

  lemma QuadIs(data: seq<byte>, v3: nat, v2: nat, v1: nat, v0: nat)
    requires data != [] && v3 < 64 && v2 < 64 && v1 < 64 && v0 < 64
    requires Join(data[0], At(data, 1), At(data, 2)) == Unjoin(v3, v2, v1, v0)
    ensures Quad(data) == [Digit(v3), Digit(v2), if |data| > 1 then Digit(v1) else '=',
                           if |data| > 2 then Digit(v0) else '=']
  {
    UnjoinSextets(Join(data[0], At(data, 1), At(data, 2)), v3, v2, v1, v0);
  }

  /** The test vectors of section 10 of RFC 4648 for f, fo, foo and foobar, and one that needs the last two
      characters of the alphabet. */
  lemma Vectors(foobar: seq<byte>, high: seq<byte>)
    requires foobar == [0x66, 0x6F, 0x6F, 0x62, 0x61, 0x72] && high == [0xFB, 0xFF, 0xBF]
    ensures Encode(foobar[..1]) == "Zg==" && Encode(foobar[..2]) == "Zm8=" && Encode(foobar[..3]) == "Zm9v"
    ensures Encode(foobar) == "Zm9vYmFy" && Encode(high) == "+/+/"
  {
    QuadIs(foobar[..1], 25, 32, 0, 0);
    QuadIs(foobar[..2], 25, 38, 60, 0);
    QuadIs(foobar[..3], 25, 38, 61, 47);
    QuadIs(foobar, 25, 38, 61, 47);
    QuadIs(foobar[3..], 24, 38, 5, 50);
    QuadIs(high, 62, 63, 62, 63);
  }

  /** Four characters for each group of three octets or part of one. */
  lemma {:induction false} EncodedLength(data: seq<byte>)
    ensures |Encode(data)| == 4 * ((|data| + 2) / 3)
    decreases |data|
  {
    if data != [] {
      EncodedLength(Rest(data));
      assert |Encode(data)| == 4 + |Encode(Rest(data))|;
      GroupCount(|data|);
    }
  }

  lemma GroupCount(n: nat)
    requires n > 0
    ensures (n + 2) / 3 == 1 + ((if n > 3 then n - 3 else 0) + 2) / 3
  {
  }

  // One pass of the loop: the four characters of the group at i.
  method EncodeGroup(data: seq<byte>, i: nat) returns (group: string)
    requires i < |data|
    ensures group == Quad(data[i..])
  {
    var n: nat := (data[i] as nat) * 65536;
    if i + 1 < |data| { n := n + (data[i + 1] as nat) * 256; }
    if i + 2 < |data| { n := n + data[i + 2]; }
    ghost var rest := data[i..];
    assert rest[0] == data[i] && n == Join(rest[0], At(rest, 1), At(rest, 2));
    ShiftedSextets(n);
    var c0 := Lookup(n / 262144 % 64);
    var c1 := Lookup(n / 4096 % 64);
    var c2 := Lookup(n / 64 % 64);
    var c3 := Lookup(n % 64);
    group := [c0, c1, if i + 1 < |data| then c2 else '=', if i + 2 < |data| then c3 else '='];
  }

  // What the loop has still to encode at index i.
  function Tail(data: seq<byte>, i: nat): seq<byte> {
    if i < |data| then data[i..] else []
  }

  lemma TailEnds(data: seq<byte>, i: nat)
    ensures Encode(Tail(data, 0)) == Encode(data)
    ensures i >= |data| ==> Encode(Tail(data, i)) == ""
  {
    assert Tail(data, 0) == data;
  }

  lemma TailStep(data: seq<byte>, i: nat, out: string, group: string)
    requires i < |data| && group == Quad(data[i..]) && Encode(data) == out + Encode(Tail(data, i))
    ensures Encode(data) == out + group + Encode(Tail(data, i + 3))
  {
    assert Rest(data[i..]) == Tail(data, i + 3);
    assert out + (group + Encode(Tail(data, i + 3))) == out + group + Encode(Tail(data, i + 3));
  }

  method Base64Encode(data: seq<byte>) returns (out: string)
    ensures out == Encode(data)
  {
    out := "";
    var i := 0;
    TailEnds(data, i);
    while i < |data|
      invariant Encode(data) == out + Encode(Tail(data, i))
    {
      var group := EncodeGroup(data, i);
      TailStep(data, i, out, group);
      out := out + group;
      i := i + 3;
    }
    TailEnds(data, i);
  }
}
