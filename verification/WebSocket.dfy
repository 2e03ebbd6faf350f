// src/server/websocket_server.h (frame codec) and the receive loop of
// src/server/websocket_manager.h. Shifts and masks by constants are quotients and
// remainders; the mask key is applied with the exclusive or of Bits.
module WebSocket {
  import opened Wrappers
  import opened Bits

  datatype Frame = Frame(opcode: nat, fin: bool, payload: seq<byte>)

  const TWO_63: nat := 0x8000_0000_0000_0000

  // ---- the wire format, sections 5.2 and 5.3 of RFC 6455 ----

  function ToBigEndian(n: nat, k: nat): (bs: seq<byte>)
    ensures |bs| == k
  {
    if k == 0 then [] else ToBigEndian(n / 256, k - 1) + [n % 256]
  }

  function BigEndian(bs: seq<byte>): nat {
    if bs == [] then 0 else BigEndian(bs[..|bs| - 1]) * 256 + bs[|bs| - 1]
  }

  function Power256(k: nat): (r: nat)
    ensures r > 0
  {
    if k == 0 then 1 else 256 * Power256(k - 1)
  }

  lemma {:induction false} BigEndianInverse(n: nat, k: nat)
    requires n < Power256(k)
    ensures BigEndian(ToBigEndian(n, k)) == n
  {
    if k > 0 {
      BigEndianInverse(n / 256, k - 1);
      var bs := ToBigEndian(n, k);
      assert bs[..k - 1] == ToBigEndian(n / 256, k - 1);
    }
  }

  lemma {:induction false} BigEndianBound(bs: seq<byte>)
    ensures BigEndian(bs) < Power256(|bs|)
  {
    if bs != [] { BigEndianBound(bs[..|bs| - 1]); }
  }

  function XorByte(a: byte, k: byte): byte {
    assert Pow2(8) == 256;
    XorCancel(a, k, 8);
    Xor(a, k)
  }

  // Octet i of the payload is combined with octet i mod 4 of the key.
  function Masked(bs: seq<byte>, key: Option<seq<byte>>): (r: seq<byte>)
    requires key.Some? ==> |key.value| == 4
    ensures |r| == |bs|
  {
    if key.None? then bs else seq(|bs|, i requires 0 <= i < |bs| => XorByte(bs[i], key.value[i % 4]))
  }

  /** Masking with the same key twice gives the payload back. */
  lemma MaskedTwice(bs: seq<byte>, key: Option<seq<byte>>)
    requires key.Some? ==> |key.value| == 4
    ensures Masked(Masked(bs, key), key) == bs
  {
    if key.Some? {
      forall i | 0 <= i < |bs| ensures Masked(Masked(bs, key), key)[i] == bs[i] {
        assert Pow2(8) == 256;
        XorCancel(bs[i], key.value[i % 4], 8);
      }
    }
  }

  // A frame as its sender puts it on the wire, masked with key or not.
  datatype Sent = Sent(frame: Frame, key: Option<seq<byte>>)

  ghost predicate WellFormed(s: Sent) {
    s.frame.opcode < 16 && |s.frame.payload| < TWO_63 && (s.key.Some? ==> |s.key.value| == 4)
  }

  function LengthCode(n: nat): nat {
    if n <= 125 then n else if n <= 65535 then 126 else 127
  }

  function Extension(n: nat): seq<byte> {
    if n <= 125 then [] else if n <= 65535 then ToBigEndian(n, 2) else ToBigEndian(n, 8)
  }

  function FirstTwo(s: Sent): (bs: seq<byte>)
    requires WellFormed(s)
    ensures |bs| == 2
  {
    [(if s.frame.fin then 128 else 0) + s.frame.opcode,
        (if s.key.Some? then 128 else 0) + LengthCode(|s.frame.payload|)]
  }

  function Header(s: Sent): seq<byte>
    requires WellFormed(s)
  {
    FirstTwo(s) + Extension(|s.frame.payload|)
  }

  function Wire(s: Sent): (bs: seq<byte>)
    requires WellFormed(s)
    ensures |bs| >= 2
  {
    Header(s) + KeyBytes(s.key) + Masked(s.frame.payload, s.key)
  }

  // ---- DecodeFrame ----

  datatype Decoding = NeedMore | Decoded(frame: Frame, consumed: nat) | LengthError

  function ExtensionSize(code: nat): nat {
    if code == 126 then 2 else if code == 127 then 8 else 0
  }

  function HeaderSize(b1: byte): nat {
    2 + ExtensionSize(b1 % 128) + if b1 >= 128 then 4 else 0
  }

  function PayloadLength(buf: seq<byte>): nat
    requires |buf| >= 2 && |buf| >= 2 + ExtensionSize(buf[1] % 128)
  {
    var ext := ExtensionSize(buf[1] % 128);
    if ext == 0 then buf[1] % 128 else BigEndian(buf[2..2 + ext])
  }

  function KeyOf(buf: seq<byte>): (key: Option<seq<byte>>)
    requires |buf| >= 2 && |buf| >= HeaderSize(buf[1])
    ensures key.Some? ==> |key.value| == 4
  {
    if buf[1] >= 128 then Some(buf[HeaderSize(buf[1]) - 4..HeaderSize(buf[1])]) else None
  }

  // What DecodeFrame finds in buf. A length field near 2^64 wraps the size check, and
  // the payload resize then throws.
  function Decode(buf: seq<byte>): (d: Decoding)
    ensures d.Decoded? ==> 2 <= d.consumed <= |buf|
  {
    if |buf| < 2 || |buf| < 2 + ExtensionSize(buf[1] % 128) then NeedMore
    else
      var header, length := HeaderSize(buf[1]), PayloadLength(buf);
      if |buf| < (header + length) % TWO_64 then NeedMore
      else if header + length >= TWO_64 then LengthError
      else Decoded(Frame(buf[0] % 16, buf[0] >= 128, Masked(buf[header..header + length], KeyOf(buf))), header + length)
  }

  /** Bytes that arrive later change no verdict except the one that more are needed. */
  lemma DecodeMonotone(a: seq<byte>, b: seq<byte>)
    requires !Decode(a).NeedMore?
    ensures Decode(a + b) == Decode(a)
  {
    var header := HeaderSize(a[1]);
    SliceOfSum(a, b, 2, 2 + ExtensionSize(a[1] % 128));
    if Decode(a).Decoded? {
      SliceOfSum(a, b, header, Decode(a).consumed);
      SliceOfSum(a, b, if a[1] >= 128 then header - 4 else header, header);
    }
  }

  lemma SliceOfSum(a: seq<byte>, b: seq<byte>, i: nat, j: nat)
    requires i <= j <= |a|
    ensures (a + b)[i..j] == a[i..j]
  {
  }

  lemma ExtensionDecodes(n: nat)
    requires n < TWO_63
    ensures ExtensionSize(LengthCode(n)) == |Extension(n)| && LengthCode(n) < 128
    ensures n == if Extension(n) == [] then LengthCode(n) else BigEndian(Extension(n))
  {
    if n > 65535 {
      assert Power256(8) == TWO_64;
      BigEndianInverse(n, 8);
    } else if n > 125 {
      assert Power256(2) == 65536;
      BigEndianInverse(n, 2);
    }
  }

  function KeyBytes(key: Option<seq<byte>>): seq<byte> {
    if key.Some? then key.value else []
  }

  lemma FourParts(a: seq<byte>, b: seq<byte>, c: seq<byte>, d: seq<byte>)
    ensures var w := a + b + c + d;
      && w[..|a|] == a && w[|a|..|a| + |b|] == b && w[|a| + |b|..|a| + |b| + |c|] == c && w[|a| + |b| + |c|..] == d
  {
  }

  lemma WireParts(s: Sent)
    requires WellFormed(s)
    ensures var w, n, header := Wire(s), |s.frame.payload|, 2 + |Extension(|s.frame.payload|)| + |KeyBytes(s.key)|;
      && |w| == header + n
      && w[0] == (if s.frame.fin then 128 else 0) + s.frame.opcode
      && w[1] == (if s.key.Some? then 128 else 0) + LengthCode(n)
      && w[2..2 + |Extension(n)|] == Extension(n)
      && w[header - |KeyBytes(s.key)|..header] == KeyBytes(s.key)
      && w[header..header + n] == Masked(s.frame.payload, s.key)
  {
    var first, ext, key, payload := FirstTwo(s), Extension(|s.frame.payload|), KeyBytes(s.key),
        Masked(s.frame.payload, s.key);
    assert Wire(s) == first + ext + key + payload;
    FourParts(first, ext, key, payload);
    assert Wire(s)[..2] == first && Wire(s)[0] == first[0] && Wire(s)[1] == first[1];
    assert Wire(s)[|first| + |ext| + |key|..] == Wire(s)[|first| + |ext| + |key|..|Wire(s)|];
  }

  lemma WireHeader(s: Sent)
    requires WellFormed(s)
    ensures var w := Wire(s);
      && |w| >= HeaderSize(w[1]) && HeaderSize(w[1]) == |w| - |s.frame.payload|
      && w[0] % 16 == s.frame.opcode && (w[0] >= 128 <==> s.frame.fin)
      && PayloadLength(w) == |s.frame.payload| && KeyOf(w) == s.key
      && w[HeaderSize(w[1])..] == Masked(s.frame.payload, s.key)
  {
    WireParts(s);
    ExtensionDecodes(|s.frame.payload|);
  }

  /** A frame on the wire decodes to itself, whatever follows it. */
  lemma DecodeInvertsWire(s: Sent, rest: seq<byte>)
    requires WellFormed(s)
    ensures Decode(Wire(s) + rest) == Decoded(s.frame, |Wire(s)|)
  {
    DecodeOwnWire(s, Wire(s));
    DecodeMonotone(Wire(s), rest);
  }

  lemma DecodeOwnWire(s: Sent, w: seq<byte>)
    requires WellFormed(s) && w == Wire(s)
    ensures Decode(w) == Decoded(s.frame, |w|)
  {
    var n := |s.frame.payload|;
    WireHeader(s);
    MaskedTwice(s.frame.payload, s.key);
    HeaderBound(w[1]);
    assert w[HeaderSize(w[1])..HeaderSize(w[1]) + n] == w[HeaderSize(w[1])..];
    DecodesTo(w, n);
  }

  lemma HeaderBound(b1: byte)
    ensures 2 <= HeaderSize(b1) <= 14
  {
  }

  /** No proper prefix of a frame decodes to anything. */
  lemma PrefixNeedsMore(s: Sent, k: nat)
    requires WellFormed(s) && k < |Wire(s)|
    ensures Decode(Wire(s)[..k]) == NeedMore
  {
    var w := Wire(s);
    DecodeInvertsWire(s, []);
    assert w + [] == w == w[..k] + w[k..];
    if !Decode(w[..k]).NeedMore? { DecodeMonotone(w[..k], w[k..]); }
  }

  // ---- what a frame is, read off the buffer octet by octet and bit by bit ----

  // Octets before the payload: two, the longer length forms, and the mask key.
  function PayloadStart(buf: seq<byte>): nat
    requires |buf| >= 2
  {
    (if buf[1] % 128 == 127 then 10 else if buf[1] % 128 == 126 then 4 else 2) + if buf[1] / 128 == 1 then 4 else 0
  }

  function Horner(n: nat, a: byte, b: byte, c: byte): nat {
    ((n * 256 + a) * 256 + b) * 256 + c
  }

  // The length field, most significant octet first.
  function LengthField(buf: seq<byte>): nat
    requires |buf| >= 2 && |buf| >= PayloadStart(buf)
  {
    if buf[1] % 128 == 127 then
      Horner(Horner(buf[2], buf[3], buf[4], buf[5]), buf[6], buf[7], buf[8]) * 256 + buf[9]
    else if buf[1] % 128 == 126 then (buf[2] as nat) * 256 + buf[3]
    else buf[1] % 128
  }

  // The sender flipped bit k of payload octet i exactly if it is set in octet i mod 4 of the
  // key, the four octets before the payload.
  ghost predicate Unmasked(buf: seq<byte>, start: nat, masked: bool, payload: seq<byte>)
    requires start + |payload| <= |buf| && (masked ==> start >= 4)
  {
    forall i: nat, k: nat {:trigger Bit(payload[i], k)} :: i < |payload| && k < 8 ==>
      (Bit(payload[i], k) <==> Bit(buf[start + i], k) != (masked && Bit(buf[start - 4 + i % 4], k)))
  }

  ghost predicate StartsWith(buf: seq<byte>, f: Frame, n: nat) {
    && |buf| >= 2 && |buf| >= PayloadStart(buf)
    && f.opcode == buf[0] % 16 && (f.fin <==> buf[0] / 128 == 1)
    && |f.payload| == LengthField(buf) && PayloadStart(buf) + |f.payload| == n <= |buf| && n < TWO_64
    && Unmasked(buf, PayloadStart(buf), buf[1] / 128 == 1, f.payload)
  }

  lemma EightBytes(bs: seq<byte>)
    requires |bs| == 8
    ensures BigEndian(bs) == Horner(Horner(bs[0], bs[1], bs[2], bs[3]), bs[4], bs[5], bs[6]) * 256 + bs[7]
  {
    BigEndianLast(bs, 8);
    BigEndianLast(bs, 7);
    BigEndianLast(bs, 6);
    BigEndianLast(bs, 5);
    BigEndianLast(bs, 4);
    BigEndianLast(bs, 3);
    BigEndianLast(bs, 2);
    BigEndianLast(bs, 1);
  }

  lemma BigEndianLast(bs: seq<byte>, k: nat)
    requires 0 < k <= |bs|
    ensures BigEndian(bs[..k]) == BigEndian(bs[..k - 1]) * 256 + bs[k - 1]
    ensures BigEndian(bs[..0]) == 0 && bs[..|bs|] == bs
  {
    assert bs[..k][..k - 1] == bs[..k - 1];
  }

  lemma FieldIsLength(buf: seq<byte>)
    requires |buf| >= 2 && |buf| >= PayloadStart(buf)
    ensures HeaderSize(buf[1]) == PayloadStart(buf) && PayloadLength(buf) == LengthField(buf)
  {
    if buf[1] % 128 == 127 {
      EightBytes(buf[2..10]);
    } else if buf[1] % 128 == 126 {
      TwoBytes(buf[2], buf[3]);
      assert buf[2..4] == [buf[2], buf[3]];
    }
  }

  lemma KeyAt(buf: seq<byte>, i: nat)
    requires |buf| >= 2 && |buf| >= PayloadStart(buf) && i < 4
    ensures KeyOf(buf).Some? <==> buf[1] / 128 == 1
    ensures KeyOf(buf).Some? ==> KeyOf(buf).value[i] == buf[PayloadStart(buf) - 4 + i]
  {
  }

  lemma MaskedBit(bs: seq<byte>, key: Option<seq<byte>>, i: nat, k: nat)
    requires (key.Some? ==> |key.value| == 4) && i < |bs|
    ensures Bit(Masked(bs, key)[i], k) <==> Bit(bs[i], k) != (key.Some? && Bit(key.value[i % 4], k))
  {
    if key.Some? { Bitwise(bs[i], key.value[i % 4], k); }
  }

  lemma MaskedIsUnmasked(buf: seq<byte>, start: nat, n: nat)
    requires |buf| >= 2 && start == PayloadStart(buf) && start + n <= |buf|
    ensures Unmasked(buf, start, buf[1] / 128 == 1, Masked(buf[start..start + n], KeyOf(buf)))
  {
    var body, key := buf[start..start + n], KeyOf(buf);
    var payload := Masked(body, key);
    forall i: nat, k: nat | i < n && k < 8
      ensures Bit(payload[i], k) <==> Bit(buf[start + i], k) != (buf[1] / 128 == 1 && Bit(buf[start - 4 + i % 4], k))
    {
      KeyAt(buf, i % 4);
      MaskedBit(body, key, i, k);
    }
  }

  // The bits leave one payload only.
  lemma UnmaskedOnce(buf: seq<byte>, start: nat, masked: bool, p: seq<byte>, q: seq<byte>)
    requires |p| == |q| && start + |p| <= |buf| && (masked ==> start >= 4)
    requires Unmasked(buf, start, masked, p) && Unmasked(buf, start, masked, q)
    ensures p == q
  {
    assert Pow2(8) == 256;
    forall i: nat | i < |p| ensures p[i] == q[i] {
      forall k: nat | k < 8 ensures Bit(p[i], k) <==> Bit(q[i], k) {
      }
      BitsDetermine(p[i], q[i], 8);
    }
  }

  /** Decoding finds a frame exactly where one starts: opcode, FIN bit and length as they stand in
      the header, and every payload octet with the flips of its key octet undone. */
  lemma DecodedIff(buf: seq<byte>, f: Frame, n: nat)
    ensures Decode(buf) == Decoded(f, n) <==> StartsWith(buf, f, n)
  {
    if |buf| >= 2 && |buf| >= PayloadStart(buf) {
      var start, length := PayloadStart(buf), LengthField(buf);
      FieldIsLength(buf);
      if start + length <= |buf| && start + length < TWO_64 {
        MaskedIsUnmasked(buf, start, length);
        DecodesTo(buf, length);
        var g := Decode(buf).frame;
        if StartsWith(buf, f, n) { UnmaskedOnce(buf, start, buf[1] / 128 == 1, f.payload, g.payload); }
      }
    }
  }

  lemma DecodesTo(buf: seq<byte>, length: nat)
    requires |buf| >= 2 && |buf| >= HeaderSize(buf[1]) && PayloadLength(buf) == length
    requires HeaderSize(buf[1]) + length <= |buf| && HeaderSize(buf[1]) + length < TWO_64
    ensures var start := HeaderSize(buf[1]);
      Decode(buf) == Decoded(
        Frame(buf[0] % 16, buf[0] / 128 == 1, Masked(buf[start..start + length], KeyOf(buf))), start + length)
  {
  }

  lemma HelloStart(a: byte, b: byte, r: byte)
    requires (a == 0x7F && b == 0x37 && r == 0x48) || (a == 0x9F && b == 0xFA && r == 0x65)
    ensures Xor(a, b) == r
  {
    if a == 0x7F { assert XorDigits(0x7F, 0x37, 0x48, 8); } else { assert XorDigits(0x9F, 0xFA, 0x65, 8); }
    XorByDigits(a, b, r, 8);
  }

  lemma HelloEnd(a: byte, b: byte, r: byte)
    requires (a == 0x4D && b == 0x21 && r == 0x6C) || (a == 0x51 && b == 0x3D && r == 0x6C)
      || (a == 0x58 && b == 0x37 && r == 0x6F)
    ensures Xor(a, b) == r
  {
    if a == 0x4D {
      assert XorDigits(0x4D, 0x21, 0x6C, 8);
    } else if a == 0x51 {
      assert XorDigits(0x51, 0x3D, 0x6C, 8);
    } else {
      assert XorDigits(0x58, 0x37, 0x6F, 8);
    }
    XorByDigits(a, b, r, 8);
  }

  lemma HelloPayload(bs: seq<byte>, key: seq<byte>, out: seq<byte>)
    requires bs == [0x7F, 0x9F, 0x4D, 0x51, 0x58] && key == [0x37, 0xFA, 0x21, 0x3D]
    requires out == [0x48, 0x65, 0x6C, 0x6C, 0x6F]
    ensures Masked(bs, Some(key)) == out
  {
    HelloStart(bs[0], key[0], out[0]);
    HelloStart(bs[1], key[1], out[1]);
    HelloEnd(bs[2], key[2], out[2]);
    HelloEnd(bs[3], key[3], out[3]);
    HelloEnd(bs[4], key[0], out[4]);
  }

  /** Section 5.7 of RFC 6455: the masked Text frame with the payload Hello. */
  lemma HelloFrame()
    ensures Decode([0x81, 0x85, 0x37, 0xFA, 0x21, 0x3D, 0x7F, 0x9F, 0x4D, 0x51, 0x58])
      == Decoded(Frame(1, true, [0x48, 0x65, 0x6C, 0x6C, 0x6F]), 11)
  {
    var buf: seq<byte> := [0x81, 0x85, 0x37, 0xFA, 0x21, 0x3D, 0x7F, 0x9F, 0x4D, 0x51, 0x58];
    HelloPayload(buf[6..11], buf[2..6], [0x48, 0x65, 0x6C, 0x6C, 0x6F]);
    DecodesTo(buf, 5);
  }

  /** The wire form takes 2, 4 or 10 octets and the key before the payload, and no other frame with
      the same content and mask bit is shorter. */
  lemma WireIsShortest(s: Sent, buf: seq<byte>, n: nat)
    requires WellFormed(s)
    ensures |Wire(s)| == (if |s.frame.payload| <= 125 then 2 else if |s.frame.payload| <= 65535 then 4 else 10)
      + (if s.key.Some? then 4 else 0) + |s.frame.payload|
    ensures Decode(buf) == Decoded(s.frame, n) && (buf[1] / 128 == 1 <==> s.key.Some?) ==> n >= |Wire(s)|
  {
    WireParts(s);
    DecodedIff(buf, s.frame, n);
  }

  method DecodeFrame(data: seq<byte>) returns (d: Decoding)
    ensures d == Decode(data)
  {
    if |data| < 2 { return NeedMore; }
    var b0, b1 := data[0], data[1];
    var masked := b1 / 128 != 0;
    var complete, header, length := ReadHeader(data);
    if !complete { return NeedMore; }
    if masked { header := header + 4; }
    if |data| < (header + length) % TWO_64 { return NeedMore; }
    if header + length >= TWO_64 { return LengthError; }
    var payload := Unmask(data, header, length, masked);
    d := Decoded(Frame(b0 % 16, b0 / 128 != 0, payload), header + length);
  }

  // The three length forms; the header size is without the mask key.
  method ReadHeader(data: seq<byte>) returns (complete: bool, header: nat, length: nat)
    requires |data| >= 2
    ensures complete <==> |data| >= 2 + ExtensionSize(data[1] % 128)
    ensures complete ==> header == 2 + ExtensionSize(data[1] % 128) && length == PayloadLength(data)
  {
    header, length := 2, data[1] % 128;
    if length == 126 {
      if |data| < 4 { return false, 0, 0; }
      length := (data[2] as nat) * 256 + data[3];
      header := 4;
      TwoBytes(data[2], data[3]);
      assert data[2..4] == [data[2], data[3]];
    } else if length == 127 {
      if |data| < 10 { return false, 0, 0; }
      length := ReadLength(data);
      header := 10;
    }
    complete := true;
  }

  lemma TwoBytes(a: byte, b: byte)
    ensures BigEndian([a, b]) == a * 256 + b
  {
    assert [a, b][..1] == [a] && [a][..0] == [];
    assert BigEndian([a]) == a;
  }

  lemma InTwoBytes(n: nat, a: byte, b: byte)
    requires n == a * 256 + b
    ensures ToBigEndian(n, 2) == [a, b]
  {
    assert n / 256 == a && n % 256 == b && a % 256 == a;
    assert ToBigEndian(a, 1) == [a];
  }

  method ReadLength(data: seq<byte>) returns (length: nat)
    requires |data| >= 10
    ensures length == BigEndian(data[2..10])
  {
    length := 0;
    for i := 0 to 8
      invariant length == BigEndian(data[2..2 + i])
    {
      assert data[2..2 + i + 1][..i] == data[2..2 + i];
      length := length * 256 + data[2 + i];
    }
  }

  method Unmask(data: seq<byte>, header: nat, length: nat, masked: bool) returns (payload: seq<byte>)
    requires header + length <= |data| && header >= (if masked then 4 else 0)
    ensures payload == Masked(data[header..header + length], if masked then Some(data[header - 4..header]) else None)
  {
    ghost var key := if masked then Some(data[header - 4..header]) else None;
    payload := [];
    for i := 0 to length
      invariant payload == Masked(data[header..header + i], key)
    {
      payload := payload + [if masked then XorByte(data[header + i], data[header - 4 + i % 4]) else data[header + i]];
    }
  }

  method EncodeFrame(payload: seq<byte>, opcode: nat) returns (frame: seq<byte>)
    requires opcode < 16 && |payload| < TWO_63
    ensures frame == Wire(Sent(Frame(opcode, true, payload), None))
  {
    frame := [128 + opcode];
    var len := |payload|;
    if len <= 125 {
      frame := frame + [len];
    } else if len <= 65535 {
      frame := frame + [126];
      frame := frame + [len / 256 % 256];
      frame := frame + [len % 256];
      InTwoBytes(len, len / 256 % 256, len % 256);
    } else {
      frame := frame + [127];
      var length := WriteLength(len);
      frame := frame + length;
    }
    frame := frame + payload;
  }

  // n >> (8 * k)
  function Shifted(n: nat, k: nat): nat {
    if k == 0 then n else Shifted(n, k - 1) / 256
  }

  method WriteLength(len: nat) returns (bytes: seq<byte>)
    ensures bytes == ToBigEndian(len, 8)
  {
    bytes := [];
    for i := 0 to 8
      invariant bytes == ToBigEndian(Shifted(len, 8 - i), i)
    {
      bytes := bytes + [Shifted(len, 7 - i) % 256];
    }
  }

  // ---- the receive loop ----

  datatype Received = Received(frames: seq<Frame>, rest: seq<byte>, failed: bool)

  // All frames in buf, and the bytes left over.
  function Drain(buf: seq<byte>): Received
    decreases |buf|
  {
    match Decode(buf)
    case NeedMore => Received([], buf, false)
    case LengthError => Received([], buf, true)
    case Decoded(frame, n) => var r := Drain(buf[n..]); r.(frames := [frame] + r.frames)
  }

  lemma Regroup(a: seq<Frame>, f: Frame, b: seq<Frame>)
    ensures a + ([f] + b) == a + [f] + b
  {
  }

  const CLOSE: nat := 8

  predicate Closes(frames: seq<Frame>) {
    exists i :: 0 <= i < |frames| && frames[i].opcode == CLOSE
  }

  class Connection {
    var recvBuf: seq<byte>

    constructor ()
      ensures recvBuf == []
    {
      recvBuf := [];
    }

    /** One read: append, then decode and erase until no whole frame is left. A Close among
        the frames has the connection removed once the read is over. */
    method OnBytes(chunk: seq<byte>) returns (frames: seq<Frame>, failed: bool, remove: bool)
      modifies this
      ensures Received(frames, recvBuf, failed) == Drain(old(recvBuf) + chunk)
      ensures remove == Closes(frames)
    {
      recvBuf := recvBuf + chunk;
      frames, failed, remove := [], false, false;
      ghost var all := recvBuf;
      while recvBuf != []
        invariant Drain(all) == Drain(recvBuf).(frames := frames + Drain(recvBuf).frames)
        invariant remove == Closes(frames) && !failed
        decreases |recvBuf|
      {
        var d := DecodeFrame(recvBuf);
        if d.NeedMore? {
          assert frames + [] == frames;
          return;
        }
        if d.LengthError? {
          assert frames + [] == frames;
          return frames, true, remove;
        }
        Regroup(frames, d.frame, Drain(recvBuf[d.consumed..]).frames);
        ClosesMore(frames, d.frame);
        frames := frames + [d.frame];
        recvBuf := recvBuf[d.consumed..];
        if d.frame.opcode == CLOSE { remove := true; }
      }
      assert frames + [] == frames;
    }
  }

  lemma ClosesMore(frames: seq<Frame>, frame: Frame)
    ensures Closes(frames + [frame]) <==> Closes(frames) || frame.opcode == CLOSE
  {
    var more := frames + [frame];
    assert more[|frames|] == frame && forall i :: 0 <= i < |frames| ==> more[i] == frames[i];
  }

  lemma ClosesSum(a: seq<Frame>, b: seq<Frame>)
    ensures Closes(a + b) <==> Closes(a) || Closes(b)
  {
    assert forall i :: 0 <= i < |a| ==> (a + b)[i] == a[i];
    assert forall i :: 0 <= i < |b| ==> (a + b)[|a| + i] == b[i];
  }

  // After such a read there is no other: the connection is removed, or its thread has ended.
  predicate Over(r: Received) {
    r.failed || Closes(r.frames)
  }

  // Feeding chunk after chunk, read by read.
  function Feed(buf: seq<byte>, chunks: seq<seq<byte>>): Received
    decreases |chunks|
  {
    if chunks == [] then Received([], buf, false)
    else
      var d := Drain(buf + chunks[0]);
      if Over(d) then d else After(d.frames, Feed(d.rest, chunks[1..]))
  }

  // How many chunks are read.
  function Reads(buf: seq<byte>, chunks: seq<seq<byte>>): (n: nat)
    ensures n <= |chunks|
    decreases |chunks|
  {
    if chunks == [] then 0
    else
      var d := Drain(buf + chunks[0]);
      if Over(d) then 1 else 1 + Reads(d.rest, chunks[1..])
  }

  // Equal results, up to the buffer of a failed connection.
  ghost predicate Agree(r: Received, r': Received) {
    r.frames == r'.frames && r.failed == r'.failed && (!r.failed ==> r.rest == r'.rest)
  }

  function After(frames: seq<Frame>, r: Received): Received {
    r.(frames := frames + r.frames)
  }

  // x is d, resumed with t unless d failed.
  ghost predicate Resumed(x: Received, d: Received, t: Received) {
    if d.failed then Agree(x, d) else x == After(d.frames, t)
  }

  lemma ResumedAfter(frames: seq<Frame>, x: Received, d: Received, t: Received)
    requires Resumed(x, d, t)
    ensures Resumed(After(frames, x), After(frames, d), t)
  {
    assert frames + (d.frames + t.frames) == frames + d.frames + t.frames;
  }

  lemma ResumedFromStart(x: Received, buf: seq<byte>)
    ensures Resumed(x, Received([], buf, false), x)
  {
    assert [] + x.frames == x.frames;
  }

  lemma DrainOne(buf: seq<byte>)
    ensures !Decode(buf).Decoded? ==> Drain(buf) == Received([], buf, Decode(buf).LengthError?)
    ensures Decode(buf).Decoded? ==> Drain(buf) == After([Decode(buf).frame], Drain(buf[Decode(buf).consumed..]))
  {
  }

  lemma {:induction false} DrainResumes(a: seq<byte>, b: seq<byte>)
    ensures Resumed(Drain(a + b), Drain(a), Drain(Drain(a).rest + b))
    decreases |a|
  {
    var d := Decode(a);
    if d.NeedMore? {
      DrainOne(a);
      ResumedFromStart(Drain(a + b), a);
    } else if d.LengthError? {
      DecodeMonotone(a, b);
      DrainOne(a);
      DrainOne(a + b);
    } else {
      var rest := a[d.consumed..];
      DecodeMonotone(a, b);
      assert (a + b)[d.consumed..] == rest + b;
      DrainFrame(a, d.frame, d.consumed, rest);
      DrainFrame(a + b, d.frame, d.consumed, rest + b);
      DrainResumes(rest, b);
      ResumedAfter([d.frame], Drain(rest + b), Drain(rest), Drain(Drain(rest).rest + b));
    }
  }

  lemma {:induction false} DrainIdle(buf: seq<byte>)
    requires !Drain(buf).failed
    ensures Decode(Drain(buf).rest) == NeedMore
    decreases |buf|
  {
    match Decode(buf)
    case Decoded(_, n) => DrainIdle(buf[n..]);
    case _ =>
  }

  // The bytes of the first n chunks, after what the buffer holds.
  function Bytes(buf: seq<byte>, chunks: seq<seq<byte>>, n: nat): seq<byte>
    requires n <= |chunks|
  {
    buf + Concat(chunks[..n])
  }

  lemma BytesNext(buf: seq<byte>, chunks: seq<seq<byte>>, n: nat)
    requires 0 < n <= |chunks|
    ensures Bytes(buf, chunks, n) == buf + chunks[0] + Concat(chunks[1..][..n - 1])
  {
    assert chunks[..n][0] == chunks[0] && chunks[..n][1..] == chunks[1..][..n - 1];
  }

  // Once over, more bytes leave it over; until then a read may as well be one of several.
  lemma DrainInParts(buf: seq<byte>, chunks: seq<seq<byte>>, n: nat)
    requires 0 < n <= |chunks| && !Drain(buf + chunks[0]).failed
    ensures var d := Drain(buf + chunks[0]);
      Drain(Bytes(buf, chunks, n)) == After(d.frames, Drain(Bytes(d.rest, chunks[1..], n - 1)))
  {
    BytesNext(buf, chunks, n);
    DrainResumes(buf + chunks[0], Concat(chunks[1..][..n - 1]));
  }

  lemma OneRead(buf: seq<byte>, chunks: seq<seq<byte>>)
    ensures Bytes(buf, chunks, 0) == buf
    ensures chunks != [] ==> Bytes(buf, chunks, 1) == buf + chunks[0]
  {
    assert chunks[..0] == [] && buf + [] == buf;
    if chunks != [] { assert chunks[..1] == [chunks[0]] && Concat([chunks[0]]) == chunks[0] + [] == chunks[0]; }
  }

  // Reading goes on as long as nothing is over.
  lemma {:induction false} NotOverBefore(buf: seq<byte>, chunks: seq<seq<byte>>, k: nat)
    requires Decode(buf) == NeedMore && k < Reads(buf, chunks)
    ensures !Over(Drain(Bytes(buf, chunks, k)))
    decreases k
  {
    OneRead(buf, chunks);
    if k == 0 {
      DrainOne(buf);
    } else {
      var d := Drain(buf + chunks[0]);
      DrainIdle(buf + chunks[0]);
      NotOverBefore(d.rest, chunks[1..], k - 1);
      DrainInParts(buf, chunks, k);
      ClosesSum(d.frames, Drain(Bytes(d.rest, chunks[1..], k - 1)).frames);
    }
  }

  lemma FeedNext(buf: seq<byte>, chunks: seq<seq<byte>>, d: Received)
    requires chunks != [] && d == Drain(buf + chunks[0])
    ensures Over(d) ==> Feed(buf, chunks) == d && Reads(buf, chunks) == 1
    ensures !Over(d) ==>
      && Feed(buf, chunks) == After(d.frames, Feed(d.rest, chunks[1..]))
      && Reads(buf, chunks) == 1 + Reads(d.rest, chunks[1..])
  {
  }

  lemma AgreeOnward(buf: seq<byte>, chunks: seq<seq<byte>>, d: Received, n: nat)
    requires chunks != [] && d == Drain(buf + chunks[0]) && !Over(d) && n == Reads(d.rest, chunks[1..])
    requires Agree(Feed(d.rest, chunks[1..]), Drain(Bytes(d.rest, chunks[1..], n)))
    ensures Agree(After(d.frames, Feed(d.rest, chunks[1..])), Drain(Bytes(buf, chunks, n + 1)))
  {
    DrainInParts(buf, chunks, n + 1);
    AgreeAfter(d.frames, Feed(d.rest, chunks[1..]), Drain(Bytes(d.rest, chunks[1..], n)));
  }

  lemma {:induction false} FeedIsOneRead(buf: seq<byte>, chunks: seq<seq<byte>>)
    requires Decode(buf) == NeedMore
    ensures Agree(Feed(buf, chunks), Drain(Bytes(buf, chunks, Reads(buf, chunks))))
    decreases |chunks|
  {
    OneRead(buf, chunks);
    if chunks == [] {
      DrainOne(buf);
    } else {
      var d := Drain(buf + chunks[0]);
      FeedNext(buf, chunks, d);
      if !Over(d) {
        DrainIdle(buf + chunks[0]);
        FeedIsOneRead(d.rest, chunks[1..]);
        AgreeOnward(buf, chunks, d, Reads(d.rest, chunks[1..]));
      }
    }
  }

  lemma {:induction false} StopsWhenOver(buf: seq<byte>, chunks: seq<seq<byte>>)
    requires Reads(buf, chunks) < |chunks|
    ensures Over(Feed(buf, chunks))
    decreases |chunks|
  {
    var d := Drain(buf + chunks[0]);
    if !Over(d) {
      StopsWhenOver(d.rest, chunks[1..]);
      ClosesSum(d.frames, Feed(d.rest, chunks[1..]).frames);
    }
  }

  /** Reading stops at the first read whose bytes complete a Close or a bad length, and what was
      delivered by then is what one read of the same bytes delivers, for any bytes at all. */
  lemma FeedStopsAtClose(buf: seq<byte>, chunks: seq<seq<byte>>)
    requires Decode(buf) == NeedMore
    ensures Agree(Feed(buf, chunks), Drain(Bytes(buf, chunks, Reads(buf, chunks))))
    ensures Reads(buf, chunks) < |chunks| ==> Over(Feed(buf, chunks))
    ensures forall k: nat :: k < Reads(buf, chunks) ==> !Over(Drain(Bytes(buf, chunks, k)))
  {
    FeedIsOneRead(buf, chunks);
    if Reads(buf, chunks) < |chunks| { StopsWhenOver(buf, chunks); }
    forall k: nat | k < Reads(buf, chunks) ensures !Over(Drain(Bytes(buf, chunks, k))) {
      NotOverBefore(buf, chunks, k);
    }
  }

  lemma AgreeAfter(frames: seq<Frame>, r: Received, r': Received)
    requires Agree(r, r')
    ensures Agree(After(frames, r), After(frames, r'))
  {
  }

  lemma BytesSplit(buf: seq<byte>, chunks: seq<seq<byte>>, n: nat)
    requires n <= |chunks|
    ensures Bytes(buf, chunks, n) + Concat(chunks[n..]) == buf + Concat(chunks)
  {
    ConcatSplit(chunks, n);
  }

  // ---- what the bytes alone tell ----

  // How many whole frames end within the first m bytes.
  function Ends(bytes: seq<byte>, m: nat): nat
    decreases |bytes|
  {
    match Decode(bytes)
    case Decoded(_, n) => if n <= m then 1 + Ends(bytes[n..], m - n) else 0
    case _ => 0
  }

  // Where the last whole frame ends.
  function FrameBytes(bytes: seq<byte>): nat
    decreases |bytes|
  {
    match Decode(bytes)
    case Decoded(_, n) => n + FrameBytes(bytes[n..])
    case _ => 0
  }

  // How many bytes of a bad length it takes to notice it.
  function BadHeader(bytes: seq<byte>): nat
    requires Decode(bytes).LengthError?
  {
    var header, wrapped := 2 + ExtensionSize(bytes[1] % 128), (HeaderSize(bytes[1]) + PayloadLength(bytes)) % TWO_64;
    if header < wrapped then wrapped else header
  }

  // How many bytes end the connection: through the first Close, or through a bad length.
  function StopAt(bytes: seq<byte>): Option<nat>
    decreases |bytes|
  {
    match Decode(bytes)
    case NeedMore => None
    case LengthError => Some(BadHeader(bytes))
    case Decoded(frame, n) =>
      if frame.opcode == CLOSE then Some(n)
      else Later(n, StopAt(bytes[n..]))
  }

  function Later(n: nat, p: Option<nat>): Option<nat> {
    match p
    case None => None
    case Some(p) => Some(n + p)
  }

  lemma DecodeOfPrefix(bytes: seq<byte>, m: nat)
    requires m <= |bytes|
    ensures Decode(bytes).NeedMore? ==> Decode(bytes[..m]).NeedMore?
    ensures Decode(bytes).Decoded? ==>
        Decode(bytes[..m]) == if m < Decode(bytes).consumed then NeedMore else Decode(bytes)
  {
    assert bytes == bytes[..m] + bytes[m..];
    if !Decode(bytes[..m]).NeedMore? {
      DecodeMonotone(bytes[..m], bytes[m..]);
    } else if Decode(bytes).Decoded? && m >= Decode(bytes).consumed {
      WholeFrameIn(bytes, m);
    }
  }

  lemma WholeFrameIn(bytes: seq<byte>, m: nat)
    requires Decode(bytes).Decoded? && Decode(bytes).consumed <= m <= |bytes|
    ensures !Decode(bytes[..m]).NeedMore?
  {
    SameHeader(bytes, m);
  }

  lemma SameHeader(bytes: seq<byte>, m: nat)
    requires |bytes| >= m >= 2 && m >= 2 + ExtensionSize(bytes[1] % 128)
    ensures PayloadLength(bytes[..m]) == PayloadLength(bytes)
  {
    var ext := ExtensionSize(bytes[1] % 128);
    assert bytes[..m][2..2 + ext] == bytes[2..2 + ext];
  }

  lemma BadLengthOfPrefix(bytes: seq<byte>, m: nat)
    requires Decode(bytes).LengthError? && m <= |bytes|
    ensures Decode(bytes[..m]) == if m < BadHeader(bytes) then NeedMore else LengthError
  {
    if m >= 2 && m >= 2 + ExtensionSize(bytes[1] % 128) { SameHeader(bytes, m); }
  }

  // What m bytes yield, part, of what all of them yield: w frames, all from fb bytes on, and the end from stop on.
  ghost predicate Yields(part: Received, all: Received, m: nat, w: nat, fb: nat, stop: Option<nat>) {
    && w <= |all.frames| && part.frames == all.frames[..w]
    && (w == |all.frames| <==> m >= fb)
    && (Over(part) <==> stop.Some? && stop.value <= m)
  }

  ghost predicate PrefixYields(bytes: seq<byte>, m: nat)
    requires m <= |bytes|
  {
    Yields(Drain(bytes[..m]), Drain(bytes), m, Ends(bytes, m), FrameBytes(bytes), StopAt(bytes))
  }

  lemma YieldsAfter(frame: Frame, n: nat, part: Received, all: Received, m: nat, w: nat, fb: nat, stop: Option<nat>)
    requires Yields(part, all, m, w, fb, stop)
    ensures Yields(After([frame], part), After([frame], all), n + m, 1 + w, n + fb,
              if frame.opcode == CLOSE then Some(n) else Later(n, stop))
  {
    assert [frame] + all.frames[..w] == ([frame] + all.frames)[..w + 1];
    ClosesSum([frame], part.frames);
    assert Closes([frame]) <==> frame.opcode == CLOSE by { assert [frame][0] == frame; }
  }

  lemma TellsOne(bytes: seq<byte>, m: nat)
    requires Decode(bytes).Decoded? && Decode(bytes).consumed <= m
    ensures var n, frame := Decode(bytes).consumed, Decode(bytes).frame;
      && Ends(bytes, m) == 1 + Ends(bytes[n..], m - n) && FrameBytes(bytes) == n + FrameBytes(bytes[n..])
      && StopAt(bytes) == if frame.opcode == CLOSE then Some(n) else Later(n, StopAt(bytes[n..]))
  {
  }

  lemma {:induction false} DrainOfPrefix(bytes: seq<byte>, m: nat)
    requires m <= |bytes|
    ensures PrefixYields(bytes, m)
    decreases |bytes|
  {
    var d := Decode(bytes);
    if d.Decoded? && d.consumed <= m {
      var n := d.consumed;
      OneFrameOfPrefix(bytes, m, d.frame, n, bytes[..m], bytes[n..]);
      TellsOne(bytes, m);
      DrainOfPrefix(bytes[n..], m - n);
      YieldsAfter(d.frame, n, Drain(bytes[n..][..m - n]), Drain(bytes[n..]), m - n,
        Ends(bytes[n..], m - n), FrameBytes(bytes[n..]), StopAt(bytes[n..]));
    } else {
      NoFrameOfPrefix(bytes, m);
    }
  }

  lemma DrainFrame(bytes: seq<byte>, frame: Frame, n: nat, rest: seq<byte>)
    requires Decode(bytes) == Decoded(frame, n) && rest == bytes[n..]
    ensures Drain(bytes) == After([frame], Drain(rest))
  {
    DrainOne(bytes);
  }

  lemma OneFrameOfPrefix(bytes: seq<byte>, m: nat, frame: Frame, n: nat, part: seq<byte>, rest: seq<byte>)
    requires Decode(bytes) == Decoded(frame, n) && n <= m <= |bytes| && part == bytes[..m] && rest == bytes[n..]
    ensures Drain(bytes) == After([frame], Drain(rest)) && Drain(part) == After([frame], Drain(rest[..m - n]))
  {
    DecodeOfPrefix(bytes, m);
    assert part[n..] == rest[..m - n];
    DrainFrame(bytes, frame, n, rest);
    DrainFrame(part, frame, n, rest[..m - n]);
  }

  lemma NoFrameOfPrefix(bytes: seq<byte>, m: nat)
    requires m <= |bytes| && (Decode(bytes).Decoded? ==> m < Decode(bytes).consumed)
    ensures PrefixYields(bytes, m)
  {
    DrainOne(bytes);
    DrainOne(bytes[..m]);
    if Decode(bytes).LengthError? { BadLengthOfPrefix(bytes, m); } else { DecodeOfPrefix(bytes, m); }
  }

  // The first number of chunks that hold p bytes, or all of them.
  function Reaching(chunks: seq<seq<byte>>, p: nat): (n: nat)
    ensures n <= |chunks|
  {
    if p == 0 || chunks == [] then 0
    else 1 + Reaching(chunks[1..], if p > |chunks[0]| then p - |chunks[0]| else 0)
  }

  /** Reaching is the first: n chunks hold p bytes or are all, and fewer hold less. */
  lemma {:induction false} ReachingIs(chunks: seq<seq<byte>>, p: nat, n: nat)
    requires n <= |chunks|
    ensures n == Reaching(chunks, p) <==>
      && (n < |chunks| ==> |Concat(chunks[..n])| >= p)
      && (n > 0 ==> |Concat(chunks[..n - 1])| < p)
    decreases |chunks|
  {
    assert chunks[..0] == [];
    if n > 0 && p > 0 {
      LengthOfFirst(chunks, n);
      if n > 1 { LengthOfFirst(chunks, n - 1); }
      ReachingIs(chunks[1..], if p > |chunks[0]| then p - |chunks[0]| else 0, n - 1);
    }
  }

  lemma LengthOfFirst(chunks: seq<seq<byte>>, n: nat)
    requires 0 < n <= |chunks|
    ensures |Concat(chunks[..n])| == |chunks[0]| + |Concat(chunks[1..][..n - 1])|
  {
    assert chunks[..n][0] == chunks[0] && chunks[..n][1..] == chunks[1..][..n - 1];
  }

  // How many chunks are read, told by the bytes and the lengths of the chunks.
  function ChunksRead(bytes: seq<byte>, chunks: seq<seq<byte>>): (n: nat)
    ensures n <= |chunks|
  {
    match StopAt(bytes)
    case None => |chunks|
    case Some(p) => Reaching(chunks, p)
  }

  lemma ChunksArePrefix(chunks: seq<seq<byte>>, n: nat)
    requires n <= |chunks|
    ensures |Concat(chunks[..n])| <= |Concat(chunks)| && Concat(chunks[..n]) == Concat(chunks)[..|Concat(chunks[..n])|]
  {
    ConcatSplit(chunks, n);
  }

  lemma OverAt(chunks: seq<seq<byte>>, n: nat)
    requires n <= |chunks|
    ensures var bytes, m := Concat(chunks), |Concat(chunks[..n])|;
      && m <= |bytes| && Bytes([], chunks, n) == bytes[..m]
      && (Over(Drain(Bytes([], chunks, n))) <==> StopAt(bytes).Some? && StopAt(bytes).value <= m)
  {
    ChunksArePrefix(chunks, n);
    assert [] + Concat(chunks[..n]) == Concat(chunks[..n]);
    DrainOfPrefix(Concat(chunks), |Concat(chunks[..n])|);
  }

  /** Which read is the last follows from the lengths of the chunks. */
  lemma ReadsAreReaching(chunks: seq<seq<byte>>)
    ensures Reads([], chunks) == ChunksRead(Concat(chunks), chunks)
  {
    var bytes, n := Concat(chunks), Reads([], chunks);
    DrainOne([]);
    FeedStopsAtClose([], chunks);
    OverAt(chunks, n);
    if StopAt(bytes).Some? {
      if n > 0 { OverAt(chunks, n - 1); }
      ReachingIs(chunks, StopAt(bytes).value, n);
    }
  }

  /** For any bytes and any chunks, the frames delivered are those that end within the chunks read,
      and these go through the first chunk that completes a Close or a bad length. The split makes no
      difference exactly when that chunk also completes the last whole frame of all. */
  lemma SplitMatters(chunks: seq<seq<byte>>)
    ensures var bytes := Concat(chunks);
      var fed, all, m := Feed([], chunks), Drain(bytes), |Concat(chunks[..ChunksRead(bytes, chunks)])|;
      && Ends(bytes, m) <= |all.frames| && fed.frames == all.frames[..Ends(bytes, m)]
      && (fed.frames == all.frames <==> m >= FrameBytes(bytes))
      && (Closes(all.frames) ==> Closes(fed.frames))
      && (!Closes(all.frames) ==> Agree(fed, all))
  {
    var bytes, n := Concat(chunks), Reads([], chunks);
    ReadsAreReaching(chunks);
    OverAt(chunks, n);
    DrainOfPrefix(bytes, |Concat(chunks[..n])|);
    AgainstOneRead([], chunks);
    assert [] + bytes == bytes;
  }

  lemma AgainstOneRead(buf: seq<byte>, chunks: seq<seq<byte>>)
    requires Decode(buf) == NeedMore
    ensures var fed, all := Feed(buf, chunks), Drain(buf + Concat(chunks));
      && Agree(fed, Drain(Bytes(buf, chunks, Reads(buf, chunks))))
      && (Closes(all.frames) ==> Closes(fed.frames))
      && (!Closes(all.frames) ==> Agree(fed, all))
  {
    var n := Reads(buf, chunks);
    var seen := Drain(Bytes(buf, chunks, n));
    FeedStopsAtClose(buf, chunks);
    BytesSplit(buf, chunks, n);
    DrainResumes(Bytes(buf, chunks, n), Concat(chunks[n..]));
    if !seen.failed {
      var later := Drain(seen.rest + Concat(chunks[n..]));
      ClosesSum(seen.frames, later.frames);
      if n == |chunks| {
        assert chunks[n..] == [] && seen.rest + [] == seen.rest;
        DrainIdle(Bytes(buf, chunks, n));
        DrainOne(seen.rest);
      }
    }
  }

  // ---- reassembly ----

  ghost predicate AllWellFormed(sent: seq<Sent>) {
    forall i :: 0 <= i < |sent| ==> WellFormed(sent[i])
  }

  function Stream(sent: seq<Sent>): seq<byte>
    requires AllWellFormed(sent)
  {
    if sent == [] then [] else Wire(sent[0]) + Stream(sent[1..])
  }

  function Frames(sent: seq<Sent>): seq<Frame> {
    if sent == [] then [] else [sent[0].frame] + Frames(sent[1..])
  }

  lemma DrainWire(s: Sent, rest: seq<byte>)
    requires WellFormed(s)
    ensures Drain(Wire(s) + rest) == After([s.frame], Drain(rest))
  {
    var all, n := Wire(s) + rest, |Wire(s)|;
    DecodeInvertsWire(s, rest);
    DrainOne(all);
    assert all[n..] == rest;
  }

  lemma {:induction false} DrainStream(sent: seq<Sent>, tail: seq<byte>)
    requires AllWellFormed(sent) && Decode(tail) == NeedMore
    ensures Drain(Stream(sent) + tail) == Received(Frames(sent), tail, false)
    decreases |sent|
  {
    if sent == [] {
      assert [] + tail == tail;
      DrainOne(tail);
    } else {
      var w, rest := Wire(sent[0]), Stream(sent[1..]);
      assert w + rest + tail == w + (rest + tail);
      DrainWire(sent[0], rest + tail);
      DrainStream(sent[1..], tail);
    }
  }

  lemma {:induction false} FramesAre(sent: seq<Sent>)
    ensures |Frames(sent)| == |sent| && forall i :: 0 <= i < |sent| ==> Frames(sent)[i] == sent[i].frame
    decreases |sent|
  {
    if sent != [] { FramesAre(sent[1..]); }
  }

  // How many of the frames end within m bytes.
  function Whole(sent: seq<Sent>, m: nat): (n: nat)
    requires AllWellFormed(sent)
    ensures n <= |sent|
  {
    if sent == [] || m < |Wire(sent[0])| then 0 else 1 + Whole(sent[1..], m - |Wire(sent[0])|)
  }

  // The bytes through the first Close.
  function CloseEnd(sent: seq<Sent>): Option<nat>
    requires AllWellFormed(sent)
  {
    if sent == [] then None
    else if sent[0].frame.opcode == CLOSE then Some(|Wire(sent[0])|)
    else Later(|Wire(sent[0])|, CloseEnd(sent[1..]))
  }

  lemma FirstTells(s: Sent, rest: seq<byte>, all: seq<byte>, m: nat)
    requires WellFormed(s) && all == Wire(s) + rest
    ensures Ends(all, m) == (if |Wire(s)| <= m then 1 + Ends(rest, m - |Wire(s)|) else 0)
    ensures FrameBytes(all) == |Wire(s)| + FrameBytes(rest)
    ensures StopAt(all) == if s.frame.opcode == CLOSE then Some(|Wire(s)|) else Later(|Wire(s)|, StopAt(rest))
  {
    DecodeInvertsWire(s, rest);
    assert all[|Wire(s)|..] == rest;
  }

  lemma StreamOfFirst(sent: seq<Sent>, tail: seq<byte>, rest: seq<byte>)
    requires AllWellFormed(sent) && sent != [] && rest == Stream(sent[1..]) + tail
    ensures Stream(sent) + tail == Wire(sent[0]) + rest && |Stream(sent)| == |Wire(sent[0])| + |Stream(sent[1..])|
  {
  }

  lemma {:induction false} StreamEnds(sent: seq<Sent>, tail: seq<byte>, m: nat)
    requires AllWellFormed(sent) && Decode(tail) == NeedMore
    ensures Ends(Stream(sent) + tail, m) == Whole(sent, m)
    decreases |sent|
  {
    if sent == [] {
      assert [] + tail == tail;
    } else {
      var rest := Stream(sent[1..]) + tail;
      StreamOfFirst(sent, tail, rest);
      FirstTells(sent[0], rest, Stream(sent) + tail, m);
      if |Wire(sent[0])| <= m { StreamEnds(sent[1..], tail, m - |Wire(sent[0])|); }
    }
  }

  lemma {:induction false} StreamStops(sent: seq<Sent>, tail: seq<byte>)
    requires AllWellFormed(sent) && Decode(tail) == NeedMore
    ensures FrameBytes(Stream(sent) + tail) == |Stream(sent)| && StopAt(Stream(sent) + tail) == CloseEnd(sent)
    decreases |sent|
  {
    if sent == [] {
      assert [] + tail == tail;
    } else {
      var rest := Stream(sent[1..]) + tail;
      StreamOfFirst(sent, tail, rest);
      FirstTells(sent[0], rest, Stream(sent) + tail, 0);
      StreamStops(sent[1..], tail);
    }
  }

  // What a stream of frames and an unfinished one tell.
  lemma StreamTells(sent: seq<Sent>, tail: seq<byte>, m: nat)
    requires AllWellFormed(sent) && Decode(tail) == NeedMore
    ensures var bytes := Stream(sent) + tail;
      && Ends(bytes, m) == Whole(sent, m) && FrameBytes(bytes) == |Stream(sent)| && StopAt(bytes) == CloseEnd(sent)
  {
    StreamEnds(sent, tail, m);
    StreamStops(sent, tail);
  }

  lemma FramesOfFirst(sent: seq<Sent>, n: nat)
    requires n <= |sent|
    ensures |Frames(sent)| == |sent| && Frames(sent[..n]) == Frames(sent)[..n]
  {
    FramesAre(sent);
    FramesAre(sent[..n]);
  }

  // How many chunks are read of a stream.
  function ReadsOf(sent: seq<Sent>, chunks: seq<seq<byte>>): (n: nat)
    requires AllWellFormed(sent)
    ensures n <= |chunks|
  {
    match CloseEnd(sent)
    case None => |chunks|
    case Some(p) => Reaching(chunks, p)
  }

  /** Any well-formed frames, cut into any chunks, arrive in order as far as they end within the chunk
      that completes the first Close: all of them exactly when they all do. Without a Close that is
      always so, and an unfinished frame stays in the buffer. */
  lemma StreamReassembly(sent: seq<Sent>, last: Sent, k: nat, chunks: seq<seq<byte>>)
    requires AllWellFormed(sent) && WellFormed(last) && k < |Wire(last)|
    requires Concat(chunks) == Stream(sent) + Wire(last)[..k]
    ensures var fed, m := Feed([], chunks), |Concat(chunks[..ReadsOf(sent, chunks)])|;
      && !fed.failed && fed.frames == Frames(sent[..Whole(sent, m)])
      && (fed.frames == Frames(sent) <==> m >= |Stream(sent)|)
      && (CloseEnd(sent).None? ==> fed == Received(Frames(sent), Wire(last)[..k], false))
  {
    var tail, m := Wire(last)[..k], |Concat(chunks[..ReadsOf(sent, chunks)])|;
    PrefixNeedsMore(last, k);
    DrainStream(sent, tail);
    StreamTells(sent, tail, m);
    SplitMatters(chunks);
    FramesOfFirst(sent, Whole(sent, m));
    NoCloseAmong(sent);
    DrainOne([]);
    assert [] + Concat(chunks) == Concat(chunks);
    NotFailedEarlier([], chunks);
  }

  lemma {:induction false} NoCloseAmong(sent: seq<Sent>)
    requires AllWellFormed(sent)
    ensures CloseEnd(sent).None? <==> !Closes(Frames(sent))
    decreases |sent|
  {
    if sent != [] {
      NoCloseAmong(sent[1..]);
      ClosesSum([sent[0].frame], Frames(sent[1..]));
      assert Closes([sent[0].frame]) <==> sent[0].frame.opcode == CLOSE by {
        assert [sent[0].frame][0] == sent[0].frame;
      }
    }
  }

  lemma NotFailedEarlier(buf: seq<byte>, chunks: seq<seq<byte>>)
    requires Decode(buf) == NeedMore && !Drain(buf + Concat(chunks)).failed
    ensures !Feed(buf, chunks).failed
  {
    var n := Reads(buf, chunks);
    FeedStopsAtClose(buf, chunks);
    BytesSplit(buf, chunks, n);
    DrainResumes(Bytes(buf, chunks, n), Concat(chunks[n..]));
  }

  lemma OneReadOf(bytes: seq<byte>, sent: seq<Sent>, more: seq<seq<byte>>)
    requires AllWellFormed(sent) && bytes == Stream(sent) && Closes(Frames(sent))
    ensures Feed([], [bytes] + more) == Received(Frames(sent), [], false)
  {
    DrainOne([]);
    DrainStream(sent, []);
    assert bytes == Stream(sent) + [];
    FeedFirst(bytes, more);
  }

  lemma FeedFirst(bytes: seq<byte>, more: seq<seq<byte>>)
    ensures Over(Drain(bytes)) ==> Feed([], [bytes] + more) == Drain(bytes)
  {
    assert ([bytes] + more)[0] == bytes && [] + bytes == bytes;
  }

  lemma StreamOfOne(s: Sent)
    requires WellFormed(s)
    ensures Stream([s]) == Wire(s) && Frames([s]) == [s.frame]
  {
    assert [s][1..] == [] && Wire(s) + [] == Wire(s);
  }

  /** The split does matter: a Text after a Close arrives in the same read and not in a later one. */
  lemma TextAfterClose(close: Sent, text: Sent)
    requires WellFormed(close) && WellFormed(text) && close.frame.opcode == CLOSE
    ensures Feed([], [Wire(close) + Wire(text)]).frames == [close.frame, text.frame]
    ensures Feed([], [Wire(close), Wire(text)]).frames == [close.frame]
  {
    StreamOfOne(close);
    StreamOfOne(text);
    assert [close, text][1..] == [text];
    assert Frames([close])[0].opcode == CLOSE && Frames([close, text])[0].opcode == CLOSE;
    OneReadOf(Wire(close) + Wire(text), [close, text], []);
    OneReadOf(Wire(close), [close], [Wire(text)]);
    assert [Wire(close)] + [Wire(text)] == [Wire(close), Wire(text)];
    assert [Wire(close) + Wire(text)] + [] == [Wire(close) + Wire(text)];
  }

  /** The octets 88 80 and a mask key, an empty Close of a client, end the connection; 89 80 and a key,
      a Ping, do not. */
  lemma CloseAndPing(first: byte, key: seq<byte>)
    requires |key| == 4 && (first == 0x88 || first == 0x89)
    ensures Drain([first, 0x80] + key) == Received([Frame(first % 16, true, [])], [], false)
    ensures Closes(Drain([first, 0x80] + key).frames) <==> first == 0x88
  {
    var buf := [first, 0x80] + key;
    DecodesTo(buf, 0);
    var d := Decode(buf);
    assert d == Decoded(Frame(first % 16, true, []), 6) && buf[6..] == [];
    assert Drain([]) == Received([], [], false);
    assert Drain(buf).frames == [d.frame] && Drain(buf).frames[0] == d.frame;
  }
}
