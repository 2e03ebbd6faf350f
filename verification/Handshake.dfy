// src/server/websocket_server.h, ComputeAcceptKey: the answer to a client's handshake. Its GUID
// is not the one of section 1.3 of RFC 6455, so the answer is not the one a client expects.
module Handshake {
  import opened Wrappers
  import Bits
  import opened Base64
  import opened Sha1
  import opened Sha1Rows

  predicate IsAscii(s: string) {
    forall i {:trigger s[i]} :: 0 <= i < |s| ==> s[i] as int < 128
  }

  function Ascii(s: string): (octets: seq<bv8>)
    requires IsAscii(s)
    ensures |octets| == |s|
  {
    seq(|s|, i requires 0 <= i < |s| => (s[i] as int) as bv8)
  }

  // kWebSocketGUID, and the GUID of the standard, in three parts.
  const GUID: string := "258EAFA5" + "-E914-47DA-95CA-" + "5AB5DC11D65B"
  const STANDARD_GUID: string := "258EAFA5" + "-E914-47DA-95CA-" + "C5AB0DC85B11"

  function Numbers(octets: seq<bv8>): (bs: seq<byte>)
    ensures |bs| == |octets|
  {
    seq(|octets|, i requires 0 <= i < |octets| => octets[i] as nat)
  }

  // The answer to a key, made with some GUID.
  function Accept(key: seq<bv8>, guid: string): string
    requires IsAscii(guid)
  {
    Encode(Numbers(Digest(key + Ascii(guid))))
  }

  method HashAndEncode(concat: seq<bv8>) returns (accept: string)
    ensures accept == Encode(Numbers(Digest(concat)))
  {
    var ctx := new Context();
    ctx.Update(concat);
    assert [] + concat == concat;
    var hash := ctx.Final();
    accept := Base64Encode(Numbers(hash));
  }

  method ComputeAcceptKey(clientKey: seq<bv8>) returns (accept: string)
    ensures accept == Accept(clientKey, GUID)
  {
    accept := HashAndEncode(clientKey + Ascii(GUID));
  }

  // ---- the answer is wrong ----

  lemma {:induction false} SameNumbers(a: seq<bv8>, b: seq<bv8>)
    requires Numbers(a) == Numbers(b)
    ensures a == b
  {
    forall i | 0 <= i < |a| ensures a[i] == b[i] { SameNumber(a[i], b[i], Numbers(a)[i], Numbers(b)[i]); }
  }

  lemma SameNumber(a: bv8, b: bv8, m: nat, n: nat)
    requires m == a as nat && n == b as nat && m == n
    ensures a == b
  {
  }

  lemma EncodedOnce(a: seq<bv8>, b: seq<bv8>)
    ensures Encode(Numbers(a)) == Encode(Numbers(b)) <==> a == b
  {
    RoundTrip(Numbers(a));
    RoundTrip(Numbers(b));
    if Numbers(a) == Numbers(b) { SameNumbers(a, b); }
  }

  /** Two GUIDs give the same answer to a key exactly when the hash cannot tell them apart behind it. */
  lemma AnsweredIff(key: seq<bv8>, ours: string, theirs: string)
    requires IsAscii(ours) && IsAscii(theirs)
    ensures Accept(key, ours) == Accept(key, theirs) <==> Digest(key + Ascii(ours)) == Digest(key + Ascii(theirs))
  {
    EncodedOnce(Digest(key + Ascii(ours)), Digest(key + Ascii(theirs)));
  }

  // ---- the sample key of section 1.3, hashed with the GUID of the source ----

  const AW0 := Row(0x6447686C, 0x49484E68, 0x62584273, 0x5A534275)
  const AW1 := Row(0x6232356A, 0x5A513D3D, 0x32353845, 0x41464135)
  const AW2 := Row(0x2D453931, 0x342D3437, 0x44412D39, 0x3543412D)
  const AW3 := Row(0x35414235, 0x44433131, 0x44363542, 0x80000000)
  const AW4 := Row(0xDE32443E, 0xC6001AD0, 0x8856B441, 0xD6E6F4B7)
  const AW5 := Row(0x468CAB95, 0xAE05F2F1, 0x1B418103, 0x67CFBD2F)
  const AW6 := Row(0x3267458E, 0xB85FDD93, 0x3D32CCC5, 0x2B03824B)
  const AW7 := Row(0x1F4802E3, 0xAEE81E0A, 0x548CE469, 0x7D0F4A38)
  const AW8 := Row(0x95D757F7, 0xF86BAF3B, 0x1DCF3253, 0x8C6FA7F5)
  const AW9 := Row(0x75DD0E9D, 0xF5DAC70E, 0xE38B0E23, 0xAE844833)
  const AW10 := Row(0xDEB03364, 0x1179FD81, 0x2263688D, 0xAE6811A1)
  const AW11 := Row(0x5EC02B2C, 0x08BDF762, 0x19715839, 0xEA410C38)
  const AW12 := Row(0xBC2B4344, 0xF8195AEC, 0x4060B0F7, 0xD7EC643C)
  const AW13 := Row(0x611EE2FC, 0x27079150, 0xE74C0285, 0x6944B6EC)
  const AW14 := Row(0xCFFF13FA, 0x40896893, 0xAB0E8B74, 0x7D8D220B)
  const AW15 := Row(0xCC4DF2F4, 0xDDEBC2FC, 0x7F3677E6, 0x6EA22599)
  const AW16 := Row(0xDCBE456B, 0x2094434A, 0xC9A5F9CD, 0xA3B12418)
  const AW17 := Row(0xD516A38E, 0xB41A391A, 0xE8688503, 0x24F2B0D1)
  const AW18 := Row(0x18ABC9FE, 0xEBF119A3, 0x14286139, 0x36F81A22)
  const AW19 := Row(0x1B387E7F, 0x26F77E8C, 0xFA315B58, 0xE3F950FA)

  const AS1 := Hash(0x53E039AC, 0xBE90EE8F, 0x4BDE4FD5, 0xC0FF0047, 0x59D148C0)
  const AS2 := Hash(0x2E0CE601, 0x73553E84, 0x5CC82E5A, 0xB7631F04, 0x14F80E6B)
  const AS3 := Hash(0x34CEB986, 0x5FF4238C, 0x7EAB499D, 0x8CAFAC16, 0x4B833980)
  const AS4 := Hash(0x36BDA092, 0x95BC5B79, 0x40E64571, 0x94F26CEC, 0x8D33AE61)
  const AS5 := Hash(0xB7BBECD5, 0x59C99D74, 0xFA90356E, 0xE7A0B91C, 0x8DAF6824)
  const AS6 := Hash(0x66DF3816, 0xB6B305FA, 0xD45BEE58, 0x9FE32AC5, 0x6DEEFB35)
  const AS7 := Hash(0xF1740C66, 0xB1066B87, 0xBAA8C789, 0xFA08BC25, 0x99B7CE05)
  const AS8 := Hash(0x7CC88BA5, 0x88967CF4, 0xEFE4D249, 0x92005664, 0xBC5D0319)
  const AS9 := Hash(0x293C1358, 0x43DAE17D, 0xA7298FCE, 0x53E4AD0E, 0x5F3222E9)
  const AS10 := Hash(0xE4958D86, 0x6E89B64E, 0xB9F9806A, 0x48A0D2FA, 0x0A4F04D6)
  const AS11 := Hash(0x834EE342, 0x5C83DC06, 0xC46BC999, 0x1CDD8E17, 0xB9256361)
  const AS12 := Hash(0x5DA93F8C, 0x3CDECAFC, 0xFC5487D8, 0x1B6A5FF4, 0xA0D3B8D0)
  const AS13 := Hash(0x9E2F95B7, 0x6B843B18, 0xED011F94, 0xF7685E9D, 0x176A4FE3)
  const AS14 := Hash(0xD6D2FC22, 0xF69F5C1E, 0xB7A9656D, 0xAF25F192, 0xE78BE56D)
  const AS15 := Hash(0x447187C1, 0x4C2BE131, 0xD33940E8, 0xF62CEBEE, 0xB5B4BF08)
  const AS16 := Hash(0x8D3B976D, 0x092373EC, 0x77551D93, 0x50F52D8C, 0x511C61F0)
  const AS17 := Hash(0xC4A1F42E, 0x0B4FEA8A, 0xBEA178DA, 0x738CE6B5, 0x634EE5DB)
  const AS18 := Hash(0xC8EC04B7, 0xE0C272DB, 0xA60185E1, 0x175A517F, 0xB1287D0B)
  const AS19 := Hash(0x0311496C, 0x6469538F, 0x33AD039E, 0x40D45187, 0xF23B012D)
  const AS20 := Hash(0xDE1AA393, 0x396AF773, 0x0F70B0C1, 0x1443DC26, 0x00C4525B)

  // The chaining value between the two blocks.
  const MIDDLE := Hash(0x455FC694, 0x2938A2FC, 0xA82B8DBF, 0x2476309C, 0xC497344B)

  const BW0 := Row(0x00000000, 0x00000000, 0x00000000, 0x00000000)
  const BW1 := Row(0x00000000, 0x00000000, 0x00000000, 0x00000000)
  const BW2 := Row(0x00000000, 0x00000000, 0x00000000, 0x00000000)
  const BW3 := Row(0x00000000, 0x00000000, 0x00000000, 0x000001E0)
  const BW4 := Row(0x00000000, 0x00000000, 0x000003C0, 0x00000000)
  const BW5 := Row(0x00000000, 0x00000780, 0x00000000, 0x000003C0)
  const BW6 := Row(0x00000F00, 0x00000000, 0x00000000, 0x00001E00)
  const BW7 := Row(0x00000000, 0x00000CC0, 0x00003C00, 0x00000440)
  const BW8 := Row(0x00000000, 0x00007800, 0x00000F00, 0x00003300)
  const BW9 := Row(0x0000F000, 0x00000F00, 0x00000000, 0x0001EF00)
  const BW10 := Row(0x00000000, 0x0000CC00, 0x0003C000, 0x00004380)
  const BW11 := Row(0x00000000, 0x00078F00, 0x0000FF00, 0x00032680)
  const BW12 := Row(0x000F0000, 0x0000F000, 0x00003300, 0x001EFF00)
  const BW13 := Row(0x00000000, 0x000CB800, 0x003C0000, 0x00040B00)
  const BW14 := Row(0x0000F000, 0x0078FF00, 0x000FF000, 0x00338700)
  const BW15 := Row(0x00F00000, 0x000FC300, 0x0000F000, 0x01EFBB00)
  const BW16 := Row(0x00000000, 0x00CC0000, 0x03C0F000, 0x00438000)
  const BW17 := Row(0x00000000, 0x078F0000, 0x00FF0000, 0x03269E00)
  const BW18 := Row(0x0F000000, 0x00F0F000, 0x00333C00, 0x1EFF8800)
  const BW19 := Row(0x00000000, 0x0CB88800, 0x3C00F000, 0x040A4A00)

  const BS1 := Hash(0x1DB46D20, 0x0D186351, 0x85E23644, 0x3DE0444A, 0x1157F1A5)
  const BS2 := Hash(0xD98A1D5E, 0x39A3FB7D, 0x88ABE264, 0xD6120D62, 0x076D1B48)
  const BS3 := Hash(0xFC1BDAA2, 0xC6067492, 0x6D68DA71, 0x9879C9C8, 0xB6628757)
  const BS4 := Hash(0x74CF9772, 0x6D6525C1, 0x2FE8EC34, 0xFC368BA9, 0xBF06F6A8)
  const BS5 := Hash(0x56FC23F9, 0xA61F63FB, 0x34010169, 0xDC3BC32D, 0x9D33E5DC)
  const BS6 := Hash(0x77F5CC7E, 0xDA49BFD1, 0xC363BF60, 0x8E6DFC99, 0x55BF08FE)
  const BS7 := Hash(0xBD79ACF0, 0x37F23861, 0xC4A77DF3, 0x56A6A3E5, 0x9DFD731F)
  const BS8 := Hash(0xCD41E968, 0x6C1051A5, 0x4E6FD94B, 0x988038D3, 0x2F5E6B3C)
  const BS9 := Hash(0x4186D90F, 0xEBD411AD, 0x838AD1C7, 0xC05D4D0C, 0x33507A5A)
  const BS10 := Hash(0xF6093FD8, 0xF22324B2, 0xD25C3F5F, 0x5EC28152, 0xD061B643)
  const BS11 := Hash(0xEEFDD791, 0x3935F8F1, 0x10366EE2, 0xFCB9E4E3, 0x3D824FF6)
  const BS12 := Hash(0xF3B42376, 0x94E8641F, 0xDB0E0B72, 0xB923BAFC, 0x7BBF75E4)
  const BS13 := Hash(0x3F37BB57, 0xF9E0DD9C, 0x63A5FDB4, 0x06A63307, 0xBCED08DD)
  const BS14 := Hash(0x61564268, 0xC730A69A, 0x2A6A8B7B, 0x25A94B8D, 0xCFCDEED5)
  const BS15 := Hash(0xB276D111, 0xA9C7262F, 0x7C7EA77A, 0x2C36DD16, 0x1855909A)
  const BS16 := Hash(0x2285DA23, 0x9D87E4A9, 0x67574FBC, 0x4B04743A, 0x6C9DB444)
  const BS17 := Hash(0x7F096954, 0x2B06252E, 0x1ABE761B, 0x4E64266B, 0xC8A17688)
  const BS18 := Hash(0xCF790BB4, 0x781F3BB8, 0xE461E1F0, 0xFD037612, 0x1FC25A55)
  const BS19 := Hash(0xF72F5F6F, 0xD2DB9E49, 0xCD7F8C16, 0x92710FC7, 0x33DE42ED)
  const BS20 := Hash(0x5BD6595F, 0xE5F594DB, 0xBE2D266D, 0x5C808416, 0xFDCBD7DB)

  lemma AFirst0(s: Hash, t: nat, r: Row, next: Hash)
    requires s == H0 && t == 0 && r == AW0 && next == AS1
    ensures FourRounds(s, t, r) == next
  {
    assert Round(Round(s, t, r.a), t + 1, r.b) == Hash(0x2F793F55, 0x03FC011F, 0x59D148C0, 0x7BF36AE2, 0x98BADCFE);
  }

  lemma AFirst4(s: Hash, t: nat, r: Row, next: Hash)
    requires s == AS1 && t == 4 && r == AW1 && next == AS2
    ensures FourRounds(s, t, r) == next
  {
    assert Round(Round(s, t, r.a), t + 1, r.b) == Hash(0x7320B969, 0xDD8C7C12, 0x14F80E6B, 0xEFA43BA3, 0x4BDE4FD5);
  }

  lemma AFirst8(s: Hash, t: nat, r: Row, next: Hash)
    requires s == AS2 && t == 8 && r == AW2 && next == AS3
    ensures FourRounds(s, t, r) == next
  {
    assert Round(Round(s, t, r.a), t + 1, r.b) == Hash(0xFAAD2675, 0x32BEB05A, 0x4B833980, 0x1CD54FA1, 0x5CC82E5A);
  }

  lemma AFirst12(s: Hash, t: nat, r: Row, next: Hash)
    requires s == AS3 && t == 12 && r == AW3 && next == AS4
    ensures FourRounds(s, t, r) == next
  {
    assert Round(Round(s, t, r.a), t + 1, r.b) == Hash(0x039915C5, 0x53C9B3B2, 0x8D33AE61, 0x17FD08E3, 0x7EAB499D);
  }

  lemma AFrom16(block: seq<bv8>, h: Hash, t: nat)
    requires t == 16 && Reached(block, h, t, AW0, AW1, AW2, AW3, AS4)
    ensures Reached(block, h, t + 8, AW2, AW3, AW4, AW5, AS6)
  {
    Advance(block, h, t, AW0, AW1, AW2, AW3, AS4, AW4, AS5);
    Advance(block, h, t + 4, AW1, AW2, AW3, AW4, AS5, AW5, AS6);
  }

  lemma AFrom24(block: seq<bv8>, h: Hash, t: nat)
    requires t == 24 && Reached(block, h, t, AW2, AW3, AW4, AW5, AS6)
    ensures Reached(block, h, t + 8, AW4, AW5, AW6, AW7, AS8)
  {
    Advance(block, h, t, AW2, AW3, AW4, AW5, AS6, AW6, AS7);
    Advance(block, h, t + 4, AW3, AW4, AW5, AW6, AS7, AW7, AS8);
  }

  lemma AFrom32(block: seq<bv8>, h: Hash, t: nat)
    requires t == 32 && Reached(block, h, t, AW4, AW5, AW6, AW7, AS8)
    ensures Reached(block, h, t + 8, AW6, AW7, AW8, AW9, AS10)
  {
    Advance(block, h, t, AW4, AW5, AW6, AW7, AS8, AW8, AS9);
    Advance(block, h, t + 4, AW5, AW6, AW7, AW8, AS9, AW9, AS10);
  }

  lemma AFrom40(block: seq<bv8>, h: Hash, t: nat)
    requires t == 40 && Reached(block, h, t, AW6, AW7, AW8, AW9, AS10)
    ensures Reached(block, h, t + 8, AW8, AW9, AW10, AW11, AS12)
  {
    Advance(block, h, t, AW6, AW7, AW8, AW9, AS10, AW10, AS11);
    Advance(block, h, t + 4, AW7, AW8, AW9, AW10, AS11, AW11, AS12);
  }

  lemma AFrom48(block: seq<bv8>, h: Hash, t: nat)
    requires t == 48 && Reached(block, h, t, AW8, AW9, AW10, AW11, AS12)
    ensures Reached(block, h, t + 8, AW10, AW11, AW12, AW13, AS14)
  {
    Advance(block, h, t, AW8, AW9, AW10, AW11, AS12, AW12, AS13);
    Advance(block, h, t + 4, AW9, AW10, AW11, AW12, AS13, AW13, AS14);
  }

  lemma AFrom56(block: seq<bv8>, h: Hash, t: nat)
    requires t == 56 && Reached(block, h, t, AW10, AW11, AW12, AW13, AS14)
    ensures Reached(block, h, t + 8, AW12, AW13, AW14, AW15, AS16)
  {
    Advance(block, h, t, AW10, AW11, AW12, AW13, AS14, AW14, AS15);
    Advance(block, h, t + 4, AW11, AW12, AW13, AW14, AS15, AW15, AS16);
  }

  lemma AFrom64(block: seq<bv8>, h: Hash, t: nat)
    requires t == 64 && Reached(block, h, t, AW12, AW13, AW14, AW15, AS16)
    ensures Reached(block, h, t + 8, AW14, AW15, AW16, AW17, AS18)
  {
    Advance(block, h, t, AW12, AW13, AW14, AW15, AS16, AW16, AS17);
    Advance(block, h, t + 4, AW13, AW14, AW15, AW16, AS17, AW17, AS18);
  }

  lemma AFrom72(block: seq<bv8>, h: Hash, t: nat)
    requires t == 72 && Reached(block, h, t, AW14, AW15, AW16, AW17, AS18)
    ensures Reached(block, h, t + 8, AW16, AW17, AW18, AW19, AS20)
  {
    Advance(block, h, t, AW14, AW15, AW16, AW17, AS18, AW18, AS19);
    Advance(block, h, t + 4, AW15, AW16, AW17, AW18, AS19, AW19, AS20);
  }

  lemma ASixteen(block: seq<bv8>, n: nat)
    requires |block| == 64 && n == 0
    requires RowAt(block, n) == AW0 && RowAt(block, n + 4) == AW1
    requires RowAt(block, n + 8) == AW2 && RowAt(block, n + 12) == AW3
    ensures Reached(block, H0, n + 16, AW0, AW1, AW2, AW3, AS4)
  {
    AFirst0(H0, n, AW0, AS1);
    AFirst4(AS1, n + 4, AW1, AS2);
    AFirst8(AS2, n + 8, AW2, AS3);
    AFirst12(AS3, n + 12, AW3, AS4);
    NoRounds(block, H0, n);
    OneRow(block, H0, n, H0, AW0, AS1);
    OneRow(block, H0, n + 4, AS1, AW1, AS2);
    OneRow(block, H0, n + 8, AS2, AW2, AS3);
    OneRow(block, H0, n + 12, AS3, AW3, AS4);
  }

  lemma AEighty(block: seq<bv8>, h: Hash, n: nat)
    requires n == 16 && Reached(block, h, n, AW0, AW1, AW2, AW3, AS4)
    ensures Rounds(block, h, n + 64) == AS20
  {
    AFrom16(block, h, n);
    AFrom24(block, h, n + 8);
    AFrom32(block, h, n + 16);
    AFrom40(block, h, n + 24);
    AFrom48(block, h, n + 32);
    AFrom56(block, h, n + 40);
    AFrom64(block, h, n + 48);
    AFrom72(block, h, n + 56);
  }

  lemma BFirst0(s: Hash, t: nat, r: Row, next: Hash)
    requires s == MIDDLE && t == 0 && r == BW0 && next == BS1
    ensures FourRounds(s, t, r) == next
  {
    assert Round(Round(s, t, r.a), t + 1, r.b) == Hash(0x1788D912, 0xF7811128, 0x1157F1A5, 0x0A4E28BF, 0xA82B8DBF);
  }

  lemma BFirst4(s: Hash, t: nat, r: Row, next: Hash)
    requires s == BS1 && t == 4 && r == BW1 && next == BS2
    ensures FourRounds(s, t, r) == next
  {
    assert Round(Round(s, t, r.a), t + 1, r.b) == Hash(0x22AF8992, 0x5848358B, 0x076D1B48, 0x434618D4, 0x85E23644);
  }

  lemma BFirst8(s: Hash, t: nat, r: Row, next: Hash)
    requires s == BS2 && t == 8 && r == BW2 && next == BS3
    ensures FourRounds(s, t, r) == next
  {
    assert Round(Round(s, t, r.a), t + 1, r.b) == Hash(0xB5A369C5, 0x61E72722, 0xB6628757, 0x4E68FEDF, 0x88ABE264);
  }

  lemma BFirst12(s: Hash, t: nat, r: Row, next: Hash)
    requires s == BS3 && t == 12 && r == BW3 && next == BS4
    ensures FourRounds(s, t, r) == next
  {
    assert Round(Round(s, t, r.a), t + 1, r.b) == Hash(0xBFA3B0D0, 0xF0DA2EA7, 0xBF06F6A8, 0xB1819D24, 0x6D68DA71);
  }

  lemma BFrom16(block: seq<bv8>, h: Hash, t: nat)
    requires t == 16 && Reached(block, h, t, BW0, BW1, BW2, BW3, BS4)
    ensures Reached(block, h, t + 8, BW2, BW3, BW4, BW5, BS6)
  {
    Advance(block, h, t, BW0, BW1, BW2, BW3, BS4, BW4, BS5);
    Advance(block, h, t + 4, BW1, BW2, BW3, BW4, BS5, BW5, BS6);
  }

  lemma BFrom24(block: seq<bv8>, h: Hash, t: nat)
    requires t == 24 && Reached(block, h, t, BW2, BW3, BW4, BW5, BS6)
    ensures Reached(block, h, t + 8, BW4, BW5, BW6, BW7, BS8)
  {
    Advance(block, h, t, BW2, BW3, BW4, BW5, BS6, BW6, BS7);
    Advance(block, h, t + 4, BW3, BW4, BW5, BW6, BS7, BW7, BS8);
  }

  lemma BFrom32(block: seq<bv8>, h: Hash, t: nat)
    requires t == 32 && Reached(block, h, t, BW4, BW5, BW6, BW7, BS8)
    ensures Reached(block, h, t + 8, BW6, BW7, BW8, BW9, BS10)
  {
    Advance(block, h, t, BW4, BW5, BW6, BW7, BS8, BW8, BS9);
    Advance(block, h, t + 4, BW5, BW6, BW7, BW8, BS9, BW9, BS10);
  }

  lemma BFrom40(block: seq<bv8>, h: Hash, t: nat)
    requires t == 40 && Reached(block, h, t, BW6, BW7, BW8, BW9, BS10)
    ensures Reached(block, h, t + 8, BW8, BW9, BW10, BW11, BS12)
  {
    Advance(block, h, t, BW6, BW7, BW8, BW9, BS10, BW10, BS11);
    Advance(block, h, t + 4, BW7, BW8, BW9, BW10, BS11, BW11, BS12);
  }

  lemma BFrom48(block: seq<bv8>, h: Hash, t: nat)
    requires t == 48 && Reached(block, h, t, BW8, BW9, BW10, BW11, BS12)
    ensures Reached(block, h, t + 8, BW10, BW11, BW12, BW13, BS14)
  {
    Advance(block, h, t, BW8, BW9, BW10, BW11, BS12, BW12, BS13);
    Advance(block, h, t + 4, BW9, BW10, BW11, BW12, BS13, BW13, BS14);
  }

  lemma BFrom56(block: seq<bv8>, h: Hash, t: nat)
    requires t == 56 && Reached(block, h, t, BW10, BW11, BW12, BW13, BS14)
    ensures Reached(block, h, t + 8, BW12, BW13, BW14, BW15, BS16)
  {
    Advance(block, h, t, BW10, BW11, BW12, BW13, BS14, BW14, BS15);
    Advance(block, h, t + 4, BW11, BW12, BW13, BW14, BS15, BW15, BS16);
  }

  lemma BFrom64(block: seq<bv8>, h: Hash, t: nat)
    requires t == 64 && Reached(block, h, t, BW12, BW13, BW14, BW15, BS16)
    ensures Reached(block, h, t + 8, BW14, BW15, BW16, BW17, BS18)
  {
    Advance(block, h, t, BW12, BW13, BW14, BW15, BS16, BW16, BS17);
    Advance(block, h, t + 4, BW13, BW14, BW15, BW16, BS17, BW17, BS18);
  }

  lemma BFrom72(block: seq<bv8>, h: Hash, t: nat)
    requires t == 72 && Reached(block, h, t, BW14, BW15, BW16, BW17, BS18)
    ensures Reached(block, h, t + 8, BW16, BW17, BW18, BW19, BS20)
  {
    Advance(block, h, t, BW14, BW15, BW16, BW17, BS18, BW18, BS19);
    Advance(block, h, t + 4, BW15, BW16, BW17, BW18, BS19, BW19, BS20);
  }

  lemma BSixteen(block: seq<bv8>, n: nat)
    requires |block| == 64 && n == 0
    requires RowAt(block, n) == BW0 && RowAt(block, n + 4) == BW1
    requires RowAt(block, n + 8) == BW2 && RowAt(block, n + 12) == BW3
    ensures Reached(block, MIDDLE, n + 16, BW0, BW1, BW2, BW3, BS4)
  {
    BFirst0(MIDDLE, n, BW0, BS1);
    BFirst4(BS1, n + 4, BW1, BS2);
    BFirst8(BS2, n + 8, BW2, BS3);
    BFirst12(BS3, n + 12, BW3, BS4);
    NoRounds(block, MIDDLE, n);
    OneRow(block, MIDDLE, n, MIDDLE, BW0, BS1);
    OneRow(block, MIDDLE, n + 4, BS1, BW1, BS2);
    OneRow(block, MIDDLE, n + 8, BS2, BW2, BS3);
    OneRow(block, MIDDLE, n + 12, BS3, BW3, BS4);
  }

  lemma BEighty(block: seq<bv8>, h: Hash, n: nat)
    requires n == 16 && Reached(block, h, n, BW0, BW1, BW2, BW3, BS4)
    ensures Rounds(block, h, n + 64) == BS20
  {
    BFrom16(block, h, n);
    BFrom24(block, h, n + 8);
    BFrom32(block, h, n + 16);
    BFrom40(block, h, n + 24);
    BFrom48(block, h, n + 32);
    BFrom56(block, h, n + 40);
    BFrom64(block, h, n + 48);
    BFrom72(block, h, n + 56);
  }


  // The octets of a row.
  function Spell(r: Row): (octets: seq<bv8>)
    ensures |octets| == 16
  {
    WordOctets(r.a) + WordOctets(r.b) + WordOctets(r.c) + WordOctets(r.d)
  }

  lemma SpellParts(r: Row)
    ensures Spell(r)[0..4] == WordOctets(r.a) && Spell(r)[4..8] == WordOctets(r.b)
    ensures Spell(r)[8..12] == WordOctets(r.c) && Spell(r)[12..16] == WordOctets(r.d)
  {
    FourParts(WordOctets(r.a), WordOctets(r.b), WordOctets(r.c), WordOctets(r.d));
  }

  lemma FourParts(a: seq<bv8>, b: seq<bv8>, c: seq<bv8>, d: seq<bv8>)
    requires |a| == |b| == |c| == |d|
    ensures var n, w := |a|, a + b + c + d;
      w[0..n] == a && w[n..2 * n] == b && w[2 * n..3 * n] == c && w[3 * n..4 * n] == d
  {
  }

  lemma SpelledWord(block: seq<bv8>, t: nat, x: word)
    requires |block| == 64 && t < 16 && block[t * 4..t * 4 + 4] == WordOctets(x)
    ensures WordOf(block, t) == x
  {
    WordsAreBigEndian(0, 0, 0, 0, x);
    var octets := WordOctets(x);
    assert forall j :: 0 <= j < 4 ==> block[t * 4 + j] == octets[j];
  }

  lemma SliceOfSlice(block: seq<bv8>, i: nat, j: nat)
    requires i + 16 <= |block| && j <= 12
    ensures block[i..i + 16][j..j + 4] == block[i + j..i + j + 4]
  {
    var a, b := block[i..i + 16][j..j + 4], block[i + j..i + j + 4];
    assert forall k :: 0 <= k < 4 ==> a[k] == b[k];
  }

  lemma SpelledRow(block: seq<bv8>, t: nat, r: Row)
    requires |block| == 64 && t <= 12 && block[t * 4..t * 4 + 16] == Spell(r)
    ensures RowAt(block, t) == r
  {
    SpellParts(r);
    SliceOfSlice(block, t * 4, 0);
    SliceOfSlice(block, t * 4, 4);
    SliceOfSlice(block, t * 4, 8);
    SliceOfSlice(block, t * 4, 12);
    SpelledWord(block, t, r.a);
    SpelledWord(block, t + 1, r.b);
    SpelledWord(block, t + 2, r.c);
    SpelledWord(block, t + 3, r.d);
    RowOf(block, t);
  }

  lemma SpelledBlock(block: seq<bv8>, t: nat, p: Row, q: Row, r: Row, s: Row)
    requires t == 0 && block == Spell(p) + Spell(q) + Spell(r) + Spell(s)
    ensures RowAt(block, t) == p && RowAt(block, t + 4) == q && RowAt(block, t + 8) == r && RowAt(block, t + 12) == s
  {
    FourParts(Spell(p), Spell(q), Spell(r), Spell(s));
    SpelledRow(block, t, p);
    SpelledRow(block, t + 4, q);
    SpelledRow(block, t + 8, r);
    SpelledRow(block, t + 12, s);
  }

  lemma FirstState(block: seq<bv8>, n: nat)
    requires n == 0 && block == Spell(AW0) + Spell(AW1) + Spell(AW2) + Spell(AW3)
    ensures Compress(H0, block) == MIDDLE
  {
    SpelledBlock(block, n, AW0, AW1, AW2, AW3);
    ASixteen(block, n);
    AEighty(block, H0, n + 16);
    Compressed(block, H0, n + 80, AS20);
    ASum(AS20);
  }

  lemma ASum(s: Hash)
    requires s == AS20
    ensures Add(H0, s) == MIDDLE
  {
  }

  lemma LastState(block: seq<bv8>, n: nat)
    requires n == 0 && block == Spell(BW0) + Spell(BW1) + Spell(BW2) + Spell(BW3)
    ensures Compress(MIDDLE, block) == FINAL
  {
    SpelledBlock(block, n, BW0, BW1, BW2, BW3);
    BSixteen(block, n);
    BEighty(block, MIDDLE, n + 16);
    Compressed(block, MIDDLE, n + 80, BS20);
    BSum(BS20);
  }

  lemma BSum(s: Hash)
    requires s == BS20
    ensures Add(MIDDLE, s) == FINAL
  {
  }

  const FINAL := Hash(0xA1361FF3, 0x0F2E37D7, 0x6658B42C, 0x80F6B4B2, 0xC2630C26)

  lemma TwoBlocks(m: seq<bv8>, a: seq<bv8>, b: seq<bv8>, s: Hash, s': Hash)
    requires Pad(m) == a + b && |a| == |b| == 64 && Compress(H0, a) == s && Compress(s, b) == s'
    ensures Digest(m) == Octets(s')
  {
    assert [] + a == a;
    CompressAppend(H0, [], a);
    CompressAppend(H0, a, b);
  }

  const SAMPLE_KEY: string := "dGhlIHNhbXBsZSBu" + "b25jZQ=="

  lemma AsciiSplits(a: string, b: string)
    requires IsAscii(a) && IsAscii(b)
    ensures IsAscii(a + b) && Ascii(a + b) == Ascii(a) + Ascii(b)
  {
  }

  lemma KeyFirst(s: string)
    requires s == "dGhlIHNh"
    ensures IsAscii(s) && Ascii(s) == WordOctets(AW0.a) + WordOctets(AW0.b)
  {
  }

  lemma KeySecond(s: string)
    requires s == "bXBsZSBu"
    ensures IsAscii(s) && Ascii(s) == WordOctets(AW0.c) + WordOctets(AW0.d)
  {
  }

  // Two halves of a row.
  lemma Halves(a: string, b: string, r: Row)
    requires IsAscii(a) && Ascii(a) == WordOctets(r.a) + WordOctets(r.b)
    requires IsAscii(b) && Ascii(b) == WordOctets(r.c) + WordOctets(r.d)
    ensures IsAscii(a + b) && Ascii(a + b) == Spell(r)
  {
    AsciiSplits(a, b);
  }

  lemma KeyEnd(s: string)
    requires s == "b25jZQ=="
    ensures IsAscii(s) && Ascii(s) == WordOctets(AW1.a) + WordOctets(AW1.b)
  {
  }

  lemma GuidStart(s: string)
    requires s == "258EAFA5"
    ensures IsAscii(s) && Ascii(s) == WordOctets(AW1.c) + WordOctets(AW1.d)
  {
  }

  lemma GuidThird(s: string)
    requires s == "-E914-47"
    ensures IsAscii(s) && Ascii(s) == WordOctets(AW2.a) + WordOctets(AW2.b)
  {
  }

  lemma GuidFourth(s: string)
    requires s == "DA-95CA-"
    ensures IsAscii(s) && Ascii(s) == WordOctets(AW2.c) + WordOctets(AW2.d)
  {
  }

  lemma GuidEnd(s: string)
    requires s == "5AB5DC11D65B"
    ensures IsAscii(s) && Ascii(s) + [0x80, 0, 0, 0] == Spell(AW3)
  {
  }

  lemma FourSum(a: seq<bv8>, b: seq<bv8>, c: seq<bv8>, d: seq<bv8>, e: seq<bv8>, f: seq<bv8>)
    ensures (a + b) + (c + d + e) + f == a + (b + c) + d + (e + f)
  {
  }

  lemma Message(k1: string, k2: string, g1: string, g2: string, g3: string)
    requires k1 == "dGhlIHNhbXBsZSBu" && k2 == "b25jZQ=="
    requires g1 == "258EAFA5" && g2 == "-E914-47DA-95CA-" && g3 == "5AB5DC11D65B"
    ensures IsAscii(k1 + k2) && IsAscii(g1 + g2 + g3) && |Ascii(k1 + k2) + Ascii(g1 + g2 + g3)| == 60
    ensures Ascii(k1 + k2) + Ascii(g1 + g2 + g3) + [0x80, 0, 0, 0]
      == Spell(AW0) + Spell(AW1) + Spell(AW2) + Spell(AW3)
  {
    KeyFirst(k1[..8]);
    KeySecond(k1[8..]);
    Halves(k1[..8], k1[8..], AW0);
    assert k1[..8] + k1[8..] == k1;
    KeyEnd(k2);
    GuidStart(g1);
    GuidThird(g2[..8]);
    GuidFourth(g2[8..]);
    Halves(g2[..8], g2[8..], AW2);
    assert g2[..8] + g2[8..] == g2;
    GuidEnd(g3);
    AsciiSplits(k1, k2);
    AsciiSplits(g1, g2);
    AsciiSplits(g1 + g2, g3);
    FourSum(Ascii(k1), Ascii(k2), Ascii(g1), Ascii(g2), Ascii(g3), [0x80, 0, 0, 0]);
    assert Ascii(k2) + Ascii(g1) == Spell(AW1);
  }

  lemma ZeroRow(r: Row)
    requires r == Row(0, 0, 0, 0)
    ensures Spell(r) == Zeros(16)
  {
  }

  lemma OctetLast(n: nat, k: nat, q: nat, r: nat)
    requires k > 0 && r < 256 && n == q * 256 + r
    ensures LengthOctets(n, k) == LengthOctets(q, k - 1) + [r as bv8]
  {
    Bits.DivModUnique(n, 256, q, r);
  }

  lemma TwoOctetLength(n: nat, k: nat, q: nat, r: nat)
    requires q < 256 && r < 256 && n == q * 256 + r && k >= 2
    ensures LengthOctets(n, k) == Zeros(k - 2) + [q as bv8, r as bv8]
  {
    OctetLast(n, k, q, r);
    OctetLast(q, k - 1, 0, q);
    ZeroLength(k - 2);
    assert Zeros(k - 2) + [q as bv8] + [r as bv8] == Zeros(k - 2) + [q as bv8, r as bv8];
  }

  lemma LastRow(r: Row)
    requires r == Row(0, 0, 0, 480)
    ensures Spell(r) == Zeros(8) + (Zeros(6) + [1, 0xE0])
  {
  }

  lemma PadSixty(m: seq<bv8>, n: nat, zeros: nat, k: nat)
    requires |m| == n == 60 && zeros == 59 && k == 8
    ensures Pad(m) == m + [0x80] + Zeros(zeros) + (Zeros(6) + [1, 0xE0])
  {
    assert n * 8 % Bits.TWO_64 == 480 && PadZeros(n) == zeros;
    TwoOctetLength(n * 8, k, 1, 224);
  }

  lemma SecondBlock(m: seq<bv8>, length: seq<bv8>)
    ensures m + [0x80] + Zeros(59) + length
      == m + [0x80, 0, 0, 0] + (Zeros(16) + Zeros(16) + Zeros(16) + (Zeros(8) + length))
  {
    assert [0x80] + Zeros(59) == [0x80, 0, 0, 0] + Zeros(56);
    assert Zeros(56) == Zeros(16) + Zeros(16) + Zeros(16) + Zeros(8);
  }

  lemma SampleDigest(m: seq<bv8>)
    requires |m| == 60 && m + [0x80, 0, 0, 0] == Spell(AW0) + Spell(AW1) + Spell(AW2) + Spell(AW3)
    ensures Digest(m) == Octets(FINAL)
  {
    var first, last := m + [0x80, 0, 0, 0], Spell(BW0) + Spell(BW1) + Spell(BW2) + Spell(BW3);
    PadSixty(m, 60, 59, 8);
    SecondBlock(m, Zeros(6) + [1, 0xE0]);
    ZeroRow(BW0);
    ZeroRow(BW1);
    ZeroRow(BW2);
    LastRow(BW3);
    FirstState(first, 0);
    LastState(last, 0);
    TwoBlocks(m, first, last, MIDDLE, FINAL);
  }

  lemma FinalOctets(h: Hash)
    requires h == FINAL
    ensures Octets(h) == [
      0xA1, 0x36, 0x1F, 0xF3, 0x0F, 0x2E, 0x37, 0xD7, 0x66, 0x58,
      0xB4, 0x2C, 0x80, 0xF6, 0xB4, 0xB2, 0xC2, 0x63, 0x0C, 0x26]
  {
  }

  lemma FirstFour(octets: seq<bv8>)
    requires |octets| == 20 && octets[0] == 0xA1 && octets[1] == 0x36 && octets[2] == 0x1F
    ensures "oTYf" <= Encode(Numbers(octets))
  {
    var hash := Numbers(octets);
    QuadIs(hash, 40, 19, 24, 31);
    assert Encode(hash) == Quad(hash) + Encode(Rest(hash));
  }

  lemma SampleAnswer(message: seq<bv8>)
    requires |message| == 60 && message + [0x80, 0, 0, 0] == Spell(AW0) + Spell(AW1) + Spell(AW2) + Spell(AW3)
    ensures "oTYf" <= Encode(Numbers(Digest(message)))
  {
    SampleDigest(message);
    FinalOctets(FINAL);
    FirstFour(Octets(FINAL));
  }

  lemma Unlike(a: string, b: string)
    requires "oTYf" <= a && "s3pP" <= b
    ensures a != b
  {
    assert a[0] != b[0];
  }

  // What section 1.3 says the answer to its sample key is.
  const STANDARD_ANSWER: string := "s3pPLMBiTxaQ" + "9kYGzzhZRbK+" + "xOo="

  /** The sample key is not answered as the standard says, so a client that checks the answer, as
      section 4.1 wants it to, gives the connection up. */
  lemma SampleRejected()
    ensures IsAscii(SAMPLE_KEY) && IsAscii(GUID) && Accept(Ascii(SAMPLE_KEY), GUID) != STANDARD_ANSWER
  {
    Message("dGhlIHNhbXBsZSBu", "b25jZQ==", "258EAFA5", "-E914-47DA-95CA-", "5AB5DC11D65B");
    SampleAnswer(Ascii(SAMPLE_KEY) + Ascii(GUID));
    Unlike(Accept(Ascii(SAMPLE_KEY), GUID), STANDARD_ANSWER);
  }
}
