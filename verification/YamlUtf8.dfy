/** UTF-8 octets of one character, and libyaml's tests on them. */
module YamlUtf8 {
  import opened Basics

  /** A Unicode scalar value. */
  type Scalar = c: int | 0 <= c < 0x110000 && !(0xD800 <= c <= 0xDFFF) witness 0

  /** Section 3 of RFC 3629; the scanner encodes the value of an escape in this way. */
  function Utf8(c: Scalar): (r: seq<Byte>)
    ensures 1 <= |r| <= 4
  {
    if c <= 0x7F then [c]
    else if c <= 0x7FF then [0xC0 + c / 64, 0x80 + c % 64]
    else if c <= 0xFFFF then [0xE0 + c / 4096, 0x80 + c / 64 % 64, 0x80 + c % 64]
    else [0xF0 + c / 0x40000, 0x80 + c / 4096 % 64, 0x80 + c / 64 % 64, 0x80 + c % 64]
  }

  function Utf8All(s: seq<Scalar>): seq<Byte> {
    if s == [] then [] else Utf8All(s[..|s| - 1]) + Utf8(s[|s| - 1])
  }

  lemma Utf8AllSnoc(s: seq<Scalar>, i: nat)
    requires i < |s|
    ensures Utf8All(s[..i + 1]) == Utf8All(s[..i]) + Utf8(s[i])
  {
    assert s[..i + 1][..i] == s[..i];
  }

  // ----- the writer decodes the octets at its pointer with masks

  function Width(octet: Byte): nat {
    if octet < 0x80 then 1
    else if octet / 32 == 6 then 2
    else if octet / 16 == 14 then 3
    else if octet / 8 == 30 then 4
    else 0
  }

  function LeadBits(octet: Byte): nat {
    if octet < 0x80 then octet
    else if octet / 32 == 6 then octet % 32
    else if octet / 16 == 14 then octet % 16
    else if octet / 8 == 30 then octet % 8
    else 0
  }

  /** The value of the first n octets of b. */
  function Decode(b: seq<Byte>, n: nat): nat
    requires 1 <= n <= |b|
  {
    if n == 1 then LeadBits(b[0]) else Decode(b, n - 1) * 64 + b[n - 1] % 64
  }

  lemma DecodeUtf8(c: Scalar)
    ensures Width(Utf8(c)[0]) == |Utf8(c)| && Decode(Utf8(c), |Utf8(c)|) == c
  {
    var b := Utf8(c);
    if c <= 0x7F {
    } else if c <= 0x7FF {
      assert Decode(b, 2) == LeadBits(b[0]) * 64 + b[1] % 64;
    } else if c <= 0xFFFF {
      DecodeThree(c, b);
    } else {
      DecodeFour(c, b);
    }
  }

  lemma DecodeThree(c: Scalar, b: seq<Byte>)
    requires 0x7FF < c <= 0xFFFF && b == Utf8(c)
    ensures Width(b[0]) == 3 && Decode(b, 3) == c
  {
    assert Decode(b, 2) == LeadBits(b[0]) * 64 + b[1] % 64;
    assert c / 64 == c / 4096 * 64 + c / 64 % 64;
  }

  lemma DecodeFour(c: Scalar, b: seq<Byte>)
    requires 0xFFFF < c && b == Utf8(c)
    ensures Width(b[0]) == 4 && Decode(b, 4) == c
  {
    hide Width, LeadBits;
    var o, p, q, r := c / 0x40000, c / 4096 % 64, c / 64 % 64, c % 64;
    Sextets(c);
    FourLead(o);
    assert b == [0xF0 + o, 0x80 + p, 0x80 + q, 0x80 + r];
    DecodeTails(b, o, p, q, r);
  }

  lemma DecodeTails(b: seq<Byte>, o: nat, p: nat, q: nat, r: nat)
    requires o <= 4 && p < 64 && q < 64 && r < 64 && b == [0xF0 + o, 0x80 + p, 0x80 + q, 0x80 + r]
    ensures Decode(b, 4) == ((LeadBits(b[0]) * 64 + p) * 64 + q) * 64 + r
  {
    hide LeadBits;
    assert Decode(b, 2) == LeadBits(b[0]) * 64 + b[1] % 64;
    assert Decode(b, 3) == Decode(b, 2) * 64 + b[2] % 64;
  }

  lemma FourLead(x: nat)
    requires x <= 4
    ensures Width(0xF0 + x) == 4 && LeadBits(0xF0 + x) == x
  {
  }

  lemma Sextets(c: nat)
    requires c < 0x110000
    ensures ((c / 0x40000 * 64 + c / 4096 % 64) * 64 + c / 64 % 64) * 64 + c % 64 == c && c / 0x40000 <= 4
  {
    assert c / 4096 == c / 0x40000 * 64 + c / 4096 % 64;
    assert c / 64 == c / 4096 * 64 + c / 64 % 64;
  }

  // ----- the macros, on the octets of the character at the pointer

  function Octet(b: seq<Byte>, i: nat): Byte {
    if i < |b| then b[i] else 0
  }

  predicate IsBom(b: seq<Byte>) {
    Octet(b, 0) == 0xEF && Octet(b, 1) == 0xBB && Octet(b, 2) == 0xBF
  }

  predicate IsAscii(b: seq<Byte>) {
    Octet(b, 0) <= 0x7F
  }

  predicate IsPrintable(b: seq<Byte>) {
    var o, p, q := Octet(b, 0), Octet(b, 1), Octet(b, 2);
    || o == 0x0A || 0x20 <= o <= 0x7E || (o == 0xC2 && p >= 0xA0) || 0xC2 < o < 0xED
    || (o == 0xED && p < 0xA0) || o == 0xEE
    || (o == 0xEF && !(p == 0xBB && q == 0xBF) && !(p == 0xBF && (q == 0xBE || q == 0xBF)))
  }

  predicate IsBreakOctets(b: seq<Byte>) {
    var o, p, q := Octet(b, 0), Octet(b, 1), Octet(b, 2);
    || o == 0x0D || o == 0x0A || (o == 0xC2 && p == 0x85)
    || (o == 0xE2 && p == 0x80 && (q == 0xA8 || q == 0xA9))
  }

  predicate IsBreak(c: Scalar) {
    c == 0x0D || c == 0x0A || c == 0x85 || c == 0x2028 || c == 0x2029
  }

  predicate IsBlank(c: Scalar) {
    c == 0x20 || c == 0x09
  }

  predicate IsBlankZ(c: Scalar) {
    IsBlank(c) || IsBreak(c) || c == 0
  }

  /** The tests on octets are tests on the character. */
  lemma OctetTests(c: Scalar)
    ensures IsBreakOctets(Utf8(c)) <==> IsBreak(c)
    ensures IsAscii(Utf8(c)) <==> c < 0x80
    ensures IsBom(Utf8(c)) <==> c == 0xFEFF
  {
    DecodeUtf8(c);
    var b := Utf8(c);
    if |b| == 2 {
      assert Decode(b, 2) == LeadBits(b[0]) * 64 + b[1] % 64;
    } else if |b| == 3 {
      assert Decode(b, 2) == LeadBits(b[0]) * 64 + b[1] % 64;
    }
  }

  /** What the writer may leave as it is: section 5.1 of the YAML 1.1 specification, without #x9, #xD, #x85 and the rest above #xFFFF. */
  lemma PrintableIs(c: Scalar)
    ensures IsPrintable(Utf8(c)) <==>
            (c == 0x0A || 0x20 <= c <= 0x7E || 0xA0 <= c <= 0xD7FF || (0xE000 <= c <= 0xFFFD && c != 0xFEFF))
  {
    DecodeUtf8(c);
    var b := Utf8(c);
    if |b| == 2 {
      assert Decode(b, 2) == LeadBits(b[0]) * 64 + b[1] % 64;
    } else if |b| == 3 {
      assert Decode(b, 2) == LeadBits(b[0]) * 64 + b[1] % 64;
    }
  }
}
