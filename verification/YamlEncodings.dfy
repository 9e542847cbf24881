/** The encodings of the reader, one character at a time. */
module YamlEncodings {
  import opened Basics
  import opened YamlUtf8

  datatype Encoding = Utf8Encoding | Utf16Le | Utf16Be

  datatype Outcome = Char(value: nat, width: nat) | Incomplete | Bad

  /** The characters a YAML stream may hold. */
  predicate Allowed(v: nat) {
    || v == 0x09 || v == 0x0A || v == 0x0D || 0x20 <= v <= 0x7E || v == 0x85 || 0xA0 <= v <= 0xD7FF
    || 0xE000 <= v <= 0xFFFD || 0x10000 <= v <= 0x10FFFF
  }

  // ----- encoding

  function Pair16(low: Byte, high: Byte, e: Encoding): seq<Byte> {
    if e == Utf16Be then [high, low] else [low, high]
  }

  /** Section 2.1 of RFC 2781. */
  function Utf16(c: Scalar, e: Encoding): seq<Byte> {
    if c < 0x10000 then Pair16(c % 256, c / 256, e)
    else
      var w1, w2 := 0xD800 + (c - 0x10000) / 0x400, 0xDC00 + (c - 0x10000) % 0x400;
      Pair16(w1 % 256, w1 / 256, e) + Pair16(w2 % 256, w2 / 256, e)
  }

  function Encode(c: Scalar, e: Encoding): (r: seq<Byte>)
    ensures 1 <= |r| <= 4
  {
    if e == Utf8Encoding then Utf8(c) else Utf16(c, e)
  }

  function EncodeAll(s: seq<Scalar>, e: Encoding): seq<Byte> {
    if s == [] then [] else EncodeAll(s[..|s| - 1], e) + Encode(s[|s| - 1], e)
  }

  // ----- decoding, as the reader does it on the bytes that are there

  /** The value of the first n octets, or -1 if one of the octets behind the first is not a trailing octet. */
  function Octets(b: seq<Byte>, n: nat): int
    requires 1 <= n <= |b|
  {
    if n == 1 then LeadBits(b[0])
    else if Octets(b, n - 1) < 0 || b[n - 1] / 64 != 2 then -1
    else Octets(b, n - 1) * 64 + b[n - 1] % 64
  }

  predicate Shortest(v: nat, width: nat) {
    || width == 1 || (width == 2 && v >= 0x80) || (width == 3 && v >= 0x800) || (width == 4 && v >= 0x10000)
  }

  function DecodeUtf8Char(b: seq<Byte>): Outcome
    requires b != []
  {
    var width := Width(b[0]);
    if width == 0 then Bad
    else if width > |b| then Incomplete
    else
      var v := Octets(b, width);
      if v < 0 || !Shortest(v, width) || 0xD800 <= v <= 0xDFFF || v > 0x10FFFF then Bad else Char(v, width)
  }

  function Word(b: seq<Byte>, i: nat, e: Encoding): nat
    requires i + 2 <= |b|
  {
    if e == Utf16Be then b[i + 1] + 256 * b[i] as int else b[i] + 256 * b[i + 1] as int
  }

  function DecodeUtf16Char(b: seq<Byte>, e: Encoding): Outcome {
    if |b| < 2 then Incomplete
    else
      var v := Word(b, 0, e);
      if v / 0x400 == 0x37 then Bad
      else if v / 0x400 == 0x36 then
        if |b| < 4 then Incomplete
        else if Word(b, 2, e) / 0x400 != 0x37 then Bad
        else Char(0x10000 + v % 0x400 * 0x400 + Word(b, 2, e) % 0x400, 4)
      else Char(v, 2)
  }

  function DecodeChar(b: seq<Byte>, e: Encoding): Outcome
    requires b != []
  {
    var o := if e == Utf8Encoding then DecodeUtf8Char(b) else DecodeUtf16Char(b, e);
    if o.Char? && !Allowed(o.value) then Bad else o
  }

  // ----- what is decoded is what was encoded

  lemma TrailBits(x: nat)
    requires x < 64
    ensures (0x80 + x) / 64 == 2 && (0x80 + x) % 64 == x
  {
  }

  lemma LeadIs(x: nat)
    ensures x < 32 ==> Width(0xC0 + x) == 2 && LeadBits(0xC0 + x) == x
    ensures x < 16 ==> Width(0xE0 + x) == 3 && LeadBits(0xE0 + x) == x
    ensures x < 8 ==> Width(0xF0 + x) == 4 && LeadBits(0xF0 + x) == x
  {
  }

  lemma LeadOnly(o: Byte)
    ensures Width(o) == 1 ==> o < 0x80 && LeadBits(o) == o
    ensures Width(o) == 2 ==> o == 0xC0 + LeadBits(o) && LeadBits(o) < 32
    ensures Width(o) == 3 ==> o == 0xE0 + LeadBits(o) && LeadBits(o) < 16
    ensures Width(o) == 4 ==> o == 0xF0 + LeadBits(o) && LeadBits(o) < 8
    ensures Width(o) <= 4
  {
  }

  lemma TrailOnly(o: Byte)
    requires o / 64 == 2
    ensures o == 0x80 + o % 64
  {
  }

  ghost predicate Trailing(b: seq<Byte>, n: nat)
    requires n <= |b|
  {
    forall k :: 1 <= k < n ==> b[k] / 64 == 2
  }

  lemma {:induction false} OctetsAreDecoded(b: seq<Byte>, n: nat)
    requires 1 <= n <= |b|
    ensures if Trailing(b, n) then Octets(b, n) == Decode(b, n) else Octets(b, n) == -1
  {
    hide LeadBits;
    if n > 1 {
      OctetsAreDecoded(b, n - 1);
      if Trailing(b, n - 1) && b[n - 1] / 64 == 2 {
        assert Trailing(b, n);
      }
    }
  }

  lemma {:induction false} DecodePrefix(b: seq<Byte>, c: seq<Byte>, n: nat)
    requires 1 <= n <= |b| && n <= |c| && b[..n] == c[..n]
    ensures Decode(b, n) == Decode(c, n)
  {
    hide LeadBits;
    assert b[0] == b[..n][0] == c[..n][0] == c[0];
    assert b[n - 1] == b[..n][n - 1] == c[..n][n - 1] == c[n - 1];
    if n > 1 {
      assert b[..n - 1] == b[..n][..n - 1] && c[..n - 1] == c[..n][..n - 1];
      DecodePrefix(b, c, n - 1);
    }
  }

  lemma Utf8Trails(c: Scalar)
    ensures Trailing(Utf8(c), |Utf8(c)|) && Shortest(c, |Utf8(c)|)
  {
    TrailBits(c % 64);
    TrailBits(c / 64 % 64);
    TrailBits(c / 4096 % 64);
  }

  lemma Utf8Decoded(c: Scalar, b: seq<Byte>)
    requires |Utf8(c)| <= |b| && b[..|Utf8(c)|] == Utf8(c)
    ensures DecodeUtf8Char(b) == Char(c, |Utf8(c)|)
  {
    hide Utf8, Width, LeadBits, Octets, Decode;
    var u := Utf8(c);
    DecodeUtf8(c);
    Utf8Trails(c);
    assert u[..|u|] == u && b[0] == b[..|u|][0];
    forall k | 1 <= k < |u|
      ensures b[k] / 64 == 2
    {
      assert b[k] == b[..|u|][k];
    }
    OctetsAreDecoded(b, |u|);
    DecodePrefix(b, u, |u|);
  }

  /** Part of a character is not an error yet. */
  lemma Utf8Cut(c: Scalar, b: seq<Byte>)
    requires 0 < |b| < |Utf8(c)| && b == Utf8(c)[..|b|]
    ensures DecodeUtf8Char(b) == Incomplete
  {
    hide Utf8, Width, Octets;
    DecodeUtf8(c);
    assert b[0] == Utf8(c)[0];
  }

  lemma TwoOctets(b: seq<Byte>)
    requires |b| >= 2 && Trailing(b, 2) && Width(b[0]) == 2 && Decode(b, 2) >= 0x80
    ensures Decode(b, 2) <= 0x7FF && b[..2] == Utf8(Decode(b, 2))
  {
    hide LeadBits, Width;
    LeadOnly(b[0]);
    TrailOnly(b[1]);
    assert Decode(b, 2) == LeadBits(b[0]) * 64 + b[1] % 64;
  }

  lemma ThreeOctets(b: seq<Byte>)
    requires |b| >= 3 && Trailing(b, 3) && Width(b[0]) == 3 && Decode(b, 3) >= 0x800
    requires !(0xD800 <= Decode(b, 3) <= 0xDFFF)
    ensures Decode(b, 3) <= 0xFFFF && b[..3] == Utf8(Decode(b, 3))
  {
    hide LeadBits, Width, Utf8;
    LeadOnly(b[0]);
    TrailOnly(b[1]);
    TrailOnly(b[2]);
    var l, p, q := LeadBits(b[0]), b[1] % 64, b[2] % 64;
    assert Decode(b, 2) == l * 64 + p && Decode(b, 3) == Decode(b, 2) * 64 + q;
    ThreeParts(l, p, q);
  }

  lemma ThreeParts(l: nat, p: nat, q: nat)
    requires l < 16 && p < 64 && q < 64
    ensures var v := (l * 64 + p) * 64 + q;
      v <= 0xFFFF && (v >= 0x800 && !(0xD800 <= v <= 0xDFFF) ==> Utf8(v) == [0xE0 + l, 0x80 + p, 0x80 + q])
  {
    var v := (l * 64 + p) * 64 + q;
    assert v / 64 == l * 64 + p && v / 4096 == l;
  }

  lemma FourOctets(b: seq<Byte>)
    requires |b| >= 4 && Trailing(b, 4) && Width(b[0]) == 4 && 0x10000 <= Decode(b, 4) <= 0x10FFFF
    ensures b[..4] == Utf8(Decode(b, 4))
  {
    hide LeadBits, Width, Utf8;
    LeadOnly(b[0]);
    TrailOnly(b[1]);
    TrailOnly(b[2]);
    TrailOnly(b[3]);
    var l, p, q, r := LeadBits(b[0]), b[1] % 64, b[2] % 64, b[3] % 64;
    assert Decode(b, 2) == l * 64 + p && Decode(b, 3) == Decode(b, 2) * 64 + q && Decode(b, 4) == Decode(b, 3) * 64 + r;
    FourParts(l, p, q, r);
  }

  lemma FourParts(l: nat, p: nat, q: nat, r: nat)
    requires l < 8 && p < 64 && q < 64 && r < 64
    ensures var v := ((l * 64 + p) * 64 + q) * 64 + r;
      0x10000 <= v <= 0x10FFFF ==> Utf8(v) == [0xF0 + l, 0x80 + p, 0x80 + q, 0x80 + r]
  {
    var v := ((l * 64 + p) * 64 + q) * 64 + r;
    assert v / 64 == (l * 64 + p) * 64 + q;
    assert v / 4096 == l * 64 + p;
    assert v / 0x40000 == l;
  }

  /** The reader accepts only the encoding of RFC 3629: the bytes it decodes are those of the character. */
  lemma Utf8Exact(b: seq<Byte>)
    requires b != [] && DecodeUtf8Char(b).Char?
    ensures var o := DecodeUtf8Char(b);
      o.width <= |b| && o.value < 0x110000 && !(0xD800 <= o.value <= 0xDFFF) && b[..o.width] == Utf8(o.value)
  {
    hide Utf8, Width, LeadBits, Octets, Decode;
    var w := Width(b[0]);
    LeadOnly(b[0]);
    OctetsAreDecoded(b, w);
    if w == 1 {
      OneOctet(b);
    } else if w == 2 {
      TwoOctets(b);
    } else if w == 3 {
      ThreeOctets(b);
    } else {
      FourOctets(b);
    }
  }

  lemma OneOctet(b: seq<Byte>)
    requires b != [] && Width(b[0]) == 1
    ensures Decode(b, 1) == b[0] < 0x80 && b[..1] == Utf8(b[0])
  {
  }

  // ----- UTF-16

  function Unit(w: nat, e: Encoding): (r: seq<Byte>)
    requires w <= 0xFFFF
    ensures |r| == 2
  {
    Pair16(w % 256, w / 256, e)
  }

  lemma WordIsUnit(b: seq<Byte>, i: nat, w: nat, e: Encoding)
    requires i + 2 <= |b| && w <= 0xFFFF
    ensures b[i..i + 2] == Unit(w, e) <==> Word(b, i, e) == w
    ensures Word(b, i, e) <= 0xFFFF
  {
    var x := b[i..i + 2];
    assert x[0] == b[i] && x[1] == b[i + 1];
    if Word(b, i, e) == w {
      assert x == Unit(w, e);
    }
  }

  lemma Surrogates(c: Scalar, e: Encoding)
    requires e != Utf8Encoding
    ensures c < 0x10000 ==> Utf16(c, e) == Unit(c, e) && c / 0x400 != 0x36 && c / 0x400 != 0x37
    ensures c >= 0x10000 ==> var w1, w2 := 0xD800 + (c - 0x10000) / 0x400, 0xDC00 + (c - 0x10000) % 0x400;
      && w1 / 0x400 == 0x36 && w2 / 0x400 == 0x37 && Utf16(c, e) == Unit(w1, e) + Unit(w2, e)
      && 0x10000 + w1 % 0x400 * 0x400 + w2 % 0x400 == c
  {
  }

  lemma Utf16Decoded(c: Scalar, b: seq<Byte>, e: Encoding)
    requires e != Utf8Encoding && |Utf16(c, e)| <= |b| && b[..|Utf16(c, e)|] == Utf16(c, e)
    ensures DecodeUtf16Char(b, e) == Char(c, |Utf16(c, e)|)
  {
    hide Utf16, Unit, Word;
    Surrogates(c, e);
    if c < 0x10000 {
      WordIsUnit(b, 0, c, e);
    } else {
      var w1, w2 := 0xD800 + (c - 0x10000) / 0x400, 0xDC00 + (c - 0x10000) % 0x400;
      assert b[0..2] == b[..4][..2] && b[2..4] == b[..4][2..];
      WordIsUnit(b, 0, w1, e);
      WordIsUnit(b, 2, w2, e);
    }
  }

  lemma Utf16Cut(c: Scalar, b: seq<Byte>, e: Encoding)
    requires e != Utf8Encoding && 0 < |b| < |Utf16(c, e)| && b == Utf16(c, e)[..|b|]
    ensures DecodeUtf16Char(b, e) == Incomplete
  {
    hide Utf16, Unit, Word;
    Surrogates(c, e);
    if |b| >= 2 {
      var w1 := 0xD800 + (c - 0x10000) / 0x400;
      assert b[0..2] == Utf16(c, e)[..2];
      WordIsUnit(b, 0, w1, e);
    }
  }

  lemma FromSurrogates(w1: nat, w2: nat, e: Encoding)
    requires e != Utf8Encoding && w1 / 0x400 == 0x36 && w2 / 0x400 == 0x37
    ensures var c := 0x10000 + w1 % 0x400 * 0x400 + w2 % 0x400;
      0x10000 <= c <= 0x10FFFF && Utf16(c, e) == Unit(w1, e) + Unit(w2, e)
  {
    hide Utf16, Unit;
    var c := 0x10000 + w1 % 0x400 * 0x400 + w2 % 0x400;
    assert (c - 0x10000) / 0x400 == w1 % 0x400 && (c - 0x10000) % 0x400 == w2 % 0x400;
    Surrogates(c, e);
  }

  lemma Utf16Exact(b: seq<Byte>, e: Encoding)
    requires e != Utf8Encoding && DecodeUtf16Char(b, e).Char?
    ensures var o := DecodeUtf16Char(b, e);
      o.width <= |b| && o.value < 0x110000 && !(0xD800 <= o.value <= 0xDFFF) && b[..o.width] == Utf16(o.value, e)
  {
    hide Utf16, Unit, Word;
    var w1 := Word(b, 0, e);
    WordIsUnit(b, 0, 0, e);
    WordIsUnit(b, 0, w1, e);
    if w1 / 0x400 == 0x36 {
      var w2 := Word(b, 2, e);
      WordIsUnit(b, 2, 0, e);
      WordIsUnit(b, 2, w2, e);
      FromSurrogates(w1, w2, e);
      assert b[..4] == b[0..2] + b[2..4];
    } else {
      Surrogates(w1, e);
    }
  }

  // ----- both

  predicate AllAllowed(s: seq<Scalar>) {
    forall i :: 0 <= i < |s| ==> Allowed(s[i])
  }

  /** Decoding the encoding of an allowed character gives the character, whatever follows. */
  lemma CharDecoded(c: Scalar, b: seq<Byte>, e: Encoding)
    requires Allowed(c) && |Encode(c, e)| <= |b| && b[..|Encode(c, e)|] == Encode(c, e)
    ensures b != [] && DecodeChar(b, e) == Char(c, |Encode(c, e)|)
  {
    hide Utf8, Utf16, DecodeUtf8Char, DecodeUtf16Char;
    if e == Utf8Encoding {
      Utf8Decoded(c, b);
    } else {
      Utf16Decoded(c, b, e);
    }
  }

  /** A character that is cut off is incomplete, not wrong. */
  lemma CharCut(c: Scalar, b: seq<Byte>, e: Encoding)
    requires 0 < |b| < |Encode(c, e)| && b == Encode(c, e)[..|b|]
    ensures DecodeChar(b, e) == Incomplete
  {
    hide Utf8, Utf16, DecodeUtf8Char, DecodeUtf16Char;
    if e == Utf8Encoding {
      Utf8Cut(c, b);
    } else {
      Utf16Cut(c, b, e);
    }
  }

  /** Whatever is decoded is an allowed character, and the bytes are its encoding. */
  lemma CharExact(b: seq<Byte>, e: Encoding)
    requires b != [] && DecodeChar(b, e).Char?
    ensures var o := DecodeChar(b, e);
      && o.width <= |b| && Allowed(o.value) && o.value < 0x110000 && !(0xD800 <= o.value <= 0xDFFF)
      && b[..o.width] == Encode(o.value, e) && o.width == |Encode(o.value, e)|
  {
    hide Utf8, Utf16, DecodeUtf8Char, DecodeUtf16Char;
    if e == Utf8Encoding {
      Utf8Exact(b);
    } else {
      Utf16Exact(b, e);
    }
  }

  lemma {:induction false} EncodeConcat(s: seq<Scalar>, t: seq<Scalar>, e: Encoding)
    ensures EncodeAll(s + t, e) == EncodeAll(s, e) + EncodeAll(t, e)
  {
    hide EncodeAll;
    if t == [] {
      EncodeNothing(e);
      assert s + t == s;
    } else {
      var n := |t| - 1;
      EncodeConcat(s, t[..n], e);
      EncodeLast(s + t, e);
      EncodeLast(t, e);
      assert (s + t)[..|s| + n] == s + t[..n];
    }
  }

  lemma EncodeLast(s: seq<Scalar>, e: Encoding)
    requires s != []
    ensures EncodeAll(s, e) == EncodeAll(s[..|s| - 1], e) + Encode(s[|s| - 1], e)
  {
  }

  lemma EncodeNothing(e: Encoding)
    ensures EncodeAll([], e) == []
  {
  }

  lemma EncodeOne(c: Scalar, e: Encoding)
    ensures EncodeAll([c], e) == Encode(c, e)
  {
    assert [c][..0] == [];
  }

  /** The front of an encoded text that begins with characters already read belongs to the next character. */
  lemma {:induction false} NextOfEncoded(done: seq<Scalar>, rest: seq<Byte>, all: seq<Scalar>, e: Encoding)
    requires AllAllowed(all) && AllAllowed(done) && EncodeAll(all, e) == EncodeAll(done, e) + rest
    ensures |done| <= |all| && done == all[..|done|] && rest == EncodeAll(all[|done|..], e)
    decreases |done|
  {
    hide Encode, Allowed;
    if done == [] {
      assert EncodeAll(done, e) + rest == rest && all[0..] == all;
    } else {
      var n := |done| - 1;
      var c := Encode(done[n], e);
      assert EncodeAll(all, e) == EncodeAll(done[..n], e) + (c + rest);
      NextOfEncoded(done[..n], c + rest, all, e);
      var left := all[n..];
      NotNothing(left, e);
      FrontOfEncoded(left, e);
      FirstIs(left[0], done[n], EncodeAll(left, e), EncodeAll(left[1..], e), rest, e);
      assert all[..n + 1] == all[..n] + [all[n]] && left[1..] == all[n + 1..];
    }
  }

  lemma NotNothing(s: seq<Scalar>, e: Encoding)
    requires EncodeAll(s, e) != []
    ensures s != []
  {
  }

  lemma FrontOfEncoded(s: seq<Scalar>, e: Encoding)
    requires s != []
    ensures EncodeAll(s, e) == Encode(s[0], e) + EncodeAll(s[1..], e)
  {
    EncodeConcat([s[0]], s[1..], e);
    EncodeOne(s[0], e);
    assert [s[0]] + s[1..] == s;
  }

  /** The code is prefix-free. */
  lemma FirstIs(c: Scalar, d: Scalar, b: seq<Byte>, x: seq<Byte>, y: seq<Byte>, e: Encoding)
    requires Allowed(c) && Allowed(d) && b == Encode(c, e) + x == Encode(d, e) + y
    ensures c == d && x == y
  {
    hide Encode, Allowed, DecodeChar;
    CharDecoded(c, b, e);
    CharDecoded(d, b, e);
    assert x == b[|Encode(c, e)|..] && y == b[|Encode(d, e)|..];
  }

  /** In an encoded text nothing that is decoded in order is wrong, and only what is cut off is incomplete. */
  lemma NeverStuck(done: seq<Scalar>, raw: seq<Byte>, more: seq<Byte>, text: seq<Scalar>, e: Encoding)
    requires AllAllowed(text) && AllAllowed(done) && raw != [] && EncodeAll(text, e) == EncodeAll(done, e) + raw + more
    ensures DecodeChar(raw, e) != Bad && (more == [] ==> DecodeChar(raw, e) != Incomplete)
  {
    hide Encode, Allowed, DecodeChar;
    assert EncodeAll(done, e) + raw + more == EncodeAll(done, e) + (raw + more);
    NextOfEncoded(done, raw + more, text, e);
    var left := text[|done|..];
    NotNothing(left, e);
    FrontOfEncoded(left, e);
    var c := Encode(left[0], e);
    assert (raw + more)[..|c|] == c;
    if |c| <= |raw| {
      assert raw[..|c|] == c;
      CharDecoded(left[0], raw, e);
    } else {
      assert raw == c[..|raw|];
      CharCut(left[0], raw, e);
    }
  }

  /** Two bytes of UTF-16 become at most three of UTF-8. */
  lemma Growth(c: Scalar, e: Encoding)
    ensures 2 * |Utf8(c)| <= 3 * |Encode(c, e)|
  {
  }

  lemma {:induction false} EncodeUtf8(s: seq<Scalar>)
    ensures EncodeAll(s, Utf8Encoding) == Utf8All(s)
  {
    if s != [] {
      EncodeUtf8(s[..|s| - 1]);
    }
  }

  // ----- byte order marks

  /** The encoding of a stream, and the length of its byte order mark. */
  function Detect(b: seq<Byte>): (Encoding, nat) {
    if |b| >= 2 && b[0] == 0xFF && b[1] == 0xFE then (Utf16Le, 2)
    else if |b| >= 2 && b[0] == 0xFE && b[1] == 0xFF then (Utf16Be, 2)
    else if |b| >= 3 && b[0] == 0xEF && b[1] == 0xBB && b[2] == 0xBF then (Utf8Encoding, 3)
    else (Utf8Encoding, 0)
  }

  /** Three bytes, or all there are, are enough to tell. */
  lemma DetectEarly(b: seq<Byte>, n: nat)
    requires n <= |b| && (n >= 3 || n == |b|)
    ensures Detect(b[..n]) == Detect(b) && Detect(b).1 <= n
  {
  }

  // ----- the encodings and the marks, byte by byte

  /** The octets of a character in each encoding. */
  lemma EncodeIs(c: Scalar)
    ensures Encode(c, Utf8Encoding) ==
              if c < 0x80 then [c]
              else if c < 0x800 then [0xC0 + c / 64, 0x80 + c % 64]
              else if c < 0x10000 then [0xE0 + c / 4096, 0x80 + c / 64 % 64, 0x80 + c % 64]
              else [0xF0 + c / 0x40000, 0x80 + c / 4096 % 64, 0x80 + c / 64 % 64, 0x80 + c % 64]
    ensures c < 0x10000 ==> Encode(c, Utf16Le) == [c % 256, c / 256] && Encode(c, Utf16Be) == [c / 256, c % 256]
    ensures c >= 0x10000 ==>
              var high, low := 0xD800 + (c - 0x10000) / 0x400, 0xDC00 + (c - 0x10000) % 0x400;
              && Encode(c, Utf16Le) == [high % 256, high / 256, low % 256, low / 256]
              && Encode(c, Utf16Be) == [high / 256, high % 256, low / 256, low % 256]
  {
  }

  /** An encoded text is the octets of its characters, one behind the other. */
  lemma EncodeAllIs(c: Scalar, text: seq<Scalar>, e: Encoding)
    ensures EncodeAll([], e) == [] && EncodeAll([c] + text, e) == Encode(c, e) + EncodeAll(text, e)
  {
    hide Encode;
    FrontOfEncoded([c] + text, e);
    assert ([c] + text)[1..] == text;
  }

  /** The characters that are accepted. */
  lemma AllowedIs(c: Scalar)
    ensures Allowed(c) <==>
              || c == 9 || c == 10 || c == 13 || 32 <= c <= 126 || c == 133 || 160 <= c <= 55295
              || (57344 <= c <= 65533) || 65536 <= c <= 1114111
  {
  }

  lemma DetectedBy(b: seq<Byte>)
    ensures [0xFF, 0xFE] <= b ==> Detect(b) == (Utf16Le, 2)
    ensures [0xFE, 0xFF] <= b ==> Detect(b) == (Utf16Be, 2)
    ensures [0xEF, 0xBB, 0xBF] <= b ==> Detect(b) == (Utf8Encoding, 3)
    ensures !([0xFF, 0xFE] <= b) && !([0xFE, 0xFF] <= b) && !([0xEF, 0xBB, 0xBF] <= b) ==> Detect(b) == (Utf8Encoding, 0)
  {
    assert |b| >= 2 && b[0] == 0xFF && b[1] == 0xFE ==> [0xFF, 0xFE] <= b;
    assert |b| >= 2 && b[0] == 0xFE && b[1] == 0xFF ==> [0xFE, 0xFF] <= b;
    assert |b| >= 3 && b[0] == 0xEF && b[1] == 0xBB && b[2] == 0xBF ==> [0xEF, 0xBB, 0xBF] <= b;
  }
}
