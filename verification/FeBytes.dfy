/** Field elements as 32 little-endian bytes: decoding, and the canonical encoding. */
module FeBytes {
  import opened Basics
  import opened Bits
  import opened Words64
  import opened Fe25519

  function Load64(s: seq<Byte>, i: nat): U64
    requires i + 8 <= |s|
  {
    Load64Fits(s[i..i + 8]);
    OrBytes(s[i..i + 8], 8)
  }

  lemma Load64Fits(s: seq<Byte>)
    requires |s| == 8
    ensures OrBytes(s, 8) == LittleEndian(s) < TWO64
  {
    hide OrBytes, LittleEndian;
    OrBytesIs(s, 8);
    assert s[..8] == s;
    LittleEndianBound(s);
    Pow2Values();
  }

  /** The value of 32 bytes from its four 64-bit words. */
  lemma FourWords(s: seq<Byte>)
    requires |s| == 32
    ensures LittleEndian(s) ==
      Load64(s, 0) + TWO64 * (Load64(s, 8) + TWO64 * (Load64(s, 16) + TWO64 * Load64(s, 24)))
  {
    hide LittleEndian, OrBytes, Pow2;
    Pow2Values();
    var a, b, c, d := s[0..8], s[8..16], s[16..24], s[24..32];
    Load64Fits(a);
    Load64Fits(b);
    Load64Fits(c);
    Load64Fits(d);
    assert s == a + (b + (c + d));
    LittleEndianConcat(a, b + (c + d));
    LittleEndianConcat(b, c + d);
    LittleEndianConcat(c, d);
  }

  /** Splitting four words into limbs of 51 bits; the top bit is dropped. */
  lemma SplitWords(r0: nat, r1: nat, r2: nat, r3: nat)
    requires r0 < TWO64 && r1 < TWO64 && r2 < TWO64 && r3 < TWO64
    ensures Limbs(r0 % TWO51,
                  r0 / TWO51 + 0x2000 * (r1 % 0x40_0000_0000),
                  r1 / 0x40_0000_0000 + 0x400_0000 * (r2 % 0x200_0000),
                  r2 / 0x200_0000 + 0x80_0000_0000 * (r3 % 0x1000),
                  r3 / 0x1000 % TWO51)
         == (r0 + TWO64 * (r1 + TWO64 * (r2 + TWO64 * r3))) % TWO255
  {
    hide Limbs;
    var top := r3 / 0x1000 / TWO51;
    var l1, l2, l3, l4 := r1 % 0x40_0000_0000, r2 % 0x200_0000, r3 % 0x1000, r3 / 0x1000 % TWO51;
    SplitLinear(r0, r1, r2, r3, r0 % TWO51, l1, l2, l3, l4, r0 / TWO51, r1 / 0x40_0000_0000, r2 / 0x200_0000, top);
    LimbsRange(r0 % TWO51, r0 / TWO51 + 0x2000 * l1, r1 / 0x40_0000_0000 + 0x400_0000 * l2,
               r2 / 0x200_0000 + 0x80_0000_0000 * l3, l4);
    DivModIs(r0 + TWO64 * (r1 + TWO64 * (r2 + TWO64 * r3)), TWO255, top,
             Limbs(r0 % TWO51, r0 / TWO51 + 0x2000 * l1, r1 / 0x40_0000_0000 + 0x400_0000 * l2,
                   r2 / 0x200_0000 + 0x80_0000_0000 * l3, l4));
  }

  lemma SplitLinear(r0: nat, r1: nat, r2: nat, r3: nat, l0: nat, l1: nat, l2: nat, l3: nat, l4: nat,
                    h0: nat, h1: nat, h2: nat, top: nat)
    requires r0 == l0 + TWO51 * h0 && r1 == l1 + 0x40_0000_0000 * h1 && r2 == l2 + 0x200_0000 * h2
    requires r3 == l3 + 0x1000 * (l4 + TWO51 * top)
    ensures r0 + TWO64 * (r1 + TWO64 * (r2 + TWO64 * r3))
         == TWO255 * top + Limbs(l0, h0 + 0x2000 * l1, h1 + 0x400_0000 * l2, h2 + 0x80_0000_0000 * l3, l4)
  {
  }

  /** x << k within 64 bits, for m == 2^k. */
  function Shl64(x: U64, m: nat): U64 {
    (x * m) % TWO64
  }

  /** | of a word below 2^k and a multiple of 2^k. */
  lemma OrJoin(lo: nat, z: nat, k: nat, m: nat)
    requires m == Pow2(k) && lo < m
    ensures Or(lo, m * z) == lo + m * z
  {
    AlignedMultiple(z, k);
    OrDisjoint(lo, k, m * z);
  }

  lemma ShiftPowers()
    ensures Pow2(12) == 0x1000 && Pow2(13) == 0x2000 && Pow2(25) == 0x200_0000
    ensures Pow2(26) == 0x400_0000 && Pow2(38) == 0x40_0000_0000 && Pow2(39) == 0x80_0000_0000
    ensures Pow2(51) == TWO51
  {
    hide Pow2;
    Pow2Values();
    Pow2Three();
    Pow2Zero();
    Pow2Add(10, 3);
    Pow2Five(0);
    Pow2Five(5);
    assert Pow2(13) == 2 * Pow2(12) by { Pow2Next(12); }
    Pow2Add(12, 13);
    Pow2Add(13, 13);
    Pow2Add(25, 13);
    Pow2Add(26, 13);
  }

  lemma Pow2Next(k: nat)
    ensures Pow2(k + 1) == 2 * Pow2(k)
  {
  }

  /** fe_frombytes: the 255 low bits, little endian. */
  method FeFromBytes(out: array<U64>, s: seq<Byte>)
    requires out.Length == 5 && |s| == 32
    modifies out
    ensures Below(out, TWO51)
    ensures Val(out) == LittleEndian(s) % TWO255
  {
    hide LittleEndian, Load64, Or, Limbs, Low51, Shl64, Pow2;
    var r0 := Load64(s, 0);
    var r1 := Load64(s, 8);
    var r2 := Load64(s, 16);
    var r3 := Load64(s, 24);
    FourWords(s);
    SplitWords(r0, r1, r2, r3);
    ShiftPowers();
    LimbParts(r0, r1, r2, r3);
    var l0 := Low51(r0);
    var l1 := Low51(Or(r0 / TWO51, Shl64(r1, 0x2000)));
    var l2 := Low51(Or(r1 / 0x40_0000_0000, Shl64(r2, 0x400_0000)));
    var l3 := Low51(Or(r2 / 0x200_0000, Shl64(r3, 0x80_0000_0000)));
    var l4 := Low51(r3 / 0x1000);
    out[0], out[1], out[2], out[3], out[4] := l0, l1, l2, l3, l4;
  }

  lemma LimbParts(r0: U64, r1: U64, r2: U64, r3: U64)
    ensures Or(r0 / TWO51, Shl64(r1, 0x2000)) % TWO51 == r0 / TWO51 + 0x2000 * (r1 % 0x40_0000_0000)
    ensures Or(r1 / 0x40_0000_0000, Shl64(r2, 0x400_0000)) % TWO51
         == r1 / 0x40_0000_0000 + 0x400_0000 * (r2 % 0x200_0000)
    ensures Or(r2 / 0x200_0000, Shl64(r3, 0x80_0000_0000)) % TWO51
         == r2 / 0x200_0000 + 0x80_0000_0000 * (r3 % 0x1000)
  {
    hide Or, Pow2, Shl64;
    ShiftPowers();
    ShlParts(r1, r2, r3);
    OrJoin(r0 / TWO51, r1 % TWO51, 13, 0x2000);
    OrJoin(r1 / 0x40_0000_0000, r2 % 0x40_0000_0000, 26, 0x400_0000);
    OrJoin(r2 / 0x200_0000, r3 % 0x200_0000, 39, 0x80_0000_0000);
    LowPart1(r0 / TWO51, r1);
    LowPart2(r1 / 0x40_0000_0000, r2);
    LowPart3(r2 / 0x200_0000, r3);
  }

  lemma LowPart1(lo: nat, r: nat)
    requires lo < 0x2000
    ensures (lo + 0x2000 * (r % TWO51)) % TWO51 == lo + 0x2000 * (r % 0x40_0000_0000)
  {
    var h := r / 0x40_0000_0000;
    assert r == 0x40_0000_0000 * h + r % 0x40_0000_0000;
    assert r % TWO51 == 0x40_0000_0000 * (h % 0x2000) + r % 0x40_0000_0000;
  }

  lemma LowPart2(lo: nat, r: nat)
    requires lo < 0x400_0000
    ensures (lo + 0x400_0000 * (r % 0x40_0000_0000)) % TWO51 == lo + 0x400_0000 * (r % 0x200_0000)
  {
    var h := r / 0x200_0000;
    assert r == 0x200_0000 * h + r % 0x200_0000;
    assert r % 0x40_0000_0000 == 0x200_0000 * (h % 0x2000) + r % 0x200_0000;
  }

  lemma LowPart3(lo: nat, r: nat)
    requires lo < 0x80_0000_0000
    ensures (lo + 0x80_0000_0000 * (r % 0x200_0000)) % TWO51 == lo + 0x80_0000_0000 * (r % 0x1000)
  {
    var h := r / 0x1000;
    assert r == 0x1000 * h + r % 0x1000;
    assert r % 0x200_0000 == 0x1000 * (h % 0x2000) + r % 0x1000;
  }

  lemma ShlParts(r1: U64, r2: U64, r3: U64)
    ensures Shl64(r1, 0x2000) == 0x2000 * (r1 % TWO51)
    ensures Shl64(r2, 0x400_0000) == 0x400_0000 * (r2 % 0x40_0000_0000)
    ensures Shl64(r3, 0x80_0000_0000) == 0x80_0000_0000 * (r3 % 0x200_0000)
  {
  }

  // ----- encoding

  /** Carry chain with the top carry folded into limb 0, as in fe_tobytes. */
  lemma FoldedCarry(t0: int, t1: int, t2: int, t3: int, t4: int, r0: int, r1: int, r2: int, r3: int, r4: int,
                    c0: int, c1: int, c2: int, c3: int, c4: int)
    requires t0 == r0 + TWO51 * c0 && t1 + c0 == r1 + TWO51 * c1 && t2 + c1 == r2 + TWO51 * c2
    requires t3 + c2 == r3 + TWO51 * c3 && t4 + c3 == r4 + TWO51 * c4
    ensures Limbs(r0 + c4 * 19, r1, r2, r3, r4) == Limbs(t0, t1, t2, t3, t4) - P * c4
  {
  }

  /** A second pass leaves no carry that could overflow limb 0 again. */
  lemma SecondPass(t0: nat, t1: nat, t2: nat, t3: nat, t4: nat, r0: nat, r1: nat, r2: nat, r3: nat, r4: nat,
                   c0: nat, c1: nat, c2: nat, c3: nat, c4: nat)
    requires t0 == r0 + TWO51 * c0 && t1 + c0 == r1 + TWO51 * c1 && t2 + c1 == r2 + TWO51 * c2
    requires t3 + c2 == r3 + TWO51 * c3 && t4 + c3 == r4 + TWO51 * c4
    requires r0 < TWO51 && r1 < TWO51 && r2 < TWO51 && r3 < TWO51 && r4 < TWO51
    requires t0 < TWO51 + 19 * TWO13 && t1 < TWO51 && t2 < TWO51 && t3 < TWO51 && t4 < TWO51
    ensures r0 + c4 * 19 < TWO51
  {
    assert c0 <= 1;
    assert c1 <= c0;
    assert c2 <= c1;
    assert c3 <= c2;
    assert c4 <= c3;
  }

  ghost predicate AlmostReduced(t: array<U64>)
    requires t.Length == 5
    reads t
  {
    t[0] < TWO51 + 19 * TWO13 && t[1] < TWO51 && t[2] < TWO51 && t[3] < TWO51 && t[4] < TWO51
  }

  /** One pass of the carry chain of fe_tobytes. */
  method CarryPass(t: array<U64>)
    requires t.Length == 5 && Below(t, TWO64 - TWO13)
    modifies t
    ensures AlmostReduced(t)
    ensures Field(t) == old(Field(t))
    ensures old(AlmostReduced(t)) ==> t[0] < TWO51
  {
    hide Low51, Limbs;
    var h0, h1, h2, h3, h4 := t[0], t[1], t[2], t[3], t[4];
    var c0: U64, r0 := h0 / TWO51, Low51(h0);
    var u1: U64 := h1 + c0;
    var c1: U64, r1 := u1 / TWO51, Low51(u1);
    var u2: U64 := h2 + c1;
    var c2: U64, r2 := u2 / TWO51, Low51(u2);
    var u3: U64 := h3 + c2;
    var c3: U64, r3 := u3 / TWO51, Low51(u3);
    var u4: U64 := h4 + c3;
    var c4: U64, r4 := u4 / TWO51, Low51(u4);
    HighBits(u4);
    var w0: U64 := r0 + c4 * 19;
    PassFacts(h0, h1, h2, h3, h4, r0, r1, r2, r3, r4, c0, c1, c2, c3, c4);
    t[0], t[1], t[2], t[3], t[4] := w0, r1, r2, r3, r4;
  }

  lemma PassFacts(t0: nat, t1: nat, t2: nat, t3: nat, t4: nat, r0: nat, r1: nat, r2: nat, r3: nat, r4: nat,
                  c0: nat, c1: nat, c2: nat, c3: nat, c4: nat)
    requires t0 == r0 + TWO51 * c0 && t1 + c0 == r1 + TWO51 * c1 && t2 + c1 == r2 + TWO51 * c2
    requires t3 + c2 == r3 + TWO51 * c3 && t4 + c3 == r4 + TWO51 * c4
    requires r0 < TWO51 && r1 < TWO51 && r2 < TWO51 && r3 < TWO51 && r4 < TWO51
    ensures Limbs(r0 + c4 * 19, r1, r2, r3, r4) % P == Limbs(t0, t1, t2, t3, t4) % P
    ensures t0 < TWO51 + 19 * TWO13 && t1 < TWO51 && t2 < TWO51 && t3 < TWO51 && t4 < TWO51
        ==> r0 + c4 * 19 < TWO51
  {
    FoldedCarry(t0, t1, t2, t3, t4, r0, r1, r2, r3, r4, c0, c1, c2, c3, c4);
    var k: int := c4;
    ModUnique(Limbs(r0 + c4 * 19, r1, r2, r3, r4), Limbs(t0, t1, t2, t3, t4), -k);
    if t0 < TWO51 + 19 * TWO13 && t1 < TWO51 && t2 < TWO51 && t3 < TWO51 && t4 < TWO51 {
      SecondPass(t0, t1, t2, t3, t4, r0, r1, r2, r3, r4, c0, c1, c2, c3, c4);
    }
  }

  function Not64(x: U64): U64 {
    TWO64 - 1 - x
  }

  /** (t & mask) | (d & ~mask) with mask = ~b + 1. */
  function Select(b: nat, t: U64, d: U64): (r: nat)
    requires b <= 1
    ensures r == if b == 1 then t else d
  {
    MaskSelects(b, t);
    MaskSelects(1 - b, d);
    assert Or(0, d) == d && Or(t, 0) == t;
    Or(And(t, MaskOf(b)), And(d, Not64(MaskOf(b))))
  }

  /** Subtracting P by adding 19 and dropping bit 255; bit 63 of the top limb tells whether it was too much. */
  lemma SubtractP(t0: nat, t1: nat, t2: nat, t3: nat, t4: nat, d0: nat, d1: nat, d2: nat, d3: nat,
                  c0: nat, c1: nat, c2: nat, c3: nat)
    requires t0 < TWO51 && t1 < TWO51 && t2 < TWO51 && t3 < TWO51 && t4 < TWO51
    requires d0 < TWO51 && d1 < TWO51 && d2 < TWO51 && d3 < TWO51
    requires t0 + 19 == d0 + TWO51 * c0 && t1 + c0 == d1 + TWO51 * c1 && t2 + c1 == d2 + TWO51 * c2
    requires t3 + c2 == d3 + TWO51 * c3
    ensures t4 + c3 < TWO51 <==> Limbs(t0, t1, t2, t3, t4) < P
    ensures Limbs(d0, d1, d2, d3, t4 + c3 - TWO51) == Limbs(t0, t1, t2, t3, t4) - P
    ensures t4 + c3 <= TWO51
  {
  }

  /** Packing five limbs of 51 bits into four words. */
  lemma JoinLimbs(t0: nat, t1: nat, t2: nat, t3: nat, t4: nat)
    requires t0 < TWO51 && t1 < TWO51 && t2 < TWO51 && t3 < TWO51 && t4 < TWO51
    ensures Limbs(t0, t1, t2, t3, t4)
      == (t0 + TWO51 * (t1 % 0x2000)) + TWO64 * ((t1 / 0x2000 + 0x40_0000_0000 * (t2 % 0x400_0000))
       + TWO64 * ((t2 / 0x400_0000 + 0x200_0000 * (t3 % 0x80_0000_0000))
       + TWO64 * (t3 / 0x80_0000_0000 + 0x1000 * t4)))
  {
  }

  lemma WordParts(t0: U64, t1: U64, t2: U64, t3: U64, t4: U64)
    requires t0 < TWO51 && t1 < TWO51 && t2 < TWO51 && t3 < TWO51 && t4 < TWO51
    ensures Or(t0, Shl64(t1, TWO51)) == t0 + TWO51 * (t1 % 0x2000)
    ensures Or(t1 / 0x2000, Shl64(t2, 0x40_0000_0000)) == t1 / 0x2000 + 0x40_0000_0000 * (t2 % 0x400_0000)
    ensures Or(t2 / 0x400_0000, Shl64(t3, 0x200_0000)) == t2 / 0x400_0000 + 0x200_0000 * (t3 % 0x80_0000_0000)
    ensures Or(t3 / 0x80_0000_0000, Shl64(t4, 0x1000)) == t3 / 0x80_0000_0000 + 0x1000 * t4
  {
    hide Or, Pow2, Shl64;
    ShiftPowers();
    ShlWords(t1, t2, t3, t4);
    OrJoin(t0, t1 % 0x2000, 51, TWO51);
    OrJoin(t1 / 0x2000, t2 % 0x400_0000, 38, 0x40_0000_0000);
    OrJoin(t2 / 0x400_0000, t3 % 0x80_0000_0000, 25, 0x200_0000);
    OrJoin(t3 / 0x80_0000_0000, t4, 12, 0x1000);
  }

  lemma ShlWords(t1: U64, t2: U64, t3: U64, t4: U64)
    requires t4 < TWO51
    ensures Shl64(t1, TWO51) == TWO51 * (t1 % 0x2000)
    ensures Shl64(t2, 0x40_0000_0000) == 0x40_0000_0000 * (t2 % 0x400_0000)
    ensures Shl64(t3, 0x200_0000) == 0x200_0000 * (t3 % 0x80_0000_0000)
    ensures Shl64(t4, 0x1000) == 0x1000 * t4
  {
  }

  /** store64_le: the n low bytes, lowest first. */
  function StoreBytes(v: nat, n: nat): (r: seq<Byte>)
    ensures |r| == n
  {
    if n == 0 then [] else [v % 256] + StoreBytes(v / 256, n - 1)
  }

  lemma {:induction false} StoredValue(v: nat, n: nat)
    requires v < Pow2(8 * n)
    ensures LittleEndian(StoreBytes(v, n)) == v
  {
    if n > 0 {
      Pow2Add(8, 8 * (n - 1));
      Pow2Eight();
      StoredValue(v / 256, n - 1);
      assert StoreBytes(v, n)[1..] == StoreBytes(v / 256, n - 1);
    } else {
      assert Pow2(0) == 1;
    }
  }

  lemma FourStored(r0: U64, r1: U64, r2: U64, r3: U64)
    ensures LittleEndian(StoreBytes(r0, 8) + (StoreBytes(r1, 8) + (StoreBytes(r2, 8) + StoreBytes(r3, 8))))
      == r0 + TWO64 * (r1 + TWO64 * (r2 + TWO64 * r3))
  {
    hide LittleEndian, StoreBytes, Pow2;
    Pow2Values();
    StoredValue(r0, 8);
    StoredValue(r1, 8);
    StoredValue(r2, 8);
    StoredValue(r3, 8);
    var a, b, c, d := StoreBytes(r0, 8), StoreBytes(r1, 8), StoreBytes(r2, 8), StoreBytes(r3, 8);
    LittleEndianConcat(a, b + (c + d));
    LittleEndianConcat(b, c + d);
    LittleEndianConcat(c, d);
  }

  /** fe_tobytes: the one representative below P. */
  method FeToBytes(h: array<U64>) returns (s: seq<Byte>)
    requires h.Length == 5 && Below(h, TWO64 - TWO13)
    ensures |s| == 32
    ensures LittleEndian(s) == Field(h) < P
  {
    hide Limbs, LittleEndian, Or, Shl64, Select, StoreBytes, Low51;
    var t := new U64[5](_ => 0);
    FeCopy(t, h);
    CarryPass(t);
    CarryPass(t);
    s := EncodeReduced(t);
  }

  method EncodeReduced(t: array<U64>) returns (s: seq<Byte>)
    requires t.Length == 5 && Below(t, TWO51)
    ensures |s| == 32
    ensures LittleEndian(s) == Field(t) < P
  {
    hide LittleEndian, Or, Shl64, Select, StoreBytes, Low51, Limbs;
    var u0: U64 := t[0] + 19;
    var c0: U64, d0 := u0 / TWO51, Low51(u0);
    var u1: U64 := t[1] + c0;
    var c1: U64, d1 := u1 / TWO51, Low51(u1);
    var u2: U64 := t[2] + c1;
    var c2: U64, d2 := u2 / TWO51, Low51(u2);
    var u3: U64 := t[3] + c2;
    var c3: U64, d3 := u3 / TWO51, Low51(u3);
    var d4: U64 := (t[4] + c3 + TWO64 - TWO51) % TWO64;
    SubtractP(t[0], t[1], t[2], t[3], t[4], d0, d1, d2, d3, c0, c1, c2, c3);
    var b := d4 / 0x8000_0000_0000_0000;
    assert b == if t[4] + c3 < TWO51 then 1 else 0;
    var s0, s1, s2, s3, s4 := Select(b, t[0], d0), Select(b, t[1], d1), Select(b, t[2], d2),
                              Select(b, t[3], d3), Select(b, t[4], d4);
    LimbsRange(t[0], t[1], t[2], t[3], t[4]);
    LimbsRange(s0, s1, s2, s3, s4);
    FieldIs(Val(t), Limbs(s0, s1, s2, s3, s4));
    s := Pack(s0, s1, s2, s3, s4);
  }

  /** 5 limbs of 51 bits as 4 words of 64 bits, in bytes. */
  function Pack(t0: U64, t1: U64, t2: U64, t3: U64, t4: U64): (s: seq<Byte>)
    requires t0 < TWO51 && t1 < TWO51 && t2 < TWO51 && t3 < TWO51 && t4 < TWO51
    ensures |s| == 32 && LittleEndian(s) == Limbs(t0, t1, t2, t3, t4)
  {
    hide LittleEndian, Or, Shl64, StoreBytes, Limbs;
    WordParts(t0, t1, t2, t3, t4);
    JoinLimbs(t0, t1, t2, t3, t4);
    var r0: U64 := Or(t0, Shl64(t1, TWO51));
    var r1: U64 := Or(t1 / 0x2000, Shl64(t2, 0x40_0000_0000));
    var r2: U64 := Or(t2 / 0x400_0000, Shl64(t3, 0x200_0000));
    var r3: U64 := Or(t3 / 0x80_0000_0000, Shl64(t4, 0x1000));
    FourStored(r0, r1, r2, r3);
    StoreBytes(r0, 8) + (StoreBytes(r1, 8) + (StoreBytes(r2, 8) + StoreBytes(r3, 8)))
  }

  lemma LimbsRange(t0: nat, t1: nat, t2: nat, t3: nat, t4: nat)
    requires t0 < TWO51 && t1 < TWO51 && t2 < TWO51 && t3 < TWO51 && t4 < TWO51
    ensures 0 <= Limbs(t0, t1, t2, t3, t4) < TWO255
  {
  }

  lemma FieldIs(v: int, w: int)
    ensures 0 <= w < P && (w == v || w == v - P) ==> v % P == w
  {
  }

  lemma {:induction false} LittleEndianInjective(a: seq<Byte>, b: seq<Byte>)
    requires |a| == |b| && LittleEndian(a) == LittleEndian(b)
    ensures a == b
  {
    if a != [] {
      assert LittleEndian(a) % 256 == a[0] && LittleEndian(b) % 256 == b[0];
      LittleEndianInjective(a[1..], b[1..]);
      assert a == [a[0]] + a[1..] && b == [b[0]] + b[1..];
    }
  }

  lemma RecodeIff(n: nat)
    ensures n % TWO255 % P == n <==> n < P
  {
  }

  /** Decoding and encoding again: the identity exactly on canonical strings. */
  method Recode(s: seq<Byte>) returns (r: seq<Byte>)
    requires |s| == 32
    ensures |r| == 32 && LittleEndian(r) == LittleEndian(s) % TWO255 % P
    ensures r == s <==> LittleEndian(s) < P
  {
    hide LittleEndian, Limbs;
    var x := new U64[5](_ => 0);
    FeFromBytes(x, s);
    r := FeToBytes(x);
    RecodeIff(LittleEndian(s));
    if LittleEndian(r) == LittleEndian(s) {
      LittleEndianInjective(r, s);
    }
  }

  /** Encoding and decoding again: the same field element, now as the representative below P. */
  method Relimb(h: array<U64>, out: array<U64>)
    requires h.Length == 5 && out.Length == 5 && Below(h, TWO64 - TWO13)
    modifies out
    ensures Below(out, TWO51) && Val(out) == old(Field(h)) && Field(out) == old(Field(h)) < P
  {
    var s := FeToBytes(h);
    FeFromBytes(out, s);
    CanonicalFits(LittleEndian(s));
  }

  lemma CanonicalFits(n: nat)
    requires n < P
    ensures n % TWO255 == n && n % P == n
  {
  }
}
