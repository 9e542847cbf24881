/** The scalar multiplication loop, with its delayed swaps, against the ladder of RFC 7748. */
module Ladder25519 {
  import opened Basics
  import opened Bits
  import opened Words64
  import opened Fe25519
  import opened FeBytes
  import opened X25519

  // ----- section 5 of RFC 7748, over integers mod P

  datatype Rungs = Rungs(x2: nat, z2: nat, x3: nat, z3: nat)

  ghost function CSwap(b: nat, s: Rungs): Rungs {
    if b == 1 then Rungs(s.x3, s.z3, s.x2, s.z2) else s
  }

  ghost function LadderStep(x1: nat, s: Rungs): Rungs {
    var a := FAdd(s.x2, s.z2);
    var aa := FMul(a, a);
    var b := FSub(s.x2, s.z2);
    var bb := FMul(b, b);
    var e := FSub(aa, bb);
    var c := FAdd(s.x3, s.z3);
    var d := FSub(s.x3, s.z3);
    var da := FMul(d, a);
    var cb := FMul(c, b);
    Rungs(FMul(aa, bb), FMul(e, FAdd(aa, FMul(A24, e))),
          FMul(FAdd(da, cb), FAdd(da, cb)), FMul(x1, FMul(FSub(da, cb), FSub(da, cb))))
  }

  /** (k >> t) & 1 */
  function Bit(k: nat, t: nat): (r: nat)
    ensures r <= 1
  {
    if t == 0 then k % 2 else Bit(k / 2, t - 1)
  }

  /** The ladder after bits 254 down to t, swapping before and back after each step. */
  ghost function Ladder(k: nat, x1: nat, t: nat): Rungs
    requires t <= 255
    decreases 255 - t
  {
    if t == 255 then Rungs(1, 0, x1, 1)
    else
      var b := Bit(k, t);
      CSwap(b, LadderStep(x1, CSwap(b, Ladder(k, x1, t + 1))))
  }

  ghost function ScalarMult(k: nat, u: nat): nat {
    var s := Ladder(k, u % P, 0);
    FMul(s.x2, Power(s.z2, P - 2))
  }

  /** decodeScalar25519: clear the three low bits and the top bit, set bit 254. */
  function Clamp(s: seq<Byte>): (r: seq<Byte>)
    requires |s| == 32
    ensures |r| == 32
  {
    ClampFits(s[0], s[31]);
    s[0 := And(s[0], 248)][31 := Or(And(s[31], 127), 64)]
  }

  lemma ClampFits(a: Byte, b: Byte)
    ensures And(a, 248) < 256 && Or(And(b, 127), 64) < 256
  {
    Pow2Eight();
    AndBelow(a, 248, 8);
    AndBelow(b, 127, 8);
    OrBelow(And(b, 127), 64, 8);
  }

  lemma ClampLow(a: Byte)
    ensures And(a, 248) % 8 == 0
  {
    hide And;
    AndStep(a, 248);
    AndStep(a / 2, 124);
    AndStep(a / 4, 62);
  }

  lemma ClampTop(b: Byte)
    ensures 64 <= Or(And(b, 127), 64) < 128
  {
    hide And, Or, Pow2;
    SmallSeven();
    AndMask(b, 7);
    OrBelow(And(b, 127), 64, 7);
    OrAtLeast(And(b, 127), 64);
  }

  lemma SmallSeven()
    ensures Pow2(7) == 128
  {
    Pow2Five(2);
    assert Pow2(2) == 4;
  }

  lemma {:induction false} OrAtLeast(x: nat, y: nat)
    ensures Or(x, y) >= y
    decreases y
  {
    if x > 0 && y > 0 {
      OrAtLeast(x / 2, y / 2);
    }
  }

  /** A decoded scalar is 2^254 plus a multiple of eight below 2^254. */
  lemma ClampedForm(s: seq<Byte>)
    requires |s| == 32
    ensures LittleEndian(Clamp(s)) % 8 == 0
    ensures Pow2(254) <= LittleEndian(Clamp(s)) < Pow2(255)
  {
    hide LittleEndian, Pow2, Or, And;
    var c := Clamp(s);
    ClampLow(s[0]);
    ClampTop(s[31]);
    var low, top := c[..31], c[31];
    assert c == low + [top];
    LittleEndianConcat(low, [top]);
    LittleEndianOne(top);
    LittleEndianBound(low);
    LittleEndianHead(c);
    Pow2Five(248);
    Pow2Next(253);
    Pow2Next(254);
    assert 64 * Pow2(248) == Pow2(254);
    TopByte(LittleEndian(low), Pow2(248), top);
  }

  lemma TopByte(low: nat, p: nat, top: nat)
    requires low < p && 64 <= top < 128
    ensures 64 * p <= low + p * top < 128 * p
  {
    assert p * 64 <= p * top <= p * 127;
  }

  lemma LittleEndianHead(s: seq<Byte>)
    requires s != []
    ensures LittleEndian(s) % 8 == s[0] % 8
  {
    var r := LittleEndian(s[1..]);
    assert s[0] + 256 * r == s[0] + 8 * (32 * r);
  }

  // ----- bits of a little-endian number

  /** Adding a multiple of a higher power of two does not change a bit. */
  lemma {:induction false} BitBelow(x: nat, z: nat, t: nat, m: nat)
    requires t < m && Aligned(z, m)
    ensures Bit(x + z, t) == Bit(x, t)
  {
    if t > 0 {
      assert (x + z) / 2 == x / 2 + z / 2;
      BitBelow(x / 2, z / 2, t - 1, m - 1);
    }
  }

  lemma ByteAligned(y: nat)
    ensures Aligned(256 * y, 8)
  {
    hide Aligned;
    AlignedZeroBits(y);
    AlignedDouble(y, 0);
    AlignedDouble(2 * y, 1);
    AlignedDouble(4 * y, 2);
    AlignedDouble(8 * y, 3);
    AlignedDouble(16 * y, 4);
    AlignedDouble(32 * y, 5);
    AlignedDouble(64 * y, 6);
    AlignedDouble(128 * y, 7);
  }

  lemma AlignedZeroBits(y: nat)
    ensures Aligned(y, 0)
  {
  }

  lemma BitNext(n: nat, t: nat)
    ensures Bit(n, t + 1) == Bit(n / 2, t)
  {
  }

  lemma BitAbove(x: Byte, y: nat, t: nat)
    ensures Bit(x + 256 * y, t + 8) == Bit(y, t)
  {
    hide Bit;
    BitNext(x + 256 * y, t + 7);
    BitNext(x / 2 + 128 * y, t + 6);
    BitNext(x / 4 + 64 * y, t + 5);
    BitNext(x / 8 + 32 * y, t + 4);
    BitNext(x / 16 + 16 * y, t + 3);
    BitNext(x / 32 + 8 * y, t + 2);
    BitNext(x / 64 + 4 * y, t + 1);
    BitNext(x / 128 + 2 * y, t);
  }

  /** Bit t of the number is bit t % 8 of byte t / 8. */
  lemma {:induction false} BitOfBytes(s: seq<Byte>, t: nat)
    requires t < 8 * |s|
    ensures Bit(LittleEndian(s), t) == Bit(s[t / 8], t % 8)
  {
    hide Bit;
    var rest := LittleEndian(s[1..]);
    if t >= 8 {
      BitAbove(s[0], rest, t - 8);
      BitOfBytes(s[1..], t - 8);
    } else {
      ByteAligned(rest);
      BitBelow(s[0], 256 * rest, t, 8);
    }
  }

  // ----- the loop

  ghost predicate Apart(x2: array<U64>, z2: array<U64>, x3: array<U64>, z3: array<U64>) {
    && x2.Length == 5 && z2.Length == 5 && x3.Length == 5 && z3.Length == 5
    && x2 != z2 && x2 != x3 && x2 != z3 && z2 != x3 && z2 != z3 && x3 != z3
  }

  ghost function State(x2: array<U64>, z2: array<U64>, x3: array<U64>, z3: array<U64>): Rungs
    requires Apart(x2, z2, x3, z3)
    reads x2, z2, x3, z3
  {
    Rungs(Field(x2), Field(z2), Field(x3), Field(z3))
  }

  ghost predicate AllTight(x2: array<U64>, z2: array<U64>, x3: array<U64>, z3: array<U64>)
    requires Apart(x2, z2, x3, z3)
    reads x2, z2, x3, z3
  {
    Tight(x2) && Tight(z2) && Tight(x3) && Tight(z3)
  }

  /** x ^= mask & (x ^ y) and y ^= mask & (x ^ y), on one limb. */
  function MaskedXor(swap: nat, x: U64, y: U64): (r: (U64, U64))
    requires swap <= 1
    ensures r == if swap == 1 then (y, x) else (x, y)
  {
    Pow2Values();
    XorBelow(x, y, 64);
    MaskSelects(swap, Xor(x, y));
    XorCancels(x, y);
    XorZero(x);
    XorZero(y);
    var t := And(MaskOf(swap), Xor(x, y));
    (Xor(x, t), Xor(y, t))
  }

  /** The conditional swap loop over the five limbs. */
  method ConditionalSwap(x2: array<U64>, z2: array<U64>, x3: array<U64>, z3: array<U64>, swap: nat)
    requires Apart(x2, z2, x3, z3) && swap <= 1 && AllTight(x2, z2, x3, z3)
    modifies x2, z2, x3, z3
    ensures AllTight(x2, z2, x3, z3)
    ensures State(x2, z2, x3, z3) == CSwap(swap, old(State(x2, z2, x3, z3)))
  {
    hide MaskedXor, Limbs;
    var j := 0;
    while j < 5
      invariant 0 <= j <= 5
      invariant forall i | 0 <= i < 5 :: swap == 0 || i >= j ==>
        x2[i] == old(x2[i]) && x3[i] == old(x3[i]) && z2[i] == old(z2[i]) && z3[i] == old(z3[i])
      invariant forall i | 0 <= i < j :: swap == 1 ==>
        x2[i] == old(x3[i]) && x3[i] == old(x2[i]) && z2[i] == old(z3[i]) && z3[i] == old(z2[i])
    {
      var p := MaskedXor(swap, x2[j], x3[j]);
      x2[j], x3[j] := p.0, p.1;
      var q := MaskedXor(swap, z2[j], z3[j]);
      z2[j], z3[j] := q.0, q.1;
      j := j + 1;
    }
  }

  /** A, AA, B, BB and E of the step. */
  method StepLeft(a: array<U64>, aa: array<U64>, b: array<U64>, bb: array<U64>, e: array<U64>,
                  x2: array<U64>, z2: array<U64>)
    requires a.Length == 5 && aa.Length == 5 && b.Length == 5 && bb.Length == 5 && e.Length == 5
    requires x2.Length == 5 && z2.Length == 5 && Tight(x2) && Tight(z2)
    requires a != aa && a != b && a != bb && a != e && aa != b && aa != bb && aa != e && b != bb && b != e && bb != e
    requires x2 != a && x2 != aa && z2 != a && z2 != aa
    modifies a, aa, b, bb, e
    ensures Below(a, TWO54) && Tight(aa) && Below(b, TWO54) && Tight(bb) && Below(e, TWO54)
    ensures Field(a) == FAdd(old(Field(x2)), old(Field(z2))) && Field(aa) == FMul(Field(a), Field(a))
    ensures Field(b) == FSub(old(Field(x2)), old(Field(z2))) && Field(bb) == FMul(Field(b), Field(b))
    ensures Field(e) == FSub(Field(aa), Field(bb))
  {
    hide Limbs, FAdd, FSub, FMul, Field, Below;
    FeAdd(a, x2, z2);
    Wide(a);
    FeSq(aa, a);
    FeSub(b, x2, z2);
    FeSq(bb, b);
    FeSub(e, aa, bb);
  }

  /** DA and CB of the step. */
  method StepCross(da: array<U64>, cb: array<U64>, a: array<U64>, b: array<U64>, x3: array<U64>, z3: array<U64>)
    requires da.Length == 5 && cb.Length == 5 && a.Length == 5 && b.Length == 5 && x3.Length == 5 && z3.Length == 5
    requires da != cb && da != b && Below(a, TWO54) && Below(b, TWO54) && Tight(x3) && Tight(z3)
    modifies da, cb
    ensures Tight(da) && Tight(cb)
    ensures Field(da) == FMul(FSub(old(Field(x3)), old(Field(z3))), old(Field(a)))
    ensures Field(cb) == FMul(FAdd(old(Field(x3)), old(Field(z3))), old(Field(b)))
  {
    hide Limbs, FAdd, FSub, FMul, Field, Below;
    var c := new U64[5](_ => 0);
    var d := new U64[5](_ => 0);
    FeAdd(c, x3, z3);
    Wide(c);
    FeSub(d, x3, z3);
    FeMul(da, d, a);
    FeMul(cb, c, b);
  }

  /** The new x3 and z3. */
  method StepSum(x3: array<U64>, z3: array<U64>, da: array<U64>, cb: array<U64>, x1: array<U64>)
    requires x3.Length == 5 && z3.Length == 5 && da.Length == 5 && cb.Length == 5 && x1.Length == 5
    requires x3 != z3 && x3 != da && x3 != cb && x3 != x1 && Tight(da) && Tight(cb) && Tight(x1)
    modifies x3, z3
    ensures Tight(x3) && Tight(z3)
    ensures var s := FAdd(old(Field(da)), old(Field(cb))); Field(x3) == FMul(s, s)
    ensures var t := FSub(old(Field(da)), old(Field(cb))); Field(z3) == FMul(old(Field(x1)), FMul(t, t))
  {
    hide Limbs, FAdd, FSub, FMul, Field, Below;
    var tmp0 := new U64[5](_ => 0);
    var tmp1 := new U64[5](_ => 0);
    FeAdd(tmp0, da, cb);
    Wide(tmp0);
    FeSq(x3, tmp0);
    FeSub(tmp1, da, cb);
    FeSq(tmp1, tmp1);
    Wide(tmp1);
    Wide(x1);
    Commute(Field(tmp1), Field(x1));
    FeMul(z3, tmp1, x1);
  }

  /** The new x2 and z2. */
  method StepDouble(x2: array<U64>, z2: array<U64>, aa: array<U64>, bb: array<U64>, e: array<U64>)
    requires x2.Length == 5 && z2.Length == 5 && aa.Length == 5 && bb.Length == 5 && e.Length == 5
    requires x2 != z2 && x2 != aa && x2 != e && Tight(aa) && Tight(bb) && Below(e, TWO54)
    modifies x2, z2
    ensures Tight(x2) && Tight(z2)
    ensures Field(x2) == FMul(old(Field(aa)), old(Field(bb)))
    ensures Field(z2) == FMul(old(Field(e)), FAdd(old(Field(aa)), FMul(A24, old(Field(e)))))
  {
    hide Limbs, FAdd, FSub, FMul, Field, Below;
    var tmp0 := new U64[5](_ => 0);
    Wide(aa);
    Wide(bb);
    FeMul(x2, aa, bb);
    FeMulA24(tmp0, e);
    CommuteAdd(Field(tmp0), Field(aa));
    FeAdd(tmp0, tmp0, aa);
    Wide(tmp0);
    FeMul(z2, e, tmp0);
  }

  /** One step of the Montgomery ladder, as in the loop body. */
  method MontgomeryStep(x1: array<U64>, x2: array<U64>, z2: array<U64>, x3: array<U64>, z3: array<U64>)
    requires Apart(x2, z2, x3, z3) && x1.Length == 5 && x1 != x2 && x1 != z2 && x1 != x3 && x1 != z3
    requires Tight(x1) && AllTight(x2, z2, x3, z3)
    modifies x2, z2, x3, z3
    ensures AllTight(x2, z2, x3, z3)
    ensures State(x2, z2, x3, z3) == LadderStep(Field(x1), old(State(x2, z2, x3, z3)))
  {
    hide Limbs, FAdd, FSub, FMul, Field, Below;
    var a := new U64[5](_ => 0);
    var aa := new U64[5](_ => 0);
    var b := new U64[5](_ => 0);
    var bb := new U64[5](_ => 0);
    var e := new U64[5](_ => 0);
    var da := new U64[5](_ => 0);
    var cb := new U64[5](_ => 0);
    StepLeft(a, aa, b, bb, e, x2, z2);
    ghost var faa, fbb, fe := Field(aa), Field(bb), Field(e);
    StepCross(da, cb, a, b, x3, z3);
    ghost var fda, fcb := Field(da), Field(cb);
    assert Field(aa) == faa && Field(bb) == fbb && Field(e) == fe;
    StepSum(x3, z3, da, cb, x1);
    assert Field(aa) == faa && Field(bb) == fbb && Field(e) == fe;
    StepDouble(x2, z2, aa, bb, e);
  }

  lemma Wide(a: array<U64>)
    requires a.Length == 5
    ensures Tight(a) ==> Below(a, TWO54)
    ensures Below(a, 2 * TIGHT) ==> Below(a, TWO54)
  {
  }

  lemma Commute(x: int, y: int)
    ensures FMul(x, y) == FMul(y, x)
  {
  }

  lemma CommuteAdd(x: int, y: int)
    ensures FAdd(x, y) == FAdd(y, x)
  {
  }

  lemma SwapTwice(a: nat, b: nat, s: Rungs)
    requires a <= 1 && b <= 1
    ensures CSwap(Xor(a, b), CSwap(a, s)) == CSwap(b, s) && Xor(a, b) <= 1
  {
  }

  /** The loop over the bits of the clamped scalar, highest first, with delayed swaps. */
  method RunLadder(bytes: seq<Byte>, x1: array<U64>, x2: array<U64>, z2: array<U64>, x3: array<U64>, z3: array<U64>)
    requires |bytes| == 32
    requires Apart(x2, z2, x3, z3) && x1.Length == 5 && x1 != x2 && x1 != z2 && x1 != x3 && x1 != z3
    requires Tight(x1) && AllTight(x2, z2, x3, z3)
    requires State(x2, z2, x3, z3) == Rungs(1, 0, Field(x1), 1)
    modifies x2, z2, x3, z3
    ensures AllTight(x2, z2, x3, z3)
    ensures State(x2, z2, x3, z3) == Ladder(LittleEndian(bytes), Field(x1), 0)
  {
    hide Field, Pow2, LittleEndian, LadderStep, Below, Ladder, Xor, Bit;
    ghost var k, u := LittleEndian(bytes), Field(x1);
    LadderStart(k, u);
    var swap: nat := 0;
    var pos := 255;
    while pos > 0
      invariant 0 <= pos <= 255 && swap <= 1
      invariant AllTight(x2, z2, x3, z3)
      invariant State(x2, z2, x3, z3) == CSwap(swap, Ladder(k, u, pos))
    {
      pos := pos - 1;
      var b := Bit(bytes[pos / 8], pos % 8);
      BitOfBytes(bytes, pos);
      SwapTwice(swap, b, Ladder(k, u, pos + 1));
      LadderNext(k, u, pos);
      swap := Xor(swap, b);
      ConditionalSwap(x2, z2, x3, z3, swap);
      swap := b;
      MontgomeryStep(x1, x2, z2, x3, z3);
      SwappedBack(b, State(x2, z2, x3, z3));
      SwappedBack(b, Ladder(k, u, pos));
    }
    SwappedBack(swap, Ladder(k, u, 0));
    ConditionalSwap(x2, z2, x3, z3, swap);
  }

  /** x2 * z2^(P - 2), encoded. */
  method Quotient(x2: array<U64>, z2: array<U64>) returns (out: seq<Byte>)
    requires x2.Length == 5 && z2.Length == 5 && Tight(x2) && Tight(z2)
    ensures |out| == 32
    ensures LittleEndian(out) == FMul(Field(x2), Power(Field(z2), P - 2))
  {
    hide Limbs, FMul, Power, LittleEndian, Below, Field, Tight;
    FieldDef(z2);
    var tmp0 := new U64[5](_ => 0);
    var tmp1 := new U64[5](_ => 0);
    Wide(x2);
    Wide(z2);
    FeInvert(tmp0, z2);
    Wide(tmp0);
    InverseOfField(Val(z2));
    FeMul(tmp1, x2, tmp0);
    TightEncodes(tmp1);
    out := FeToBytes(tmp1);
  }

  /** x2 = 1, z2 = 0, x3 = x1, z3 = 1 */
  method InitLadder(x1: array<U64>) returns (x2: array<U64>, z2: array<U64>, x3: array<U64>, z3: array<U64>)
    requires x1.Length == 5 && Tight(x1)
    ensures fresh(x2) && fresh(z2) && fresh(x3) && fresh(z3) && Apart(x2, z2, x3, z3)
    ensures AllTight(x2, z2, x3, z3)
    ensures State(x2, z2, x3, z3) == Rungs(1, 0, Field(x1), 1)
  {
    hide Limbs, Field, Tight, Below;
    x2 := new U64[5](_ => 0);
    x2[0] := 1;
    SmallConstant(x2, 1);
    z2 := new U64[5](_ => 0);
    SmallConstant(z2, 0);
    x3 := new U64[5](_ => 0);
    FeCopy(x3, x1);
    z3 := new U64[5](_ => 0);
    z3[0] := 1;
    SmallConstant(z3, 1);
  }

  /** x25519_scalarmult */
  method X25519ScalarMult(scalar: seq<Byte>, point: seq<Byte>) returns (out: seq<Byte>)
    requires |scalar| == 32 && |point| == 32
    ensures |out| == 32
    ensures LittleEndian(out) == ScalarMult(LittleEndian(Clamp(scalar)), LittleEndian(point) % TWO255)
  {
    hide Limbs, FMul, Power, LittleEndian, Clamp, Below, Ladder, Field, Tight;
    var bytes := Clamp(scalar);
    var x1 := new U64[5](_ => 0);
    FeFromBytes(x1, point);
    InputTight(x1);
    FieldDef(x1);
    var x2, z2, x3, z3 := InitLadder(x1);
    RunLadder(bytes, x1, x2, z2, x3, z3);
    out := Quotient(x2, z2);
  }

  /** x25519_key_agreement: 0, or -1 when the shared secret came out all zero. */
  method KeyAgreement(privateKey: seq<Byte>, peerPublicKey: seq<Byte>) returns (sharedSecret: seq<Byte>, result: int)
    requires |privateKey| == 32 && |peerPublicKey| == 32
    ensures |sharedSecret| == 32
    ensures LittleEndian(sharedSecret)
         == ScalarMult(LittleEndian(Clamp(privateKey)), LittleEndian(peerPublicKey) % TWO255)
    ensures result == if LittleEndian(sharedSecret) == 0 then -1 else 0
  {
    hide ScalarMult, Clamp, Or;
    sharedSecret := X25519ScalarMult(privateKey, peerPublicKey);
    var zero := 0;
    var i := 0;
    while i < 32
      invariant 0 <= i <= 32
      invariant zero == 0 <==> forall k | 0 <= k < i :: sharedSecret[k] == 0
    {
      OrZeroIff(zero, sharedSecret[i]);
      zero := Or(zero, sharedSecret[i]);
      i := i + 1;
    }
    ZeroBytes(sharedSecret);
    result := if zero != 0 then 0 else -1;
  }

  lemma OrZeroIff(x: nat, y: nat)
    ensures Or(x, y) == 0 <==> x == 0 && y == 0
  {
    OrAtLeast(x, y);
    if y == 0 {
      assert Or(x, 0) == x;
    }
  }

  lemma {:induction false} ZeroBytes(s: seq<Byte>)
    ensures LittleEndian(s) == 0 <==> forall k | 0 <= k < |s| :: s[k] == 0
  {
    if s != [] {
      ZeroBytes(s[1..]);
      if forall k | 0 <= k < |s| - 1 :: s[1..][k] == 0 {
        assert forall k | 1 <= k < |s| :: s[k] == s[1..][k - 1];
      }
    }
  }

  lemma LadderStart(k: nat, u: nat)
    ensures Ladder(k, u, 255) == Rungs(1, 0, u, 1)
  {
  }

  lemma LadderNext(k: nat, u: nat, t: nat)
    requires t < 255
    ensures CSwap(Bit(k, t), Ladder(k, u, t)) == LadderStep(u, CSwap(Bit(k, t), Ladder(k, u, t + 1)))
  {
  }

  lemma SwappedBack(b: nat, s: Rungs)
    ensures CSwap(b, CSwap(b, s)) == s
  {
  }

  lemma InputTight(a: array<U64>)
    requires a.Length == 5
    ensures Below(a, TWO51) ==> Tight(a)
  {
  }

  lemma SmallConstant(a: array<U64>, c: nat)
    requires a.Length == 5 && c <= 1 && a[0] == c && a[1] == 0 && a[2] == 0 && a[3] == 0 && a[4] == 0
    ensures Tight(a) && Field(a) == c
  {
  }

  lemma TightEncodes(a: array<U64>)
    requires a.Length == 5
    ensures Tight(a) ==> Below(a, TWO64 - TWO13)
  {
  }

  lemma {:induction false} PowerOfField(z: int, e: nat)
    ensures Power(z, e) == Power(z % P, e)
  {
    hide FMul;
    if e > 0 {
      PowerOfField(z, e - 1);
      FMulNested(Power(z, e - 1), z);
    }
  }

  lemma InverseOfField(z: int)
    ensures Power(z, P - 2) == Power(z % P, P - 2)
  {
    PowerOfField(z, P - 2);
  }
}
