/**
 Field arithmetic of X25519 on five 51-bit limbs, in place on limb arrays.  Every
 intermediate value is shown to fit its C type, so the 64- and 128-bit arithmetic
 of the code never wraps except where a shift drops bits on purpose.
 */
module Fe25519 {
  import opened Words64

  const P := 0x7FFF_FFFF_FFFF_FFFF_FFFF_FFFF_FFFF_FFFF_FFFF_FFFF_FFFF_FFFF_FFFF_FFFF_FFFF_FFED
  const TWO255 := 0x8000_0000_0000_0000_0000_0000_0000_0000_0000_0000_0000_0000_0000_0000_0000_0000

  /** The number that five limbs of base 2^51 stand for. */
  ghost function Limbs(a0: int, a1: int, a2: int, a3: int, a4: int): int {
    a0 + TWO51 * (a1 + TWO51 * (a2 + TWO51 * (a3 + TWO51 * a4)))
  }

  // ----- integers mod P

  ghost predicate Cong(x: int, y: int) {
    x % P == y % P
  }

  lemma ModUnique(x: int, y: int, k: int)
    requires x == y + P * k
    ensures Cong(x, y)
  {
  }

  ghost function FAdd(x: int, y: int): nat { (x + y) % P }
  ghost function FSub(x: int, y: int): nat { (x - y) % P }
  ghost function FMul(x: int, y: int): nat { (x * y) % P }

  lemma FAddMod(x: int, y: int)
    ensures (x + y) % P == FAdd(x % P, y % P)
  {
    ModUnique(x + y, x % P + y % P, x / P + y / P);
  }

  lemma FSubMod(x: int, y: int)
    ensures (x - y + 2 * P) % P == FSub(x % P, y % P)
  {
    ModUnique(x - y + 2 * P, x % P - y % P, x / P - y / P + 2);
  }

  lemma FMulMod(x: int, y: int)
    ensures FMul(x, y) == FMul(x % P, y % P)
  {
    var q, r, s, t := x / P, x % P, y / P, y % P;
    assert x * y == r * t + P * (q * y + s * r) by {
      assert x == P * q + r && y == P * s + t;
      assert x * y == (P * q + r) * y == P * (q * y) + r * y;
      assert r * y == r * (P * s + t) == P * (s * r) + r * t;
    }
    ModUnique(x * y, r * t, q * y + s * r);
  }

  /** What the columns above the fifth one add up to. */
  ghost function Folded(a1: int, a2: int, a3: int, a4: int, b1: int, b2: int, b3: int, b4: int): int {
    Limbs(a1 * b4 + a2 * b3 + a3 * b2 + a4 * b1, a2 * b4 + a3 * b3 + a4 * b2, a3 * b4 + a4 * b3, a4 * b4, 0)
  }

  /** The product of two numbers of five limbs, with the columns above the top limb folded back as 2^255 = P + 19. */
  lemma MulIdentity(a0: int, a1: int, a2: int, a3: int, a4: int, b0: int, b1: int, b2: int, b3: int, b4: int)
    ensures Limbs(a0, a1, a2, a3, a4) * Limbs(b0, b1, b2, b3, b4)
      == Limbs(a0 * b0 + a1 * (b4 * 19) + a2 * (b3 * 19) + a3 * (b2 * 19) + a4 * (b1 * 19),
               a0 * b1 + a1 * b0 + a2 * (b4 * 19) + a3 * (b3 * 19) + a4 * (b2 * 19),
               a0 * b2 + a1 * b1 + a2 * b0 + a3 * (b4 * 19) + a4 * (b3 * 19),
               a0 * b3 + a1 * b2 + a2 * b1 + a3 * b0 + a4 * (b4 * 19),
               a0 * b4 + a1 * b3 + a2 * b2 + a3 * b1 + a4 * b0)
      + P * Folded(a1, a2, a3, a4, b1, b2, b3, b4)
  {
  }

  // ----- limb arrays

  const TWO54 := 0x40_0000_0000_0000
  const TWO108 := TWO54 * TWO54
  const TIGHT := TWO51 + TWO13

  ghost function Val(a: array<U64>): nat
    requires a.Length == 5
    reads a
  {
    Limbs(a[0], a[1], a[2], a[3], a[4])
  }

  ghost predicate Below(a: array<U64>, bound: nat)
    requires a.Length == 5
    reads a
  {
    a[0] < bound && a[1] < bound && a[2] < bound && a[3] < bound && a[4] < bound
  }

  /** What every multiplication leaves behind, and what fe_sub needs of its second operand. */
  ghost predicate Tight(a: array<U64>)
    requires a.Length == 5
    reads a
  {
    Below(a, TIGHT)
  }

  /** The element of the field an array stands for. */
  ghost function Field(a: array<U64>): nat
    requires a.Length == 5
    reads a
  {
    Val(a) % P
  }

  method FeCopy(out: array<U64>, a: array<U64>)
    requires out.Length == 5 && a.Length == 5
    modifies out
    ensures Val(out) == old(Val(a)) && Field(out) == old(Field(a))
    ensures forall bound: nat :: old(Below(a, bound)) ==> Below(out, bound)
    ensures old(Tight(a)) ==> Tight(out)
  {
    out[0], out[1], out[2], out[3], out[4] := a[0], a[1], a[2], a[3], a[4];
  }

  lemma LimbsAdd(a0: int, a1: int, a2: int, a3: int, a4: int, b0: int, b1: int, b2: int, b3: int, b4: int)
    ensures Limbs(a0 + b0, a1 + b1, a2 + b2, a3 + b3, a4 + b4)
         == Limbs(a0, a1, a2, a3, a4) + Limbs(b0, b1, b2, b3, b4)
  {
  }

  lemma LimbsSub(a0: int, a1: int, a2: int, a3: int, a4: int, b0: int, b1: int, b2: int, b3: int, b4: int)
    ensures Limbs((a0 + 0xFFFFFFFFFFFDA) - b0, (a1 + 0xFFFFFFFFFFFFE) - b1, (a2 + 0xFFFFFFFFFFFFE) - b2,
                  (a3 + 0xFFFFFFFFFFFFE) - b3, (a4 + 0xFFFFFFFFFFFFE) - b4)
         == Limbs(a0, a1, a2, a3, a4) - Limbs(b0, b1, b2, b3, b4) + 2 * P
  {
  }

  method FeAdd(out: array<U64>, a: array<U64>, b: array<U64>)
    requires out.Length == 5 && a.Length == 5 && b.Length == 5
    requires Tight(a) && Tight(b)
    modifies out
    ensures Below(out, 2 * TIGHT) && Field(out) == FAdd(old(Field(a)), old(Field(b)))
  {
    hide Limbs, FAdd;
    FAddMod(Val(a), Val(b));
    LimbsAdd(a[0], a[1], a[2], a[3], a[4], b[0], b[1], b[2], b[3], b[4]);
    var s0: U64, s1: U64, s2: U64, s3: U64, s4: U64 := a[0] + b[0], a[1] + b[1], a[2] + b[2], a[3] + b[3], a[4] + b[4];
    out[0], out[1], out[2], out[3], out[4] := s0, s1, s2, s3, s4;
  }

  /** Adds 2P limb by limb first, so that no limb goes below zero. */
  method FeSub(out: array<U64>, a: array<U64>, b: array<U64>)
    requires out.Length == 5 && a.Length == 5 && b.Length == 5
    requires Tight(a) && Tight(b)
    modifies out
    ensures Below(out, TWO54)
    ensures Field(out) == FSub(old(Field(a)), old(Field(b)))
  {
    hide Limbs, FSub;
    FSubMod(Val(a), Val(b));
    LimbsSub(a[0], a[1], a[2], a[3], a[4], b[0], b[1], b[2], b[3], b[4]);
    var s0: U64 := (a[0] + 0xFFFFFFFFFFFDA) - b[0];
    var s1: U64 := (a[1] + 0xFFFFFFFFFFFFE) - b[1];
    var s2: U64 := (a[2] + 0xFFFFFFFFFFFFE) - b[2];
    var s3: U64 := (a[3] + 0xFFFFFFFFFFFFE) - b[3];
    var s4: U64 := (a[4] + 0xFFFFFFFFFFFFE) - b[4];
    out[0], out[1], out[2], out[3], out[4] := s0, s1, s2, s3, s4;
  }

  lemma ProductBound(x: nat, y: nat)
    requires x < TWO54 && y < TWO54
    ensures x * y < TWO108
  {
    assert x * y <= x * TWO54 <= TWO54 * TWO54;
  }

  /** The five column sums of a product fit 128 bits with room to spare. */
  lemma ColumnBounds(a0: nat, a1: nat, a2: nat, a3: nat, a4: nat, b0: nat, b1: nat, b2: nat, b3: nat, b4: nat)
    requires a0 < TWO54 && a1 < TWO54 && a2 < TWO54 && a3 < TWO54 && a4 < TWO54
    requires b0 < TWO54 && b1 < TWO54 && b2 < TWO54 && b3 < TWO54 && b4 < TWO54
    ensures a0 * b0 + a1 * (b4 * 19) + a2 * (b3 * 19) + a3 * (b2 * 19) + a4 * (b1 * 19) < 77 * TWO108
    ensures a0 * b1 + a1 * b0 + a2 * (b4 * 19) + a3 * (b3 * 19) + a4 * (b2 * 19) < 59 * TWO108
    ensures a0 * b2 + a1 * b1 + a2 * b0 + a3 * (b4 * 19) + a4 * (b3 * 19) < 41 * TWO108
    ensures a0 * b3 + a1 * b2 + a2 * b1 + a3 * b0 + a4 * (b4 * 19) < 23 * TWO108
    ensures a0 * b4 + a1 * b3 + a2 * b2 + a3 * b1 + a4 * b0 < 5 * TWO108
  {
    ProductBound(a0, b0);
    ProductBound(a0, b1);
    ProductBound(a0, b2);
    ProductBound(a0, b3);
    ProductBound(a0, b4);
    ProductBound(a1, b0);
    ProductBound(a1, b1);
    ProductBound(a1, b2);
    ProductBound(a1, b3);
    ProductBound(a1, b4);
    ProductBound(a2, b0);
    ProductBound(a2, b1);
    ProductBound(a2, b2);
    ProductBound(a2, b3);
    ProductBound(a2, b4);
    ProductBound(a3, b0);
    ProductBound(a3, b1);
    ProductBound(a3, b2);
    ProductBound(a3, b3);
    ProductBound(a3, b4);
    ProductBound(a4, b0);
    ProductBound(a4, b1);
    ProductBound(a4, b2);
    ProductBound(a4, b3);
    ProductBound(a4, b4);
  }

  /** The carry chain that ends fe_mul and fe_mul_a24. */
  method CarryChain(out: array<U64>, t0: U128, t1: U128, t2: U128, t3: U128, t4: U128)
    requires out.Length == 5
    requires t0 < 77 * TWO108 && t1 < 77 * TWO108 && t2 < 77 * TWO108 && t3 < 77 * TWO108 && t4 < 5 * TWO108
    modifies out
    ensures Tight(out)
    ensures Cong(Val(out), Limbs(t0, t1, t2, t3, t4))
  {
    hide Low51, Trunc64, Limbs;
    Low51Trunc(t0);
    var r0, c0: U64 := Low51(Trunc64(t0)), t0 / TWO51;
    out[0] := r0;
    var u1: U128 := t1 + c0;
    Low51Trunc(u1);
    var r1, c1: U64 := Low51(Trunc64(u1)), u1 / TWO51;
    out[1] := r1;
    var u2: U128 := t2 + c1;
    Low51Trunc(u2);
    var r2, c2: U64 := Low51(Trunc64(u2)), u2 / TWO51;
    out[2] := r2;
    var u3: U128 := t3 + c2;
    Low51Trunc(u3);
    var r3, c3: U64 := Low51(Trunc64(u3)), u3 / TWO51;
    out[3] := r3;
    var u4: U128 := t4 + c3;
    Low51Trunc(u4);
    var r4, c4: U64 := Low51(Trunc64(u4)), u4 / TWO51;
    out[4] := r4;
    var w0: U64 := r0 + c4 * 19;
    var s0, d: U64 := Low51(w0), w0 / TWO51;
    HighBits(w0);
    out[0] := s0;
    out[1] := r1 + d;
    CarryLinear(t0, t1, t2, t3, t4, r0, r1, r2, r3, r4, c0, c1, c2, c3, c4, s0, d);
  }

  lemma HighBits(x: U64)
    ensures x / TWO51 <= TWO13 - 1
  {
  }

  /** The carry chain keeps the value, up to P times the carry out of the top. */
  lemma CarryLinear(t0: int, t1: int, t2: int, t3: int, t4: int, r0: int, r1: int, r2: int, r3: int, r4: int,
                    c0: int, c1: int, c2: int, c3: int, c4: int, s0: int, d: int)
    requires t0 == r0 + TWO51 * c0 && t1 + c0 == r1 + TWO51 * c1 && t2 + c1 == r2 + TWO51 * c2
    requires t3 + c2 == r3 + TWO51 * c3 && t4 + c3 == r4 + TWO51 * c4
    requires r0 + 19 * c4 == s0 + TWO51 * d
    ensures Cong(Limbs(s0, r1 + d, r2, r3, r4), Limbs(t0, t1, t2, t3, t4))
  {
    ModUnique(Limbs(s0, r1 + d, r2, r3, r4), Limbs(t0, t1, t2, t3, t4), -c4);
  }

  /** fe_mul; out may be the same array as a or b. */
  method FeMul(out: array<U64>, a: array<U64>, b: array<U64>)
    requires out.Length == 5 && a.Length == 5 && b.Length == 5
    requires Below(a, TWO54) && Below(b, TWO54)
    modifies out
    ensures Tight(out)
    ensures Field(out) == FMul(old(Val(a)), old(Val(b))) == FMul(old(Field(a)), old(Field(b)))
  {
    hide Limbs, Folded;
    FMulMod(Val(a), Val(b));
    var b1_19: U64 := b[1] * 19;
    var b2_19: U64 := b[2] * 19;
    var b3_19: U64 := b[3] * 19;
    var b4_19: U64 := b[4] * 19;
    ColumnBounds(a[0], a[1], a[2], a[3], a[4], b[0], b[1], b[2], b[3], b[4]);
    var t0: U128 := Mul64(a[0], b[0]) + Mul64(a[1], b4_19) + Mul64(a[2], b3_19) + Mul64(a[3], b2_19) + Mul64(a[4], b1_19);
    var t1: U128 := Mul64(a[0], b[1]) + Mul64(a[1], b[0]) + Mul64(a[2], b4_19) + Mul64(a[3], b3_19) + Mul64(a[4], b2_19);
    var t2: U128 := Mul64(a[0], b[2]) + Mul64(a[1], b[1]) + Mul64(a[2], b[0]) + Mul64(a[3], b4_19) + Mul64(a[4], b3_19);
    var t3: U128 := Mul64(a[0], b[3]) + Mul64(a[1], b[2]) + Mul64(a[2], b[1]) + Mul64(a[3], b[0]) + Mul64(a[4], b4_19);
    var t4: U128 := Mul64(a[0], b[4]) + Mul64(a[1], b[3]) + Mul64(a[2], b[2]) + Mul64(a[3], b[1]) + Mul64(a[4], b[0]);
    MulIdentity(a[0], a[1], a[2], a[3], a[4], b[0], b[1], b[2], b[3], b[4]);
    ModUnique(Val(a) * Val(b), Limbs(t0, t1, t2, t3, t4), Folded(a[1], a[2], a[3], a[4], b[1], b[2], b[3], b[4]));
    CarryChain(out, t0, t1, t2, t3, t4);
  }

  method FeSq(out: array<U64>, a: array<U64>)
    requires out.Length == 5 && a.Length == 5
    requires Below(a, TWO54)
    modifies out
    ensures Tight(out)
    ensures Field(out) == FMul(old(Val(a)), old(Val(a))) == FMul(old(Field(a)), old(Field(a)))
  {
    FeMul(out, a, a);
  }

  const A24 := 121665

  method FeMulA24(out: array<U64>, a: array<U64>)
    requires out.Length == 5 && a.Length == 5
    requires Below(a, TWO54)
    modifies out
    ensures Tight(out)
    ensures Field(out) == FMul(A24, old(Field(a)))
  {
    FMulMod(A24, Val(a));
    FMulMod(A24, Val(a) % P);
    var t0: U128 := Mul64(a[0], 121665);
    var t1: U128 := Mul64(a[1], 121665);
    var t2: U128 := Mul64(a[2], 121665);
    var t3: U128 := Mul64(a[3], 121665);
    var t4: U128 := Mul64(a[4], 121665);
    assert Limbs(t0, t1, t2, t3, t4) == A24 * Val(a);
    CarryChain(out, t0, t1, t2, t3, t4);
  }
}
