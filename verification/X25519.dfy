/**
 * Inversion by an addition chain: powers in the field of integers mod 2^255 - 19, as section 5 of
 * RFC 7748 needs z^(p - 2).
 */
module X25519 {
  import opened Bits
  import opened Words64
  import opened Fe25519

  // ----- powers mod P

  ghost function Power(z: int, e: nat): nat {
    if e == 0 then 1 else FMul(z, Power(z, e - 1))
  }

  lemma FMulNested(x: int, w: int)
    ensures FMul(x, w % P) == FMul(x, w) && FMul(w % P, x) == FMul(w, x)
  {
    hide FMul;
    FMulMod(x, w);
    FMulMod(x, w % P);
    FMulMod(w, x);
    FMulMod(w % P, x);
  }

  lemma FMulAssoc(x: int, y: int, z: int)
    ensures FMul(x, FMul(y, z)) == FMul(FMul(x, y), z)
  {
    var yz, xy := y * z, x * y;
    assert FMul(x, yz % P) == FMul(x, yz) by { FMulNested(x, yz); }
    assert FMul(xy % P, z) == FMul(xy, z) by { FMulNested(z, xy); }
    assert x * yz == xy * z;
  }

  lemma FMulCong(x: int, y: int, x': int, y': int)
    requires Cong(x, x') && Cong(y, y')
    ensures FMul(x, y) == FMul(x', y')
  {
    FMulMod(x, y);
    FMulMod(x', y');
  }

  lemma PowerRange(z: int, e: nat)
    ensures Power(z, e) < P
  {
  }

  lemma {:induction false} PowerAdd(z: int, a: nat, b: nat)
    ensures FMul(Power(z, a), Power(z, b)) == Power(z, a + b)
  {
    if a == 0 {
      PowerRange(z, b);
    } else {
      PowerAdd(z, a - 1, b);
      FMulAssoc(z, Power(z, a - 1), Power(z, b));
    }
  }

  /** x^(2^k - 1), squared j times, times x^(2^j - 1), is x^(2^(k+j) - 1). */
  lemma ChainExponent(k: nat, j: nat)
    ensures (Pow2(k) - 1) * Pow2(j) + (Pow2(j) - 1) == Pow2(k + j) - 1
  {
    hide Pow2;
    Pow2Add(k, j);
    var p, q := Pow2(k), Pow2(j);
    assert (p - 1) * q == p * q - q;
  }

  lemma LastExponent()
    ensures Pow2(5) == 32
    ensures (Pow2(250) - 1) * Pow2(5) + 11 == P - 2
  {
    hide Pow2;
    Pow2Values();
    Pow2Zero();
    Pow2Five(0);
    Pow2Five(250);
    Pow2Add(51, 51);
    Pow2Add(102, 51);
    Pow2Add(153, 51);
    Pow2Add(204, 51);
    assert Pow2(255) == TWO255;
  }

  lemma CongPower(v: int, z: int, e: nat)
    requires v % P == Power(z, e)
    ensures Cong(v, Power(z, e))
  {
    PowerRange(z, e);
  }

  /** fe_sq followed by n - 1 squarings in place. */
  method SquareTimes(out: array<U64>, a: array<U64>, n: nat, ghost z: int, ghost e: nat)
    requires out.Length == 5 && a.Length == 5 && Below(a, TWO54) && n > 0
    requires Field(a) == Power(z, e)
    modifies out
    ensures Tight(out) && Field(out) == Power(z, e * Pow2(n))
  {
    hide Power, Limbs;
    FeSq(out, a);
    SquaredPower(old(Val(a)), z, e);
    Doubling(e, 0);
    var i := 1;
    while i < n
      invariant 1 <= i <= n
      invariant Tight(out) && Field(out) == Power(z, e * Pow2(i))
    {
      SquaredPower(Val(out), z, e * Pow2(i));
      FeSq(out, out);
      Doubling(e, i);
      i := i + 1;
    }
  }

  lemma Doubling(e: nat, i: nat)
    ensures e * Pow2(i) + e * Pow2(i) == e * Pow2(i + 1)
    ensures e * Pow2(0) == e
  {
    assert Pow2(0) == 1;
  }

  lemma SquaredPower(v: int, z: int, e: nat)
    requires v % P == Power(z, e)
    ensures FMul(v, v) == Power(z, e + e)
  {
    hide Power, FMul;
    CongPower(v, z, e);
    FMulCong(v, v, Power(z, e), Power(z, e));
    PowerAdd(z, e, e);
  }

  /** Multiplication adds exponents. */
  method MulPower(out: array<U64>, a: array<U64>, b: array<U64>, ghost z: int, ghost d: nat, ghost e: nat)
    requires out.Length == 5 && a.Length == 5 && b.Length == 5
    requires Below(a, TWO54) && Below(b, TWO54)
    requires Field(a) == Power(z, d) && Field(b) == Power(z, e)
    modifies out
    ensures Tight(out) && Field(out) == Power(z, d + e)
  {
    hide Power, FMul, Limbs;
    CongPower(Val(a), z, d);
    CongPower(Val(b), z, e);
    FMulCong(Val(a), Val(b), Power(z, d), Power(z, e));
    PowerAdd(z, d, e);
    FeMul(out, a, b);
  }

  method SquarePower(out: array<U64>, a: array<U64>, ghost z: int, ghost e: nat)
    requires out.Length == 5 && a.Length == 5 && Below(a, TWO54)
    requires Field(a) == Power(z, e)
    modifies out
    ensures Tight(out) && Field(out) == Power(z, 2 * e)
  {
    hide Power, FMul, Limbs;
    SquaredPower(Val(a), z, e);
    FeSq(out, a);
  }

  lemma PowerOne(z: int)
    ensures Power(z, 1) == z % P
  {
    assert Power(z, 0) == 1;
  }

  /** x^(2^k - 1) and x^(2^j - 1) to x^(2^(k+j) - 1): j squarings and a multiplication. */
  method Extend(dst: array<U64>, tmp: array<U64>, a: array<U64>, b: array<U64>, ghost z: int, ghost k: nat, j: nat)
    requires dst.Length == 5 && tmp.Length == 5 && a.Length == 5 && b.Length == 5 && j > 0
    requires tmp != b && Tight(a) && Tight(b)
    requires Field(a) == Power(z, Pow2(k) - 1) && Field(b) == Power(z, Pow2(j) - 1)
    modifies dst, tmp
    ensures Tight(dst) && Field(dst) == Power(z, Pow2(k + j) - 1)
  {
    hide Power, FMul, Limbs, Pow2, Field;
    SquareTimes(tmp, a, j, z, Pow2(k) - 1);
    ChainExponent(k, j);
    MulPower(dst, tmp, b, z, (Pow2(k) - 1) * Pow2(j), Pow2(j) - 1);
  }

  /** z^11 into t0 and z^31 into t1. */
  method InvertStart(t0: array<U64>, t1: array<U64>, t2: array<U64>, z: array<U64>)
    requires t0.Length == 5 && t1.Length == 5 && t2.Length == 5 && z.Length == 5
    requires t0 != t1 && t0 != t2 && t1 != t2 && z != t0 && z != t1 && z != t2
    requires Below(z, TWO54)
    modifies t0, t1, t2
    ensures Tight(t0) && Field(t0) == Power(old(Val(z)), 11)
    ensures Tight(t1) && Field(t1) == Power(old(Val(z)), Pow2(5) - 1)
  {
    hide Power, FMul, Limbs, Pow2, Field;
    ghost var v := Val(z);
    LastExponent();
    PowerOne(v);
    FieldDef(z);
    SquarePower(t0, z, v, 1);
    SquarePower(t1, t0, v, 2);
    SquarePower(t1, t1, v, 4);
    MulPower(t1, t1, z, v, 8, 1);
    MulPower(t0, t0, t1, v, 2, 9);
    SquarePower(t2, t0, v, 11);
    MulPower(t1, t1, t2, v, 9, 22);
  }

  /** z^(2^5 - 1) to z^(2^250 - 1) in t1. */
  method InvertGrow(t1: array<U64>, t2: array<U64>, t3: array<U64>, ghost v: int)
    requires t1.Length == 5 && t2.Length == 5 && t3.Length == 5 && t1 != t2 && t1 != t3 && t2 != t3
    requires Tight(t1) && Field(t1) == Power(v, Pow2(5) - 1)
    modifies t1, t2, t3
    ensures Tight(t1) && Field(t1) == Power(v, Pow2(250) - 1)
  {
    hide Power, Pow2, Field, Tight;
    Extend(t1, t2, t1, t1, v, 5, 5);
    Extend(t2, t2, t1, t1, v, 10, 10);
    Extend(t2, t3, t2, t2, v, 20, 20);
    Extend(t1, t2, t2, t1, v, 40, 10);
    Extend(t2, t2, t1, t1, v, 50, 50);
    Extend(t2, t3, t2, t2, v, 100, 100);
    Extend(t1, t2, t2, t1, v, 200, 50);
  }

  /** fe_invert: the addition chain computes z^(P - 2), the inverse of a nonzero z. */
  method FeInvert(out: array<U64>, z: array<U64>)
    requires out.Length == 5 && z.Length == 5 && Below(z, TWO54)
    modifies out
    ensures Tight(out) && Field(out) == Power(old(Val(z)), P - 2)
  {
    hide Power, FMul, Limbs, Pow2, Field, Below, Tight;
    var t0 := new U64[5](_ => 0);
    var t1 := new U64[5](_ => 0);
    var t2 := new U64[5](_ => 0);
    var t3 := new U64[5](_ => 0);
    ghost var v := Val(z);
    InvertStart(t0, t1, t2, z);
    InvertGrow(t1, t2, t3, v);
    LastExponent();
    TightIsBelow(t0);
    TightIsBelow(t1);
    SquareTimes(t1, t1, 5, v, Pow2(250) - 1);
    TightIsBelow(t1);
    MulPower(out, t1, t0, v, (Pow2(250) - 1) * Pow2(5), 11);
  }

  lemma TightIsBelow(a: array<U64>)
    requires a.Length == 5
    ensures Tight(a) ==> Below(a, TWO54)
  {
  }

  lemma FieldDef(a: array<U64>)
    requires a.Length == 5
    ensures Field(a) == Val(a) % P
  {
  }
}
