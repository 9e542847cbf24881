/** Unsigned 64-bit and 128-bit words, and bytes in little-endian order. */
module Words64 {
  import opened Basics
  import opened Bits

  const TWO13 := 0x2000
  const TWO51 := 0x8_0000_0000_0000
  const TWO64 := 0x1_0000_0000_0000_0000
  const TWO128 := 0x1_0000_0000_0000_0000_0000_0000_0000_0000

  type U64 = x: nat | x < TWO64
  type U128 = x: nat | x < TWO128

  lemma {:induction false} Pow2Add(a: nat, b: nat)
    ensures Pow2(a + b) == Pow2(a) * Pow2(b)
  {
    if a > 0 {
      Pow2Add(a - 1, b);
      assert Pow2(a) * Pow2(b) == 2 * (Pow2(a - 1) * Pow2(b));
    }
  }

  lemma Pow2Values()
    ensures Pow2(13) == TWO13 && Pow2(51) == TWO51 && Pow2(64) == TWO64
  {
    hide Pow2;
    Pow2Five(0);
    assert Pow2(0) == 1 by { Pow2Zero(); }
    Pow2Five(5);
    Pow2Add(3, 10);
    Pow2Three();
    Pow2Add(13, 13);
    Pow2Add(26, 25);
    Pow2Five(10);
    Pow2Five(15);
    Pow2Five(20);
    Pow2Add(51, 13);
  }

  lemma Pow2Zero()
    ensures Pow2(0) == 1
  {
  }

  lemma Pow2Three()
    ensures Pow2(3) == 8
  {
    assert Pow2(1) == 2 && Pow2(2) == 4;
  }

  lemma AndStep(x: nat, y: nat)
    ensures And(x, y) == (if x % 2 == 1 && y % 2 == 1 then 1 else 0) + 2 * And(x / 2, y / 2)
  {
    assert And(0, y / 2) == 0 && And(x / 2, 0) == 0;
  }

  lemma OrStep(x: nat, y: nat)
    ensures Or(x, y) == (if x % 2 == 0 && y % 2 == 0 then 0 else 1) + 2 * Or(x / 2, y / 2)
  {
    assert Or(0, y / 2) == y / 2;
    assert Or(x / 2, 0) == x / 2;
  }

  lemma {:induction false} AndMask(x: nat, k: nat)
    ensures And(x, Pow2(k) - 1) == x % Pow2(k)
  {
    hide And;
    if k == 0 {
      AndZero(x);
    } else {
      var p := Pow2(k - 1);
      AndMask(x / 2, k - 1);
      AndStep(x, 2 * p - 1);
      ModHalves(x, p);
    }
  }

  lemma AndZero(x: nat)
    ensures And(x, 0) == 0 && And(0, x) == 0 && Pow2(0) == 1
  {
  }

  lemma ModSmall(x: nat, n: nat)
    requires x < n
    ensures x % n == x && x / n == 0
  {
  }

  /** Quotient and remainder are unique. */
  lemma DivModIs(x: nat, n: nat, q: nat, r: nat)
    requires r < n && x == n * q + r
    ensures x / n == q && x % n == r
  {
    var d := q - x / n;
    assert n * d == n * q - n * (x / n);
    MulSign(n, d);
  }

  lemma MulSign(n: int, d: int)
    requires n >= 0
    ensures d >= 1 ==> n * d >= n
    ensures d <= -1 ==> n * d <= -n
  {
  }

  lemma ModHalves(x: nat, p: nat)
    requires p > 0
    ensures x % (2 * p) == x % 2 + 2 * (x / 2 % p)
  {
    var h := x / 2;
    assert h == p * (h / p) + h % p;
    assert x == 2 * p * (h / p) + (x % 2 + 2 * (h % p)) by {
      assert 2 * (p * (h / p)) == 2 * p * (h / p);
    }
    DivModIs(x, 2 * p, h / p, x % 2 + 2 * (h % p));
  }

  lemma {:induction false} AndOnes(x: nat, k: nat)
    requires x < Pow2(k)
    ensures And(Pow2(k) - 1, x) == x && And(x, Pow2(k) - 1) == x
  {
    hide And;
    if k == 0 {
      AndZero(0);
    } else {
      var p := Pow2(k - 1);
      AndOnes(x / 2, k - 1);
      AndStep(x, 2 * p - 1);
      AndStep(2 * p - 1, x);
    }
  }

  /** Words without common one bits: | is addition. */
  lemma {:induction false} OrDisjoint(x: nat, k: nat, z: nat)
    requires x < Pow2(k) && Aligned(z, k)
    ensures Or(x, z) == x + z
  {
    if k > 0 {
      hide Or;
      OrDisjoint(x / 2, k - 1, z / 2);
      OrStep(x, z);
    }
  }

  lemma {:induction false} AlignedMultiple(y: nat, k: nat)
    ensures Aligned(y * Pow2(k), k)
  {
    if k > 0 {
      AlignedMultiple(y, k - 1);
      AlignedDouble(y * Pow2(k - 1), k - 1);
      assert 2 * (y * Pow2(k - 1)) == y * Pow2(k);
    }
  }

  lemma XorStep(x: nat, y: nat)
    ensures Xor(x, y) == (if x % 2 == y % 2 then 0 else 1) + 2 * Xor(x / 2, y / 2)
  {
    assert Xor(0, y / 2) == y / 2;
    assert Xor(x / 2, 0) == x / 2;
  }

  lemma {:induction false} XorCancels(x: nat, y: nat)
    ensures Xor(x, Xor(x, y)) == y && Xor(y, Xor(x, y)) == x
    decreases x + y
  {
    if x == 0 || y == 0 {
      assert Xor(x, x) == 0 && Xor(y, y) == 0 by {
        XorSelf(x);
        XorSelf(y);
      }
    } else {
      XorCancels(x / 2, y / 2);
      XorCancelStep(x, y);
    }
  }

  lemma XorCancelStep(x: nat, y: nat)
    requires Xor(x / 2, Xor(x / 2, y / 2)) == y / 2 && Xor(y / 2, Xor(x / 2, y / 2)) == x / 2
    ensures Xor(x, Xor(x, y)) == y && Xor(y, Xor(x, y)) == x
  {
    hide Xor;
    var z := Xor(x, y);
    XorStep(x, y);
    XorStep(x, z);
    XorStep(y, z);
  }

  lemma {:induction false} XorSelf(x: nat)
    ensures Xor(x, x) == 0
  {
    if x > 0 {
      XorSelf(x / 2);
    }
  }

  lemma {:induction false} XorBelow(x: nat, y: nat, k: nat)
    requires x < Pow2(k) && y < Pow2(k)
    ensures Xor(x, y) < Pow2(k)
  {
    if k > 0 {
      hide Xor;
      XorStep(x, y);
      XorBelow(x / 2, y / 2, k - 1);
    }
  }

  lemma {:induction false} OrBelow(x: nat, y: nat, k: nat)
    requires x < Pow2(k) && y < Pow2(k)
    ensures Or(x, y) < Pow2(k)
  {
    if k > 0 {
      hide Or;
      OrStep(x, y);
      OrBelow(x / 2, y / 2, k - 1);
    }
  }

  lemma {:induction false} AndBelow(x: nat, y: nat, k: nat)
    requires x < Pow2(k)
    ensures And(x, y) < Pow2(k)
  {
    if k > 0 {
      hide And;
      AndStep(x, y);
      AndBelow(x / 2, y / 2, k - 1);
    } else {
      AndZero(y);
    }
  }

  lemma XorZero(x: nat)
    ensures Xor(x, 0) == x
  {
  }

  // ----- shifts and masks of the C code

  const MASK51: U64 := 0x7_FFFF_FFFF_FFFF

  /** x & MASK51 */
  function Low51(x: nat): (r: U64)
    ensures r == x % TWO51
  {
    assert And(x, MASK51) == x % TWO51 by {
      Pow2Values();
      AndMask(x, 51);
    }
    And(x, MASK51)
  }

  /** (uint64_t)x */
  function Trunc64(x: nat): (r: U64) {
    x % TWO64
  }

  /** (uint64_t)x & MASK51 */
  lemma Low51Trunc(x: nat)
    ensures Low51(Trunc64(x)) == x % TWO51
  {
    var q, r := x / TWO64, x % TWO64;
    assert x % TWO51 == r % TWO51 by {
      assert x == TWO51 * (0x2000 * q) + r;
    }
  }

  /** mul64: a full 128-bit product. */
  function Mul64(x: U64, y: U64): (r: U128)
    ensures r == x * y
  {
    assert (x as int) * (y as int) < TWO128 by {
      MulBelow(x, y, TWO64, TWO64);
    }
    (x as int) * (y as int)
  }

  lemma MulBelow(x: nat, y: nat, m: nat, n: nat)
    requires x < m && y < n
    ensures x * y < m * n
  {
    assert x * y <= x * n <= m * n;
    assert x * n < m * n;
  }

  /** A conditional mask: all ones for 1, zero for 0. */
  function MaskOf(b: nat): (r: U64)
    requires b <= 1
  {
    (TWO64 - b) % TWO64
  }

  lemma MaskSelects(b: nat, x: U64)
    requires b <= 1
    ensures And(MaskOf(b), x) == if b == 1 then x else 0
    ensures And(x, MaskOf(b)) == if b == 1 then x else 0
  {
    hide And, Pow2;
    Pow2Values();
    AndOnes(x, 64);
    AndZero(x);
  }

  // ----- little-endian bytes

  ghost function LittleEndian(s: seq<Byte>): nat {
    if s == [] then 0 else s[0] + 256 * LittleEndian(s[1..])
  }

  lemma {:induction false} LittleEndianConcat(a: seq<Byte>, b: seq<Byte>)
    ensures LittleEndian(a + b) == LittleEndian(a) + Pow2(8 * |a|) * LittleEndian(b)
  {
    if a == [] {
      assert a + b == b;
      assert Pow2(0) == 1;
    } else {
      LittleEndianConcat(a[1..], b);
      assert (a + b)[1..] == a[1..] + b;
      Pow2Add(8, 8 * |a[1..]|);
      Pow2Eight();
      assert 256 * (Pow2(8 * |a[1..]|) * LittleEndian(b)) == 256 * Pow2(8 * |a[1..]|) * LittleEndian(b);
    }
  }

  lemma Pow2Eight()
    ensures Pow2(8) == 256
  {
    Pow2Five(3);
    Pow2Three();
  }

  lemma {:induction false} LittleEndianBound(s: seq<Byte>)
    ensures LittleEndian(s) < Pow2(8 * |s|)
  {
    if s != [] {
      LittleEndianBound(s[1..]);
      Pow2Add(8, 8 * |s[1..]|);
      Pow2Eight();
    }
  }

  /** Bytes shifted into place and combined with |, as load64_le does. */
  function OrBytes(s: seq<Byte>, n: nat): nat
    requires n <= |s|
  {
    if n == 0 then 0 else Or(OrBytes(s, n - 1), s[n - 1] * Pow2(8 * (n - 1)))
  }

  lemma {:induction false} OrBytesIs(s: seq<Byte>, n: nat)
    requires n <= |s|
    ensures OrBytes(s, n) == LittleEndian(s[..n])
  {
    hide Or, Pow2, LittleEndian, Aligned;
    LittleEndianNone();
    if n > 0 {
      var k := n - 1;
      var front, last := s[..k], s[k];
      OrBytesIs(s, k);
      LittleEndianBound(front);
      AlignedMultiple(last, 8 * k);
      OrDisjoint(LittleEndian(front), 8 * k, last * Pow2(8 * k));
      LittleEndianConcat(front, [last]);
      assert s[..n] == front + [last];
      LittleEndianOne(last);
    }
  }

  lemma LittleEndianNone()
    ensures LittleEndian([]) == 0
  {
  }

  lemma LittleEndianOne(x: Byte)
    ensures LittleEndian([x]) == x
  {
    assert [x][1..] == [];
  }
}
