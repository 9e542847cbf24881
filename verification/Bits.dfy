/**
 Bit-level arithmetic on natural numbers, written by halving so that proofs are
 inductions over bits and stay linear.  Machine words are naturals below a
 power of two; the operators below are those of unsigned C integers.
 */
module Bits {

  function Pow2(k: nat): (r: nat)
    ensures r >= 1
  {
    if k == 0 then 1 else 2 * Pow2(k - 1)
  }

  /** Bitwise AND of two unsigned integers. */
  function And(x: nat, y: nat): nat {
    if x == 0 || y == 0 then 0 else (if x % 2 == 1 && y % 2 == 1 then 1 else 0) + 2 * And(x / 2, y / 2)
  }

  /** Bitwise OR of two unsigned integers. */
  function Or(x: nat, y: nat): nat {
    if x == 0 then y
    else if y == 0 then x
    else (if x % 2 == 0 && y % 2 == 0 then 0 else 1) + 2 * Or(x / 2, y / 2)
  }

  /** Bitwise exclusive OR of two unsigned integers. */
  function Xor(x: nat, y: nat): nat {
    if x == 0 then y
    else if y == 0 then x
    else (if x % 2 == y % 2 then 0 else 1) + 2 * Xor(x / 2, y / 2)
  }

  /** Number of one bits. */
  function Popcount(x: nat): nat {
    if x == 0 then 0 else x % 2 + Popcount(x / 2)
  }

  /** True when the low k bits of x are all zero. */
  ghost predicate Aligned(x: nat, k: nat) {
    k == 0 || (x % 2 == 0 && Aligned(x / 2, k - 1))
  }

  ghost function Doubled(s: seq<nat>): (r: seq<nat>)
    ensures |r| == |s|
  {
    if s == [] then [] else [2 * s[0]] + Doubled(s[1..])
  }

  /** The powers of two that sum to x, largest first. */
  ghost function Decompose(x: nat): seq<nat> {
    if x == 0 then [] else Doubled(Decompose(x / 2)) + if x % 2 == 1 then [1] else []
  }

  ghost function Sum(s: seq<nat>): nat {
    if s == [] then 0 else s[0] + Sum(s[1..])
  }

  /** The largest power of two not above x. */
  function TopBit(x: nat): (r: nat)
    requires x > 0
    ensures r <= x < 2 * r
  {
    if x == 1 then 1 else 2 * TopBit(x / 2)
  }

  /** Largest power of two not above x, and 1 for 0: the highest one bit of x | 1. */
  function RoundDownToPowerOf2(x: nat): (r: nat)
    ensures x > 0 ==> r == TopBit(x)
    ensures x == 0 ==> r == 1
  {
    assert Or(x / 2, 0) == x / 2;
    TopBit(Or(x, 1))
  }

  lemma {:induction false} MaskTestsAlignment(k: nat, y: nat)
    ensures And(Pow2(k) - 1, y) == 0 <==> Aligned(y, k)
  {
    if k > 0 && y > 0 {
      MaskTestsAlignment(k - 1, y / 2);
      assert (Pow2(k) - 1) % 2 == 1 && (Pow2(k) - 1) / 2 == Pow2(k - 1) - 1;
    } else if k > 0 {
      ZeroAligned(k);
    }
  }

  lemma {:induction false} ZeroAligned(k: nat)
    ensures Aligned(0, k)
  {
    if k > 0 {
      ZeroAligned(k - 1);
    }
  }

  lemma {:induction false} AlignedDown(x: nat, k: nat, j: nat)
    requires j <= k && Aligned(x, k)
    ensures Aligned(x, j)
  {
    if j > 0 {
      AlignedDown(x / 2, k - 1, j - 1);
    }
  }

  /** A multiple of 2^k stays one after adding or removing 2^k. */
  lemma {:induction false} AlignedStep(x: nat, k: nat)
    requires Aligned(x, k)
    ensures Aligned(x + Pow2(k), k)
    ensures x >= Pow2(k) ==> Aligned(x - Pow2(k), k)
    ensures x > 0 ==> x >= Pow2(k)
    ensures Aligned(x, k + 1) || (x > 0 && Aligned(x - Pow2(k), k + 1))
    ensures Aligned(x, k + 1) ==> !Aligned(x + Pow2(k), k + 1)
  {
    if k > 0 {
      AlignedStep(x / 2, k - 1);
      assert (x + Pow2(k)) / 2 == x / 2 + Pow2(k - 1);
      if x >= Pow2(k) {
        assert (x - Pow2(k)) / 2 == x / 2 - Pow2(k - 1);
      }
    } else {
      assert Pow2(0) == 1;
      assert forall z: nat :: Aligned(z, 1) <==> (z % 2 == 0 && Aligned(z / 2, 0));
    }
  }

  lemma {:induction false} AlignedTopBit(x: nat, k: nat)
    requires x > 0 && Aligned(x, k)
    ensures Aligned(x - TopBit(x), k)
    ensures x + Pow2(k) <= 2 * TopBit(x)
  {
    if k > 0 {
      AlignedTopBit(x / 2, k - 1);
      assert x - TopBit(x) == 2 * (x / 2 - TopBit(x / 2));
    }
  }

  lemma TopBitIsPower(x: nat)
    requires x > 0
    ensures exists k: nat :: TopBit(x) == Pow2(k)
  {
    if x == 1 {
      assert TopBit(x) == Pow2(0);
    } else {
      TopBitIsPower(x / 2);
      var k: nat :| TopBit(x / 2) == Pow2(k);
      assert TopBit(x) == Pow2(k + 1);
    }
  }

  lemma {:induction false} DoubledAppend(a: seq<nat>, b: seq<nat>)
    ensures Doubled(a + b) == Doubled(a) + Doubled(b)
  {
    if a == [] {
      assert a + b == b;
    } else {
      DoubledAppend(a[1..], b);
      assert (a + b)[1..] == a[1..] + b;
      assert [2 * a[0]] + (Doubled(a[1..]) + Doubled(b)) == ([2 * a[0]] + Doubled(a[1..])) + Doubled(b);
    }
  }

  lemma {:induction false} DoubledSum(a: seq<nat>)
    ensures Sum(Doubled(a)) == 2 * Sum(a)
  {
    if a != [] {
      DoubledSum(a[1..]);
    }
  }

  lemma {:induction false} SumAppend(a: seq<nat>, b: seq<nat>)
    ensures Sum(a + b) == Sum(a) + Sum(b)
  {
    if a == [] {
      assert a + b == b;
    } else {
      SumAppend(a[1..], b);
      assert (a + b)[1..] == a[1..] + b;
    }
  }

  /** Decompose really is the binary expansion: it sums to x and has one entry per one bit. */
  lemma {:induction false} DecomposeSumsAndCounts(x: nat)
    ensures Sum(Decompose(x)) == x
    ensures |Decompose(x)| == Popcount(x)
  {
    if x > 0 {
      DecomposeSumsAndCounts(x / 2);
      DoubledSum(Decompose(x / 2));
      var low: seq<nat> := if x % 2 == 1 then [1] else [];
      assert Sum(low) == x % 2;
      SumAppend(Doubled(Decompose(x / 2)), low);
    }
  }

  lemma {:induction false} DecomposeTop(x: nat)
    requires x > 0
    ensures Decompose(x) == [TopBit(x)] + Decompose(x - TopBit(x))
  {
    var low: seq<nat> := if x % 2 == 1 then [1] else [];
    if x == 1 {
      assert Decompose(0) == [];
      assert Doubled(Decompose(0)) == [];
    } else {
      var h := x / 2;
      DecomposeTop(h);
      var rest := h - TopBit(h);
      DoubledAppend([TopBit(h)], Decompose(rest));
      assert Doubled([TopBit(h)]) == [TopBit(x)];
      assert (x - TopBit(x)) / 2 == rest && (x - TopBit(x)) % 2 == x % 2;
      assert Decompose(x - TopBit(x)) == Doubled(Decompose(rest)) + low;
    }
  }

  /** Adding a power of two below all set bits appends it to the decomposition. */
  lemma {:induction false} DecomposeAppend(x: nat, k: nat)
    requires Aligned(x, k + 1)
    ensures Decompose(x + Pow2(k)) == Decompose(x) + [Pow2(k)]
  {
    if k == 0 {
      assert x % 2 == 0;
      assert (x + 1) / 2 == x / 2;
    } else {
      DecomposeAppend(x / 2, k - 1);
      assert (x + Pow2(k)) / 2 == x / 2 + Pow2(k - 1);
      DoubledAppend(Decompose(x / 2), [Pow2(k - 1)]);
      assert Doubled([Pow2(k - 1)]) == [Pow2(k)];
    }
  }

  /** An odd multiple of 2^k is 2^k more than a multiple of 2^(k+1). */
  lemma OddMultiple(x: nat, k: nat) returns (y: nat)
    requires Aligned(x, k) && !Aligned(x, k + 1)
    ensures x == y + Pow2(k) && Aligned(y, k + 1)
  {
    AlignedStep(x, k);
    y := x - Pow2(k);
  }

  /** Adding 2^k to a multiple of 2^k sets at most one more bit. */
  lemma {:induction false} CarryPopcount(x: nat, k: nat, p: nat)
    requires Aligned(x, k) && p == Pow2(k)
    ensures |Decompose(x + p)| <= |Decompose(x)| + 1
    decreases x
  {
    hide Decompose, Aligned;
    if Aligned(x, k + 1) {
      DecomposeAppend(x, k);
    } else {
      var y := OddMultiple(x, k);
      DecomposeAppend(y, k);
      assert Pow2(k + 1) == 2 * p;
      CarryPopcount(y, k + 1, 2 * p);
      assert y + 2 * p == x + p;
    }
  }

  lemma {:induction false} DecomposeLength(x: nat, k: nat)
    requires x < Pow2(k)
    ensures |Decompose(x)| <= k
  {
    if x > 0 {
      DecomposeLength(x / 2, k - 1);
    }
  }

  lemma AlignedDouble(x: nat, k: nat)
    ensures Aligned(2 * x, k + 1) <==> Aligned(x, k)
  {
    assert 2 * x / 2 == x;
  }

  lemma Pow2Five(k: nat)
    ensures Pow2(k + 5) == 32 * Pow2(k)
  {
    assert Pow2(k + 5) == 2 * Pow2(k + 4);
    assert Pow2(k + 4) == 2 * Pow2(k + 3);
    assert Pow2(k + 3) == 2 * Pow2(k + 2);
    assert Pow2(k + 2) == 2 * Pow2(k + 1);
  }

  lemma AlignedFive(x: nat, k: nat)
    ensures Aligned(32 * x, k + 5) <==> Aligned(x, k)
  {
    hide Aligned;
    AlignedDouble(x, k);
    AlignedDouble(2 * x, k + 1);
    AlignedDouble(4 * x, k + 2);
    AlignedDouble(8 * x, k + 3);
    AlignedDouble(16 * x, k + 4);
  }

  /** Multiplying by 1024 shifts alignment by ten bits. */
  lemma TenBits(x: nat, k: nat)
    ensures Aligned(1024 * x, k + 10) <==> Aligned(x, k)
    ensures Pow2(k + 10) == 1024 * Pow2(k)
  {
    hide Aligned, Pow2;
    AlignedFive(x, k);
    AlignedFive(32 * x, k + 5);
    Pow2Five(k);
    Pow2Five(k + 5);
  }

  lemma {:induction false} PowMonotone(k: nat, j: nat)
    ensures k < j ==> 2 * Pow2(k) <= Pow2(j)
    decreases j
  {
    if k + 1 < j {
      PowMonotone(k, j - 1);
    }
  }
}
