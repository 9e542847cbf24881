/**
 What the ladder computes: a step is doubling and differential addition on v^2 = u^3 + 486662 u^2 + u,
 in the projective u-coordinates of section 4.1 of RFC 7748 (u = x / z), and the whole ladder goes from
 the multiples m and m + 1 of the point to the multiples 2m and 2m + 1, or 2m + 1 and 2m + 2.
 */
module Curve25519 {
  import opened Basics
  import opened Bits
  import opened Words64
  import opened Fe25519
  import opened FeBytes
  import opened X25519
  import opened Ladder25519

  // ----- calculating mod P

  lemma MulCong(x: int, y: int, x': int, y': int)
    requires Cong(x, x') && Cong(y, y')
    ensures FMul(x, y) == x' * y' % P && Cong(FMul(x, y), x' * y')
  {
    FMulMod(x, y);
    FMulMod(x', y');
  }

  lemma AddCong(x: int, y: int, x': int, y': int)
    requires Cong(x, x') && Cong(y, y')
    ensures Cong(FAdd(x, y), x' + y')
  {
    FAddMod(x, y);
    FAddMod(x', y');
  }

  lemma SubCong(x: int, y: int, x': int, y': int)
    requires Cong(x, x') && Cong(y, y')
    ensures Cong(FSub(x, y), x' - y')
  {
    ModUnique(x - y, x % P - y % P, x / P - y / P);
    ModUnique(x' - y', x' % P - y' % P, x' / P - y' / P);
  }

  // ----- one step

  /** Doubling: with A, B and E as the step has them. */
  lemma DoubleIdentity(x: int, z: int)
    ensures var a, b := x + z, x - z;
            var e := a * a - b * b;
            && (a * a) * (b * b) == (x * x - z * z) * (x * x - z * z)
            && e == 4 * (x * z)
            && e * (a * a + 121665 * e) == 4 * (x * z) * (x * x + 486662 * (x * z) + z * z)
  {
    var a, b := x + z, x - z;
    assert a * b == x * x - z * z;
    assert (a * a) * (b * b) == (a * b) * (a * b);
    assert a * a == x * x + 2 * (x * z) + z * z;
    assert b * b == x * x - 2 * (x * z) + z * z;
  }

  /** Differential addition. */
  lemma AddIdentity(x: int, z: int, x': int, z': int)
    ensures var da, cb := (x' - z') * (x + z), (x' + z') * (x - z);
            && da + cb == 2 * (x * x' - z * z') && da - cb == 2 * (x' * z - z' * x)
  {
    assert (x' - z') * (x + z) == x' * x + x' * z - z' * x - z' * z;
    assert (x' + z') * (x - z) == x' * x - x' * z + z' * x - z' * z;
  }

  lemma Squared(y: int)
    ensures (2 * y) * (2 * y) == 4 * (y * y)
  {
  }

  /** Mod P, the step makes x2 the square of x2^2 - z2^2, and z2 the product of 4 x2 z2 and x2^2 + 486662 x2 z2 + z2^2. */
  lemma DoubleStep(u: nat, s: Rungs) returns (d: int, e: int, w: int)
    ensures d % P == (s.x2 * s.x2 - s.z2 * s.z2) % P
    ensures e % P == 4 * (s.x2 * s.z2) % P && w % P == (s.x2 * s.x2 + 486662 * (s.x2 * s.z2) + s.z2 * s.z2) % P
    ensures LadderStep(u, s).x2 == d * d % P && LadderStep(u, s).z2 == e * w % P
  {
    hide FMul, FAdd, FSub, Cong;
    Reflexive(s.x2);
    Reflexive(s.z2);
    var a, b := s.x2 + s.z2, s.x2 - s.z2;
    AddCong(s.x2, s.z2, s.x2, s.z2);
    SubCong(s.x2, s.z2, s.x2, s.z2);
    var aa, bb := a * a, b * b;
    MulCong(FAdd(s.x2, s.z2), FAdd(s.x2, s.z2), a, a);
    MulCong(FSub(s.x2, s.z2), FSub(s.x2, s.z2), b, b);
    var faa, fbb := FMul(FAdd(s.x2, s.z2), FAdd(s.x2, s.z2)), FMul(FSub(s.x2, s.z2), FSub(s.x2, s.z2));
    MulCong(faa, fbb, aa, bb);
    SubCong(faa, fbb, aa, bb);
    var g, fe := aa - bb, FSub(faa, fbb);
    Reflexive(A24);
    MulCong(A24, fe, 121665, g);
    AddCong(faa, FMul(A24, fe), aa, 121665 * g);
    MulCong(fe, FAdd(faa, FMul(A24, fe)), g, aa + 121665 * g);
    DoubleIdentity(s.x2, s.z2);
    d, e, w := s.x2 * s.x2 - s.z2 * s.z2, 4 * (s.x2 * s.z2), s.x2 * s.x2 + 486662 * (s.x2 * s.z2) + s.z2 * s.z2;
  }

  lemma Reflexive(x: int)
    ensures Cong(x, x)
  {
  }

  /** The products of the addition, up to multiples of P. */
  lemma CrossCong(s: Rungs)
    ensures var a, b, c, d := FAdd(s.x2, s.z2), FSub(s.x2, s.z2), FAdd(s.x3, s.z3), FSub(s.x3, s.z3);
            Cong(FMul(d, a), (s.x3 - s.z3) * (s.x2 + s.z2)) && Cong(FMul(c, b), (s.x3 + s.z3) * (s.x2 - s.z2))
  {
    hide FMul, FAdd, FSub, Cong;
    Reflexive(s.x2);
    Reflexive(s.z2);
    Reflexive(s.x3);
    Reflexive(s.z3);
    AddCong(s.x2, s.z2, s.x2, s.z2);
    SubCong(s.x2, s.z2, s.x2, s.z2);
    AddCong(s.x3, s.z3, s.x3, s.z3);
    SubCong(s.x3, s.z3, s.x3, s.z3);
    MulCong(FSub(s.x3, s.z3), FAdd(s.x2, s.z2), s.x3 - s.z3, s.x2 + s.z2);
    MulCong(FAdd(s.x3, s.z3), FSub(s.x2, s.z2), s.x3 + s.z3, s.x2 - s.z2);
  }

  /** It makes x3 the square of 2 (x2 x3 - z2 z3). */
  lemma AddStep(u: nat, s: Rungs) returns (sum: int)
    ensures sum % P == 2 * (s.x2 * s.x3 - s.z2 * s.z3) % P && LadderStep(u, s).x3 == sum * sum % P
  {
    hide FMul, FAdd, FSub, Cong;
    var a, b, c, d := FAdd(s.x2, s.z2), FSub(s.x2, s.z2), FAdd(s.x3, s.z3), FSub(s.x3, s.z3);
    var da, cb := (s.x3 - s.z3) * (s.x2 + s.z2), (s.x3 + s.z3) * (s.x2 - s.z2);
    CrossCong(s);
    AddCong(FMul(d, a), FMul(c, b), da, cb);
    var f := FAdd(FMul(d, a), FMul(c, b));
    MulCong(f, f, da + cb, da + cb);
    AddIdentity(s.x2, s.z2, s.x3, s.z3);
    sum := da + cb;
  }

  /** And z3 is u times the square of 2 (x3 z2 - z3 x2). */
  lemma DifferenceStep(u: nat, s: Rungs) returns (diff: int)
    ensures diff % P == 2 * (s.x3 * s.z2 - s.z3 * s.x2) % P && LadderStep(u, s).z3 == u * (diff * diff) % P
  {
    hide FMul, FAdd, FSub, Cong;
    var a, b, c, d := FAdd(s.x2, s.z2), FSub(s.x2, s.z2), FAdd(s.x3, s.z3), FSub(s.x3, s.z3);
    var da, cb := (s.x3 - s.z3) * (s.x2 + s.z2), (s.x3 + s.z3) * (s.x2 - s.z2);
    CrossCong(s);
    SubCong(FMul(d, a), FMul(c, b), da, cb);
    var f := FSub(FMul(d, a), FMul(c, b));
    MulCong(f, f, da - cb, da - cb);
    Reflexive(u);
    MulCong(u, FMul(f, f), u, (da - cb) * (da - cb));
    AddIdentity(s.x2, s.z2, s.x3, s.z3);
    diff := da - cb;
  }

  // ----- multiples of a point

  /** u = x / z, and the point at infinity for z = 0. */
  datatype Point = Point(x: nat, z: nat)

  /** Twice a point of the curve. */
  function Double(p: Point): Point {
    var x, z := p.x, p.z;
    Point((x * x - z * z) * (x * x - z * z) % P, 4 * (x * z) * (x * x + 486662 * (x * z) + z * z) % P)
  }

  /** The sum of two points whose difference has the coordinate u. */
  function Sum(p: Point, q: Point, u: nat): Point {
    var plus, minus := 2 * (p.x * q.x - p.z * q.z), 2 * (q.x * p.z - q.z * p.x);
    Point(plus * plus % P, u * (minus * minus) % P)
  }

  /** The multiples m and m + 1 of the point with coordinate u. */
  function Multiples(m: nat, u: nat): (Point, Point) {
    if m == 0 then (Point(1, 0), Point(u, 1))
    else
      var (p, q) := Multiples(m / 2, u);
      if m % 2 == 0 then (Double(p), Sum(p, q, u)) else (Sum(p, q, u), Double(q))
  }

  /** The multiples of a point from those of half the number: 2m and 2m + 1 from m and m + 1, and 2m + 1 and 2m + 2. */
  lemma MultiplesAre(m: nat, u: nat)
    ensures Multiples(0, u) == (Point(1, 0), Point(u, 1))
    ensures var (p, q) := Multiples(m, u);
            && (m > 0 ==> Multiples(2 * m, u) == (Double(p), Sum(p, q, u)))
            && Multiples(2 * m + 1, u) == (Sum(p, q, u), Double(q))
  {
    hide Double, Sum;
    assert 2 * m / 2 == m && (2 * m + 1) / 2 == m;
  }

  /** Doubling and differential addition on v^2 = u^3 + 486662 u^2 + u. */
  lemma PointOperations(p: Point, q: Point, u: nat)
    ensures Double(p) == Point((p.x * p.x - p.z * p.z) * (p.x * p.x - p.z * p.z) % P,
                               4 * (p.x * p.z) * (p.x * p.x + 486662 * (p.x * p.z) + p.z * p.z) % P)
    ensures Sum(p, q, u) == Point((2 * (p.x * q.x - p.z * q.z)) * (2 * (p.x * q.x - p.z * q.z)) % P,
                                  u * ((2 * (q.x * p.z - q.z * p.x)) * (2 * (q.x * p.z - q.z * p.x))) % P)
  {
  }

  /** p = 2^255 - 19, bytes in little-endian order, and powers in the field. */
  lemma FieldIs(s: seq<Byte>, b: Byte, z: nat, n: nat)
    ensures P == 57896044618658097711785492504343953926634992332820282019728792003956564819949 && TWO255 == P + 19
    ensures LittleEndian([]) == 0 && LittleEndian([b] + s) == b + 256 * LittleEndian(s)
    ensures Power(z, 0) == 1 && Power(z, n + 1) == z * Power(z, n) % P
  {
    assert ([b] + s)[1..] == s;
  }

  function First(s: Rungs): Point {
    Point(s.x2, s.z2)
  }

  function Second(s: Rungs): Point {
    Point(s.x3, s.z3)
  }

  lemma SumCommutes(p: Point, q: Point, u: nat)
    ensures Sum(p, q, u) == Sum(q, p, u)
  {
    var minus := 2 * (q.x * p.z - q.z * p.x);
    assert 2 * (p.x * q.z - p.z * q.x) == -minus;
    assert (-minus) * (-minus) == minus * minus;
  }

  lemma SameProduct(x: int, y: int, x': int, y': int)
    requires x % P == x' % P && y % P == y' % P
    ensures x * y % P == x' * y' % P
  {
    FMulMod(x, y);
    FMulMod(x', y');
  }

  lemma BitIs(k: nat, t: nat)
    ensures Bit(k, t) == k / Pow2(t) % 2
    decreases t
  {
    if t > 0 {
      BitIs(k / 2, t - 1);
      HalveFirst(k, Pow2(t - 1));
    }
  }

  lemma HalveFirst(k: nat, d: nat)
    requires d > 0
    ensures k / 2 / d == k / (2 * d) == k / d / 2
  {
    ModHalves(k, d);
    var m, s := k / d, k % d;
    Distribute(d, 2 * (m / 2), m % 2);
    Associate(d, 2, m / 2);
    DivIs(k, 2 * d, m / 2, d * (m % 2) + s);
  }

  lemma Distribute(x: int, y: int, z: int)
    ensures x * (y + z) == x * y + x * z
  {
  }

  lemma Associate(x: int, y: int, z: int)
    ensures x * (y * z) == (x * y) * z
  {
  }

  lemma AtLeastOne(n: int, z: int)
    requires n > 0
    ensures z >= 1 ==> n * z >= n
    ensures z <= -1 ==> n * z <= -n
  {
    Distribute(n, z - 1, 1);
    Distribute(n, z + 1, -1);
    Sign(n, z - 1);
    Sign(n, z + 1);
  }

  lemma Sign(n: int, z: int)
    requires n >= 0
    ensures z >= 0 ==> n * z >= 0
    ensures z <= 0 ==> n * z <= 0
  {
  }

  lemma DivIs(k: nat, n: nat, q: nat, r: nat)
    requires n > 0 && k == n * q + r && r < n
    ensures k / n == q && k % n == r
  {
    var q', r' := k / n, k % n;
    assert k == n * q' + r';
    Distribute(n, q', -(q as int));
    AtLeastOne(n, q' - q);
  }

  /** After the bits down to t the ladder has the multiples for these bits, provided that the first of them is set. */
  lemma {:induction false} LadderMultiplies(k: nat, u: nat, t: nat)
    requires Pow2(254) <= k < Pow2(255) && t < 255
    ensures var (p, q) := Multiples(k / Pow2(t), u);
            First(Ladder(k, u, t)) == p && Second(Ladder(k, u, t)) == q
    decreases 255 - t
  {
    hide LadderStep, Bit, Pow2, Ladder;
    var m, b := k / Pow2(t), Bit(k, t);
    var s := Ladder(k, u, t + 1);
    BitIs(k, t);
    Pow2Next(t);
    HalveFirst(k, Pow2(t));
    if t == 254 {
      OnlyOne(k);
      LadderStart(k, u);
    } else {
      LadderMultiplies(k, u, t + 1);
      NotNone(k, t);
    }
    LadderUnfold(k, u, t);
    var c := CSwap(b, s);
    var d, e, w := DoubleStep(u, c);
    var sum := AddStep(u, c);
    var diff := DifferenceStep(u, c);
    var plus, minus := 2 * (c.x2 * c.x3 - c.z2 * c.z3), 2 * (c.x3 * c.z2 - c.z3 * c.x2);
    SameProduct(d, d, c.x2 * c.x2 - c.z2 * c.z2, c.x2 * c.x2 - c.z2 * c.z2);
    SameProduct(e, w, 4 * (c.x2 * c.z2), c.x2 * c.x2 + 486662 * (c.x2 * c.z2) + c.z2 * c.z2);
    SameProduct(sum, sum, plus, plus);
    SameProduct(diff, diff, minus, minus);
    SameProduct(u, diff * diff, u, minus * minus);
    assert First(LadderStep(u, c)) == Double(First(c)) && Second(LadderStep(u, c)) == Sum(First(c), Second(c), u);
    SumCommutes(First(s), Second(s), u);
  }

  lemma LadderUnfold(k: nat, u: nat, t: nat)
    requires t < 255
    ensures Ladder(k, u, t) == CSwap(Bit(k, t), LadderStep(u, CSwap(Bit(k, t), Ladder(k, u, t + 1))))
  {
  }

  lemma OnlyOne(k: nat)
    requires Pow2(254) <= k < Pow2(255)
    ensures k / Pow2(254) == 1
  {
    hide Pow2;
    Pow2Next(254);
    DivIs(k, Pow2(254), 1, k - Pow2(254));
  }

  lemma {:induction false} NotNone(k: nat, t: nat)
    requires Pow2(254) <= k < Pow2(255) && t < 255
    ensures k / Pow2(t) > 0
    decreases 255 - t
  {
    hide Pow2;
    if t == 254 {
      OnlyOne(k);
    } else {
      NotNone(k, t + 1);
      Pow2Next(t);
      HalveFirst(k, Pow2(t));
    }
  }

  /** x25519: x / z of the multiple of the point by the decoded scalar, z being inverted by the power P - 2. */
  lemma ScalarMultIs(scalar: seq<Byte>, point: seq<Byte>)
    requires |scalar| == |point| == 32
    ensures var u := LittleEndian(point) % TWO255 % P;
            var (p, _) := Multiples(LittleEndian(Clamp(scalar)), u);
            ScalarMult(LittleEndian(Clamp(scalar)), LittleEndian(point) % TWO255) == p.x * Power(p.z, P - 2) % P
  {
    hide Clamp, LittleEndian, Ladder, Power, Pow2, Double, Sum;
    var k := LittleEndian(Clamp(scalar));
    ClampedForm(scalar);
    LadderMultiplies(k, LittleEndian(point) % TWO255 % P, 0);
    assert Pow2(0) == 1 by { PowZero(); }
  }

  lemma PowZero()
    ensures Pow2(0) == 1
  {
  }

  // ----- decoding a scalar

  lemma LowCleared(a: Byte)
    ensures And(a, 248) == a - a % 8
  {
    hide And;
    assert Pow2(5) == 32 by { Pow2Five(0); PowZero(); }
    AndStep(a, 248);
    AndStep(a / 2, 124);
    AndStep(a / 4, 62);
    AndMask(a / 8, 5);
    assert a / 2 / 2 == a / 4 && a / 4 / 2 == a / 8;
  }

  lemma TopMarked(b: Byte)
    ensures Or(And(b, 127), 64) == 64 + b % 64
  {
    hide And, Or, Pow2;
    SmallSeven();
    SmallSix();
    AndMask(b, 7);
    OrTop(b % 128, 6);
  }

  /** The highest bit is set, and the bits below it stay. */
  lemma {:induction false} OrTop(y: nat, k: nat)
    requires y < 2 * Pow2(k)
    ensures Or(y, Pow2(k)) == Pow2(k) + y % Pow2(k)
  {
    hide Or;
    OrStep(y, Pow2(k));
    if k == 0 {
      NoBits();
    } else {
      var m := Pow2(k - 1);
      OrTop(y / 2, k - 1);
      ModHalves(y, m);
    }
  }

  lemma ModHalves(y: nat, m: nat)
    requires m > 0
    ensures y % (2 * m) == y % 2 + 2 * (y / 2 % m) && y / 2 / m == y / (2 * m)
  {
    var h := y / 2;
    Distribute(2, m * (h / m), h % m);
    Associate(2, m, h / m);
    DivIs(y, 2 * m, h / m, y % 2 + 2 * (h % m));
  }

  lemma NoBits()
    ensures Or(0, 0) == 0 && Or(1, 0) == 1
  {
  }

  /** The first byte without its low three bits, the middle, and the last byte with bit 6 for its high two. */
  lemma ClampedBytes(s: seq<Byte>)
    requires |s| == 32
    ensures LittleEndian(Clamp(s)) == (s[0] as int - s[0] as int % 8) + 256 * LittleEndian(s[1..31]) + Pow2(248) * (64 + s[31] as int % 64)
  {
    hide LittleEndian, Pow2, Or, And;
    var c := Clamp(s);
    LowCleared(s[0]);
    TopMarked(s[31]);
    Split(c);
    assert c[1..31] == s[1..31];
  }

  /** The three low bits are cleared and bit 254 is the highest one; all bits in between stay. */
  lemma ClampIs(s: seq<Byte>)
    requires |s| == 32
    ensures LittleEndian(Clamp(s)) == Pow2(254) + LittleEndian(s) % Pow2(254) - LittleEndian(s) % 8
  {
    hide LittleEndian, Pow2, Clamp;
    ClampedBytes(s);
    Split(s);
    LittleEndianBound(s[1..31]);
    Pow2Add(8, 240);
    Pow2Eight();
    Pow2Add(6, 248);
    SmallSix();
    HeadOf(s);
    ClampSum(s[0], LittleEndian(s[1..31]), s[31], Pow2(248), Pow2(240));
  }

  lemma ClampSum(head: Byte, mid: nat, top: Byte, p: nat, p': nat)
    requires mid < p' && p == 256 * p'
    ensures (head as int - head as int % 8) + 256 * mid + p * (64 + top as int % 64)
         == 64 * p + (head as int + 256 * mid + p * top as int) % (64 * p) - head as int % 8
  {
    Distribute(p, 64, top as int % 64);
    TopModulo(head as int + 256 * mid, p, top);
  }

  lemma HeadOf(s: seq<Byte>)
    requires |s| == 32
    ensures LittleEndian(s) % 8 == s[0] as int % 8
  {
    LittleEndianHead(s);
  }

  lemma SmallSix()
    ensures Pow2(6) == 64
  {
    Pow2Five(1);
    assert Pow2(1) == 2;
  }

  lemma Split(s: seq<Byte>)
    requires |s| == 32
    ensures LittleEndian(s) == s[0] as int + 256 * LittleEndian(s[1..31]) + Pow2(248) * s[31] as int
  {
    hide LittleEndian, Pow2;
    var mid := s[1..31];
    assert s == s[..31] + [s[31]] && s[..31] == [s[0]] + mid;
    LittleEndianConcat(s[..31], [s[31]]);
    LittleEndianConcat([s[0]], mid);
    LittleEndianOne(s[31]);
    LittleEndianOne(s[0]);
    Pow2Eight();
  }

  lemma TopModulo(low: nat, p: nat, top: nat)
    requires low < p && p > 0
    ensures (low + p * top) % (64 * p) == low + p * (top % 64)
  {
    var q, r := top / 64, top % 64;
    Distribute(p, 64 * q, r);
    Associate(p, 64, q);
    Distribute(p, 63, -r);
    Sign(p, 63 - r);
    DivIs(low + p * top, 64 * p, q, low + p * r);
  }
}
