/** The Internet checksum (RFC 1071): unrolled, alignment-sensitive and over fragments, against one flat sum. */
module LwipChecksum {
  import opened Basics

  const MAX := 65535

  function Weigh(x: nat, low: bool): nat {
    if low then x else 256 * x
  }

  /** The sum of the little-endian 16-bit words of b; an odd last byte counts as a low byte. */
  function Flat(b: seq<Byte>): nat {
    if b == [] then 0
    else
      var n := |b| - 1;
      Flat(b[..n]) + Weigh(b[n], n % 2 == 0)
  }

  /** The same with the other byte of each word first. */
  function Cross(b: seq<Byte>): nat {
    if b == [] then 0
    else
      var n := |b| - 1;
      Cross(b[..n]) + Weigh(b[n], n % 2 != 0)
  }

  /** The one's-complement value of a sum: 0 only for 0. */
  function Ones(s: nat): (r: nat)
    ensures r <= MAX && (r == 0 <==> s == 0)
  {
    if s == 0 then 0 else (s - 1) % MAX + 1
  }

  /** Equal in one's complement. */
  ghost predicate Same(a: nat, b: nat) {
    (a == 0 <==> b == 0) && exists k: int :: a == b + MAX * k
  }

  lemma SameBy(a: nat, b: nat, k: int)
    requires a == b + MAX * k && (a == 0 <==> b == 0)
    ensures Same(a, b)
  {
  }

  lemma SameTrans(a: nat, b: nat, c: nat)
    requires Same(a, b) && Same(b, c)
    ensures Same(a, c)
  {
    var k: int :| a == b + MAX * k;
    var m: int :| b == c + MAX * m;
    SameBy(a, c, k + m);
  }

  lemma SameSym(a: nat, b: nat)
    requires Same(a, b)
    ensures Same(b, a)
  {
    var k: int :| a == b + MAX * k;
    SameBy(b, a, -k);
  }

  lemma SameSum(a: nat, b: nat, c: nat, d: nat)
    requires Same(a, b) && Same(c, d)
    ensures Same(a + c, b + d)
  {
    var k: int :| a == b + MAX * k;
    var m: int :| c == d + MAX * m;
    SameBy(a + c, b + d, k + m);
  }

  lemma SameTimes(a: nat, b: nat)
    requires Same(a, b)
    ensures Same(256 * a, 256 * b)
  {
    var k: int :| a == b + MAX * k;
    SameBy(256 * a, 256 * b, 256 * k);
  }

  lemma SameOnes(s: nat)
    ensures Same(Ones(s), s)
  {
    if s > 0 {
      SameBy(Ones(s), s, -((s - 1) / MAX));
    } else {
      SameBy(0, 0, 0);
    }
  }

  /** A 16-bit number is the one's-complement value of what it equals in one's complement. */
  lemma SameIsOnes(a: nat, s: nat)
    requires Same(a, s) && a <= MAX
    ensures a == Ones(s)
  {
    SameOnes(s);
    SameSym(Ones(s), s);
    SameTrans(a, s, Ones(s));
    var k: int :| a == Ones(s) + MAX * k;
    if a > 0 {
      assert -1 < k < 1;
    }
  }

  // ----- the macros

  function Fold(u: nat): nat {
    u / 0x1_0000 + u % 0x1_0000
  }

  function Swap(w: nat): nat {
    w % 256 * 256 + w / 256 % 256
  }

  lemma FoldSame(u: nat)
    ensures Same(Fold(u), u)
  {
    SameBy(Fold(u), u, -(u / 0x1_0000));
  }

  /** Swapping the bytes of a word multiplies by 256. */
  lemma SwapSame(w: nat)
    requires w <= MAX
    ensures Same(Swap(w), 256 * w) && Swap(w) <= MAX
  {
    SameBy(Swap(w), 256 * w, -(w / 256));
  }

  // ----- flat sums

  lemma {:induction false} Swapped(b: seq<Byte>)
    ensures Same(256 * Flat(b), Cross(b)) && Same(256 * Cross(b), Flat(b))
  {
    if b == [] {
      SameBy(0, 0, 0);
    } else {
      var n := |b| - 1;
      var x: nat := b[n];
      Swapped(b[..n]);
      SameBy(x, x, 0);
      SameBy(256 * x, 256 * x, 0);
      SameBy(256 * (256 * x), x, x);
      if n % 2 == 0 {
        SameSum(256 * Flat(b[..n]), Cross(b[..n]), 256 * x, 256 * x);
        SameSum(256 * Cross(b[..n]), Flat(b[..n]), 256 * (256 * x), x);
      } else {
        SameSum(256 * Flat(b[..n]), Cross(b[..n]), 256 * (256 * x), x);
        SameSum(256 * Cross(b[..n]), Flat(b[..n]), 256 * x, 256 * x);
      }
    }
  }

  lemma {:induction false} FlatConcat(a: seq<Byte>, b: seq<Byte>)
    ensures Flat(a + b) == Flat(a) + (if |a| % 2 == 0 then Flat(b) else Cross(b))
  {
    hide Weigh;
    if b == [] {
      assert a + b == a;
    } else {
      var n := |b| - 1;
      FlatConcat(a, b[..n]);
      assert (a + b)[..|a| + n] == a + b[..n];
      Parity(|a|, n);
    }
  }

  lemma Parity(x: nat, y: nat)
    ensures (x + y) % 2 == 0 <==> x % 2 == y % 2
  {
  }

  // ----- lwip_standard_chksum

  function Word16(b: seq<Byte>, i: nat): nat
    requires i + 2 <= |b|
  {
    Weigh(b[i], true) + Weigh(b[i + 1], false)
  }

  function Word32(b: seq<Byte>, i: nat): nat
    requires i + 4 <= |b|
  {
    Word16(b, i) + 0x1_0000 * Word16(b, i + 2)
  }

  lemma FlatTwo(b: seq<Byte>, i: nat)
    requires i + 2 <= |b| && i % 2 == 0
    ensures Flat(b[..i + 2]) == Flat(b[..i]) + Word16(b, i)
  {
    assert b[..i + 2][..i + 1] == b[..i + 1] && b[..i + 1][..i] == b[..i];
  }

  lemma FlatFour(b: seq<Byte>, i: nat)
    requires i + 4 <= |b| && i % 2 == 0
    ensures Same(Word32(b, i) + Flat(b[..i]), Flat(b[..i + 4]))
  {
    FlatTwo(b, i);
    FlatTwo(b, i + 2);
    SameBy(Word32(b, i) + Flat(b[..i]), Flat(b[..i + 4]), Word16(b, i + 2));
  }

  /** 32-bit addition with the carry added back. */
  method AddCarry(sum: nat, x: nat) returns (r: nat)
    requires sum < 0x1_0000_0000 && x < 0x1_0000_0000
    ensures r < 0x1_0000_0000 && Same(r, sum + x)
  {
    r := (sum + x) % 0x1_0000_0000;
    if r < sum {
      r := r + 1;
      assert sum + x >= 0x1_0000_0000;
      SameBy(r, sum + x, -0x1_0001);
    } else {
      SameBy(r, sum + x, 0);
    }
  }

  /** FOLD_U32T twice. */
  lemma FoldTwice(u: nat)
    requires u < 0x8000_0000
    ensures Fold(Fold(u)) <= MAX && Same(Fold(Fold(u)), u)
  {
    FoldSame(u);
    FoldSame(Fold(u));
    SameTrans(Fold(Fold(u)), Fold(u), u);
  }

  method AddFour(b: seq<Byte>, i: nat, sum: nat) returns (r: nat)
    requires i + 4 <= |b| && i % 2 == 0 && sum < 0x1_0000_0000 && Same(sum, Flat(b[..i]))
    ensures r < 0x1_0000_0000 && Same(r, Flat(b[..i + 4]))
  {
    hide Flat, Word32;
    Word32Fits(b, i);
    r := AddCarry(sum, Word32(b, i));
    SameBy(Word32(b, i), Word32(b, i), 0);
    SameSum(sum, Flat(b[..i]), Word32(b, i), Word32(b, i));
    SameTrans(r, sum + Word32(b, i), Word32(b, i) + Flat(b[..i]));
    FlatFour(b, i);
    SameTrans(r, Word32(b, i) + Flat(b[..i]), Flat(b[..i + 4]));
  }

  lemma Word32Fits(b: seq<Byte>, i: nat)
    requires i + 4 <= |b|
    ensures Word32(b, i) < 0x1_0000_0000
  {
  }

  lemma AddWord(b: seq<Byte>, i: nat, sum: nat)
    requires i + 2 <= |b| && i % 2 == 0 && Same(sum, Flat(b[..i]))
    ensures Same(sum + Word16(b, i), Flat(b[..i + 2])) && Word16(b, i) <= MAX
  {
    hide Flat, Same;
    FlatTwo(b, i);
    SameBy(Word16(b, i), Word16(b, i), 0);
    SameSum(sum, Flat(b[..i]), Word16(b, i), Word16(b, i));
  }

  /** Two double words at a time. */
  method SumDoubleWords(b: seq<Byte>, start: nat, first: nat) returns (sum: nat, i: nat)
    requires start <= |b| && start % 2 == 0 && first <= MAX && Same(first, Flat(b[..start]))
    ensures sum < 0x1_0000_0000 && i <= |b| < i + 8 && i % 2 == 0 && Same(sum, Flat(b[..i]))
  {
    hide Flat, Same;
    sum, i := first, start;
    while |b| - i > 7
      invariant i <= |b| && i % 2 == 0 && sum < 0x1_0000_0000 && Same(sum, Flat(b[..i]))
      decreases |b| - i
    {
      sum := AddFour(b, i, sum);
      sum := AddFour(b, i + 4, sum);
      i := i + 8;
    }
  }

  /**
   * The part of lwip_standard_chksum behind an odd first byte: a word to get to a multiple of four, two
   * double words at a time, and the words that are left. four tells whether the data begins there.
   */
  method SumWords(b: seq<Byte>, four: bool) returns (sum: nat, i: nat)
    ensures sum <= 0x1_FFFE + 3 * MAX && i <= |b| <= i + 1 && i % 2 == 0 && Same(sum, Flat(b[..i]))
  {
    hide Flat, Same;
    sum, i := 0, 0;
    NothingSummed(b);
    if !four && |b| > 1 {
      AddWord(b, 0, 0);
      sum, i := Word16(b, 0), 2;
    }
    sum, i := SumDoubleWords(b, i, sum);
    FoldSame(sum);
    SameTrans(Fold(sum), sum, Flat(b[..i]));
    sum := Fold(sum);
    ghost var words := 0;
    while |b| - i > 1
      invariant i <= |b| && i % 2 == 0 && |b| - i + 2 * words < 8 && sum <= 0x1_FFFE + words * MAX
      invariant Same(sum, Flat(b[..i]))
      decreases |b| - i
    {
      AddWord(b, i, sum);
      sum := sum + Word16(b, i);
      i, words := i + 2, words + 1;
    }
  }

  lemma NothingSummed(b: seq<Byte>)
    ensures Same(0, Flat(b[..0]))
  {
    SameBy(0, 0, 0);
  }

  /** The byte that is left over counts as a low byte. */
  lemma TailByte(b: seq<Byte>, i: nat, sum: nat, t: nat)
    requires i <= |b| <= i + 1 && i % 2 == 0 && Same(sum, Flat(b[..i]))
    requires t == if i < |b| then b[i] else 0
    ensures Same(sum + t, Flat(b))
  {
    hide Same;
    SameBy(t, t, 0);
    if i < |b| {
      SameSum(sum, Flat(b[..i]), t, t);
    } else {
      assert b[..i] == b;
    }
  }

  /** An odd start: the first byte was added as a high byte, and the bytes of the result are swapped. */
  lemma OddStart(b: seq<Byte>, v: nat)
    requires b != [] && v <= MAX && Same(v, Flat(b[1..]) + 256 * b[0] as int)
    ensures Same(Swap(v), Flat(b))
  {
    hide Same, Swap;
    var x: nat, rest := b[0], b[1..];
    SwapSame(v);
    SameTimes(v, Flat(rest) + 256 * x);
    SameTrans(Swap(v), 256 * v, 256 * (Flat(rest) + 256 * x));
    Swapped(rest);
    SameBy(256 * (256 * x), x, x);
    SameSum(256 * Flat(rest), Cross(rest), 256 * (256 * x), x);
    SameTrans(Swap(v), 256 * (Flat(rest) + 256 * x), Cross(rest) + x);
    assert [b[0]] + rest == b;
    FlatConcat([b[0]], rest);
    FlatOne(b[0]);
  }

  /** Only zeros add up to 0. */
  lemma {:induction false} FlatZero(b: seq<Byte>)
    ensures Flat(b) == 0 <==> forall i :: 0 <= i < |b| ==> b[i] == 0
  {
    if b != [] {
      var n := |b| - 1;
      FlatZero(b[..n]);
      assert forall i :: 0 <= i < n ==> b[..n][i] == b[i];
    }
  }

  lemma FlatOne(x: Byte)
    ensures Flat([x]) == x
  {
    assert [x][..0] == [];
  }

  /** lwip_standard_chksum, algorithm 3: the same value for every address the data may have. */
  method StandardChecksum(b: seq<Byte>, address: nat) returns (r: nat)
    ensures r == Ones(Flat(b))
    ensures r == 0 <==> forall i :: 0 <= i < |b| ==> b[i] == 0
  {
    hide Same, Flat, Swap, Fold, Ones;
    FlatZero(b);
    var t: nat, body, odd := 0, b, address % 2 == 1;
    if odd && |b| > 0 {
      t := 256 * b[0] as int;
      body := b[1..];
    }
    var sum, i := SumWords(body, (address + |b| - |body|) % 4 == 0);
    ghost var tail: nat := if i < |body| then body[i] else 0;
    TailByte(body, i, sum, tail);
    SameBy(t, t, 0);
    SameSum(sum + tail, Flat(body), t, t);
    if i < |body| {
      t := t + body[i];
    }
    FoldTwice(sum + t);
    var v := Fold(Fold(sum + t));
    SameTrans(v, sum + t, Flat(body) + t - tail);
    r := v;
    if odd {
      if b != [] {
        OddStart(b, v);
      } else {
        EmptySwapped(v);
      }
      SwapSame(v);
      r := Swap(v);
    }
    SameIsOnes(r, Flat(b));
  }

  lemma EmptySwapped(v: nat)
    requires Same(v, Flat([]))
    ensures Same(Swap(v), Flat([]))
  {
    SameBy(0, 0, 0);
  }

  // ----- chains of buffers

  /** A chain of pbufs: the payload of each, and the address it lies at. */
  datatype Chain = End | Link(payload: seq<Byte>, address: nat, next: Chain)

  function Bytes(c: Chain): seq<Byte> {
    match c
    case End => []
    case Link(payload, _, next) => payload + Bytes(next)
  }

  /** What the accumulator stands for while an odd number of bytes is behind it. */
  ghost function Turned(s: nat, swapped: bool): nat {
    if swapped then 256 * s else s
  }

  /** One more buffer. */
  lemma ChainStep(done: seq<Byte>, x: seq<Byte>, start: nat, acc: nat, chk: nat)
    requires acc <= MAX && chk <= MAX && Same(chk, Flat(x))
    requires Same(acc, Turned(start + Flat(done), |done| % 2 == 1))
    ensures var v := Fold(acc + chk);
      v <= MAX && Same(v, Turned(start + Flat(done + x), |done| % 2 == 1))
  {
    hide Same, Flat, Cross;
    var s, f := start + Flat(done), Flat(done + x);
    FoldSame(acc + chk);
    FlatConcat(done, x);
    if |done| % 2 == 1 {
      Swapped(x);
      SameSym(256 * Cross(x), Flat(x));
      SameTrans(chk, Flat(x), 256 * Cross(x));
      SameSum(acc, 256 * s, chk, 256 * Cross(x));
      SameTrans(Fold(acc + chk), acc + chk, 256 * s + 256 * Cross(x));
    } else {
      SameSum(acc, s, chk, Flat(x));
      SameTrans(Fold(acc + chk), acc + chk, s + Flat(x));
    }
  }

  /** The swap behind a buffer of odd length turns the accumulator over, and a second one turns it back. */
  lemma TurnStep(s: nat, acc: nat, swapped: bool)
    requires acc <= MAX && Same(acc, Turned(s, swapped))
    ensures Swap(acc) <= MAX && Same(Swap(acc), Turned(s, !swapped))
  {
    hide Same, Swap;
    SwapSame(acc);
    SameTimes(acc, Turned(s, swapped));
    SameTrans(Swap(acc), 256 * acc, 256 * Turned(s, swapped));
    if swapped {
      SameBy(256 * (256 * s), s, s);
      SameTrans(Swap(acc), 256 * (256 * s), s);
    }
  }

  /** The loop of inet_chksum_pbuf and of inet_cksum_pseudo_base over a chain. */
  method SumChain(c: Chain, start: nat) returns (acc: nat)
    requires start <= MAX
    ensures acc <= MAX && Same(acc, start + Flat(Bytes(c)))
  {
    hide Same, Flat, Fold, Swap, Ones;
    acc := start;
    var q, swapped := c, false;
    ghost var done: seq<Byte> := [];
    NothingSummed([]);
    SameBy(start, start, 0);
    assert Flat([]) == 0 by { FlatNothing(); }
    while q != End
      invariant acc <= MAX && swapped == (|done| % 2 == 1) && done + Bytes(q) == Bytes(c)
      invariant Same(acc, Turned(start + Flat(done), swapped))
      decreases q
    {
      var chk := StandardChecksum(q.payload, q.address);
      SameOnes(Flat(q.payload));
      ChainStep(done, q.payload, start, acc, chk);
      acc := Fold(acc + chk);
      Parity(|done|, |q.payload|);
      done := done + q.payload;
      if |q.payload| % 2 != 0 {
        TurnStep(start + Flat(done), acc, swapped);
        swapped := !swapped;
        acc := Swap(acc);
      }
      q := q.next;
    }
    assert done == Bytes(c);
    if swapped {
      TurnStep(start + Flat(done), acc, swapped);
      acc := Swap(acc);
    }
  }

  lemma FlatNothing()
    ensures Flat([]) == 0
  {
  }

  /** inet_chksum_pbuf: the complement of the checksum of the bytes of the chain, however they are cut up. */
  method ChecksumChain(c: Chain) returns (r: nat)
    ensures r == MAX - Ones(Flat(Bytes(c)))
  {
    var acc := SumChain(c, 0);
    SameIsOnes(acc, Flat(Bytes(c)));
    r := MAX - acc;
  }

  /** The pseudo header of RFC 793, section 3.1. */
  function PseudoHeader(source: seq<Byte>, destination: seq<Byte>, protocol: Byte, length: nat): seq<Byte>
    requires length <= MAX
  {
    source + destination + [0, protocol] + [length / 256, length % 256]
  }

  lemma FlatPair(x: Byte, y: Byte)
    ensures Flat([x, y]) == x + 256 * y as int
  {
    var b: seq<Byte> := [x, y];
    assert b[..1] == [x];
    FlatOne(x);
    assert Flat(b) == Flat(b[..1]) + Weigh(b[1], false);
  }

  lemma FlatAddress(a: seq<Byte>)
    requires |a| == 4
    ensures Flat(a) == Word16(a, 0) + Word16(a, 2) <= 2 * MAX
  {
    FlatTwo(a, 0);
    FlatTwo(a, 2);
    assert a[..4] == a && a[..0] == [];
  }

  lemma FlatPseudo(source: seq<Byte>, destination: seq<Byte>, protocol: Byte, length: nat, b: seq<Byte>)
    requires |source| == |destination| == 4 && length <= MAX
    ensures Flat(PseudoHeader(source, destination, protocol, length) + b)
         == Flat(source) + Flat(destination) + 256 * protocol as int + Swap(length) + Flat(b)
  {
    hide Flat, Cross;
    FlatConcat(source, destination);
    FlatConcat(source + destination, [0, protocol]);
    FlatConcat(source + destination + [0, protocol], [length / 256, length % 256]);
    FlatConcat(PseudoHeader(source, destination, protocol, length), b);
    FlatPair(0, protocol);
    FlatPair(length / 256, length % 256);
  }

  /** inet_chksum_pseudo, for addresses in network byte order. */
  method ChecksumPseudo(c: Chain, protocol: Byte, length: nat, source: seq<Byte>, destination: seq<Byte>) returns (r: nat)
    requires length <= MAX && |source| == |destination| == 4
    ensures r == MAX - Ones(Flat(PseudoHeader(source, destination, protocol, length) + Bytes(c)))
  {
    hide Same, Flat, Fold, Swap, Ones, PseudoHeader, Word16;
    var start := Word16(source, 0) + Word16(source, 2) + Word16(destination, 0) + Word16(destination, 2);
    FlatAddress(source);
    FlatAddress(destination);
    FoldTwice(start);
    var acc := SumChain(c, Fold(Fold(start)));
    SameBy(Flat(Bytes(c)), Flat(Bytes(c)), 0);
    SameSum(Fold(Fold(start)), start, Flat(Bytes(c)), Flat(Bytes(c)));
    SameTrans(acc, Fold(Fold(start)) + Flat(Bytes(c)), start + Flat(Bytes(c)));
    SwapSame(length);
    var tail := 256 * protocol as int + Swap(length);
    SameBy(tail, tail, 0);
    SameSum(acc, start + Flat(Bytes(c)), tail, tail);
    acc := acc + tail;
    FoldTwice(acc);
    SameTrans(Fold(Fold(acc)), acc, start + Flat(Bytes(c)) + tail);
    FlatPseudo(source, destination, protocol, length, Bytes(c));
    SameIsOnes(Fold(Fold(acc)), start + Flat(Bytes(c)) + tail);
    r := MAX - Fold(Fold(acc));
  }

  // ----- what the checksum is for

  lemma FlatReplace(a: seq<Byte>, x: seq<Byte>, b: seq<Byte>)
    requires |a| % 2 == 0 && |x| == 2
    ensures Flat(a + x + b) == Flat(a) + Flat(x) + Flat(b)
  {
    hide Flat, Cross;
    FlatConcat(a, x);
    FlatConcat(a + x, b);
  }

  /**
   * A message with the checksum stored at an even offset, where there were zeros, has the checksum 0
   * for whoever receives it.
   */
  lemma StoredChecksumVerifies(a: seq<Byte>, b: seq<Byte>)
    requires |a| % 2 == 0
    ensures var r := MAX - Ones(Flat(a + [0, 0] + b));
      MAX - Ones(Flat(a + [r % 256, r / 256] + b)) == 0
  {
    hide Flat;
    var s := Flat(a + [0, 0] + b);
    var r := MAX - Ones(s);
    FlatPair(0, 0);
    FlatPair(r % 256, r / 256);
    FlatReplace(a, [0, 0], b);
    FlatReplace(a, [r % 256, r / 256], b);
    SameOnes(s);
    SameSym(Ones(s), s);
    var k: int :| s == Ones(s) + MAX * k;
    assert Flat(a + [r % 256, r / 256] + b) == s + r == MAX * (k + 1);
    SameBy(MAX, MAX * (k + 1), -k);
    SameIsOnes(MAX, MAX * (k + 1));
  }
}
