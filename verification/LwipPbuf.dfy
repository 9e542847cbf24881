/** Chains of packet buffers as one byte string cut into pieces. */
module LwipPbuf {
  import opened Basics

  type U16 = x: int | 0 <= x < 0x1_0000 witness 0

  /** The low 16 bits, as a cast to u16_t keeps them. */
  function Cast16(x: int): U16 {
    x % 0x1_0000
  }

  function Add16(x: int, y: int): U16 {
    Cast16(x + y)
  }

  function Sub16(x: int, y: int): U16 {
    Cast16(x - y)
  }

  datatype Err = ErrOk | ErrMem | ErrArg

  /** The pieces of a byte string put end to end. */
  function Join(parts: seq<seq<Byte>>): seq<Byte> {
    if parts == [] then [] else parts[0] + Join(parts[1..])
  }

  lemma {:induction false} JoinConcat(a: seq<seq<Byte>>, b: seq<seq<Byte>>)
    ensures Join(a + b) == Join(a) + Join(b)
  {
    if a == [] {
      assert a + b == b;
    } else {
      JoinConcat(a[1..], b);
      assert (a + b)[1..] == a[1..] + b && (a + b)[0] == a[0];
      var x, y, z := a[0], Join(a[1..]), Join(b);
      assert x + (y + z) == (x + y) + z;
    }
  }

  lemma JoinSome(parts: seq<seq<Byte>>)
    requires Join(parts) != []
    ensures parts != []
  {
  }

  lemma JoinOne(p: seq<Byte>)
    ensures Join([p]) == p
  {
    assert Join([]) == [];
  }

  lemma JoinNone(parts: seq<seq<Byte>>)
    ensures parts[..0] == [] && Join(parts[..0]) == []
    ensures parts[|parts|..] == [] && Join(parts[|parts|..]) == []
  {
  }

  lemma JoinCut(parts: seq<seq<Byte>>, i: nat)
    requires i <= |parts|
    ensures Join(parts) == Join(parts[..i]) + Join(parts[i..])
  {
    hide Join;
    assert parts == parts[..i] + parts[i..];
    JoinConcat(parts[..i], parts[i..]);
  }

  lemma JoinTake(parts: seq<seq<Byte>>, i: nat)
    requires i < |parts|
    ensures Join(parts[..i + 1]) == Join(parts[..i]) + parts[i]
  {
    hide Join;
    JoinOne(parts[i]);
    JoinConcat(parts[..i], [parts[i]]);
    assert parts[..i + 1] == parts[..i] + [parts[i]];
  }

  lemma JoinDrop(parts: seq<seq<Byte>>, i: nat)
    requires i < |parts|
    ensures Join(parts[i..]) == parts[i] + Join(parts[i + 1..])
  {
    hide Join;
    JoinOne(parts[i]);
    JoinConcat([parts[i]], parts[i + 1..]);
    assert parts[i..] == [parts[i]] + parts[i + 1..];
  }

  /** The string around piece i. */
  lemma JoinAround(parts: seq<seq<Byte>>, i: nat)
    requires i < |parts|
    ensures Join(parts) == Join(parts[..i]) + parts[i] + Join(parts[i + 1..])
    ensures Join(parts[..i + 1]) == Join(parts[..i]) + parts[i]
    ensures Join(parts[i..]) == parts[i] + Join(parts[i + 1..])
  {
    hide Join;
    JoinTake(parts, i);
    JoinDrop(parts, i);
    JoinCut(parts, i + 1);
  }

  /** The string s with v written over it at position o. */
  function Overwrite(s: seq<Byte>, o: nat, v: seq<Byte>): (r: seq<Byte>)
    requires o + |v| <= |s|
    ensures |r| == |s|
  {
    s[..o] + v + s[o + |v|..]
  }

  /** The bytes from start on, at most n. */
  function Window(s: seq<Byte>, start: nat, n: nat): seq<Byte> {
    if start >= |s| then [] else if start + n <= |s| then s[start..start + n] else s[start..]
  }

  ghost predicate MatchesAt(s: seq<Byte>, m: seq<Byte>, k: nat) {
    k + |m| <= |s| && s[k..k + |m|] == m
  }

  /** 0 when x and y are the same, else one more than the first index where they differ. */
  function FirstDifference(x: seq<Byte>, y: seq<Byte>): (r: nat)
    requires |x| == |y|
    ensures r <= |x|
  {
    if x == y then 0 else if x[0] != y[0] then 1 else 1 + FirstDifference(x[1..], y[1..])
  }

  lemma {:induction false} DifferenceAt(x: seq<Byte>, y: seq<Byte>, i: nat)
    requires |x| == |y| && i < |x| && x[i] != y[i] && forall j :: 0 <= j < i ==> x[j] == y[j]
    ensures FirstDifference(x, y) == i + 1
  {
    if i > 0 {
      DifferenceAt(x[1..], y[1..], i - 1);
    }
  }

  /** The first difference is the last byte. */
  lemma {:induction false} DifferenceLast(x: seq<Byte>, y: seq<Byte>)
    requires |x| == |y|
    ensures FirstDifference(x, y) == |x| <==> |x| == 0 || (x[..|x| - 1] == y[..|x| - 1] && x[|x| - 1] != y[|x| - 1])
  {
    if |x| > 1 && x[0] == y[0] && x != y {
      var n := |x| - 1;
      DifferenceLast(x[1..], y[1..]);
      assert x[1..][n - 1] == x[n] && y[1..][n - 1] == y[n];
      assert x[..n] == [x[0]] + x[1..][..n - 1] && y[..n] == [y[0]] + y[1..][..n - 1];
    }
  }

  lemma DifferenceNone(x: seq<Byte>, y: seq<Byte>)
    requires |x| == |y| && forall j :: 0 <= j < |x| ==> x[j] == y[j]
    ensures FirstDifference(x, y) == 0
  {
    assert x == y;
  }

  lemma DifferenceZero(x: seq<Byte>, y: seq<Byte>)
    requires |x| == |y|
    ensures FirstDifference(x, y) == 0 <==> x == y
  {
  }

  /** Writing v into piece i at offset o. */
  lemma JoinOverwrite(parts: seq<seq<Byte>>, i: nat, o: nat, v: seq<Byte>)
    requires i < |parts| && o + |v| <= |parts[i]|
    ensures |Join(parts[..i])| + o + |v| <= |Join(parts)|
    ensures Join(parts[i := Overwrite(parts[i], o, v)]) == Overwrite(Join(parts), |Join(parts[..i])| + o, v)
  {
    hide Join;
    var w := Overwrite(parts[i], o, v);
    var next := parts[i := w];
    assert next[..i] == parts[..i] && next[i + 1..] == parts[i + 1..];
    JoinAround(parts, i);
    JoinAround(next, i);
    var before, after := Join(parts[..i]), Join(parts[i + 1..]);
    assert before + (parts[i][..o] + v + parts[i][o + |v|..]) + after
        == (before + parts[i] + after)[..|before| + o] + v + (before + parts[i] + after)[|before| + o + |v|..];
  }

  lemma OverwriteNext(text: seq<Byte>, was: seq<Byte>, v: seq<Byte>)
    requires |text| + |v| <= |was|
    ensures Overwrite(text + was[|text|..], |text|, v) == text + v + was[|text + v|..]
  {
    var s := text + was[|text|..];
    assert s[..|text|] == text && s[|text| + |v|..] == was[|text + v|..];
  }

  lemma OverwriteTwice(s: seq<Byte>, o: nat, v: seq<Byte>, w: seq<Byte>)
    requires o + |v| + |w| <= |s|
    ensures Overwrite(Overwrite(s, o, v), o + |v|, w) == Overwrite(s, o, v + w)
  {
    var t := Overwrite(s, o, v);
    assert t[..o + |v|] == s[..o] + v && t[o + |v| + |w|..] == s[o + |v| + |w|..];
  }

  const NULL := -1

  function At(c: seq<nat>, i: nat): int {
    if i < |c| then c[i] else NULL
  }

  ghost predicate Distinct(c: seq<nat>) {
    forall i, j :: 0 <= i < j < |c| ==> c[i] != c[j]
  }

  ghost predicate Node(next: seq<int>, c: seq<nat>, i: nat)
    requires i < |c|
  {
    c[i] < |next| && next[c[i]] == At(c, i + 1)
  }

  /** A list linked through next. */
  ghost predicate Linked(next: seq<int>, c: seq<nat>) {
    Distinct(c) && forall i :: 0 <= i < |c| ==> Node(next, c, i)
  }

  ghost predicate Sized(len: seq<U16>, payload: seq<seq<Byte>>, c: seq<nat>) {
    forall i :: 0 <= i < |c| ==> c[i] < |len| && c[i] < |payload| && len[c[i]] <= |payload[c[i]]|
  }

  ghost function Parts(len: seq<U16>, payload: seq<seq<Byte>>, c: seq<nat>): (r: seq<seq<Byte>>)
    requires Sized(len, payload, c)
    ensures |r| == |c| && forall i :: 0 <= i < |c| ==> r[i] == payload[c[i]][..len[c[i]]]
  {
    seq(|c|, i requires 0 <= i < |c| => payload[c[i]][..len[c[i]]])
  }

  ghost function TotalAt(tot: seq<U16>, c: seq<nat>, i: nat): U16
    requires i < |c| ==> c[i] < |tot|
  {
    if i < |c| then tot[c[i]] else 0
  }

  ghost predicate Counted(len: seq<U16>, tot: seq<U16>, c: seq<nat>, i: nat)
    requires i < |c|
  {
    && c[i] < |len| && c[i] < |tot| && (i + 1 < |c| ==> c[i + 1] < |tot|)
    && tot[c[i]] == Add16(len[c[i]], TotalAt(tot, c, i + 1))
  }

  /** Each tot_len is len plus the next tot_len, cut to 16 bits. */
  ghost predicate Totals(len: seq<U16>, tot: seq<U16>, c: seq<nat>) {
    forall i :: 0 <= i < |c| ==> Counted(len, tot, c, i)
  }

  lemma KnownAll(text: seq<Byte>)
    ensures Cast16(|text|) <= |text| && (|text| < 0x1_0000 ==> text[..Cast16(|text|)] == text)
  {
  }

  lemma CastShift(x: int, k: int)
    ensures Cast16(x + 0x1_0000 * k) == Cast16(x)
  {
  }

  lemma CastSum(x: int, y: int)
    ensures Cast16(Cast16(x) + y) == Cast16(x + y) && Cast16(x + Cast16(y)) == Cast16(x + y)
    ensures Cast16(Cast16(x) - y) == Cast16(x - y)
  {
    CastShift(x + y, -(x / 0x1_0000));
    CastShift(x + y, -(y / 0x1_0000));
    CastShift(x - y, -(x / 0x1_0000));
  }

  /** Adding t to a total and to the one after it keeps the two in step. */
  lemma CastStep(len: nat, after: nat, t: nat)
    ensures Add16(Add16(len, after), t) == Add16(len, Add16(after, t))
    ensures Sub16(Add16(len, after), t) == Add16(len, Sub16(after, t))
  {
    CastSum(len + after, t);
    CastSum(len, after + t);
    CastSum(len, after - t);
  }

  /** A tot_len is the length of everything from there on, cut to 16 bits. */
  lemma {:induction false} TotalIs(len: seq<U16>, tot: seq<U16>, payload: seq<seq<Byte>>, c: seq<nat>, i: nat)
    requires Sized(len, payload, c) && Totals(len, tot, c) && i <= |c|
    ensures i < |c| ==> c[i] < |tot|
    ensures TotalAt(tot, c, i) == Cast16(|Join(Parts(len, payload, c)[i..])|)
    decreases |c| - i
  {
    hide Join;
    if i == |c| {
      JoinNone(Parts(len, payload, c));
    } else {
      assert Counted(len, tot, c, i);
      TotalIs(len, tot, payload, c, i + 1);
      JoinAround(Parts(len, payload, c), i);
      CastSum(len[c[i]], |Join(Parts(len, payload, c)[i + 1..])|);
    }
  }

  /** Every tot_len is exact just when the whole chain fits 16 bits. */
  lemma ExactIffFits(len: seq<U16>, tot: seq<U16>, payload: seq<seq<Byte>>, c: seq<nat>)
    requires Sized(len, payload, c) && Totals(len, tot, c)
    ensures forall i :: 0 <= i < |c| ==> c[i] < |tot|
    ensures |Join(Parts(len, payload, c))| < 0x1_0000
       <==> forall i :: 0 <= i <= |c| ==> TotalAt(tot, c, i) == |Join(Parts(len, payload, c)[i..])|
  {
    hide Join, Totals, Sized;
    var parts := Parts(len, payload, c);
    forall i | 0 <= i <= |c|
      ensures i < |c| ==> c[i] < |tot|
      ensures TotalAt(tot, c, i) == Cast16(|Join(parts[i..])|) && |Join(parts[i..])| <= |Join(parts)|
    {
      TotalIs(len, tot, payload, c, i);
      JoinCut(parts, i);
    }
    assert parts[0..] == parts;
  }

  lemma DistinctConcat(a: seq<nat>, b: seq<nat>)
    requires Distinct(a) && Distinct(b) && forall x :: x in a ==> x !in b
    ensures Distinct(a + b)
  {
    var c := a + b;
    forall i, j | 0 <= i < j < |c|
      ensures c[i] != c[j]
    {
      if i < |a| && |a| <= j {
        assert c[i] in a && c[j] in b;
      }
    }
  }

  lemma CatLinks(was: seq<int>, next: seq<int>, a: seq<nat>, b: seq<nat>)
    requires Linked(was, a) && Linked(was, b) && a != [] && b != [] && forall x :: x in a ==> x !in b
    requires a[|a| - 1] < |was| && next == was[a[|a| - 1] := b[0]]
    ensures Linked(next, a + b)
  {
    var c := a + b;
    forall j | 0 <= j < |c|
      ensures Node(next, c, j)
    {
      if j < |a| {
        assert Node(was, a, j);
      } else {
        assert b[j - |a|] in b && a[|a| - 1] in a;
        assert Node(was, b, j - |a|) && c[j] == b[j - |a|] && At(c, j + 1) == At(b, j - |a| + 1);
      }
    }
    DistinctConcat(a, b);
  }

  lemma CatTotals(len: seq<U16>, was: seq<U16>, tot: seq<U16>, a: seq<nat>, b: seq<nat>)
    requires Totals(len, was, a) && Totals(len, was, b) && a != [] && b != [] && b[0] < |was| == |tot|
    requires forall x :: x in a && x < |was| ==> tot[x] == Add16(was[x], was[b[0]])
    requires forall x :: x in b && x < |was| ==> tot[x] == was[x]
    ensures Totals(len, tot, a + b)
  {
    hide Add16, Sub16;
    var c := a + b;
    forall j | 0 <= j < |c|
      ensures Counted(len, tot, c, j)
    {
      if j < |a| {
        assert Counted(len, was, a, j) && c[j] == a[j] && a[j] in a && b[0] in b;
        CastStep(len[a[j]], TotalAt(was, a, j + 1), was[b[0]]);
        AddExact(0, was[b[0]]);
        if j + 1 < |a| {
          assert a[j + 1] in a && c[j + 1] == a[j + 1];
        }
      } else {
        assert Counted(len, was, b, j - |a|) && c[j] == b[j - |a|] && b[j - |a|] in b;
        if j + 1 < |c| {
          assert c[j + 1] == b[j + 1 - |a|] && b[j + 1 - |a|] in b;
        }
      }
    }
  }

  lemma CatParts(len: seq<U16>, payload: seq<seq<Byte>>, a: seq<nat>, b: seq<nat>)
    requires Sized(len, payload, a) && Sized(len, payload, b)
    ensures Sized(len, payload, a + b)
    ensures Parts(len, payload, a + b) == Parts(len, payload, a) + Parts(len, payload, b)
  {
  }

  /** The chain from its i-th buffer on. */
  lemma TailOf(next: seq<int>, len: seq<U16>, payload: seq<seq<Byte>>, c: seq<nat>, i: nat)
    requires Linked(next, c) && Sized(len, payload, c) && i <= |c|
    ensures Linked(next, c[i..]) && Sized(len, payload, c[i..])
    ensures Parts(len, payload, c[i..]) == Parts(len, payload, c)[i..]
    ensures Join(Parts(len, payload, c)) == Join(Parts(len, payload, c)[..i]) + Join(Parts(len, payload, c[i..]))
    ensures At(c[i..], 0) == At(c, i)
  {
    hide Join;
    var d := c[i..];
    forall j | 0 <= j < |d|
      ensures Node(next, d, j)
    {
      assert Node(next, c, i + j) && d[j] == c[i + j] && At(d, j + 1) == At(c, i + j + 1);
    }
    assert Parts(len, payload, d) == Parts(len, payload, c)[i..];
    JoinCut(Parts(len, payload, c), i);
  }

  lemma TailTotals(len: seq<U16>, tot: seq<U16>, c: seq<nat>, i: nat)
    requires Totals(len, tot, c) && i <= |c|
    ensures Totals(len, tot, c[i..])
  {
    var d := c[i..];
    forall j | 0 <= j < |d|
      ensures Counted(len, tot, d, j)
    {
      assert Counted(len, tot, c, i + j) && d[j] == c[i + j];
      assert j + 1 < |d| ==> d[j + 1] == c[i + j + 1];
    }
  }

  /** Writing v at offset o into the payload of the i-th buffer of a chain. */
  lemma PutPiece(len: seq<U16>, payload: seq<seq<Byte>>, c: seq<nat>, i: nat, o: nat, v: seq<Byte>)
    requires Sized(len, payload, c) && Distinct(c) && i < |c| && o + |v| <= len[c[i]]
    ensures var next := payload[c[i] := Overwrite(payload[c[i]], o, v)];
            var parts := Parts(len, payload, c);
            && Sized(len, next, c)
            && Parts(len, next, c) == parts[i := Overwrite(parts[i], o, v)]
            && |Join(parts[..i])| + o + |v| <= |Join(parts)|
            && Join(Parts(len, next, c)) == Overwrite(Join(parts), |Join(parts[..i])| + o, v)
            && |Join(Parts(len, next, c)[..i + 1])| == |Join(parts[..i])| + |parts[i]|
  {
    hide Join;
    var next := payload[c[i] := Overwrite(payload[c[i]], o, v)];
    var parts := Parts(len, payload, c);
    forall j | 0 <= j < |c| && j != i
      ensures c[j] != c[i]
    {
    }
    assert next[c[i]][..len[c[i]]] == Overwrite(parts[i], o, v);
    assert Parts(len, next, c) == parts[i := Overwrite(parts[i], o, v)];
    JoinOverwrite(parts, i, o, v);
    JoinAround(Parts(len, next, c), i);
    assert Parts(len, next, c)[..i] == parts[..i];
  }

  /**
   * Dropping one reference to a chain: the first n buffers had no other one, and the one after them, if there is one,
   * had more.
   */
  ghost predicate Released(was: seq<nat>, now: seq<nat>, c: seq<nat>, n: nat) {
    && n <= |c| && |was| == |now|
    && (forall i :: 0 <= i < n ==> c[i] < |was| && was[c[i]] == 1 && now[c[i]] == 0)
    && (n < |c| ==> c[n] < |was| && was[c[n]] > 1 && now[c[n]] == was[c[n]] - 1)
    && (forall x :: 0 <= x < |was| && x !in c[..n] && (n < |c| ==> x != c[n]) ==> now[x] == was[x])
  }

  lemma FirstTotal(len: seq<U16>, tot: seq<U16>, payload: seq<seq<Byte>>, c: seq<nat>)
    requires Sized(len, payload, c) && Totals(len, tot, c) && c != []
    ensures c[0] < |tot| && tot[c[0]] == Cast16(|Join(Parts(len, payload, c))|) <= |Join(Parts(len, payload, c))|
  {
    hide Join;
    TotalIs(len, tot, payload, c, 0);
    assert Parts(len, payload, c)[0..] == Parts(len, payload, c);
  }

  lemma DistinctOf(next: seq<int>, c: seq<nat>)
    requires Linked(next, c)
    ensures Distinct(c)
  {
  }

  lemma TakeStart(text: seq<Byte>, data: seq<Byte>)
    ensures Overwrite(text, 0, data[..0]) == text
  {
  }

  /** While bytes are left to put, there is a buffer to put them in. */
  lemma TakeMore(parts: seq<seq<Byte>>, i: nat, copied: nat, n: nat)
    requires i <= |parts| && copied == |Join(parts[..i])| && copied < n <= |Join(parts)|
    ensures i < |parts|
  {
    hide Join;
    JoinCut(parts, i);
    JoinNone(parts);
  }

  lemma TakeNext(text: seq<Byte>, data: seq<Byte>, copied: nat, v: seq<Byte>)
    requires copied + |v| <= |data| && copied + |v| <= |text| && v == data[copied..copied + |v|]
    ensures Overwrite(Overwrite(text, 0, data[..copied]), copied, v) == Overwrite(text, 0, data[..copied + |v|])
  {
    assert data[..copied] + v == data[..copied + |v|];
    OverwriteTwice(text, 0, data[..copied], v);
  }

  /** The tot_len of the i-th buffer says how much the chain holds from there on, cut to 16 bits. */
  lemma RestTotal(len: seq<U16>, tot: seq<U16>, payload: seq<seq<Byte>>, c: seq<nat>, i: nat)
    requires Sized(len, payload, c) && Totals(len, tot, c) && i < |c|
    ensures c[i] < |tot|
    ensures var text, at := Join(Parts(len, payload, c)), |Join(Parts(len, payload, c)[..i])|;
            at <= |text| && tot[c[i]] == Cast16(|text| - at) <= |text| - at
  {
    hide Join;
    TotalIs(len, tot, payload, c, i);
    JoinCut(Parts(len, payload, c), i);
  }

  /** What the tot_len of a buffer admits behind that buffer, the next one admits. */
  lemma NextTotal(len: seq<U16>, tot: seq<U16>, payload: seq<seq<Byte>>, c: seq<nat>, k: nat, n: nat)
    requires Sized(len, payload, c) && Totals(len, tot, c) && k + 1 < |c| && Sized(len, payload, c[k + 1..])
    requires c[k] < |tot| && len[c[k]] + n <= tot[c[k]]
    ensures n <= Cast16(|Join(Parts(len, payload, c[k + 1..]))|)
  {
    hide Join;
    TotalIs(len, tot, payload, c, k + 1);
    assert Counted(len, tot, c, k);
    assert Parts(len, payload, c[k + 1..]) == Parts(len, payload, c)[k + 1..];
  }

  /** Filling the buffers from the k-th on, and no other. */
  lemma TakeRest(len: seq<U16>, was: seq<seq<Byte>>, now: seq<seq<Byte>>, c: seq<nat>, k: nat, v: seq<Byte>)
    requires k <= |c| && Distinct(c) && |was| == |now| && Sized(len, was, c) && Sized(len, now, c[k..])
    requires Sized(len, was, c[k..]) && |v| <= |Join(Parts(len, was, c[k..]))|
    requires Join(Parts(len, now, c[k..])) == Overwrite(Join(Parts(len, was, c[k..])), 0, v)
    requires forall x :: 0 <= x < |was| && x !in c[k..] ==> now[x] == was[x]
    ensures Sized(len, now, c) && |Join(Parts(len, was, c)[..k])| + |v| <= |Join(Parts(len, was, c))|
    ensures Join(Parts(len, now, c)) == Overwrite(Join(Parts(len, was, c)), |Join(Parts(len, was, c)[..k])|, v)
  {
    hide Join;
    var d := c[k..];
    forall i | 0 <= i < |c|
      ensures c[i] < |len| && c[i] < |now| && len[c[i]] <= |now[c[i]]|
      ensures i < k ==> now[c[i]] == was[c[i]]
    {
      if i >= k {
        assert c[i] == d[i - k];
      }
    }
    var p, q := Parts(len, was, c), Parts(len, now, c);
    assert p[k..] == Parts(len, was, d) && q[k..] == Parts(len, now, d) && p[..k] == q[..k];
    JoinCut(p, k);
    JoinCut(q, k);
    var head, rest := Join(p[..k]), Join(p[k..]);
    assert head + (v + rest[|v|..]) == (head + rest)[..|head|] + v + (head + rest)[|head| + |v|..];
    assert rest[..0] + v + rest[|v|..] == v + rest[|v|..];
  }

  lemma CutStart(total: U16, newLen: U16)
    requires newLen < total
    ensures Sub16(total, Sub16(total, newLen)) == newLen
  {
  }

  /** Stepping over a buffer that stays whole. */
  lemma CutStep(len: seq<U16>, tot: seq<U16>, payload: seq<seq<Byte>>, c: seq<nat>, i: nat, shrink: U16, rem: U16)
    requires Sized(len, payload, c) && Totals(len, tot, c) && i < |c| && c[i] < |tot|
    requires rem == Sub16(tot[c[i]], shrink) && rem > len[c[i]]
    requires |Join(Parts(len, payload, c)[..i])| + rem < |Join(Parts(len, payload, c))|
    ensures i + 1 < |c| && c[i + 1] < |tot| && rem - len[c[i]] == Sub16(tot[c[i + 1]], shrink)
    ensures var parts := Parts(len, payload, c);
            |Join(parts[..i + 1])| == |Join(parts[..i])| + len[c[i]]
  {
    hide Join;
    var parts := Parts(len, payload, c);
    JoinAround(parts, i);
    JoinSome(parts[i + 1..]);
    assert Counted(len, tot, c, i);
    var after := tot[c[i + 1]];
    CastStep(len[c[i]], after, shrink);
    assert rem == Add16(len[c[i]], Sub16(after, shrink));
    CutBack(len[c[i]], Sub16(after, shrink), rem);
  }

  lemma CutBack(x: U16, y: U16, sum: U16)
    requires sum == Add16(x, y) && sum > x
    ensures sum - x == y
  {
  }

  lemma CutLinks(was: seq<int>, next: seq<int>, c: seq<nat>, k: nat)
    requires Linked(was, c) && 0 < k <= |c| && c[k - 1] < |was| && next == was[c[k - 1] := NULL]
    ensures Linked(next, c[..k])
  {
    var d := c[..k];
    forall j | 0 <= j < k
      ensures Node(next, d, j)
    {
      assert Node(was, c, j) && d[j] == c[j];
    }
  }

  lemma CutTotals(was: seq<U16>, len: seq<U16>, tot: seq<U16>, now: seq<U16>, c: seq<nat>, i: nat, shrink: U16)
    requires Totals(was, tot, c) && Distinct(c) && i < |c| && c[i] < |was| && |tot| == |now|
    requires c[i] < |len| && c[i] < |now| && len == was[c[i] := now[c[i]]] && now[c[i]] == Sub16(tot[c[i]], shrink)
    requires forall x :: x in c[..i] && x < |tot| ==> now[x] == Sub16(tot[x], shrink)
    ensures Totals(len, now, c[..i + 1])
  {
    var d := c[..i + 1];
    forall j | 0 <= j <= i
      ensures Counted(len, now, d, j)
    {
      assert Counted(was, tot, c, j) && d[j] == c[j];
      if j < i {
        assert c[j] in c[..i] && d[j + 1] == c[j + 1];
        assert j + 1 < i ==> c[j + 1] in c[..i];
        CastStep(was[c[j]], tot[c[j + 1]], shrink);
      }
    }
  }

  lemma CutParts(was: seq<U16>, len: seq<U16>, payload: seq<seq<Byte>>, c: seq<nat>, i: nat)
    requires Sized(was, payload, c) && Distinct(c) && i < |c| && |len| == |was|
    requires c[i] < |len| && len[c[i]] <= was[c[i]] && len == was[c[i] := len[c[i]]]
    ensures Sized(len, payload, c[..i + 1])
    ensures var parts := Parts(was, payload, c);
            Parts(len, payload, c[..i + 1]) == parts[..i] + [parts[i][..len[c[i]]]]
  {
    var d, parts := c[..i + 1], Parts(was, payload, c);
    forall j | 0 <= j <= i
      ensures d[j] < |len| && d[j] < |payload| && len[d[j]] <= |payload[d[j]]|
      ensures j < i ==> len[d[j]] == was[c[j]]
    {
      assert d[j] == c[j];
    }
    assert Parts(len, payload, d)[i] == parts[i][..len[c[i]]];
  }

  lemma CutJoin(parts: seq<seq<Byte>>, i: nat, n: nat, rem: nat)
    requires i < |parts| && |Join(parts[..i])| + rem == n && rem <= |parts[i]|
    ensures n <= |Join(parts)| && Join(parts[..i] + [parts[i][..rem]]) == Join(parts)[..n]
  {
    hide Join;
    JoinAround(parts, i);
    JoinConcat(parts[..i], [parts[i][..rem]]);
    JoinOne(parts[i][..rem]);
  }

  lemma FreeNone(ref: seq<nat>)
    ensures Released(ref, ref, [], 0)
  {
  }

  /** What is left of a chain once buffer i is cut to now[c[i]] bytes and made the last one. */
  lemma CutChain(was: seq<U16>, len: seq<U16>, tot: seq<U16>, now: seq<U16>, payload: seq<seq<Byte>>, c: seq<nat>,
                 i: nat, shrink: U16, n: nat)
    requires Sized(was, payload, c) && Totals(was, tot, c) && Distinct(c) && i < |c| && |tot| == |now| && |len| == |was|
    requires c[i] < |len| && c[i] < |now| && len == was[c[i] := now[c[i]]] && now[c[i]] <= was[c[i]]
    requires now[c[i]] == Sub16(tot[c[i]], shrink)
    requires forall x :: x in c[..i] && x < |tot| ==> now[x] == Sub16(tot[x], shrink)
    requires |Join(Parts(was, payload, c)[..i])| + now[c[i]] == n
    ensures Sized(len, payload, c[..i + 1]) && Totals(len, now, c[..i + 1])
    ensures n <= |Join(Parts(was, payload, c))|
    ensures Join(Parts(len, payload, c[..i + 1])) == Join(Parts(was, payload, c))[..n]
  {
    hide Join, Sized, Totals, Sub16;
    SizedAt(was, payload, c, i);
    CutTotals(was, len, tot, now, c, i, shrink);
    CutParts(was, len, payload, c, i);
    CutJoin(Parts(was, payload, c), i, n, now[c[i]]);
  }

  lemma NoWrap(x: U16, y: U16)
    ensures Add16(x, y) >= x <==> x as int + y < 0x1_0000
  {
  }

  lemma JoinFirst(parts: seq<seq<Byte>>)
    requires |parts| == 1
    ensures Join(parts) == parts[0]
  {
    JoinOne(parts[0]);
    assert parts == [parts[0]];
  }

  /** Nothing to split off. */
  lemma SplitNone(next: seq<int>, len: seq<U16>, payload: seq<seq<Byte>>, tot: seq<U16>, c: seq<nat>)
    requires Linked(next, c) && Sized(len, payload, c) && Totals(len, tot, c)
    ensures var d := c[|c|..];
            && Linked(next, d) && Sized(len, payload, d) && Totals(len, tot, d) && Join(Parts(len, payload, d)) == []
    ensures c[..|c|] == c
  {
  }

  lemma SplitParts(len: seq<U16>, payload: seq<seq<Byte>>, c: seq<nat>, k: nat)
    requires Sized(len, payload, c) && k <= |c|
    ensures Sized(len, payload, c[..k]) && Parts(len, payload, c[..k]) == Parts(len, payload, c)[..k]
    ensures var parts := Parts(len, payload, c);
            k < |c| ==> |Join(parts[..k + 1])| == |Join(parts[..k])| + len[c[k]]
  {
    hide Join;
    assert Parts(len, payload, c[..k]) == Parts(len, payload, c)[..k];
    if k < |c| {
      JoinAround(Parts(len, payload, c), k);
    }
  }

  lemma SplitTotals(next: seq<int>, len: seq<U16>, tot: seq<U16>, now: seq<U16>, c: seq<nat>, k: nat)
    requires Linked(next, c) && Totals(len, tot, c) && 0 < k < |c| && |tot| == |now| && c[k] < |tot|
    requires forall x :: x in c[..k] && x < |tot| ==> now[x] == Sub16(tot[x], tot[c[k]])
    requires forall x :: 0 <= x < |tot| && x !in c[..k] ==> now[x] == tot[x]
    ensures Totals(len, now, c[..k]) && Totals(len, now, c[k..])
  {
    hide Linked;
    var front, d := c[..k], c[k..];
    forall j | 0 <= j < k
      ensures Counted(len, now, front, j)
    {
      assert Counted(len, tot, c, j) && front[j] == c[j] && c[j] in front;
      assert j + 1 < k ==> c[j + 1] in front;
      CastStep(len[c[j]], tot[c[j + 1]], tot[c[k]]);
    }
    forall j | 0 <= j < |d|
      ensures Counted(len, now, d, j)
    {
      assert Counted(len, tot, c, k + j) && d[j] == c[k + j];
      NotBefore(next, c, k, k + j);
      if j + 1 < |d| {
        NotBefore(next, c, k, k + j + 1);
        assert d[j + 1] == c[k + j + 1];
      }
    }
  }

  lemma NotBefore(next: seq<int>, c: seq<nat>, k: nat, j: nat)
    requires Linked(next, c) && k <= j < |c|
    ensures c[j] !in c[..k]
  {
  }

  lemma SplitTail(was: seq<int>, next: seq<int>, c: seq<nat>, k: nat)
    requires Linked(was, c) && 0 < k <= |c| && c[k - 1] < |was| && next == was[c[k - 1] := NULL]
    ensures Linked(next, c[k..])
  {
    var d := c[k..];
    forall j | 0 <= j < |d|
      ensures Node(next, d, j)
    {
      assert Node(was, c, k + j) && d[j] == c[k + j] && At(d, j + 1) == At(c, k + j + 1);
    }
  }

  /** After buffer k is filled up with v there is room for w in the buffers after it. */
  lemma TakeLeft(len: seq<U16>, was: seq<seq<Byte>>, mid: seq<seq<Byte>>, c: seq<nat>, k: nat, o: nat, v: seq<Byte>,
                 w: seq<Byte>)
    requires Sized(len, was, c) && Distinct(c) && k < |c| && o + |v| == len[c[k]] && w != []
    requires mid == was[c[k] := Overwrite(was[c[k]], o, v)] && Sized(len, mid, c) && Sized(len, mid, c[k + 1..])
    requires |Join(Parts(len, was, c)[..k])| + o + |v| + |w| <= |Join(Parts(len, was, c))|
    requires Parts(len, mid, c[k + 1..]) == Parts(len, mid, c)[k + 1..]
    ensures |w| <= |Join(Parts(len, mid, c[k + 1..]))| <= |Join(Parts(len, was, c))| && c[k + 1..] != []
  {
    hide Join, Sized, Overwrite;
    SizedAt(len, was, c, k);
    SizedAt(len, mid, c, k);
    PutPiece(len, was, c, k, o, v);
    JoinAround(Parts(len, was, c), k);
    JoinAround(Parts(len, mid, c), k);
    assert Parts(len, mid, c)[..k] == Parts(len, was, c)[..k];
    JoinSome(Parts(len, mid, c[k + 1..]));
  }

  /** v at offset o of buffer k and w over the start of the buffers after it make one text. */
  lemma TakeAtDone(len: seq<U16>, was: seq<seq<Byte>>, mid: seq<seq<Byte>>, now: seq<seq<Byte>>, c: seq<nat>, k: nat,
                   o: nat, v: seq<Byte>, w: seq<Byte>)
    requires Sized(len, was, c) && Distinct(c) && k < |c| && o + |v| == len[c[k]]
    requires mid == was[c[k] := Overwrite(was[c[k]], o, v)] && |now| == |mid|
    requires Sized(len, mid, c[k + 1..]) && Sized(len, now, c[k + 1..])
    requires |w| <= |Join(Parts(len, mid, c[k + 1..]))|
    requires Join(Parts(len, now, c[k + 1..])) == Overwrite(Join(Parts(len, mid, c[k + 1..])), 0, w)
    requires forall x :: 0 <= x < |mid| && x !in c[k + 1..] ==> now[x] == mid[x]
    ensures Sized(len, now, c)
    ensures var parts := Parts(len, was, c);
            && |Join(parts[..k])| + o + |v| + |w| <= |Join(parts)|
            && Join(Parts(len, now, c)) == Overwrite(Join(parts), |Join(parts[..k])| + o, v + w)
  {
    hide Join, Sized, Overwrite;
    SizedAt(len, was, c, k);
    PutPiece(len, was, c, k, o, v);
    TakeRest(len, mid, now, c, k + 1, w);
    OverwriteTwice(Join(Parts(len, was, c)), |Join(Parts(len, was, c)[..k])| + o, v, w);
  }

  /** Where a copy stands before buffer i: text is copied, offset bytes are still to skip. */
  ghost predicate Copying(parts: seq<seq<Byte>>, i: nat, start: nat, offset: nat, room: nat, text: seq<Byte>) {
    && i <= |parts| && (text != [] ==> offset == 0)
    && (room == 0 || start + |text| == |Join(parts[..i])| + offset)
    && (text != [] ==> start + |text| <= |Join(parts)| && text == Join(parts)[start..start + |text|])
  }

  lemma CopyStart(parts: seq<seq<Byte>>, start: nat, n: nat)
    ensures Copying(parts, 0, start, start, n, [])
  {
    JoinNone(parts);
  }

  lemma CopyNothing(parts: seq<seq<Byte>>, i: nat, start: nat, offset: nat, room: nat, text: seq<Byte>)
    requires Copying(parts, i, start, offset, room, text) && i < |parts| && offset != 0 && offset >= |parts[i]|
    ensures Copying(parts, i + 1, start, offset - |parts[i]|, room, text)
  {
    hide Join;
    JoinAround(parts, i);
  }

  lemma CopySome(parts: seq<seq<Byte>>, i: nat, start: nat, offset: nat, room: nat, text: seq<Byte>, v: seq<Byte>)
    requires Copying(parts, i, start, offset, room, text) && i < |parts| && room != 0
    requires offset == 0 || offset < |parts[i]|
    requires |v| <= room && |v| == if |parts[i]| - offset > room then room else |parts[i]| - offset
    requires v == parts[i][offset..offset + |v|]
    ensures Copying(parts, i + 1, start, 0, room - |v|, text + v)
  {
    hide Join;
    JoinAround(parts, i);
    var s, o := Join(parts), |Join(parts[..i])| + offset;
    assert s[o..o + |v|] == v;
    if text != [] {
      assert s[start..o + |v|] == s[start..o] + s[o..o + |v|];
    } else {
      assert text + v == v;
    }
  }

  lemma CopyDone(parts: seq<seq<Byte>>, i: nat, start: nat, n: nat, offset: nat, room: nat, text: seq<Byte>)
    requires Copying(parts, i, start, offset, room, text) && |text| + room == n && (room == 0 || i == |parts|)
    ensures text == Window(Join(parts), start, n)
  {
    hide Join;
    if room != 0 {
      assert parts[..i] == parts;
    }
  }

  /** A copy never runs past what the caller asked for. */
  lemma CopyFits(parts: seq<seq<Byte>>, i: nat, start: nat, n: nat, offset: nat, room: nat, text: seq<Byte>)
    requires Copying(parts, i, start, offset, room, text) && |text| + room == n
    ensures |text| <= |Window(Join(parts), start, n)|
  {
    hide Join;
  }

  lemma SizedAt(len: seq<U16>, payload: seq<seq<Byte>>, c: seq<nat>, i: nat)
    requires Sized(len, payload, c) && i < |c|
    ensures c[i] < |len| && c[i] < |payload| && len[c[i]] <= |payload[c[i]]|
  {
  }

  lemma SubExact(x: int, y: int)
    requires 0 <= x - y < 0x1_0000
    ensures Sub16(x, y) == x - y
  {
  }

  lemma AddExact(x: int, y: int)
    requires 0 <= x + y < 0x1_0000
    ensures Add16(x, y) == x + y
  {
  }

  /** MEMCPY into a buffer. */
  method MemCopy(a: array<Byte>, at: nat, v: seq<Byte>)
    requires at + |v| <= a.Length
    modifies a
    ensures a[..] == Overwrite(old(a[..]), at, v)
  {
    forall k | 0 <= k < |v| {
      a[at + k] := v[k];
    }
    assert a[..at] == old(a[..at]) && a[at..at + |v|] == v && a[at + |v|..] == old(a[at + |v|..]);
  }

  /** The first n buffers of a chain are deallocated and nothing else has changed. */
  ghost predicate Freed(was: seq<nat>, now: seq<nat>, c: seq<nat>, n: nat) {
    && n <= |c| && |was| == |now|
    && (forall i :: 0 <= i < n ==> c[i] < |was| && was[c[i]] == 1 && now[c[i]] == 0)
    && (forall x :: 0 <= x < |was| && x !in c[..n] ==> now[x] == was[x])
  }

  lemma FreeStart(ref: seq<nat>, c: seq<nat>)
    ensures Freed(ref, ref, c, 0) && (c == [] ==> Released(ref, ref, c, 0))
  {
  }

  lemma FreedAt(was: seq<nat>, now: seq<nat>, c: seq<nat>, n: nat)
    requires Freed(was, now, c, n) && n < |c| && c[n] < |was| && c[n] !in c[..n]
    ensures now[c[n]] == was[c[n]]
  {
  }

  /** Taking one reference from the next buffer. */
  lemma FreeStep(was: seq<nat>, now: seq<nat>, c: seq<nat>, n: nat)
    requires Freed(was, now, c, n) && n < |c| && c[n] < |was| && c[n] !in c[..n] && was[c[n]] > 0
    ensures var next := now[c[n] := was[c[n]] - 1];
            if was[c[n]] == 1
            then Freed(was, next, c, n + 1) && (n + 1 == |c| ==> Released(was, next, c, n + 1))
            else Released(was, next, c, n)
  {
    var next := now[c[n] := was[c[n]] - 1];
    assert c[..n + 1] == c[..n] + [c[n]];
    forall i | 0 <= i < n
      ensures c[i] < |was| && was[c[i]] == 1 && next[c[i]] == 0
    {
      assert c[i] in c[..n];
    }
  }

  /** A buffer that holds all of its memory and is not linked to another one. */
  lemma Alone(next: seq<int>, len: seq<U16>, tot: seq<U16>, payload: seq<seq<Byte>>, i: nat)
    requires i < |next| == |len| == |tot| == |payload| && next[i] == NULL && len[i] == tot[i] == |payload[i]|
    ensures Linked(next, [i]) && Sized(len, payload, [i]) && Totals(len, tot, [i])
    ensures Join(Parts(len, payload, [i])) == payload[i]
  {
    hide Join;
    assert Node(next, [i], 0);
    assert Counted(len, tot, [i], 0);
    JoinFirst(Parts(len, payload, [i]));
  }

  /** The packet buffers; a pointer to one is its index here, or NULL. */
  class Pool {
    const next: array<int>
    const len: array<U16>
    const totLen: array<U16>
    const ref: array<nat>
    /** The memory behind payload. */
    const payload: array<seq<Byte>>
    /** PBUF_FLAG_TCP_FIN in flags. */
    const fin: array<bool>

    ghost predicate Valid() {
      && next.Length == len.Length == totLen.Length == ref.Length == payload.Length == fin.Length
      && len != totLen
    }

    /** One buffer for each memory, filled and by itself, as pbuf_init_alloced_pbuf leaves it. */
    constructor (memory: seq<seq<Byte>>)
      requires forall i :: 0 <= i < |memory| ==> |memory[i]| < 0x1_0000
      ensures Valid() && fresh(next) && fresh(len) && fresh(totLen) && fresh(ref) && fresh(payload) && fresh(fin)
      ensures payload[..] == memory
      ensures forall i :: 0 <= i < |memory| ==> Chain([i]) && Sums([i]) && Bytes([i]) == memory[i] && ref[i] == 1
    {
      next := new int[|memory|](_ => NULL);
      len := new U16[|memory|](i requires 0 <= i < |memory| => |memory[i]|);
      totLen := new U16[|memory|](i requires 0 <= i < |memory| => |memory[i]|);
      ref := new nat[|memory|](_ => 1);
      payload := new seq<Byte>[|memory|](i requires 0 <= i < |memory| => memory[i]);
      fin := new bool[|memory|](_ => false);
      new;
      hide Join;
      forall i | 0 <= i < |memory|
        ensures Chain([i]) && Sums([i]) && Bytes([i]) == memory[i]
      {
        Alone(next[..], len[..], totLen[..], payload[..], i);
      }
    }

    ghost predicate Chain(c: seq<nat>)
      requires Valid()
      reads next, len, payload
    {
      Linked(next[..], c) && Sized(len[..], payload[..], c)
    }

    /** What a chain holds. */
    ghost function Bytes(c: seq<nat>): seq<Byte>
      requires Valid() && Chain(c)
      reads next, len, payload
    {
      Join(Parts(len[..], payload[..], c))
    }

    /** As many of its bytes as the tot_len of its head admits: all of them below 2^16. */
    ghost function Known(c: seq<nat>): (r: seq<Byte>)
      requires Valid() && Chain(c)
      reads next, len, payload
      ensures |r| == Cast16(|Bytes(c)|) && r <= Bytes(c) && (|Bytes(c)| < 0x1_0000 ==> r == Bytes(c))
    {
      KnownAll(Bytes(c));
      Bytes(c)[..Cast16(|Bytes(c)|)]
    }

    ghost predicate Sums(c: seq<nat>)
      requires Valid()
      reads len, totLen
    {
      Totals(len[..], totLen[..], c)
    }

    /** pbuf_cat: what the two hold, end to end; the totals stay right modulo 16 bits. */
    method Cat(h: int, t: int, ghost a: seq<nat>, ghost b: seq<nat>)
      requires Valid() && Chain(a) && Chain(b) && Sums(a) && Sums(b)
      requires h == At(a, 0) && t == At(b, 0) && forall x :: x in a ==> x !in b
      modifies next, totLen
      ensures a == [] || b == [] ==> next[..] == old(next[..]) && totLen[..] == old(totLen[..])
      ensures a != [] && b != [] ==>
                && Chain(a + b) && Sums(a + b) && Bytes(a + b) == old(Bytes(a)) + old(Bytes(b))
    {
      hide Join, Counted, Add16, Linked, Sized;
      if h == NULL || t == NULL {
        return;
      }
      var p := h;
      ghost var i := 0;
      LinkAt(next[..], a, 0);
      LinkAt(next[..], b, 0);
      assert t == b[0] && b[0] in b;
      while next[p] != NULL
        invariant i < |a| && p == a[i] && 0 <= p < next.Length && next[..] == old(next[..])
        invariant forall x :: x in a[..i] ==> x < next.Length && totLen[x] == Add16(old(totLen[x]), old(totLen[b[0]]))
        invariant totLen[t] == old(totLen[b[0]])
        invariant forall x :: 0 <= x < next.Length && x !in a[..i] ==> totLen[x] == old(totLen[x])
        decreases |a| - i
      {
        LinkAt(next[..], a, i);
        assert a[i] in a;
        totLen[p] := Add16(totLen[p], totLen[t]);
        p := next[p];
        assert a[..i + 1] == a[..i] + [a[i]];
        i := i + 1;
        LinkAt(next[..], a, i);
      }
      LinkAt(next[..], a, i);
      assert a[i] in a;
      totLen[p] := Add16(totLen[p], totLen[t]);
      next[p] := t;
      assert a == a[..i + 1];
      CatLinks(old(next[..]), next[..], a, b);
      CatTotals(len[..], old(totLen[..]), totLen[..], a, b);
      CatParts(len[..], payload[..], a, b);
      JoinConcat(Parts(len[..], payload[..], a), Parts(len[..], payload[..], b));
    }

    /** pbuf_free; a buffer is deallocated when its count reaches 0. */
    method Free(p: int, ghost c: seq<nat>) returns (count: nat, ghost n: nat)
      requires Valid() && Linked(next[..], c) && p == At(c, 0)
      requires forall x :: x in c && x < ref.Length ==> ref[x] > 0
      modifies ref
      ensures Released(old(ref[..]), ref[..], c, n) && count == n % 256
    {
      hide Linked, Released;
      var q := p;
      count, n := 0, 0;
      FreeStart(ref[..], c);
      while q != NULL
        invariant n <= |c| && count == n % 256
        invariant q == NULL || q == At(c, n)
        invariant if q == NULL then Released(old(ref[..]), ref[..], c, n) else Freed(old(ref[..]), ref[..], c, n)
        decreases |c| - n, q != NULL
      {
        LinkAt(next[..], c, n);
        assert c[n] in c;
        FreedAt(old(ref[..]), ref[..], c, n);
        FreeStep(old(ref[..]), ref[..], c, n);
        ref[q] := ref[q] - 1;
        if ref[q] == 0 {
          q := next[q];
          count := (count + 1) % 256;
          n := n + 1;
        } else {
          q := NULL;
        }
      }
    }

    /** pbuf_skip_const: the buffer that holds the byte at offset, and where in it. */
    method Skip(p: int, offset: U16, ghost c: seq<nat>) returns (q: int, out: U16, ghost i: nat)
      requires Valid() && Chain(c) && p == At(c, 0)
      ensures i <= |c| && q == At(c, i) && |Join(Parts(len[..], payload[..], c)[..i])| + out == offset
      ensures i < |c| ==> out < len[c[i]]
      ensures i < |c| <==> offset < |Bytes(c)|
    {
      hide Join, Linked;
      ghost var parts := Parts(len[..], payload[..], c);
      JoinNone(parts);
      q, out, i := p, offset, 0;
      while q != NULL && len[q] <= out
        invariant i <= |c| && q == At(c, i) && |Join(parts[..i])| + out == offset
        decreases |c| - i
      {
        JoinAround(parts, i);
        LinkAt(next[..], c, i);
        out := Sub16(out, len[q]);
        q := next[q];
        i := i + 1;
      }
      if i < |c| {
        JoinAround(parts, i);
      } else {
        assert parts[..i] == parts;
      }
    }

    /** pbuf_try_get_at: the byte at offset, or -1 beyond the end. */
    method TryGetAt(p: int, offset: U16, ghost c: seq<nat>) returns (r: int)
      requires Valid() && Chain(c) && p == At(c, 0)
      ensures r == if offset < |Bytes(c)| then Bytes(c)[offset] else -1
    {
      hide Join, Linked;
      var q, idx, i := Skip(p, offset, c);
      if q != NULL && len[q] > idx {
        JoinAround(Parts(len[..], payload[..], c), i);
        return payload[q][idx];
      }
      return -1;
    }

    /** pbuf_get_at: 0 beyond the end. */
    method GetAt(p: int, offset: U16, ghost c: seq<nat>) returns (r: Byte)
      requires Valid() && Chain(c) && p == At(c, 0)
      ensures r == if offset < |Bytes(c)| then Bytes(c)[offset] else 0
    {
      var ret := TryGetAt(p, offset, c);
      return if ret >= 0 then ret else 0;
    }

    /** pbuf_put_at: silently nothing beyond the end. */
    method PutAt(p: int, offset: U16, data: Byte, ghost c: seq<nat>)
      requires Valid() && Chain(c) && p == At(c, 0)
      modifies payload
      ensures Chain(c)
      ensures Bytes(c) == if offset < |old(Bytes(c))| then old(Bytes(c))[offset := data] else old(Bytes(c))
    {
      hide Join, Node;
      var q, idx, i := Skip(p, offset, c);
      if q != NULL && len[q] > idx {
        PutPiece(len[..], payload[..], c, i, idx, [data]);
        payload[q] := Overwrite(payload[q], idx, [data]);
      }
    }

    /** pbuf_copy_partial: the bytes from offset on, as many as there are and at most n. */
    method CopyPartial(buf: int, dataptr: array<Byte>, n: U16, start: U16, ghost c: seq<nat>) returns (copied: U16)
      requires Valid() && Chain(c) && buf == At(c, 0)
      requires |Window(Bytes(c), start, n)| <= dataptr.Length
      modifies dataptr
      ensures Chain(c) && Bytes(c) == old(Bytes(c)) && copied == |Window(Bytes(c), start, n)|
      ensures dataptr[..] == Window(Bytes(c), start, n) + old(dataptr[copied..])
    {
      hide Join, Linked, Sized, Add16, Sub16, Window, Overwrite, Copying;
      ghost var parts, was := Parts(len[..], payload[..], c), dataptr[..];
      CopyStart(parts, start, n);
      var p: int, left: U16, room: U16, offset: U16 := buf, 0, n, start;
      ghost var i := 0;
      ghost var text: seq<Byte> := [];
      copied := 0;
      while room != 0 && p != NULL
        invariant Chain(c) && parts == Parts(len[..], payload[..], c)
        invariant i <= |c| && p == At(c, i) && left == copied == n - room
        invariant Copying(parts, i, start, offset, room, text)
        invariant copied == |text| && copied <= |was| && dataptr[..] == text + was[copied..]
        decreases |c| - i
      {
        LinkAt(next[..], c, i);
        SizedAt(len[..], payload[..], c, i);
        if offset != 0 && offset >= len[p] {
          SubExact(offset, len[p]);
          CopyNothing(parts, i, start, offset, room, text);
          offset := Sub16(offset, len[p]);
        } else {
          SubExact(len[p], offset);
          var size := Sub16(len[p], offset);
          if size > room {
            size := room;
          }
          var v := payload[p][offset..offset + size];
          CopySome(parts, i, start, offset, room, text, v);
          CopyFits(parts, i + 1, start, n, 0, room - size, text + v);
          MemCopy(dataptr, left, v);
          OverwriteNext(text, was, v);
          text := text + v;
          AddExact(copied, size);
          SubExact(room, size);
          copied := Add16(copied, size);
          left := Add16(left, size);
          room := Sub16(room, size);
          offset := 0;
        }
        p := next[p];
        i := i + 1;
      }
      CopyDone(parts, i, start, n, offset, room, text);
    }

    /** pbuf_take: the first n bytes of data over the start of the chain. */
    method Take(buf: int, data: seq<Byte>, n: U16, ghost c: seq<nat>) returns (err: Err)
      requires Valid() && Chain(c) && Sums(c) && buf == At(c, 0) && n <= |data|
      modifies payload
      ensures Chain(c) && err == if c == [] then ErrArg else if n > |old(Known(c))| then ErrMem else ErrOk
      ensures Bytes(c) == if err == ErrOk then Overwrite(old(Bytes(c)), 0, data[..n]) else old(Bytes(c))
      ensures forall x :: 0 <= x < next.Length && x !in c ==> payload[x] == old(payload[x])
    {
      hide Join, Linked, Sized, Overwrite, Totals;
      if buf == NULL {
        return ErrArg;
      }
      FirstTotal(len[..], totLen[..], payload[..], c);
      if totLen[buf] < n {
        return ErrMem;
      }
      ghost var text := Bytes(c);
      TakeStart(text, data);
      JoinNone(Parts(len[..], payload[..], c));
      var p: int, room: nat, copied: nat := buf, n, 0;
      ghost var i := 0;
      while room != 0
        invariant Chain(c) && i <= |c| && p == At(c, i) && copied + room == n
        invariant room == 0 || copied == |Join(Parts(len[..], payload[..], c)[..i])|
        invariant copied <= n <= |text|
        invariant Bytes(c) == Overwrite(text, 0, data[..copied])
        invariant forall x :: 0 <= x < next.Length && x !in c ==> payload[x] == old(payload[x])
        decreases |c| - i
      {
        ghost var parts := Parts(len[..], payload[..], c);
        TakeMore(parts, i, copied, n);
        LinkAt(next[..], c, i);
        SizedAt(len[..], payload[..], c, i);
        var size := room;
        if size > len[p] {
          size := len[p];
        }
        var v := data[copied..copied + size];
        DistinctOf(next[..], c);
        PutPiece(len[..], payload[..], c, i, 0, v);
        TakeNext(text, data, copied, v);
        assert c[i] in c;
        payload[p] := Overwrite(payload[p], 0, v);
        room := room - size;
        copied := copied + size;
        p := next[p];
        i := i + 1;
      }
      return ErrOk;
    }

    /** The copying half of pbuf_take_at, into buffer k at target and the buffers after it. */
    method TakeHere(q: int, data: seq<Byte>, n: U16, target: U16, ghost c: seq<nat>, ghost k: nat)
      requires Valid() && Chain(c) && Sums(c) && k < |c| && q == c[k] && n <= |data|
      requires c[k] < len.Length && target < len[c[k]] && target + n <= totLen[c[k]]
      requires |Join(Parts(len[..], payload[..], c)[..k])| + target + n <= |Bytes(c)|
      modifies payload
      ensures Chain(c)
      ensures Bytes(c) == Overwrite(old(Bytes(c)), old(|Join(Parts(len[..], payload[..], c)[..k])|) + target, data[..n])
    {
      hide Join, Linked, Sized, Overwrite, Totals;
      LinkAt(next[..], c, k);
      SizedAt(len[..], payload[..], c, k);
      RestTotal(len[..], totLen[..], payload[..], c, k);
      var first := if len[q] - target < n then len[q] - target else n;
      DistinctOf(next[..], c);
      PutPiece(len[..], payload[..], c, k, target, data[..first]);
      payload[q] := Overwrite(payload[q], target, data[..first]);
      if n > first {
        ghost var mid, d, w := payload[..], c[k + 1..], data[first..][..n - first];
        TailOf(next[..], len[..], mid, c, k + 1);
        TailTotals(len[..], totLen[..], c, k + 1);
        TakeLeft(len[..], old(payload[..]), mid, c, k, target, data[..first], w);
        NextTotal(len[..], totLen[..], mid, c, k, n - first);
        var err := Take(next[q], data[first..], n - first, d);
        TakeAtDone(len[..], old(payload[..]), mid, payload[..], c, k, target, data[..first], w);
        assert data[..first] + w == data[..n];
      }
    }

    /** Number k of the chain, which starts at byte at, holds the byte at offset. */
    ghost predicate HeldBy(c: seq<nat>, k: nat, at: nat, offset: nat)
      requires Valid() && Chain(c)
      reads next, len, payload
    {
      && k < |c| && c[k] < len.Length && at == |Join(Parts(len[..], payload[..], c)[..k])| && at <= offset < at + len[c[k]]
    }

    /**
     * pbuf_take_at: the first n bytes of data over the chain at offset. Offset must lie inside it, even
     * for no bytes, and the tot_len of the buffer that holds it must admit all of them.
     */
    method TakeAt(buf: int, data: seq<Byte>, n: U16, offset: U16, ghost c: seq<nat>) returns (err: Err, ghost k: nat, ghost at: nat)
      requires Valid() && Chain(c) && Sums(c) && buf == At(c, 0) && n <= |data|
      modifies payload
      ensures Chain(c)
      ensures offset < |old(Bytes(c))| ==>
                old(HeldBy(c, k, at, offset)) && err == if offset + n <= at + Cast16(|old(Bytes(c))| - at) then ErrOk else ErrMem
      ensures offset >= |old(Bytes(c))| ==> err == ErrMem
      ensures |old(Bytes(c))| < 0x1_0000 ==>
                && err == (if offset < |old(Bytes(c))| && offset + n <= |old(Bytes(c))| then ErrOk else ErrMem)
                && (offset + n <= |old(Bytes(c))| ==> (err == ErrMem <==> n == 0 && offset == |old(Bytes(c))|))
      ensures err == ErrOk ==> offset + n <= |old(Bytes(c))|
      ensures Bytes(c) == if err == ErrOk then Overwrite(old(Bytes(c)), offset, data[..n]) else old(Bytes(c))
    {
      hide Join, Linked, Sized, Overwrite, Totals;
      var q, target, i := Skip(buf, offset, c);
      k, at := i, |Join(Parts(len[..], payload[..], c)[..i])|;
      if q == NULL {
        return ErrMem, k, at;
      }
      LinkAt(next[..], c, k);
      RestTotal(len[..], totLen[..], payload[..], c, k);
      if totLen[q] < target + n {
        return ErrMem, k, at;
      }
      TakeHere(q, data, n, target, c, k);
      return ErrOk, k, at;
    }

    /** pbuf_memcmp: 0 for equal bytes, else one more than the place of the first difference, or 0xFFFF when out of range. */
    method Memcmp(p: int, offset: U16, s2: seq<Byte>, n: U16, ghost c: seq<nat>) returns (r: U16)
      requires Valid() && Chain(c) && Sums(c) && c != [] && p == c[0] && n <= |s2|
      ensures |Known(c)| < offset + n ==> r == 0xFFFF
      ensures offset + n <= |Known(c)| ==> r == FirstDifference(Bytes(c)[offset..offset + n], s2[..n])
      ensures n < 0xFFFF ==> (r == 0xFFFF <==> |Known(c)| < offset + n)
      ensures offset + n <= |Known(c)| ==>
                (r == 0xFFFF <==> n == 0xFFFF && Bytes(c)[..0xFFFE] == s2[..0xFFFE] && Bytes(c)[0xFFFE] != s2[0xFFFE])
    {
      hide Join, Linked, Sized, Totals, Add16, FirstDifference;
      FirstTotal(len[..], totLen[..], payload[..], c);
      LinkAt(next[..], c, 0);
      if totLen[p] < offset + n {
        return 0xFFFF;
      }
      var q, start, k := Skip(p, offset, c);
      TailOf(next[..], len[..], payload[..], c, k);
      ghost var x, y := Bytes(c)[offset..offset + n], s2[..n];
      var i: U16 := 0;
      while i < n
        invariant i <= n && forall j :: 0 <= j < i ==> x[j] == y[j]
      {
        AddExact(start, i);
        AddExact(i, 1);
        var a := GetAt(q, Add16(start, i), c[k..]);
        var b := s2[i];
        if a != b {
          DifferenceAt(x, y, i);
          DifferenceLast(x, y);
          return if i + 1 < 0xFFFF then i + 1 else 0xFFFF;
        }
        i := Add16(i, 1);
      }
      DifferenceNone(x, y);
      DifferenceLast(x, y);
      return 0;
    }

    /** pbuf_memfind: the first match at or after start, or 0xFFFF. */
    method Memfind(p: int, mem: seq<Byte>, n: U16, start: U16, ghost c: seq<nat>) returns (r: U16)
      requires Valid() && Chain(c) && Sums(c) && c != [] && p == c[0] && n <= |mem|
      ensures r == 0xFFFF || (start <= r && MatchesAt(Known(c), mem[..n], r))
      ensures forall k :: start <= k < r ==> !MatchesAt(Known(c), mem[..n], k)
    {
      hide Join, Linked, Sized, Totals, Add16, Sub16, FirstDifference;
      FirstTotal(len[..], totLen[..], payload[..], c);
      LinkAt(next[..], c, 0);
      var max := Sub16(totLen[p], n);
      if totLen[p] >= n + start {
        SubExact(totLen[p], n);
        var i := start;
        while i <= max
          invariant forall k :: start <= k < i ==> !MatchesAt(Known(c), mem[..n], k)
          decreases max - i
        {
          var plus := Memcmp(p, i, mem, n, c);
          DifferenceZero(Bytes(c)[i..i + n], mem[..n]);
          if plus == 0 {
            return i;
          }
          AddExact(i, 1);
          i := Add16(i, 1);
        }
      }
      return 0xFFFF;
    }

    /** The loop of pbuf_realloc: past the buffers that stay whole, to the one that holds the new end. */
    method KeepWhole(p: int, newLen: U16, shrink: U16, ghost c: seq<nat>) returns (q: int, rem: U16, ghost i: nat)
      requires Valid() && Chain(c) && Sums(c) && c != [] && p == c[0]
      requires newLen < |Known(c)| && shrink == Sub16(totLen[p], newLen)
      modifies totLen
      ensures i < |c| && q == c[i] && 0 <= q < next.Length && rem <= len[q]
      ensures |Join(Parts(len[..], payload[..], c)[..i])| + rem == newLen && (i > 0 ==> rem > 0)
      ensures rem == Sub16(old(totLen[c[i]]), shrink)
      ensures forall x :: x in c[..i] ==> x < next.Length && totLen[x] == Sub16(old(totLen[x]), shrink)
      ensures forall x :: 0 <= x < next.Length && x !in c[..i] ==> totLen[x] == old(totLen[x])
    {
      hide Join, Linked, Sized, Totals, Sub16;
      FirstTotal(len[..], totLen[..], payload[..], c);
      LinkAt(next[..], c, 0);
      ghost var parts := Parts(len[..], payload[..], c);
      JoinNone(parts);
      CutStart(totLen[p], newLen);
      rem, q, i := newLen, p, 0;
      while rem > len[q]
        invariant i < |c| && q == c[i] && 0 <= q < next.Length
        invariant |Join(parts[..i])| + rem == newLen && (i > 0 ==> rem > 0)
        invariant rem == Sub16(old(totLen[c[i]]), shrink)
        invariant forall x :: x in c[..i] ==> x < next.Length && totLen[x] == Sub16(old(totLen[x]), shrink)
        invariant forall x :: 0 <= x < next.Length && x !in c[..i] ==> totLen[x] == old(totLen[x])
        decreases |c| - i
      {
        LinkAt(next[..], c, i);
        CutStep(len[..], old(totLen[..]), payload[..], c, i, shrink, rem);
        assert c[..i + 1] == c[..i] + [c[i]];
        SubExact(rem, len[q]);
        rem := Sub16(rem, len[q]);
        totLen[q] := Sub16(totLen[q], shrink);
        q := next[q];
        i := i + 1;
        LinkAt(next[..], c, i);
      }
    }

    /** pbuf_realloc: the chain becomes a prefix of itself, and the buffers after it are let go. */
    method Realloc(p: int, newLen: U16, ghost c: seq<nat>) returns (ghost kept: nat, ghost n: nat)
      requires Valid() && Chain(c) && Sums(c) && c != [] && p == c[0]
      requires forall x :: x in c && x < ref.Length ==> ref[x] > 0
      modifies next, len, totLen, ref
      ensures newLen >= |old(Known(c))| ==>
                next[..] == old(next[..]) && len[..] == old(len[..]) && totLen[..] == old(totLen[..]) && ref[..] == old(ref[..])
      ensures newLen < |old(Known(c))| ==>
                && 0 < kept <= |c| && Chain(c[..kept]) && Sums(c[..kept])
                && Bytes(c[..kept]) == old(Bytes(c))[..newLen]
                && (kept == 1 || |Join(old(Parts(len[..], payload[..], c))[..kept - 1])| < newLen)
                && Released(old(ref[..]), ref[..], c[kept..], n)
    {
      hide Join, Linked, Sized, Totals, Sub16, Released;
      kept, n := |c|, 0;
      FirstTotal(len[..], totLen[..], payload[..], c);
      LinkAt(next[..], c, 0);
      if newLen >= totLen[p] {
        return;
      }
      ghost var parts := Parts(len[..], payload[..], c);
      var shrink := Sub16(totLen[p], newLen);
      var q, rem, i := KeepWhole(p, newLen, shrink, c);
      kept := i + 1;
      LinkAt(next[..], c, i);
      DistinctOf(next[..], c);
      SizedAt(len[..], payload[..], c, i);
      assert |parts[i]| == len[q];
      len[q] := rem;
      totLen[q] := len[q];
      TailOf(next[..], old(len[..]), payload[..], c, kept);
      FreeNone(ref[..]);
      if next[q] != NULL {
        var count;
        count, n := Free(next[q], c[kept..]);
      }
      next[q] := NULL;
      CutLinks(old(next[..]), next[..], c, kept);
      CutChain(old(len[..]), len[..], old(totLen[..]), totLen[..], payload[..], c, i, shrink, newLen);
    }

    /** The first loop of pbuf_split_64k: as many buffers as fit 16 bits together. */
    method FrontOf(p: int, ghost c: seq<nat>) returns (last: int, r: int, ghost k: nat)
      requires Valid() && Chain(c) && c != [] && p == c[0]
      ensures 0 < k <= |c| && last == c[k - 1] < next.Length && r == At(c, k)
      ensures var parts := Parts(len[..], payload[..], c);
              |Join(parts[..k])| < 0x1_0000 && (k < |c| ==> |Join(parts[..k + 1])| >= 0x1_0000)
    {
      hide Join, Linked, Sized, Add16;
      ghost var parts := Parts(len[..], payload[..], c);
      LinkAt(next[..], c, 0);
      SizedAt(len[..], payload[..], c, 0);
      JoinNone(parts);
      JoinAround(parts, 0);
      var front := len[p];
      last, r, k := p, next[p], 1;
      if r != NULL {
        LinkAt(next[..], c, 1);
        SizedAt(len[..], payload[..], c, 1);
        NoWrap(front, len[r]);
        JoinAround(parts, 1);
      }
      while r != NULL && Add16(front, len[r]) >= front
        invariant 0 < k <= |c| && last == c[k - 1] < next.Length && r == At(c, k)
        invariant front == |Join(parts[..k])|
        invariant k < |c| ==> c[k] < next.Length && |Join(parts[..k + 1])| == front as int + len[c[k]]
        invariant k < |c| ==> (Add16(front, len[c[k]]) >= front <==> front as int + len[c[k]] < 0x1_0000)
        decreases |c| - k
      {
        LinkAt(next[..], c, k);
        AddExact(front, len[r]);
        front := Add16(front, len[r]);
        last := r;
        r := next[r];
        k := k + 1;
        if k < |c| {
          LinkAt(next[..], c, k);
          SizedAt(len[..], payload[..], c, k);
          NoWrap(front, len[r]);
          JoinAround(parts, k);
        }
      }
    }

    /** The second loop of pbuf_split_64k: every total of the first part without what was cut off. */
    method Lower(p: int, cut: U16, ghost c: seq<nat>)
      requires Valid() && Linked(next[..], c) && p == At(c, 0)
      modifies totLen
      ensures forall x :: x in c ==> x < next.Length && totLen[x] == Sub16(old(totLen[x]), cut)
      ensures forall x :: 0 <= x < next.Length && x !in c ==> totLen[x] == old(totLen[x])
    {
      hide Linked, Sub16;
      var i := p;
      ghost var k := 0;
      while i != NULL
        invariant k <= |c| && i == At(c, k)
        invariant forall x :: x in c[..k] ==> x < next.Length && totLen[x] == Sub16(old(totLen[x]), cut)
        invariant forall x :: 0 <= x < next.Length && x !in c[..k] ==> totLen[x] == old(totLen[x])
        decreases |c| - k
      {
        LinkAt(next[..], c, k);
        assert c[..k + 1] == c[..k] + [c[k]];
        totLen[i] := Sub16(totLen[i], cut);
        i := next[i];
        k := k + 1;
      }
      assert c[..k] == c;
    }

    /** pbuf_split_64k: the longest front that fits 16 bits and the rest, both with right totals and nothing lost. */
    method Split64k(p: int, ghost c: seq<nat>) returns (rest: int, ghost k: nat)
      requires Valid() && Chain(c) && Sums(c) && p == At(c, 0)
      modifies next, totLen, fin
      ensures k <= |c| && (c == [] || k > 0) && rest == At(c, k)
      ensures Chain(c[..k]) && Sums(c[..k]) && Chain(c[k..]) && Sums(c[k..])
      ensures Bytes(c[..k]) + Bytes(c[k..]) == old(Bytes(c))
      ensures |Bytes(c[..k])| < 0x1_0000
      ensures k < |c| ==> c[0] < fin.Length && c[k] < len.Length && |Bytes(c[..k])| + len[c[k]] >= 0x1_0000
      ensures k < |c| ==> fin[..] == old(fin[..])[c[k] := old(fin[c[0]]) || old(fin[c[k]])]
      ensures k == |c| ==> next[..] == old(next[..]) && totLen[..] == old(totLen[..]) && fin[..] == old(fin[..])
    {
      hide Join, Linked, Sized, Totals, Sub16;
      rest, k := NULL, |c|;
      if p == NULL {
        SplitNone(next[..], len[..], payload[..], totLen[..], c);
        return;
      }
      LinkAt(next[..], c, 0);
      SizedAt(len[..], payload[..], c, 0);
      if next[p] == NULL {
        SplitNone(next[..], len[..], payload[..], totLen[..], c);
        JoinFirst(Parts(len[..], payload[..], c));
        return;
      }
      var i, r, front := FrontOf(p, c);
      k := front;
      LinkAt(next[..], c, k - 1);
      TailOf(next[..], len[..], payload[..], c, k);
      SplitParts(len[..], payload[..], c, k);
      next[i] := NULL;
      CutLinks(old(next[..]), next[..], c, k);
      if r != NULL {
        LinkAt(old(next[..]), c, k);
        Lower(p, totLen[r], c[..k]);
        SplitTotals(old(next[..]), len[..], old(totLen[..]), totLen[..], c, k);
        SplitTail(old(next[..]), next[..], c, k);
        if fin[p] {
          fin[r] := true;
        }
        rest := r;
      } else {
        SplitNone(old(next[..]), len[..], payload[..], totLen[..], c);
        assert next[..] == old(next[..]);
      }
    }
  }

  /** No bytes at the very end of a packet of three: nothing could be overwritten, and yet the answer is ERR_MEM. */
  method TakeNothingAtEnd() returns (pool: Pool, data: seq<Byte>, offset: U16, err: Err)
    ensures fresh(pool) && pool.Valid() && pool.Chain([0]) && pool.Sums([0]) && pool.Bytes([0]) == [1, 2, 3]
    ensures data == [] && offset == 3 == |pool.Bytes([0])| && err == ErrMem
  {
    data, offset := [], 3;
    pool := new Pool([[1, 2, 3]]);
    ghost var k, at;
    err, k, at := pool.TakeAt(0, data, 0, offset, [0]);
  }

  /** A packet of the largest size, and bytes that differ from it in the last one only: the answer is the one for a packet too short. */
  method CompareLargest() returns (pool: Pool, s2: seq<Byte>, r: U16)
    ensures fresh(pool) && pool.Valid() && pool.Chain([0]) && pool.Sums([0])
    ensures |pool.Bytes([0])| == |s2| == 0xFFFF
    ensures s2[..0xFFFE] == pool.Bytes([0])[..0xFFFE] && s2[0xFFFE] != pool.Bytes([0])[0xFFFE] && r == 0xFFFF
  {
    var zeros: seq<Byte> := seq(0xFFFE, _ => 0);
    s2 := zeros + [1];
    pool := new Pool([zeros + [0]]);
    assert (zeros + [0])[..0xFFFE] == zeros == s2[..0xFFFE];
    r := pool.Memcmp(0, 0, s2, 0xFFFF, [0]);
  }

  lemma LinkAt(next: seq<int>, c: seq<nat>, i: nat)
    requires Linked(next, c) && i < |c|
    ensures c[i] < |next| && next[c[i]] == At(c, i + 1) && c[i] !in c[..i]
  {
    assert Node(next, c, i);
  }
}
