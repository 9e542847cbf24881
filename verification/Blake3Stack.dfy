/**
 What the stack of chaining values holds.  The stack covers whole chunks from the
 start of the input; the entry sizes, in chunks, are a binary decomposition in which
 the last power of two may still be waiting to be merged ("lazy" merging).
 */
module Blake3Stack {
  import opened Basics
  import opened Bits
  import opened Blake3Tree

  /** Chaining values of consecutive subtrees of the given sizes. */
  ghost function SubtreeCVs(m: Mode, base: nat, data: seq<Byte>, sizes: seq<nat>): (r: seq<CV>)
    requires CHUNK_LEN * Sum(sizes) <= |data|
    ensures |r| == |sizes|
    decreases |sizes|
  {
    if sizes == [] then []
    else
      var l := CHUNK_LEN * sizes[0];
      [TreeCV(m, base, data[..l])] + SubtreeCVs(m, base + sizes[0], data[l..], sizes[1..])
  }

  lemma {:induction false} SubtreeCVsPrefix(m: Mode, base: nat, a: seq<Byte>, b: seq<Byte>, sizes: seq<nat>)
    requires CHUNK_LEN * Sum(sizes) <= |a| && a <= b
    ensures SubtreeCVs(m, base, a, sizes) == SubtreeCVs(m, base, b, sizes)
    decreases |sizes|
  {
    hide TreeNode, TreeCV;
    if sizes != [] {
      var l := CHUNK_LEN * sizes[0];
      assert a[..l] == b[..l];
      SubtreeCVsPrefix(m, base + sizes[0], a[l..], b[l..], sizes[1..]);
    }
  }

  lemma SliceOfDrop(data: seq<Byte>, n: nat, p: nat, q: nat)
    requires p <= q && CHUNK_LEN * (n + q) <= |data|
    ensures data[CHUNK_LEN * n..][CHUNK_LEN * p..CHUNK_LEN * q] == data[CHUNK_LEN * (n + p)..CHUNK_LEN * (n + q)]
  {
  }

  lemma {:induction false} SubtreeCVsAppend(m: Mode, base: nat, data: seq<Byte>, sizes: seq<nat>, s: nat)
    requires CHUNK_LEN * (Sum(sizes) + s) <= |data|
    ensures Sum(sizes + [s]) == Sum(sizes) + s
    ensures var p := Sum(sizes);
      SubtreeCVs(m, base, data, sizes + [s]) ==
      SubtreeCVs(m, base, data, sizes) +
      [TreeCV(m, base + p, data[CHUNK_LEN * p..CHUNK_LEN * (p + s)])]
    decreases |sizes|
  {
    hide TreeNode, TreeCV;
    SumAppend(sizes, [s]);
    assert Sum([s]) == s;
    if sizes == [] {
      assert [s][1..] == [];
      assert data[..CHUNK_LEN * s] == data[0..CHUNK_LEN * s];
    } else {
      var l := CHUNK_LEN * sizes[0];
      var p := Sum(sizes[1..]);
      SubtreeCVsAppend(m, base + sizes[0], data[l..], sizes[1..], s);
      assert (sizes + [s])[1..] == sizes[1..] + [s];
      var head := [TreeCV(m, base, data[..l])];
      var top := [TreeCV(m, base + sizes[0] + p, data[l..][CHUNK_LEN * p..CHUNK_LEN * (p + s)])];
      SliceOfDrop(data, sizes[0], p, p + s);
      var lower := SubtreeCVs(m, base + sizes[0], data[l..], sizes[1..]);
      assert head + (lower + top) == (head + lower) + top;
    }
  }

  /** The fully merged stack over the first n chunks. */
  ghost function MergedStack(m: Mode, data: seq<Byte>, n: nat): seq<CV>
    requires CHUNK_LEN * n <= |data|
  {
    DecomposeSumsAndCounts(n);
    SubtreeCVs(m, 0, data, Decompose(n))
  }

  /** The merged stack over c chunks, and above it one subtree of 2^j chunks. */
  ghost predicate StackIs(m: Mode, data: seq<Byte>, stack: seq<CV>, c: nat, j: nat) {
    && Aligned(c, j)
    && CHUNK_LEN * (c + Pow2(j)) <= |data|
    && stack == MergedStack(m, data, c) + [Subtree(m, data, c, j)]
  }

  ghost function Subtree(m: Mode, data: seq<Byte>, c: nat, j: nat): CV
    requires CHUNK_LEN * (c + Pow2(j)) <= |data|
  {
    TreeCV(m, c, data[CHUNK_LEN * c..CHUNK_LEN * (c + Pow2(j))])
  }

  /** What every step of Update keeps: at most one subtree is not merged in yet. */
  ghost predicate LazyStack(m: Mode, data: seq<Byte>, stack: seq<CV>, n: nat) {
    if n == 0 then stack == []
    else exists c: nat, j: nat :: c + Pow2(j) == n && StackIs(m, data, stack, c, j)
  }

  lemma IsLazy(m: Mode, data: seq<Byte>, stack: seq<CV>, c: nat, j: nat)
    requires StackIs(m, data, stack, c, j)
    ensures LazyStack(m, data, stack, c + Pow2(j))
  {
    hide Aligned, MergedStack, TreeCV;
  }

  lemma NothingMerged(m: Mode, data: seq<Byte>)
    ensures MergedStack(m, data, 0) == [] && Popcount(0) == 0
  {
  }

  lemma MergedPrefix(m: Mode, a: seq<Byte>, b: seq<Byte>, n: nat)
    requires CHUNK_LEN * n <= |a| && a <= b
    ensures MergedStack(m, a, n) == MergedStack(m, b, n)
  {
    DecomposeSumsAndCounts(n);
    SubtreeCVsPrefix(m, 0, a, b, Decompose(n));
  }

  lemma LazyPrefix(m: Mode, a: seq<Byte>, b: seq<Byte>, stack: seq<CV>, n: nat)
    requires LazyStack(m, a, stack, n) && a <= b
    ensures LazyStack(m, b, stack, n)
  {
    hide TreeNode, TreeCV;
    if n > 0 {
      var c: nat, j: nat :| c + Pow2(j) == n && StackIs(m, a, stack, c, j);
      MergedPrefix(m, a, b, c);
      assert a[CHUNK_LEN * c..CHUNK_LEN * (c + Pow2(j))] == b[CHUNK_LEN * c..CHUNK_LEN * (c + Pow2(j))];
      assert StackIs(m, b, stack, c, j);
    }
  }

  /** When the lowest subtree has no equal neighbour the stack is already merged. */
  lemma MergedWhenAligned(m: Mode, data: seq<Byte>, c: nat, j: nat)
    requires Aligned(c, j + 1) && CHUNK_LEN * (c + Pow2(j)) <= |data|
    ensures MergedStack(m, data, c + Pow2(j)) == MergedStack(m, data, c) + [Subtree(m, data, c, j)]
  {
    DecomposeAppend(c, j);
    DecomposeSumsAndCounts(c);
    SubtreeCVsAppend(m, 0, data, Decompose(c), Pow2(j));
  }

  /** Merging the two topmost entries joins two equal neighbours into their parent. */
  lemma MergeTopTwo(m: Mode, data: seq<Byte>, stack: seq<CV>, c: nat, j: nat) returns (y: nat)
    requires StackIs(m, data, stack, c, j) && !Aligned(c, j + 1)
    ensures y + Pow2(j) == c && Aligned(y, j + 1) && |stack| >= 2
    ensures var k := |stack| - 2;
      StackIs(m, data, stack[..k] + [ChainingValue(m, ParentNode(m, stack[k], stack[k + 1]))], y, j + 1)
  {
    y := OddMultiple(c, j);
    MergedWhenAligned(m, data, y, j);
    assert stack == MergedStack(m, data, y) + [Subtree(m, data, y, j)] + [Subtree(m, data, c, j)];
    var k := |stack| - 2;
    assert stack[..k] == MergedStack(m, data, y);
    JoinNeighbours(m, data, y, j);
  }

  lemma JoinNeighbours(m: Mode, data: seq<Byte>, y: nat, j: nat)
    requires CHUNK_LEN * (y + Pow2(j + 1)) <= |data|
    ensures Subtree(m, data, y, j + 1)
        == ChainingValue(m, ParentNode(m, Subtree(m, data, y, j), Subtree(m, data, y + Pow2(j), j)))
  {
    var p := Pow2(j);
    var whole := data[CHUNK_LEN * y..CHUNK_LEN * (y + 2 * p)];
    JoinSubtrees(m, y, whole, j);
    assert whole[..CHUNK_LEN * p] == data[CHUNK_LEN * y..CHUNK_LEN * (y + p)];
    assert whole[CHUNK_LEN * p..] == data[CHUNK_LEN * (y + p)..CHUNK_LEN * (y + p + p)];
  }

  /** The loop in hasher_merge_cv_stack stops exactly at the merged stack. */
  lemma MergeStopsRight(m: Mode, data: seq<Byte>, stack: seq<CV>, c: nat, j: nat)
    requires StackIs(m, data, stack, c, j)
    ensures |stack| > Popcount(c + Pow2(j)) <==> !Aligned(c, j + 1)
    ensures Aligned(c, j + 1) ==> stack == MergedStack(m, data, c + Pow2(j))
  {
    hide TreeNode, TreeCV, Decompose, Popcount;
    DecomposeSumsAndCounts(c);
    DecomposeSumsAndCounts(c + Pow2(j));
    assert |stack| == Popcount(c) + 1;
    if Aligned(c, j + 1) {
      DecomposeAppend(c, j);
      MergedWhenAligned(m, data, c, j);
    } else {
      var y := OddMultiple(c, j);
      DecomposeAppend(y, j);
      CarryPopcount(y, j + 1, Pow2(j + 1));
    }
  }

  /** Folding the stack from the top down, as finalization does. */
  ghost function FoldDown(m: Mode, stack: seq<CV>, last: Node): Node
    decreases |stack|
  {
    if stack == [] then last
    else
      var k := |stack| - 1;
      FoldDown(m, stack[..k], ParentNode(m, stack[k], ChainingValue(m, last)))
  }

  lemma FoldDownTop(m: Mode, stack: seq<CV>, k: nat, last: Node)
    requires |stack| == k + 1
    ensures FoldDown(m, stack, last) == FoldDown(m, stack[..k], ParentNode(m, stack[k], ChainingValue(m, last)))
  {
  }

  /** With no subtree on the stack the input is a single chunk, which is the root. */
  lemma RootChunk(m: Mode, data: seq<Byte>, n: nat)
    requires LazyStack(m, data, [], n) && |data| <= CHUNK_LEN * (n + 1)
    ensures n == 0 && TreeNode(m, 0, data) == ChunkNode(m, 0, data[CHUNK_LEN * n..])
  {
    assert data[0..] == data;
  }

  lemma StackNeedsData(m: Mode, data: seq<Byte>, stack: seq<CV>, n: nat)
    requires LazyStack(m, data, stack, n) && stack != []
    ensures data != []
  {
  }

  lemma FoldDone(m: Mode, last: Node)
    ensures FoldDown(m, [], last) == last
  {
  }

  lemma {:induction false} FoldDownFirst(m: Mode, x: CV, s: seq<CV>, last: Node)
    ensures FoldDown(m, [x] + s, last) == ParentNode(m, x, ChainingValue(m, FoldDown(m, s, last)))
    decreases |s|
  {
    if s == [] {
      assert ([x] + s)[..0] == [];
    } else {
      var k := |s| - 1;
      assert ([x] + s)[..k + 1] == [x] + s[..k];
      FoldDownFirst(m, x, s[..k], ParentNode(m, s[k], ChainingValue(m, last)));
    }
  }

  /** If the fold of the right part is its tree, one more entry makes the fold the whole tree. */
  lemma FoldStep(m: Mode, base: nat, data: seq<Byte>, k: nat, rest: seq<nat>, last: Node)
    requires CHUNK_LEN * Pow2(k) < |data| <= 2 * CHUNK_LEN * Pow2(k)
    requires CHUNK_LEN * (Pow2(k) + Sum(rest)) <= |data|
    requires FoldDown(m, SubtreeCVs(m, base + Pow2(k), data[CHUNK_LEN * Pow2(k)..], rest), last)
          == TreeNode(m, base + Pow2(k), data[CHUNK_LEN * Pow2(k)..])
    ensures Sum([Pow2(k)] + rest) == Pow2(k) + Sum(rest)
    ensures FoldDown(m, SubtreeCVs(m, base, data, [Pow2(k)] + rest), last) == TreeNode(m, base, data)
  {
    hide TreeNode, FoldDown, LeftLen;
    var l := CHUNK_LEN * Pow2(k);
    assert ([Pow2(k)] + rest)[1..] == rest;
    JoinSubtrees(m, base, data, k);
    FoldDownFirst(m, TreeCV(m, base, data[..l]), SubtreeCVs(m, base + Pow2(k), data[l..], rest), last);
  }

  lemma FoldNothing(m: Mode, base: nat, data: seq<Byte>)
    ensures FoldDown(m, SubtreeCVs(m, base, data, Decompose(0)), TreeNode(m, base + 0, data[0..]))
            == TreeNode(m, base, data)
  {
    hide TreeNode;
    assert data[0..] == data;
  }

  /** The fold of the merged stack over c chunks onto the rest of the input is the whole tree. */
  lemma {:induction false} FoldIsTree(m: Mode, base: nat, data: seq<Byte>, c: nat, j: nat)
    requires Aligned(c, j) && CHUNK_LEN * c < |data| <= CHUNK_LEN * (c + Pow2(j))
    ensures Sum(Decompose(c)) == c
    ensures FoldDown(m, SubtreeCVs(m, base, data, Decompose(c)), TreeNode(m, base + c, data[CHUNK_LEN * c..]))
            == TreeNode(m, base, data)
    decreases c
  {
    hide TreeNode, TopBit, SubtreeCVs, FoldDown, Decompose, Aligned, Sum, Pow2;
    DecomposeSumsAndCounts(c);
    var last := TreeNode(m, base + c, data[CHUNK_LEN * c..]);
    if c == 0 {
      FoldNothing(m, base, data);
    } else {
      var t := TopBit(c);
      var l := CHUNK_LEN * t;
      DecomposeTop(c);
      DecomposeSumsAndCounts(c - t);
      AlignedTopBit(c, j);
      TopBitIsPower(c);
      var k: nat :| t == Pow2(k);
      var right := data[l..];
      FoldIsTree(m, base + t, right, c - t, j);
      assert right[CHUNK_LEN * (c - t)..] == data[CHUNK_LEN * c..];
      FoldStep(m, base, data, k, Decompose(c - t), last);
      assert FoldDown(m, SubtreeCVs(m, base, data, Decompose(c)), last) == TreeNode(m, base, data);
    }
  }

  /** Finalization from a stack whose last entry is the end of the input. */
  lemma FoldTopTwo(m: Mode, data: seq<Byte>, stack: seq<CV>, n: nat)
    requires LazyStack(m, data, stack, n) && |data| == CHUNK_LEN * n && |stack| >= 2
    ensures var k := |stack| - 2;
      FoldDown(m, stack[..k], ParentNode(m, stack[k], stack[k + 1])) == TreeNode(m, 0, data)
  {
    hide TreeNode, Decompose, SubtreeCVs;
    var c: nat, j: nat :| c + Pow2(j) == n && StackIs(m, data, stack, c, j);
    var last := TreeNode(m, c, data[CHUNK_LEN * c..]);
    assert data[CHUNK_LEN * c..] == data[CHUNK_LEN * c..CHUNK_LEN * (c + Pow2(j))];
    var k := |stack| - 2;
    assert stack[k + 1] == ChainingValue(m, last);
    var merged := MergedStack(m, data, c);
    assert stack[..k + 1] == merged && merged[..k] == stack[..k] && merged[k] == stack[k];
    assert FoldDown(m, merged, last) == FoldDown(m, merged[..k], ParentNode(m, merged[k], ChainingValue(m, last)));
    FoldIsTree(m, 0, data, c, j);
  }

  /** Finalization from a merged stack and a last, non-empty chunk. */
  lemma FoldChunk(m: Mode, data: seq<Byte>, n: nat)
    requires CHUNK_LEN * n < |data| <= CHUNK_LEN * (n + 1)
    ensures FoldDown(m, MergedStack(m, data, n), ChunkNode(m, n, data[CHUNK_LEN * n..])) == TreeNode(m, 0, data)
  {
    assert Pow2(0) == 1;
    FoldIsTree(m, 0, data, n, 0);
  }

  /** 54 levels are enough for 2^64 bytes, and the stack needs one more slot than levels. */
  lemma StackFits(m: Mode, data: seq<Byte>, stack: seq<CV>, n: nat)
    requires LazyStack(m, data, stack, n) && |data| < CHUNK_LEN * Pow2(MAX_DEPTH)
    ensures |stack| <= MAX_DEPTH + 1
  {
    if n > 0 {
      var c: nat, j: nat :| c + Pow2(j) == n && StackIs(m, data, stack, c, j);
      DecomposeLength(c, MAX_DEPTH);
    }
  }

  lemma MergedNonEmpty(m: Mode, data: seq<Byte>, n: nat)
    requires 0 < n && CHUNK_LEN * n <= |data|
    ensures |MergedStack(m, data, n)| >= 1
  {
    DecomposeTop(n);
  }

  lemma MergedFits(m: Mode, data: seq<Byte>, n: nat)
    requires CHUNK_LEN * n <= |data| < CHUNK_LEN * Pow2(MAX_DEPTH)
    ensures |MergedStack(m, data, n)| <= MAX_DEPTH
  {
    DecomposeLength(n, MAX_DEPTH);
  }

  /** A full chunk is the subtree of 2^0 chunks. */
  lemma ChunkSubtree(m: Mode, data: seq<Byte>, n: nat)
    requires CHUNK_LEN * (n + 1) <= |data|
    ensures Pow2(0) == 1 && Aligned(n, 0)
    ensures Subtree(m, data, n, 0)
            == ChainingValue(m, ChunkNode(m, n, data[CHUNK_LEN * n..CHUNK_LEN * n + CHUNK_LEN]))
  {
    var d := data[CHUNK_LEN * n..CHUNK_LEN * (n + Pow2(0))];
    assert d == data[CHUNK_LEN * n..CHUNK_LEN * n + CHUNK_LEN];
    assert TreeNode(m, n, d) == ChunkNode(m, n, d);
  }

  /** The pair below the top of an aligned subtree is its two halves. */
  lemma PairIsHalves(m: Mode, data: seq<Byte>, n: nat, k: nat)
    requires k > 0 && Aligned(n, k) && CHUNK_LEN * (n + Pow2(k)) <= |data|
    ensures var part, h := data[CHUNK_LEN * n..CHUNK_LEN * (n + Pow2(k))], Pow2(k - 1);
      && Pow2(k) == 2 * h
      && |part| > CHUNK_LEN && LeftLen(|part|) == CHUNK_LEN * h
      && TreeCV(m, n, part[..CHUNK_LEN * h]) == Subtree(m, data, n, k - 1)
      && TreeCV(m, n + h, part[CHUNK_LEN * h..]) == Subtree(m, data, n + h, k - 1)
    ensures Aligned(n, k - 1) && Aligned(n + Pow2(k - 1), k - 1)
  {
    hide TreeCV, LeftLen, Aligned;
    var h := Pow2(k - 1);
    var part := data[CHUNK_LEN * n..CHUNK_LEN * (n + 2 * h)];
    LeftLenIs(|part|, k - 1);
    assert part[..CHUNK_LEN * h] == data[CHUNK_LEN * n..CHUNK_LEN * (n + h)];
    assert part[CHUNK_LEN * h..] == data[CHUNK_LEN * (n + h)..CHUNK_LEN * (n + h + h)];
    AlignedDown(n, k, k - 1);
    AlignedStep(n, k - 1);
  }
}
