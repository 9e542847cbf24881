/**
 The incremental hasher.  Input arrives in pieces of any size; whatever the pieces,
 finalization returns the hash of their concatenation.
 */
module Blake3Hasher {
  import opened Basics
  import opened Bits
  import opened Blake3Tree
  import opened Blake3Chunk
  import opened Blake3Subtree
  import opened Blake3Stack
  import opened Blake3Output

  /** Fewer than 2^64 bytes: what 54 tree levels of 1024-byte chunks can hold. */
  ghost predicate InRange(len: nat) {
    len < CHUNK_LEN * Pow2(MAX_DEPTH)
  }

  lemma InRangeIs64Bit(len: nat)
    ensures InRange(len) <==> len < 0x1_0000_0000_0000_0000
  {
    assert Pow2(4) == 16 && Pow2(0) == 1;
    TenBits(0, 4);
    TenBits(0, 14);
    TenBits(0, 24);
    TenBits(0, 34);
    TenBits(0, 44);
  }

  lemma InRangeNothing()
    ensures InRange(0)
  {
  }

  /** The longest power-of-two run of chunks that fits in len bytes and is aligned at counter. */
  method LargestSubtree(len: nat, counter: nat) returns (subtreeLen: nat, ghost k: nat)
    requires len > CHUNK_LEN
    ensures subtreeLen == CHUNK_LEN * Pow2(k) <= len && Aligned(counter, k)
    ensures len < 2 * subtreeLen || !Aligned(counter, k + 1)
  {
    subtreeLen := RoundDownToPowerOf2(len);
    var countSoFar := counter * CHUNK_LEN;
    TopBitIsPower(len);
    ghost var t: nat :| TopBit(len) == Pow2(t);
    TenBits(counter, 0);
    PowMonotone(t, 10);
    MaskTestsAlignment(t, countSoFar);
    while And(subtreeLen - 1, countSoFar) != 0
      invariant subtreeLen == Pow2(t) <= len && t >= 10
      invariant And(subtreeLen - 1, countSoFar) == 0 <==> Aligned(countSoFar, t)
      invariant len < 2 * subtreeLen || !Aligned(countSoFar, t + 1)
      decreases t
    {
      subtreeLen := subtreeLen / 2;
      t := t - 1;
      MaskTestsAlignment(t, countSoFar);
    }
    k := t - 10;
    TenBits(counter, k);
    TenBits(counter, k + 1);
  }

  class Hasher {
    const f: Compression
    var key: Words
    const chunk: ChunkState
    var cvStackLen: nat
    const cvStack: array<CV>

    ghost var data: seq<Byte>  // every byte hashed so far

    ghost function M(): Mode
      reads this, chunk
    {
      Mode(f, key, chunk.flags)
    }

    ghost function Stack(): seq<CV>
      requires cvStackLen <= cvStack.Length
      reads this, cvStack
    {
      cvStack[..cvStackLen]
    }

    /** The parts belong together; says nothing about the stack. */
    ghost predicate Shape()
      reads this, chunk, chunk.buf, cvStack
    {
      && cvStack.Length == MAX_DEPTH + 1
      && cvStackLen <= cvStack.Length
      && chunk.Valid() && chunk.f == f && chunk.key == key
    }

    ghost predicate Covers(d: seq<Byte>, n: nat)
      requires cvStackLen <= cvStack.Length
      reads this, chunk, cvStack
    {
      && CHUNK_LEN * n <= |d| && InRange(|d|)
      && LazyStack(M(), d, Stack(), n)
    }

    /** The chunk holds the tail of the data.  When it is not empty the stack is merged;
        when it is, the last two subtrees are still on the stack for the root. */
    ghost predicate Valid()
      reads this, chunk, chunk.buf, cvStack
    {
      && Shape()
      && Covers(data, chunk.chunkCounter)
      && chunk.contents == data[CHUNK_LEN * chunk.chunkCounter..]
      && (chunk.contents != [] ==> Stack() == MergedStack(M(), data, chunk.chunkCounter))
      && (chunk.contents == [] && data != [] ==> cvStackLen >= 2)
    }

    /** hasher_init_base */
    constructor (f: Compression, key: Words, flags: Flags)
      ensures Valid() && fresh(chunk) && fresh(chunk.buf) && fresh(cvStack)
      ensures data == [] && M() == Mode(f, key, flags)
    {
      this.f := f;
      this.key := key;
      chunk := new ChunkState(f, key, flags);
      cvStackLen := 0;
      cvStack := new CV[55](_ => seq(32, _ => 0));
      data := [];
      new;
      InRangeNothing();
    }

    method Reset()
      requires Valid()
      modifies this`data, this`cvStackLen, chunk, chunk.buf
      ensures Valid()
      ensures data == [] && M() == old(M())
    {
      chunk.Reset(key, 0);
      cvStackLen := 0;
      data := [];
    }

    /** One turn of the merge loop: the two topmost entries become their parent. */
    method MergeTop(ghost d: seq<Byte>, ghost c: nat, ghost j: nat) returns (ghost y: nat)
      requires Shape() && StackIs(M(), d, Stack(), c, j) && !Aligned(c, j + 1)
      modifies this`cvStackLen, cvStack
      ensures Shape() && StackIs(M(), d, Stack(), y, j + 1)
      ensures y + Pow2(j) == c && cvStackLen == old(cvStackLen) - 1
    {
      hide TreeNode, TreeCV, MergedStack, Aligned, ChunkState.Valid, StackIs;
      ghost var s := Stack();
      y := MergeTopTwo(M(), d, s, c, j);
      var o := ParentNode(Mode(f, key, chunk.flags), cvStack[cvStackLen - 2], cvStack[cvStackLen - 1]);
      var cv := OutputChainingValue(f, o);
      cvStack[cvStackLen - 2] := cv;
      cvStackLen := cvStackLen - 1;
      assert Stack() == s[..|s| - 2] + [cv];
    }

    /** hasher_merge_cv_stack: merge until one entry per one bit of the chunk count is left. */
    method MergeCvStack(totalLen: nat, ghost d: seq<Byte>)
      requires Shape() && Covers(d, totalLen)
      modifies this`cvStackLen, cvStack
      ensures Shape() && Covers(d, totalLen)
      ensures Stack() == MergedStack(M(), d, totalLen)
    {
      hide TreeNode, TreeCV, MergedStack, Popcount, Aligned, ChunkState.Valid, StackIs, Decompose;
      var postMergeStackLen := Popcount(totalLen);
      NothingMerged(M(), d);
      if totalLen == 0 {
        return;
      }
      ghost var c: nat, j: nat :| c + Pow2(j) == totalLen && StackIs(M(), d, Stack(), c, j);
      MergeStopsRight(M(), d, Stack(), c, j);
      while cvStackLen > postMergeStackLen
        invariant Shape()
        invariant c + Pow2(j) == totalLen && StackIs(M(), d, Stack(), c, j)
        invariant cvStackLen > postMergeStackLen <==> !Aligned(c, j + 1)
        invariant Aligned(c, j + 1) ==> Stack() == MergedStack(M(), d, totalLen)
        decreases cvStackLen
      {
        c := MergeTop(d, c, j);
        j := j + 1;
        MergeStopsRight(M(), d, Stack(), c, j);
      }
    }

    /** hasher_push_cv: the entry for the next 2^j chunks goes on top of the merged stack. */
    method PushCv(newCv: CV, chunkCounter: nat, ghost j: nat, ghost d: seq<Byte>)
      requires Shape() && Covers(d, chunkCounter)
      requires Aligned(chunkCounter, j) && CHUNK_LEN * (chunkCounter + Pow2(j)) <= |d|
      requires newCv == Subtree(M(), d, chunkCounter, j)
      modifies this`cvStackLen, cvStack
      ensures Shape() && Covers(d, chunkCounter + Pow2(j))
      ensures Stack() == MergedStack(M(), d, chunkCounter) + [newCv]
    {
      hide TreeNode, TreeCV, ChunkState.Valid, Aligned, LazyStack, MergedStack, Pow2;
      MergeCvStack(chunkCounter, d);
      MergedFits(M(), d, chunkCounter);
      cvStack[cvStackLen] := newCv;
      cvStackLen := cvStackLen + 1;
      assert Stack() == MergedStack(M(), d, chunkCounter) + [newCv];
      IsLazy(M(), d, Stack(), chunkCounter, j);
    }

    /** Between pieces of an update: the chunk is empty and rest is the input not yet absorbed. */
    ghost predicate AtChunkStart(all: seq<Byte>, rest: seq<Byte>)
      reads this, chunk, chunk.buf, cvStack
    {
      && Shape()
      && Covers(all, chunk.chunkCounter)
      && chunk.contents == []
      && rest == all[CHUNK_LEN * chunk.chunkCounter..]
    }

    /** The current chunk is full and more input follows: its value goes on the stack. */
    method FinishChunk(ghost all: seq<Byte>)
      requires Shape() && Covers(all, chunk.chunkCounter)
      requires |chunk.contents| == CHUNK_LEN
      requires var p := CHUNK_LEN * chunk.chunkCounter;
        p + CHUNK_LEN <= |all| && chunk.contents == all[p..p + CHUNK_LEN]
      modifies this`cvStackLen, cvStack, chunk, chunk.buf
      ensures chunk.chunkCounter == old(chunk.chunkCounter) + 1 && M() == old(M())
      ensures AtChunkStart(all, all[CHUNK_LEN * (old(chunk.chunkCounter) + 1)..])
    {
      hide TreeNode, ChunkNode, ChunkState.Valid, Aligned, LazyStack, MergedStack;
      ghost var n := chunk.chunkCounter;
      ChunkSubtree(M(), all, n);
      var o := chunk.Output();
      var chunkCv := OutputChainingValue(f, o);
      PushCv(chunkCv, chunk.chunkCounter, 0, all);
      chunk.Reset(key, chunk.chunkCounter + 1);
    }

    /** A subtree of more than one chunk goes on the stack as its two halves. */
    method PushHalves(part: seq<Byte>, ghost k: nat, ghost all: seq<Byte>)
      requires Shape() && Covers(all, chunk.chunkCounter)
      requires var n := chunk.chunkCounter;
        && k > 0 && Aligned(n, k) && CHUNK_LEN * (n + Pow2(k)) <= |all|
        && part == all[CHUNK_LEN * n..CHUNK_LEN * (n + Pow2(k))]
      modifies this`cvStackLen, cvStack
      ensures Shape() && Covers(all, chunk.chunkCounter + Pow2(k))
      ensures cvStackLen >= 2
    {
      hide TreeNode, TreeCV, ChunkState.Valid, Aligned, LazyStack, MergedStack;
      ghost var n := chunk.chunkCounter;
      PairIsHalves(M(), all, n, k);
      var subtreeChunks := |part| / CHUNK_LEN;
      var left, right := CompressSubtreeToParentNode(Mode(f, key, chunk.flags), part, chunk.chunkCounter);
      PushCv(left, chunk.chunkCounter, k - 1, all);
      PushCv(right, chunk.chunkCounter + subtreeChunks / 2, k - 1, all);
      MergedNonEmpty(M(), all, n + Pow2(k - 1));
    }

    /** One turn of the main loop: the largest aligned power-of-two subtree at the front of rest. */
    method PushSubtree(rest: seq<Byte>, ghost all: seq<Byte>) returns (subtreeLen: nat)
      requires AtChunkStart(all, rest) && |rest| > CHUNK_LEN
      modifies this`cvStackLen, cvStack, chunk`chunkCounter
      ensures 0 < subtreeLen <= |rest|
      ensures AtChunkStart(all, rest[subtreeLen..])
      ensures subtreeLen == |rest| ==> cvStackLen >= 2
      ensures M() == old(M())
    {
      hide TreeNode, TreeCV, ChunkState.Valid, Aligned, LazyStack, MergedStack, Pow2;
      ghost var n := chunk.chunkCounter;
      ghost var k: nat;
      subtreeLen, k := LargestSubtree(|rest|, chunk.chunkCounter);
      var subtreeChunks := subtreeLen / CHUNK_LEN;
      FrontOfRest(all, rest, n, Pow2(k));
      if subtreeLen <= CHUNK_LEN {
        var cv := HashPartialChunk(Mode(f, key, chunk.flags), rest[..subtreeLen], chunk.chunkCounter);
        PushCv(cv, chunk.chunkCounter, k, all);
      } else {
        PowerAboveOne(k);
        PushHalves(rest[..subtreeLen], k, all);
      }
      chunk.Renumber(chunk.chunkCounter + subtreeChunks);
    }

    /** The input ends inside the current chunk and everything in front of it is merged. */
    ghost predicate EndsInChunk(d: seq<Byte>)
      reads this, chunk, chunk.buf, cvStack
    {
      && Shape()
      && Covers(d, chunk.chunkCounter)
      && chunk.contents == d[CHUNK_LEN * chunk.chunkCounter..]
      && chunk.contents != []
      && Stack() == MergedStack(M(), d, chunk.chunkCounter)
    }

    /** Fills up a started chunk; when input is left over the full chunk goes on the stack. */
    method TopUpChunk(input: seq<Byte>, ghost d: seq<Byte>, ghost all: seq<Byte>) returns (rest: seq<Byte>)
      requires EndsInChunk(d) && all == d + input && InRange(|all|)
      modifies this`cvStackLen, cvStack, chunk, chunk.buf
      ensures M() == old(M())
      ensures |rest| <= |input|
      ensures if rest == [] then EndsInChunk(all) else AtChunkStart(all, rest)
    {
      hide TreeNode, TreeCV, ChunkState.Valid, LazyStack, MergedStack, Pow2;
      ghost var n := chunk.chunkCounter;
      ghost var start := chunk.contents;
      LazyPrefix(M(), d, all, Stack(), n);
      MergedPrefix(M(), d, all, n);
      var chunkLen := chunk.Len();
      var take := CHUNK_LEN - chunkLen;
      if take > |input| {
        take := |input|;
      }
      chunk.Update(input[..take]);
      rest := input[take..];
      TakeFront(d, input, all, n, take);
      if |rest| > 0 {
        FinishChunk(all);
      }
    }

    /** The last bytes, at most a chunk, stay in the chunk state and the stack is merged. */
    method KeepTail(rest: seq<Byte>, ghost all: seq<Byte>)
      requires AtChunkStart(all, rest) && 0 < |rest| <= CHUNK_LEN
      modifies this`cvStackLen, cvStack, chunk, chunk.buf
      ensures EndsInChunk(all) && M() == old(M())
    {
      hide TreeNode, TreeCV, ChunkState.Valid, LazyStack, MergedStack, Pow2;
      chunk.Update(rest);
      assert chunk.contents == rest;
      MergeCvStack(chunk.chunkCounter, all);
    }

    /** blake3_hasher_update */
    method Update(input: seq<Byte>)
      requires Valid() && InRange(|data| + |input|)
      modifies this`data, this`cvStackLen, cvStack, chunk, chunk.buf
      ensures Valid()
      ensures data == old(data) + input && M() == old(M())
    {
      hide TreeNode, TreeCV, ChunkState.Valid, LazyStack, MergedStack, Pow2;
      ghost var all := data + input;
      if |input| == 0 {
        assert all == data;
        return;
      }
      var rest := input;
      var chunkLen := chunk.Len();
      if chunkLen > 0 {
        rest := TopUpChunk(rest, data, all);
        if |rest| == 0 {
          data := all;
          return;
        }
      } else {
        LazyPrefix(M(), data, all, Stack(), chunk.chunkCounter);
        assert rest == all[CHUNK_LEN * chunk.chunkCounter..];
      }
      while |rest| > CHUNK_LEN
        invariant AtChunkStart(all, rest) && M() == old(M())
        invariant rest == [] ==> cvStackLen >= 2
        decreases |rest|
      {
        var subtreeLen := PushSubtree(rest, all);
        rest := rest[subtreeLen..];
      }
      if |rest| > 0 {
        KeepTail(rest, all);
      }
      data := all;
    }

    /** Folds the stack from the top down onto the last node. */
    method RootNode() returns (o: Node)
      requires Valid()
      ensures o == TreeNode(M(), 0, data)
    {
      hide TreeNode, TreeCV, ChunkNode, ChunkState.Valid, LazyStack, MergedStack, FoldDown, StackIs;
      ghost var m, root := M(), TreeNode(M(), 0, data);
      var chunkLen := chunk.Len();
      if cvStackLen == 0 {
        assert Stack() == [];
        RootChunk(m, data, chunk.chunkCounter);
        o := chunk.Output();
        return;
      }
      var cvsRemaining;
      if chunkLen > 0 {
        cvsRemaining := cvStackLen;
        o := chunk.Output();
        FoldChunk(m, data, chunk.chunkCounter);
      } else {
        StackNeedsData(m, data, Stack(), chunk.chunkCounter);
        cvsRemaining := cvStackLen - 2;
        o := ParentNode(Mode(f, key, chunk.flags), cvStack[cvsRemaining], cvStack[cvsRemaining + 1]);
        assert Stack()[..cvsRemaining] == cvStack[..cvsRemaining];
        FoldTopTwo(m, data, Stack(), chunk.chunkCounter);
      }
      while cvsRemaining > 0
        invariant 0 <= cvsRemaining <= cvStackLen
        invariant FoldDown(m, cvStack[..cvsRemaining], o) == root
      {
        FoldDownTop(m, cvStack[..cvsRemaining], cvsRemaining - 1, o);
        cvsRemaining := cvsRemaining - 1;
        assert cvStack[..cvsRemaining + 1][..cvsRemaining] == cvStack[..cvsRemaining];
        var cv := OutputChainingValue(f, o);
        o := ParentNode(Mode(f, key, chunk.flags), cvStack[cvsRemaining], cv);
      }
      FoldDone(m, o);
    }

    /** blake3_hasher_finalize_seek: bytes [seek, seek + out.Length) of the hash of all input. */
    method FinalizeSeek(seek: nat, out: array<Byte>)
      requires Valid() && out != chunk.buf
      modifies out
      ensures out[..] == Hash(M(), data, seek, out.Length)
      ensures Valid()
    {
      hide TreeNode, ChunkState.Valid, LazyStack, MergedStack, StreamByte;
      if out.Length == 0 {
        return;
      }
      var o := RootNode();
      OutputRootBytes(Mode(f, key, chunk.flags), o, seek, out);
    }
  }

  lemma TakeFront(d: seq<Byte>, input: seq<Byte>, all: seq<Byte>, n: nat, take: nat)
    requires CHUNK_LEN * n <= |d| && all == d + input && take <= |input|
    ensures var p := CHUNK_LEN * n; var c := d[p..] + input[..take];
      && c == all[p..p + |c|]
      && (take == |input| ==> c == all[p..])
      && input[take..] == all[p + |c|..]
  {
  }

  lemma FrontOfRest(all: seq<Byte>, rest: seq<Byte>, n: nat, p: nat)
    requires CHUNK_LEN * n <= |all| && rest == all[CHUNK_LEN * n..] && CHUNK_LEN * p <= |rest|
    ensures rest[..CHUNK_LEN * p] == all[CHUNK_LEN * n..CHUNK_LEN * (n + p)]
    ensures rest[CHUNK_LEN * p..] == all[CHUNK_LEN * (n + p)..]
  {
  }

  lemma PowerAboveOne(k: nat)
    ensures Pow2(k) > 1 ==> k > 0
  {
  }

  /** blake3_hasher_init */
  method Init(f: Compression) returns (h: Hasher)
    ensures h.Valid() && fresh(h) && fresh(h.chunk) && fresh(h.chunk.buf) && fresh(h.cvStack)
    ensures h.data == [] && h.M() == Mode(f, IV, 0)
  {
    h := new Hasher(f, IV, 0);
  }

  /** blake3_hasher_init_keyed: the 32-byte key as words. */
  method InitKeyed(f: Compression, key: CV) returns (h: Hasher)
    ensures h.Valid() && fresh(h) && fresh(h.chunk) && fresh(h.chunk.buf) && fresh(h.cvStack)
    ensures h.data == [] && h.M() == Mode(f, LoadWords(key), 16)
  {
    h := new Hasher(f, LoadWords(key), KEYED_HASH);
  }

  /** blake3_hasher_init_derive_key_raw: the key is the hash of the context string. */
  method InitDeriveKeyRaw(f: Compression, context: seq<Byte>) returns (h: Hasher)
    requires InRange(|context|)
    ensures h.Valid() && fresh(h) && fresh(h.chunk) && fresh(h.chunk.buf) && fresh(h.cvStack)
    ensures var contextKey := Hash(Mode(f, IV, 32), context, 0, 32);
      h.data == [] && h.M() == Mode(f, LoadWords(contextKey), 64)
  {
    hide ChunkState.Valid, Hasher.Valid, TreeNode;
    var contextHasher := new Hasher(f, IV, DERIVE_KEY_CONTEXT);
    contextHasher.Update(context);
    assert [] + context == context;
    var contextKey := new Byte[32](_ => 0);
    contextHasher.FinalizeSeek(0, contextKey);
    h := new Hasher(f, LoadWords(contextKey[..]), DERIVE_KEY_MATERIAL);
  }

  /** Any split of the input into pieces, empty ones included, gives the hash of the whole. */
  method HashPieces(f: Compression, key: Words, flags: Flags, pieces: seq<seq<Byte>>, seek: nat, n: nat)
    returns (out: array<Byte>)
    requires InRange(|Concat(pieces)|)
    ensures out[..] == Hash(Mode(f, key, flags), Concat(pieces), seek, n)
  {
    hide ChunkState.Valid, Hasher.Valid, TreeNode, InRange;
    var h := new Hasher(f, key, flags);
    var i := 0;
    while i < |pieces|
      invariant 0 <= i <= |pieces|
      invariant h.Valid() && fresh(h) && fresh(h.chunk) && fresh(h.chunk.buf) && fresh(h.cvStack)
      invariant h.data == Concat(pieces[..i]) && h.M() == Mode(f, key, flags)
    {
      ConcatStep(pieces, i);
      h.Update(pieces[i]);
      i := i + 1;
    }
    assert pieces[..i] == pieces;
    out := new Byte[n](_ => 0);
    h.FinalizeSeek(seek, out);
  }

  ghost function Concat(pieces: seq<seq<Byte>>): seq<Byte> {
    if pieces == [] then [] else pieces[0] + Concat(pieces[1..])
  }

  lemma {:induction false} ConcatAppend(a: seq<seq<Byte>>, b: seq<seq<Byte>>)
    ensures Concat(a + b) == Concat(a) + Concat(b)
  {
    if a == [] {
      assert a + b == b;
    } else {
      ConcatAppend(a[1..], b);
      assert (a + b)[1..] == a[1..] + b;
      assert a[0] + (Concat(a[1..]) + Concat(b)) == (a[0] + Concat(a[1..])) + Concat(b);
    }
  }

  lemma ConcatStep(pieces: seq<seq<Byte>>, i: nat)
    requires i < |pieces|
    ensures Concat(pieces[..i + 1]) == Concat(pieces[..i]) + pieces[i]
    ensures |Concat(pieces[..i])| + |pieces[i]| <= |Concat(pieces)|
    ensures forall k: nat, m: nat {:trigger InRange(k), InRange(m)} :: k <= m && InRange(m) ==> InRange(k)
  {
    assert pieces[..i + 1] == pieces[..i] + [pieces[i]];
    ConcatAppend(pieces[..i], [pieces[i]]);
    assert Concat([pieces[i]]) == pieces[i];
    assert pieces == pieces[..i + 1] + pieces[i + 1..];
    ConcatAppend(pieces[..i + 1], pieces[i + 1..]);
  }
}
