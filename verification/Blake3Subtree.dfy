/** Bulk hashing of whole subtrees, for the portable build (SIMD degree 1). */
module Blake3Subtree {
  import opened Basics
  import opened Bits
  import opened Blake3Tree
  import opened Blake3Chunk

  const SIMD_DEGREE := 1
  const MAX_SIMD_DEGREE := 1
  const MAX_SIMD_DEGREE_OR_2 := 2

  /** left_subtree_len: the closed form computes the split the tree prescribes. */
  function LeftSubtreeLen(len: nat): (r: nat)
    requires len > CHUNK_LEN
    ensures r == LeftLen(len)
  {
    var fullChunks := (len - 1) / CHUNK_LEN;
    assert RoundDownToPowerOf2(fullChunks) * CHUNK_LEN == LeftLen(len) by {
      TopBitIsPower(fullChunks);
      var k: nat :| TopBit(fullChunks) == Pow2(k);
      LeftLenIs(len, k);
    }
    RoundDownToPowerOf2(fullChunks) * CHUNK_LEN
  }

  ghost function RunCV(f: Compression, input: seq<Byte>, blocks: nat, key: Words, counter: nat,
                       flags: Flags, flagsStart: Flags, flagsEnd: Flags): CV
    requires |input| == BLOCK_LEN * blocks
  {
    StoreWords(BlockChain(f, key, counter, flags, flagsStart, flagsEnd, input, blocks, blocks))
  }

  /** blake3_hash_many_portable: each input is its own run of blocks. */
  method HashMany(f: Compression, inputs: seq<seq<Byte>>, blocks: nat, key: Words, counter: nat,
                  incrementCounter: bool, flags: Flags, flagsStart: Flags, flagsEnd: Flags,
                  out: array<CV>, off: nat)
    requires forall i | 0 <= i < |inputs| :: |inputs[i]| == BLOCK_LEN * blocks
    requires off + |inputs| <= out.Length
    modifies out
    ensures forall i | 0 <= i < |inputs| :: (
      out[off + i] == RunCV(f, inputs[i], blocks, key, if incrementCounter then counter + i else counter,
                            flags, flagsStart, flagsEnd))
    ensures forall i | 0 <= i < out.Length && !(off <= i < off + |inputs|) :: out[i] == old(out[i])
  {
    var c := counter;
    var k := 0;
    while k < |inputs|
      invariant 0 <= k <= |inputs|
      invariant c == if incrementCounter then counter + k else counter
      invariant forall i | 0 <= i < k :: (
      out[off + i] == RunCV(f, inputs[i], blocks, key, if incrementCounter then counter + i else counter,
                            flags, flagsStart, flagsEnd))
      invariant forall i | 0 <= i < out.Length && !(off <= i < off + k) :: out[i] == old(out[i])
    {
      out[off + k] := HashOne(f, inputs[k], blocks, key, c, flags, flagsStart, flagsEnd);
      if incrementCounter {
        c := c + 1;
      }
      k := k + 1;
    }
  }

  lemma ShortTree(m: Mode, counter: nat, input: seq<Byte>)
    requires |input| <= CHUNK_LEN
    ensures TreeCV(m, counter, input) == ChainingValue(m, ChunkNode(m, counter, input))
  {
  }

  /** One chunk through a fresh chunk state. */
  method HashPartialChunk(m: Mode, input: seq<Byte>, counter: nat) returns (cv: CV)
    requires |input| <= CHUNK_LEN
    ensures cv == TreeCV(m, counter, input)
  {
    hide TreeNode, TreeCV, ChunkNode, ChunkState.Valid, ChunkState.Consistent;
    ShortTree(m, counter, input);
    var state := new ChunkState(m.f, m.key, m.flags);
    state.Renumber(counter);
    state.Update(input);
    assert [] + input == input;
    var o := state.Output();
    cv := OutputChainingValue(m.f, o);
  }

  /** Chaining values of the chunks of a short input: at most one chunk fits SIMD degree 1. */
  method CompressChunksParallel(m: Mode, input: seq<Byte>, counter: nat, out: array<CV>, off: nat)
    returns (n: nat)
    requires |input| <= MAX_SIMD_DEGREE * CHUNK_LEN && off < out.Length
    modifies out
    ensures n == if input == [] then 0 else 1
    ensures n == 1 ==> out[off] == TreeCV(m, counter, input)
    ensures forall i | 0 <= i < out.Length && !(off <= i < off + n) :: out[i] == old(out[i])
  {
    var chunksArray := new seq<Byte>[MAX_SIMD_DEGREE](_ => []);
    var position := 0;
    var len := 0;
    while |input| - position >= CHUNK_LEN
      modifies chunksArray
      invariant 0 <= position <= |input| && position == len * CHUNK_LEN
      invariant len == 1 ==> chunksArray[0] == input
    {
      chunksArray[len] := input[position..position + CHUNK_LEN];
      position := position + CHUNK_LEN;
      len := len + 1;
      assert input[0..CHUNK_LEN] == input;
    }
    var chunks := chunksArray[..len];
    HashMany(m.f, chunks, CHUNK_LEN / BLOCK_LEN, m.key, counter, true,
             m.flags, CHUNK_START, CHUNK_END, out, off);
    if |input| > position {
      assert len == 0 && input[position..] == input;
      out[off + len] := HashPartialChunk(m, input[position..], counter + len);
      n := len + 1;
    } else {
      if len == 1 {
        WholeChunk(m, counter, input);
        assert chunks[0] == input;
        assert out[off + 0] == RunCV(m.f, input, 16, m.key, counter, m.flags, CHUNK_START, CHUNK_END);
      }
      n := len;
    }
  }

  /** Pairs up chaining values; an odd one out is passed on unchanged. */
  method CompressParentsParallel(m: Mode, children: array<CV>, num: nat, out: array<CV>, off: nat)
    returns (n: nat)
    requires num <= children.Length && num <= 2 * MAX_SIMD_DEGREE_OR_2
    requires children != out && off + (num + 1) / 2 <= out.Length
    modifies out
    ensures n == (num + 1) / 2
    ensures num >= 2 ==> out[off] == ChainingValue(m, ParentNode(m, children[0], children[1]))
    ensures num == 4 ==> out[off + 1] == ChainingValue(m, ParentNode(m, children[2], children[3]))
    ensures num % 2 == 1 ==> out[off + num / 2] == children[num - 1]
    ensures forall i | 0 <= i < out.Length && !(off <= i < off + n) :: out[i] == old(out[i])
  {
    var parentsArray := new seq<Byte>[MAX_SIMD_DEGREE_OR_2](_ => []);
    var len := 0;
    while num - 2 * len >= 2
      modifies parentsArray
      invariant 0 <= 2 * len <= num
      invariant forall i | 0 <= i < len :: parentsArray[i] == Join(children[2 * i], children[2 * i + 1])
    {
      parentsArray[len] := Join(children[2 * len], children[2 * len + 1]);
      len := len + 1;
    }
    var parents := parentsArray[..len];
    HashMany(m.f, parents, 1, m.key, 0, false, Or(m.flags, PARENT), 0, 0, out, off);
    if len >= 1 {
      assert parents[0] == Join(children[2 * 0], children[2 * 0 + 1]) && out[off + 0] == out[off];
      OneBlock(m, children[0], children[1]);
    }
    if len == 2 {
      assert parents[1] == Join(children[2 * 1], children[2 * 1 + 1]);
      OneBlock(m, children[2], children[3]);
    }
    if num > 2 * len {
      out[off + len] := children[2 * len];
      n := len + 1;
    } else {
      n := len;
    }
  }

  lemma OneBlock(m: Mode, l: CV, r: CV)
    ensures StoreWords(BlockChain(m.f, m.key, 0, Or(m.flags, PARENT), 0, 0, Join(l, r), 1, 1))
            == ChainingValue(m, ParentNode(m, l, r))
  {
    assert Join(l, r)[0..64] == Join(l, r);
    assert Or(Or(m.flags, PARENT), 0) == Or(m.flags, PARENT);
  }

  /** The two chaining values just below the top of the tree over a long input. */
  ghost predicate HoldsPair(m: Mode, counter: nat, input: seq<Byte>, a: CV, b: CV)
    requires |input| > CHUNK_LEN
  {
    var l := LeftLen(|input|);
    a == TreeCV(m, counter, input[..l]) && b == TreeCV(m, counter + l / CHUNK_LEN, input[l..])
  }

  /** Hashing a pair from CompressSubtreeToParentNode gives the subtree's own chaining value. */
  lemma PairIsParent(m: Mode, counter: nat, input: seq<Byte>, a: CV, b: CV)
    requires |input| > CHUNK_LEN && HoldsPair(m, counter, input, a, b)
    ensures TreeNode(m, counter, input) == ParentNode(m, a, b)
    ensures TreeCV(m, counter, input) == ChainingValue(m, ParentNode(m, a, b))
  {
  }

  /** The result of CompressSubtreeWide: one value for a chunk, else the pair below the top. */
  ghost predicate Hashed(m: Mode, counter: nat, input: seq<Byte>, n: nat, a: CV, b: CV) {
    if |input| <= CHUNK_LEN then
      n == (if input == [] then 0 else 1) && (n == 1 ==> a == TreeCV(m, counter, input))
    else
      n == 2 && HoldsPair(m, counter, input, a, b)
  }

  lemma CombineHalves(m: Mode, counter: nat, input: seq<Byte>, l: nat, leftN: nat, l0: CV, l1: CV,
                      rightN: nat, r0: CV, r1: CV)
    requires |input| > CHUNK_LEN && l == LeftLen(|input|)
    requires Hashed(m, counter, input[..l], leftN, l0, l1)
    requires Hashed(m, counter + l / CHUNK_LEN, input[l..], rightN, r0, r1)
    ensures leftN == 1 ==> HoldsPair(m, counter, input, l0, r0)
    ensures leftN == 2 ==>
      HoldsPair(m, counter, input, ChainingValue(m, ParentNode(m, l0, l1)),
                if rightN == 1 then r0 else ChainingValue(m, ParentNode(m, r0, r1)))
  {
    if leftN == 2 {
      PairIsParent(m, counter, input[..l], l0, l1);
    }
    if rightN == 2 {
      PairIsParent(m, counter + l / CHUNK_LEN, input[l..], r0, r1);
    }
  }

  /** blake3_compress_subtree_wide: recursion over the halves of the tree. */
  method CompressSubtreeWide(m: Mode, input: seq<Byte>, counter: nat, out: array<CV>, off: nat)
    returns (n: nat)
    requires off + MAX_SIMD_DEGREE_OR_2 <= out.Length
    modifies out
    ensures n <= MAX_SIMD_DEGREE_OR_2
    ensures Hashed(m, counter, input, n, out[off], out[off + 1])
    ensures forall i | 0 <= i < out.Length && !(off <= i < off + n) :: out[i] == old(out[i])
    decreases |input|
  {
    hide TreeNode, TreeCV;
    if |input| <= SIMD_DEGREE * CHUNK_LEN {
      n := CompressChunksParallel(m, input, counter, out, off);
      return;
    }
    var leftLen := LeftSubtreeLen(|input|);
    var left, right := input[..leftLen], input[leftLen..];
    var rightCounter := counter + leftLen / CHUNK_LEN;
    var cvArray := new CV[2 * MAX_SIMD_DEGREE_OR_2](_ => seq(32, _ => 0));
    var degree := SIMD_DEGREE;
    if leftLen > CHUNK_LEN && degree == 1 {
      degree := 2;
    }
    var leftN := CompressSubtreeWide(m, left, counter, cvArray, 0);
    ghost var l0, l1 := cvArray[0], cvArray[1];
    var rightN := CompressSubtreeWide(m, right, rightCounter, cvArray, degree);
    CombineHalves(m, counter, input, leftLen, leftN, l0, l1, rightN, cvArray[degree], cvArray[degree + 1]);
    if leftN == 1 {
      out[off], out[off + 1] := cvArray[0], cvArray[1];
      n := 2;
      return;
    }
    n := CompressParentsParallel(m, cvArray, leftN + rightN, out, off);
  }

  /** The pair below the top of a subtree of more than one chunk. */
  method CompressSubtreeToParentNode(m: Mode, input: seq<Byte>, counter: nat) returns (a: CV, b: CV)
    requires |input| > CHUNK_LEN
    ensures HoldsPair(m, counter, input, a, b)
  {
    var cvArray := new CV[MAX_SIMD_DEGREE_OR_2](_ => seq(32, _ => 0));
    var n := CompressSubtreeWide(m, input, counter, cvArray, 0);
    a, b := cvArray[0], cvArray[1];
  }

}
