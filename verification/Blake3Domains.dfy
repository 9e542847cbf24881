/**
 Domain separation: which arguments reach the compression function, in the numbers of the flags that
 section 2.2 and table 3 of the BLAKE3 paper give, and that the hash depends on nothing else.
 */
module Blake3Domains {
  import opened Basics
  import opened Bits
  import opened Blake3Tree

  // ----- the bits of a flag word

  predicate HasStart(flags: Flags) {
    flags % 2 == 1
  }

  predicate HasEnd(flags: Flags) {
    flags / 2 % 2 == 1
  }

  predicate HasParent(flags: Flags) {
    flags / 4 % 2 == 1
  }

  predicate HasRoot(flags: Flags) {
    flags / 8 % 2 == 1
  }

  /** Flags of a mode: none of the four low bits, which mark the place in the tree. */
  predicate ModeFlags(flags: Flags) {
    flags % 16 == 0
  }

  lemma OrHalves(x: nat, y: nat)
    ensures Or(x, y) / 2 == Or(x / 2, y / 2)
    ensures Or(x, y) % 2 == if x % 2 == 1 || y % 2 == 1 then 1 else 0
  {
    OrZero(x / 2);
  }

  lemma OrZero(x: nat)
    ensures Or(x, 0) == x && Or(0, x) == x
  {
  }

  /** The two low bits, and the bits above them. */
  lemma OrQuarters(x: nat, y: nat)
    ensures HasStart(Or(x, y)) <==> HasStart(x) || HasStart(y)
    ensures HasEnd(Or(x, y)) <==> HasEnd(x) || HasEnd(y)
    ensures Or(x, y) / 4 == Or(x / 4, y / 4)
  {
    hide Or;
    Halvings(x);
    Halvings(y);
    Halvings(Or(x, y));
    OrHalves(x, y);
    OrHalves(x / 2, y / 2);
  }

  lemma Halvings(x: nat)
    ensures x / 2 / 2 == x / 4
  {
  }

  lemma Quarters(x: nat)
    ensures HasParent(x) == HasStart(x / 4) && HasRoot(x) == HasEnd(x / 4) && x / 16 == x / 4 / 4
  {
  }

  /** Adding flags with a low number sets these bits and leaves all others alone. */
  lemma OrLow(x: nat, low: nat)
    requires low < 16
    ensures HasStart(Or(x, low)) <==> HasStart(x) || HasStart(low)
    ensures HasEnd(Or(x, low)) <==> HasEnd(x) || HasEnd(low)
    ensures HasParent(Or(x, low)) <==> HasParent(x) || HasParent(low)
    ensures HasRoot(Or(x, low)) <==> HasRoot(x) || HasRoot(low)
    ensures Or(x, low) / 16 == x / 16
  {
    hide Or, HasStart, HasEnd, HasParent, HasRoot;
    Quarters(x);
    Quarters(low);
    Quarters(Or(x, low));
    OrQuarters(x, low);
    OrQuarters(x / 4, low / 4);
    OrZero(x / 16);
  }

  // ----- closed forms of short inputs

  function Zeros(n: nat): (r: seq<Byte>)
    ensures |r| == n && forall k :: 0 <= k < n ==> r[k] == 0
  {
    if n == 0 then [] else [0] + Zeros(n - 1)
  }

  lemma PaddedIs(b: seq<Byte>)
    requires |b| <= 64
    ensures Padded(b) == b + Zeros(64 - |b|)
  {
  }

  lemma HashAt(m: Mode, input: seq<Byte>, seek: nat, n: nat, i: nat)
    requires i < n
    ensures var at, o := seek + i, TreeNode(m, 0, input);
            Hash(m, input, seek, n)[i] == m.f.xof(o.cv, o.block, o.blockLen, at / 64, Or(o.flags, 8))[at % 64]
  {
    hide Or;
    assert Hash(m, input, seek, n)[i] == StreamByte(m, TreeNode(m, 0, input), seek + i);
  }

  /** A chunk of one block: both marks and the root mark in one compression. */
  lemma OneBlockHash(m: Mode, input: seq<Byte>, seek: nat, n: nat, i: nat)
    requires |input| <= 64 && i < n
    ensures var at := seek + i;
            Hash(m, input, seek, n)[i] ==
            m.f.xof(m.key, input + Zeros(64 - |input|), |input|, at / 64, Or(Or(Or(m.flags, 1), 2), 8))[at % 64]
  {
    hide Or, Hash;
    HashAt(m, input, seek, n, i);
    PaddedIs(input);
    assert input[0..] == input;
  }

  /** A chunk of two blocks: the start mark on the first, the end and root marks on the second. */
  lemma TwoBlockHash(m: Mode, input: seq<Byte>, seek: nat, n: nat, i: nat)
    requires 64 < |input| <= 128 && i < n
    ensures var at := seek + i;
            var cv := m.f.inPlace(m.key, input[..64], 64, 0, Or(m.flags, 1));
            Hash(m, input, seek, n)[i] ==
            m.f.xof(cv, input[64..] + Zeros(128 - |input|), |input| - 64, at / 64, Or(Or(m.flags, 2), 8))[at % 64]
  {
    hide Or, Hash;
    HashAt(m, input, seek, n, i);
    PaddedIs(input[64..]);
    OrZero(m.flags);
    assert ChunkWords(m, 0, input, 0) == m.key;
    assert ChunkWords(m, 0, input, 1) == m.f.inPlace(m.key, input[0..64], 64, 0, Or(m.flags, 1));
    assert FullBlocks(|input|) == 1;
  }

  /** The chaining words over whole blocks of a chunk: the start mark on the first one only. */
  function Chain(f: Compression, key: Words, flags: Flags, counter: nat, blocks: seq<Block>): Words {
    if blocks == [] then key
    else
      var n := |blocks| - 1;
      f.inPlace(Chain(f, key, flags, counter, blocks[..n]), blocks[n], 64, counter, if n == 0 then Or(flags, 1) else flags)
  }

  /** The first n blocks of 64 bytes. */
  function Blocks(input: seq<Byte>, n: nat): seq<Block>
    requires 64 * n <= |input|
  {
    if n == 0 then [] else Blocks(input, n - 1) + [input[64 * (n - 1)..64 * n]]
  }

  lemma {:induction false} ChainIs(m: Mode, counter: nat, chunk: seq<Byte>, n: nat)
    requires 64 * n <= |chunk|
    ensures ChunkWords(m, counter, chunk, n) == Chain(m.f, m.key, m.flags, counter, Blocks(chunk, n))
    ensures |Blocks(chunk, n)| == n
  {
    hide Or;
    if n > 0 {
      OrZero(m.flags);
      ChainIs(m, counter, chunk, n - 1);
      assert Blocks(chunk, n)[..n - 1] == Blocks(chunk, n - 1);
    }
  }

  /** The chaining value of a chunk of n blocks and a last one, which gets the end mark, and the start mark too if it is the only one. */
  function ChunkValue(f: Compression, key: Words, flags: Flags, counter: nat, chunk: seq<Byte>, n: nat): CV
    requires 64 * n <= |chunk| <= 64 * n + 64
  {
    var last := chunk[64 * n..] + Zeros(64 * n + 64 - |chunk|);
    StoreWords(f.inPlace(Chain(f, key, flags, counter, Blocks(chunk, n)), last, |chunk| - 64 * n, counter,
                         if n == 0 then Or(Or(flags, 1), 2) else Or(flags, 2)))
  }

  lemma ChunkValueIs(m: Mode, counter: nat, chunk: seq<Byte>, n: nat)
    requires |chunk| <= 1024 && 64 * n < |chunk| <= 64 * n + 64
    ensures TreeCV(m, counter, chunk) == ChunkValue(m.f, m.key, m.flags, counter, chunk, n)
  {
    hide Or, StoreWords;
    OrZero(m.flags);
    ChainIs(m, counter, chunk, n);
    PaddedIs(chunk[64 * n..]);
    assert FullBlocks(|chunk|) == n;
  }

  /** One block of a chunk after the other, the start mark on the first one, and the last one padded with zeros. */
  lemma ChunkSteps(f: Compression, key: Words, flags: Flags, counter: nat, blocks: seq<Block>, b: Block, chunk: seq<Byte>, n: nat)
    requires 64 * n <= |chunk| <= 64 * n + 64
    ensures Chain(f, key, flags, counter, []) == key
    ensures Chain(f, key, flags, counter, blocks + [b]) ==
              f.inPlace(Chain(f, key, flags, counter, blocks), b, 64, counter, if blocks == [] then Or(flags, 1) else flags)
    ensures |Blocks(chunk, n)| == n && forall k :: 0 <= k < n ==> Blocks(chunk, n)[k] == chunk[64 * k..64 * k + 64]
    ensures ChunkValue(f, key, flags, counter, chunk, n) ==
              StoreWords(f.inPlace(Chain(f, key, flags, counter, Blocks(chunk, n)), chunk[64 * n..] + Zeros(64 * n + 64 - |chunk|),
                                   |chunk| - 64 * n, counter, if n == 0 then Or(Or(flags, 1), 2) else Or(flags, 2)))
  {
    hide Or, StoreWords, ChunkValue;
    assert (blocks + [b])[..|blocks|] == blocks;
    BlocksAre(chunk, n);
    LastBlock(f, key, flags, counter, chunk, n);
  }

  lemma {:induction false} BlocksAre(chunk: seq<Byte>, n: nat)
    requires 64 * n <= |chunk|
    ensures |Blocks(chunk, n)| == n && forall k :: 0 <= k < n ==> Blocks(chunk, n)[k] == chunk[64 * k..64 * k + 64]
  {
    if n > 0 {
      BlocksAre(chunk, n - 1);
    }
  }

  lemma LastBlock(f: Compression, key: Words, flags: Flags, counter: nat, chunk: seq<Byte>, n: nat)
    requires 64 * n <= |chunk| <= 64 * n + 64
    ensures ChunkValue(f, key, flags, counter, chunk, n) ==
              StoreWords(f.inPlace(Chain(f, key, flags, counter, Blocks(chunk, n)), chunk[64 * n..] + Zeros(64 * n + 64 - |chunk|),
                                   |chunk| - 64 * n, counter, if n == 0 then Or(Or(flags, 1), 2) else Or(flags, 2)))
  {
    hide Or, StoreWords, Chain, Blocks;
  }

  /** Two chunks: one parent over both, numbered 0 and 1, with the parent and root marks. */
  lemma TwoChunkHash(m: Mode, input: seq<Byte>, last: nat, seek: nat, n: nat, i: nat)
    requires 1024 + 64 * last < |input| <= 1024 + 64 * last + 64 && |input| <= 2048 && i < n
    ensures var at := seek + i;
            var left := ChunkValue(m.f, m.key, m.flags, 0, input[..1024], 15);
            var right := ChunkValue(m.f, m.key, m.flags, 1, input[1024..], last);
            Hash(m, input, seek, n)[i] == m.f.xof(m.key, left + right, 64, at / 64, Or(Or(m.flags, 4), 8))[at % 64]
  {
    hide Or, ChunkValue, StoreWords, Hash, TreeNode;
    assert Pow2(0) == 1;
    HashAt(m, input, seek, n, i);
    JoinSubtrees(m, 0, input, 0);
    ChunkValueIs(m, 0, input[..1024], 15);
    ChunkValueIs(m, 1, input[1024..], last);
  }

  /** Any input of more than a chunk: a parent over the largest power of two of chunks and the rest, which are numbered on. */
  lemma ParentValue(m: Mode, counter: nat, input: seq<Byte>, k: nat)
    requires 1024 * Pow2(k) < |input| <= 2 * (1024 * Pow2(k))
    ensures var left := TreeCV(m, counter, input[..1024 * Pow2(k)]);
            var right := TreeCV(m, counter + Pow2(k), input[1024 * Pow2(k)..]);
            TreeCV(m, counter, input) == StoreWords(m.f.inPlace(m.key, left + right, 64, 0, Or(m.flags, 4)))
  {
    hide Or, StoreWords, TreeCV, TreeNode;
    JoinSubtrees(m, counter, input, k);
    ValueOfNode(m, counter, input);
  }

  lemma ValueOfNode(m: Mode, counter: nat, input: seq<Byte>)
    ensures TreeCV(m, counter, input) == ChainingValue(m, TreeNode(m, counter, input))
  {
  }

  /** The same at the root, with the root mark. */
  lemma ParentHash(m: Mode, input: seq<Byte>, k: nat, seek: nat, n: nat, i: nat)
    requires 1024 * Pow2(k) < |input| <= 2 * (1024 * Pow2(k)) && i < n
    ensures var at := seek + i;
            var left := TreeCV(m, 0, input[..1024 * Pow2(k)]);
            var right := TreeCV(m, Pow2(k), input[1024 * Pow2(k)..]);
            Hash(m, input, seek, n)[i] == m.f.xof(m.key, left + right, 64, at / 64, Or(Or(m.flags, 4), 8))[at % 64]
  {
    hide Or, StoreWords, TreeCV, TreeNode, Hash;
    HashAt(m, input, seek, n, i);
    JoinSubtrees(m, 0, input, k);
  }

  /** Chaining values are stored in little-endian order. */
  lemma StoredLittleEndian(w: Words, i: nat)
    requires i < 8
    ensures var b: seq<Byte> := StoreWords(w);
            w[i] as int == b[4 * i] as int + 256 * b[4 * i + 1] as int + 65536 * b[4 * i + 2] as int + 16777216 * b[4 * i + 3] as int
  {
    LoadStoreWord(w, i);
  }

  // ----- nothing else is ever asked of the compression function

  /** A block of chunk number counter, with marks for its place in the chunk. */
  predicate OfChunk(m: Mode, len: nat, flags: Flags) {
    len <= 64 && !HasParent(flags) && flags / 16 == m.flags / 16
  }

  /** The parent of two chaining values. */
  predicate OfParent(m: Mode, cv: Words, len: nat, counter: nat, flags: Flags) {
    cv == m.key && len == 64 && counter == 0 && HasParent(flags) && !HasStart(flags) && !HasEnd(flags) && flags / 16 == m.flags / 16
  }

  /** The functions agree on blocks of chunks and on parents: as chaining values without the root mark, as output with it. */
  ghost predicate Agree(m: Mode, g: Compression) {
    && (forall cv, block, len, counter, flags ::
          (OfChunk(m, len, flags) || OfParent(m, cv, len, counter, flags)) && !HasRoot(flags)
          ==> m.f.inPlace(cv, block, len, counter, flags) == g.inPlace(cv, block, len, counter, flags))
    && (forall cv, block, len, counter, flags ::
          ((OfChunk(m, len, flags) && HasEnd(flags)) || OfParent(m, cv, len, 0, flags)) && HasRoot(flags)
          ==> m.f.xof(cv, block, len, counter, flags) == g.xof(cv, block, len, counter, flags))
  }

  lemma SameBlock(m: Mode, g: Compression, cv: Words, block: Block, counter: nat, flags: Flags)
    requires Agree(m, g) && OfChunk(m, 64, flags) && !HasRoot(flags)
    ensures m.f.inPlace(cv, block, 64, counter, flags) == g.inPlace(cv, block, 64, counter, flags)
  {
    hide OfChunk, OfParent, HasRoot;
  }

  lemma StartMarks(m: Mode, n: nat)
    requires ModeFlags(m.flags)
    ensures OfChunk(m, 64, Or(m.flags, StartFlag(n))) && !HasRoot(Or(m.flags, StartFlag(n)))
  {
    hide Or;
    OrLow(m.flags, StartFlag(n));
  }

  lemma {:induction false} SameWords(m: Mode, g: Compression, counter: nat, chunk: seq<Byte>, n: nat)
    requires ModeFlags(m.flags) && Agree(m, g) && 64 * n <= |chunk|
    ensures ChunkWords(m, counter, chunk, n) == ChunkWords(m.(f := g), counter, chunk, n)
  {
    hide Or, Agree, HasStart, HasEnd, HasParent, HasRoot;
    if n > 0 {
      SameWords(m, g, counter, chunk, n - 1);
      var flags := Or(m.flags, StartFlag(n - 1));
      StartMarks(m, n - 1);
      SameBlock(m, g, ChunkWords(m, counter, chunk, n - 1), chunk[64 * (n - 1)..64 * n], counter, flags);
    }
  }

  lemma ChunkMarks(m: Mode, counter: nat, chunk: seq<Byte>)
    requires ModeFlags(m.flags)
    ensures var o := ChunkNode(m, counter, chunk);
            OfChunk(m, o.blockLen, o.flags) && !HasRoot(o.flags) && HasEnd(o.flags)
  {
    hide Or;
    var n := FullBlocks(|chunk|);
    OrLow(m.flags, StartFlag(n));
    OrLow(Or(m.flags, StartFlag(n)), CHUNK_END);
  }

  lemma ParentMarks(m: Mode, left: CV, right: CV)
    requires ModeFlags(m.flags)
    ensures var o := ParentNode(m, left, right);
            OfParent(m, o.cv, o.blockLen, o.counter, o.flags) && !HasRoot(o.flags)
  {
    hide Or;
    OrLow(m.flags, PARENT);
  }

  lemma SameChunk(m: Mode, g: Compression, counter: nat, chunk: seq<Byte>)
    requires ModeFlags(m.flags) && Agree(m, g)
    ensures var o := ChunkNode(m, counter, chunk);
            o == ChunkNode(m.(f := g), counter, chunk) && ChainingValue(m, o) == ChainingValue(m.(f := g), o)
  {
    hide Or, ChunkWords, StoreWords, OfParent;
    SameWords(m, g, counter, chunk, FullBlocks(|chunk|));
    ChunkMarks(m, counter, chunk);
  }

  lemma {:induction false} SameTree(m: Mode, g: Compression, counter: nat, input: seq<Byte>)
    requires ModeFlags(m.flags) && Agree(m, g)
    ensures TreeNode(m, counter, input) == TreeNode(m.(f := g), counter, input)
    ensures TreeCV(m, counter, input) == TreeCV(m.(f := g), counter, input)
    decreases |input|
  {
    hide Or, ChunkNode, LeftLen, StoreWords, OfChunk;
    if |input| <= CHUNK_LEN {
      SameChunk(m, g, counter, input);
    } else {
      var l := LeftLen(|input|);
      SameTree(m, g, counter, input[..l]);
      SameTree(m, g, counter + l / CHUNK_LEN, input[l..]);
      ParentMarks(m, TreeCV(m, counter, input[..l]), TreeCV(m, counter + l / CHUNK_LEN, input[l..]));
    }
  }

  lemma RootMarks(m: Mode, input: seq<Byte>)
    requires ModeFlags(m.flags)
    ensures var o := TreeNode(m, 0, input);
            && ((OfChunk(m, o.blockLen, o.flags) && HasEnd(o.flags)) || OfParent(m, o.cv, o.blockLen, o.counter, o.flags))
            && !HasRoot(o.flags)
  {
    hide Or, ChunkNode, ParentNode, LeftLen;
    if |input| <= CHUNK_LEN {
      ChunkMarks(m, 0, input);
    } else {
      var l := LeftLen(|input|);
      ParentMarks(m, TreeCV(m, 0, input[..l]), TreeCV(m, 0 + l / CHUNK_LEN, input[l..]));
    }
  }

  /**
   * The hash of any input is determined by the compression function on blocks of chunks and on parents,
   * whose flags differ in the parent mark, and for its output only by values at flags with the root
   * mark, which no chaining value has.
   */
  lemma HashDomains(m: Mode, g: Compression, input: seq<Byte>, seek: nat, n: nat)
    requires ModeFlags(m.flags) && Agree(m, g)
    ensures Hash(m, input, seek, n) == Hash(m.(f := g), input, seek, n)
  {
    hide Or, TreeNode, OfChunk, OfParent, StreamByte;
    SameTree(m, g, 0, input);
    RootMarks(m, input);
    var o := TreeNode(m, 0, input);
    forall i: nat
      ensures StreamByte(m, o, i) == StreamByte(m.(f := g), o, i)
    {
      RootByte(m, g, o, i);
    }
  }

  lemma RootByte(m: Mode, g: Compression, o: Node, i: nat)
    requires Agree(m, g) && !HasRoot(o.flags)
    requires (OfChunk(m, o.blockLen, o.flags) && HasEnd(o.flags)) || OfParent(m, o.cv, o.blockLen, o.counter, o.flags)
    ensures StreamByte(m, o, i) == StreamByte(m.(f := g), o, i)
  {
    hide Or;
    OrLow(o.flags, ROOT);
  }

  // ----- the constants of the modes

  /** Word i of the initial value is the first 32 bits of the fraction of the square root of the i-th prime. */
  lemma InitialValueIsRoots(i: nat)
    requires i < 8
    ensures var prime := [2, 3, 5, 7, 11, 13, 17, 19][i];
            var whole := [1, 1, 2, 2, 3, 3, 4, 4][i];
            var root := whole * 0x1_0000_0000 + IV[i] as int;
            whole * whole < prime < (whole + 1) * (whole + 1)
            && root * root <= prime * 0x1_0000_0000 * 0x1_0000_0000 < (root + 1) * (root + 1)
  {
  }

  /** The three modes have no mark of the tree and differ from each other. */
  lemma ModesDiffer()
    ensures ModeFlags(0) && ModeFlags(KEYED_HASH) && ModeFlags(DERIVE_KEY_CONTEXT) && ModeFlags(DERIVE_KEY_MATERIAL)
    ensures KEYED_HASH == 16 && DERIVE_KEY_CONTEXT == 32 && DERIVE_KEY_MATERIAL == 64
  {
  }
}
