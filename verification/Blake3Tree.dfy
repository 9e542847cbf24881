/**
 The BLAKE3 tree hash as the BLAKE3 paper defines it: section 2.1 (tree shape),
 section 2.4 (chunk chaining values), section 2.5 (parent chaining values) and
 section 2.6 (extendable output).  The compression function is a parameter, so
 everything here holds for any compression function.
 */
module Blake3Tree {
  import opened Basics
  import opened Bits

  const BLOCK_LEN := 64
  const CHUNK_LEN := 1024
  const OUT_LEN := 32
  const MAX_DEPTH := 54

  type Flags = nat
  const CHUNK_START: Flags := 1
  const CHUNK_END: Flags := 2
  const PARENT: Flags := 4
  const ROOT: Flags := 8
  const KEYED_HASH: Flags := 16
  const DERIVE_KEY_CONTEXT: Flags := 32
  const DERIVE_KEY_MATERIAL: Flags := 64

  type Word = x: nat | x < 0x1_0000_0000
  type Words = s: seq<Word> | |s| == 8 witness [0, 0, 0, 0, 0, 0, 0, 0]
  type Block = s: seq<Byte> | |s| == 64 witness seq(64, _ => 0)
  type CV = s: seq<Byte> | |s| == 32 witness seq(32, _ => 0)

  const IV: Words := [0x6A09E667, 0xBB67AE85, 0x3C6EF372, 0xA54FF53A,
                      0x510E527F, 0x9B05688C, 0x1F83D9AB, 0x5BE0CD19]

  /** The two forms of the compression function: new chaining words, or 64 output bytes.
      Arguments: chaining words, block, block length, counter, flags. */
  datatype Compression = Compression(
    inPlace: (Words, Block, nat, nat, Flags) -> Words,
    xof: (Words, Block, nat, nat, Flags) -> Block)

  /** What stays fixed during one hash computation. */
  datatype Mode = Mode(f: Compression, key: Words, flags: Flags)

  /** A node before its last compression (output_t in the C code). */
  datatype Node = Node(cv: Words, block: Block, blockLen: nat, counter: nat, flags: Flags)

  /** Byte j of a little-endian word. */
  function WordByte(w: Word, j: nat): Byte
    requires j < 4
  {
    if j == 0 then w % 256 else WordByte(w / 256, j - 1)
  }

  /** store_cv_words: eight little-endian words. */
  function StoreWords(w: Words): CV {
    seq<Byte>(32, i requires 0 <= i < 32 => WordByte(w[i / 4], i % 4))
  }

  function LoadWord(b: seq<Byte>, i: nat): Word
    requires i + 4 <= |b|
  {
    (b[i] as int) + 256 * (b[i + 1] as int) + 65536 * (b[i + 2] as int) + 16777216 * (b[i + 3] as int)
  }

  function LoadWords(b: CV): Words {
    [LoadWord(b, 0), LoadWord(b, 4), LoadWord(b, 8), LoadWord(b, 12),
     LoadWord(b, 16), LoadWord(b, 20), LoadWord(b, 24), LoadWord(b, 28)]
  }

  lemma LoadStoreWord(w: Words, i: nat)
    requires i < 8
    ensures LoadWord(StoreWords(w), 4 * i) == w[i]
  {
    var x := w[i];
    var y := x / 256;
    var z := y / 256;
    var b := StoreWords(w);
    assert b[4 * i] == WordByte(x, 0) == x % 256;
    assert b[4 * i + 1] == WordByte(x, 1) == WordByte(y, 0) == y % 256;
    assert b[4 * i + 2] == WordByte(x, 2) == WordByte(y, 1) == WordByte(z, 0) == z % 256;
    assert b[4 * i + 3] == WordByte(x, 3) == WordByte(y, 2) == WordByte(z, 1) == WordByte(z / 256, 0) == z / 256;
  }

  /** Reading back stored chaining words gives the same words. */
  lemma LoadStoreWords(w: Words)
    ensures LoadWords(StoreWords(w)) == w
  {
    LoadStoreWord(w, 0);
    LoadStoreWord(w, 1);
    LoadStoreWord(w, 2);
    LoadStoreWord(w, 3);
    LoadStoreWord(w, 4);
    LoadStoreWord(w, 5);
    LoadStoreWord(w, 6);
    LoadStoreWord(w, 7);
  }

  /** The padded last block of a byte string of at most 64 bytes. */
  function Padded(b: seq<Byte>): Block
    requires |b| <= 64
  {
    b + seq(64 - |b|, _ => 0)
  }

  function ChainingValue(m: Mode, o: Node): CV {
    StoreWords(m.f.inPlace(o.cv, o.block, o.blockLen, o.counter, o.flags))
  }

  function Join(left: CV, right: CV): Block {
    var a: seq<Byte> := left;
    var b: seq<Byte> := right;
    a + b
  }

  function ParentNode(m: Mode, left: CV, right: CV): Node {
    Node(m.key, Join(left, right), 64, 0, Or(m.flags, PARENT))
  }

  function StartFlag(blocks: nat): Flags {
    if blocks == 0 then CHUNK_START else 0
  }

  /** Section 2.4: the chaining words after the first n blocks of a chunk. */
  ghost function ChunkWords(m: Mode, counter: nat, chunk: seq<Byte>, n: nat): Words
    requires n * 64 <= |chunk|
  {
    if n == 0 then m.key
    else m.f.inPlace(ChunkWords(m, counter, chunk, n - 1), chunk[64 * (n - 1)..64 * n], 64,
                     counter, Or(m.flags, StartFlag(n - 1)))
  }

  /** Number of blocks of a chunk before its last one; the empty chunk has one empty block. */
  function FullBlocks(len: nat): (n: nat)
    ensures 64 * n <= len <= 64 * n + 64
    ensures len > 0 ==> 64 * n < len
  {
    if len == 0 then 0 else (len - 1) / 64
  }

  ghost function ChunkNode(m: Mode, counter: nat, chunk: seq<Byte>): Node {
    var n := FullBlocks(|chunk|);
    Node(ChunkWords(m, counter, chunk, n), Padded(chunk[64 * n..]), |chunk| - 64 * n, counter,
         Or(Or(m.flags, StartFlag(n)), CHUNK_END))
  }

  /** Section 2.1: the left subtree takes the largest power-of-two number of chunks
      that leaves at least one byte for the right subtree. */
  ghost function LeftLenFrom(len: nat, s: nat): (r: nat)
    requires 0 < s < len
    ensures 0 < r < len <= 2 * r
    decreases len - s
  {
    if 2 * s >= len then s else LeftLenFrom(len, 2 * s)
  }

  ghost function LeftLen(len: nat): (r: nat)
    requires len > CHUNK_LEN
    ensures 0 < r < len <= 2 * r
  {
    LeftLenFrom(len, CHUNK_LEN)
  }

  /** The node at the top of the tree over input, whose first chunk has the given number. */
  ghost function TreeNode(m: Mode, counter: nat, input: seq<Byte>): Node
    decreases |input|, 0
  {
    if |input| <= CHUNK_LEN then ChunkNode(m, counter, input)
    else
      var l := LeftLen(|input|);
      ParentNode(m, TreeCV(m, counter, input[..l]), TreeCV(m, counter + l / CHUNK_LEN, input[l..]))
  }

  ghost function TreeCV(m: Mode, counter: nat, input: seq<Byte>): CV
    decreases |input|, 1
  {
    ChainingValue(m, TreeNode(m, counter, input))
  }

  /** Section 2.6: byte i of the output stream of a root node. */
  ghost function StreamByte(m: Mode, root: Node, i: nat): Byte {
    m.f.xof(root.cv, root.block, root.blockLen, i / 64, Or(root.flags, ROOT))[i % 64]
  }

  /** Bytes [seek, seek + n) of the hash of input. */
  ghost function Hash(m: Mode, input: seq<Byte>, seek: nat, n: nat): seq<Byte> {
    seq<Byte>(n, i requires 0 <= i < n => StreamByte(m, TreeNode(m, 0, input), seek + i))
  }

  lemma {:induction false} LeftLenUnique(len: nat, k: nat, j: nat)
    requires j <= k && CHUNK_LEN * Pow2(k) < len <= 2 * CHUNK_LEN * Pow2(k)
    ensures Pow2(j) <= Pow2(k)
    ensures LeftLenFrom(len, CHUNK_LEN * Pow2(j)) == CHUNK_LEN * Pow2(k)
    decreases k - j
  {
    if j < k {
      LeftLenUnique(len, k, j + 1);
      assert CHUNK_LEN * Pow2(j + 1) == 2 * (CHUNK_LEN * Pow2(j));
    }
  }

  /** LeftLen is characterised by its bounds. */
  lemma LeftLenIs(len: nat, k: nat)
    requires CHUNK_LEN * Pow2(k) < len <= 2 * CHUNK_LEN * Pow2(k)
    ensures len > CHUNK_LEN && LeftLen(len) == CHUNK_LEN * Pow2(k)
  {
    LeftLenUnique(len, k, 0);
  }

  /** A tree whose left part is a full power-of-two subtree and whose right part is not longer. */
  lemma JoinSubtrees(m: Mode, counter: nat, input: seq<Byte>, k: nat)
    requires CHUNK_LEN * Pow2(k) < |input| <= 2 * CHUNK_LEN * Pow2(k)
    ensures var l := CHUNK_LEN * Pow2(k);
      TreeNode(m, counter, input) ==
      ParentNode(m, TreeCV(m, counter, input[..l]), TreeCV(m, counter + Pow2(k), input[l..]))
  {
    LeftLenIs(|input|, k);
  }

  /** Reading the stream in two goes is reading it in one. */
  lemma HashConcat(m: Mode, input: seq<Byte>, seek: nat, n: nat, n': nat)
    ensures Hash(m, input, seek, n) + Hash(m, input, seek + n, n') == Hash(m, input, seek, n + n')
  {
  }
}
