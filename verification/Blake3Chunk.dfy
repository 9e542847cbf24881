/** The incremental state of one chunk, and the whole-chunk path that must agree with it. */
module Blake3Chunk {
  import opened Basics
  import opened Bits
  import opened Blake3Tree

  lemma {:induction false} ChunkWordsPrefix(m: Mode, counter: nat, a: seq<Byte>, b: seq<Byte>, n: nat)
    requires 64 * n <= |a| && 64 * n <= |b| && a[..64 * n] == b[..64 * n]
    ensures ChunkWords(m, counter, a, n) == ChunkWords(m, counter, b, n)
  {
    if n > 0 {
      assert a[..64 * (n - 1)] == a[..64 * n][..64 * (n - 1)];
      assert b[..64 * (n - 1)] == b[..64 * n][..64 * (n - 1)];
      ChunkWordsPrefix(m, counter, a, b, n - 1);
      assert a[64 * (n - 1)..64 * n] == a[..64 * n][64 * (n - 1)..];
      assert b[64 * (n - 1)..64 * n] == b[..64 * n][64 * (n - 1)..];
    }
  }

  /** One more whole block. */
  lemma NextBlock(m: Mode, counter: nat, chunk: seq<Byte>, block: Block, n: nat)
    requires |chunk| == 64 * n
    ensures ChunkWords(m, counter, chunk + block, n + 1)
            == m.f.inPlace(ChunkWords(m, counter, chunk, n), block, 64, counter, Or(m.flags, StartFlag(n)))
  {
    ChunkWordsPrefix(m, counter, chunk, chunk + block, n);
    assert (chunk + block)[64 * n..64 * (n + 1)] == block;
  }

  /** Moving the first n bytes of rest to the end of done. */
  lemma MoveBytes(pre: seq<Byte>, done: seq<Byte>, rest: seq<Byte>, n: nat)
    requires |rest| >= n
    ensures (done + rest[..n]) + rest[n..] == done + rest
    ensures (pre + done) + rest[..n] == pre + (done + rest[..n])
  {
    assert rest == rest[..n] + rest[n..];
  }

  class ChunkState {
    const f: Compression
    var cv: Words
    var chunkCounter: nat
    const buf: array<Byte>
    var bufLen: nat
    var blocksCompressed: nat
    var flags: Flags

    ghost var key: Words
    ghost var contents: seq<Byte>  // every byte absorbed since the last reset

    ghost function M(): Mode
      reads this
    {
      Mode(f, key, flags)
    }

    /** True between any two steps of Update. */
    ghost predicate Consistent()
      reads this, buf
    {
      && buf.Length == BLOCK_LEN
      && bufLen <= BLOCK_LEN
      && |contents| <= CHUNK_LEN
      && BLOCK_LEN * blocksCompressed + bufLen == |contents|
      && cv == ChunkWords(M(), chunkCounter, contents, blocksCompressed)
      && buf[..] == Padded(contents[BLOCK_LEN * blocksCompressed..])
    }

    /** Compression is lazy: the last block stays in the buffer, even when it is full. */
    ghost predicate Valid()
      reads this, buf
    {
      Consistent() && (contents == [] || bufLen > 0)
    }

    constructor (f: Compression, key: Words, flags: Flags)
      ensures Valid() && fresh(buf)
      ensures this.f == f && this.key == key && this.flags == flags
      ensures chunkCounter == 0 && contents == []
    {
      this.f := f;
      cv := key;
      chunkCounter := 0;
      buf := new Byte[64](_ => 0);
      bufLen := 0;
      blocksCompressed := 0;
      this.flags := flags;
      this.key := key;
      contents := [];
    }

    method Reset(key: Words, chunkCounter: nat)
      requires Valid()
      modifies this, buf
      ensures Valid()
      ensures this.key == key && flags == old(flags)
      ensures this.chunkCounter == chunkCounter && contents == []
    {
      cv := key;
      this.chunkCounter := chunkCounter;
      blocksCompressed := 0;
      ClearBuffer();
      this.key := key;
      contents := [];
    }

    /** An empty chunk can be given another number. */
    method Renumber(counter: nat)
      requires Valid() && contents == []
      modifies this`chunkCounter
      ensures Valid() && chunkCounter == counter
    {
      chunkCounter := counter;
    }

    method ClearBuffer()
      requires buf.Length == BLOCK_LEN
      modifies this`bufLen, buf
      ensures bufLen == 0 && buf[..] == Padded([])
    {
      forall i | 0 <= i < buf.Length {
        buf[i] := 0;
      }
      bufLen := 0;
    }

    method Len() returns (n: nat)
      requires Valid()
      ensures n == |contents| <= CHUNK_LEN
    {
      n := BLOCK_LEN * blocksCompressed + bufLen;
    }

    method FillBuf(input: seq<Byte>) returns (take: nat)
      requires Consistent() && |contents| + |input| <= CHUNK_LEN
      modifies this`bufLen, this`contents, buf
      ensures Consistent()
      ensures take == if |input| < BLOCK_LEN - old(bufLen) then |input| else BLOCK_LEN - old(bufLen)
      ensures contents == old(contents) + input[..take] && bufLen == old(bufLen) + take
    {
      hide ChunkWords;
      take := BLOCK_LEN - bufLen;
      if take > |input| {
        take := |input|;
      }
      ghost var before := buf[..];
      ghost var held := contents[BLOCK_LEN * blocksCompressed..];
      forall i | 0 <= i < take {
        buf[bufLen + i] := input[i];
      }
      bufLen := bufLen + take;
      contents := contents + input[..take];
      ghost var p := BLOCK_LEN * blocksCompressed;
      ChunkWordsPrefix(M(), chunkCounter, old(contents), contents, blocksCompressed);
      assert before == Padded(held);
      assert contents[p..] == held + input[..take];
      assert buf[..] == before[..old(bufLen)] + input[..take] + before[old(bufLen) + take..];
    }

    method MaybeStartFlag() returns (flag: Flags)
      ensures flag == StartFlag(blocksCompressed)
    {
      if blocksCompressed == 0 {
        flag := CHUNK_START;
      } else {
        flag := 0;
      }
    }

    method CompressBlock(block: Block)
      modifies this`cv, this`blocksCompressed
      ensures cv == f.inPlace(old(cv), block, 64, chunkCounter, Or(flags, StartFlag(old(blocksCompressed))))
      ensures blocksCompressed == old(blocksCompressed) + 1
    {
      var start := MaybeStartFlag();
      cv := f.inPlace(cv, block, BLOCK_LEN, chunkCounter, Or(flags, start));
      blocksCompressed := blocksCompressed + 1;
    }

    /** Compresses the full buffer, which is the last block of the contents. */
    method FlushBuffer()
      requires Consistent() && bufLen == BLOCK_LEN
      modifies this`cv, this`bufLen, this`blocksCompressed, buf
      ensures Consistent() && bufLen == 0
    {
      ghost var p := BLOCK_LEN * blocksCompressed;
      assert contents == contents[..p] + contents[p..];
      assert buf[..] == contents[p..];
      ChunkWordsPrefix(M(), chunkCounter, contents, contents[..p], blocksCompressed);
      NextBlock(M(), chunkCounter, contents[..p], buf[..], blocksCompressed);
      CompressBlock(buf[..]);
      ClearBuffer();
      assert contents[p + BLOCK_LEN..] == [];
    }

    /** Compresses a whole block straight from the input. */
    method AbsorbBlock(block: Block)
      requires Consistent() && bufLen == 0 && |contents| + BLOCK_LEN <= CHUNK_LEN
      modifies this`cv, this`blocksCompressed, this`contents
      ensures Consistent() && contents == old(contents) + block
    {
      NextBlock(M(), chunkCounter, contents, block, blocksCompressed);
      CompressBlock(block);
      contents := contents + block;
      assert contents[BLOCK_LEN * blocksCompressed..] == [];
    }

    method Update(input: seq<Byte>)
      requires Valid() && |contents| + |input| <= CHUNK_LEN
      modifies this`cv, this`bufLen, this`blocksCompressed, this`contents, buf
      ensures Valid()
      ensures contents == old(contents) + input
    {
      var rest := input;
      ghost var done := [];  // the part of input absorbed so far
      if bufLen > 0 {
        var take := FillBuf(rest);
        done, rest := rest[..take], rest[take..];
        if |rest| > 0 {
          FlushBuffer();
        }
      }
      assert done + rest == input;
      while |rest| > BLOCK_LEN
        invariant done + rest == input
        invariant Consistent() && contents == old(contents) + done
        invariant bufLen > 0 ==> rest == []
        invariant rest == [] ==> Valid()
      {
        MoveBytes(old(contents), done, rest, BLOCK_LEN);
        AbsorbBlock(rest[..BLOCK_LEN]);
        done, rest := done + rest[..BLOCK_LEN], rest[BLOCK_LEN..];
      }
      var take := FillBuf(rest);
      assert take == |rest| && rest[..take] == rest;
      MoveBytes(old(contents), done, rest, take);
    }

    method Output() returns (o: Node)
      requires Valid()
      ensures o == ChunkNode(M(), chunkCounter, contents)
    {
      var start := MaybeStartFlag();
      var blockFlags := Or(Or(flags, start), CHUNK_END);
      o := Node(cv, buf[..], bufLen, chunkCounter, blockFlags);
      assert FullBlocks(|contents|) == blocksCompressed;
    }
  }

  method OutputChainingValue(f: Compression, o: Node) returns (cv: CV)
    ensures cv == StoreWords(f.inPlace(o.cv, o.block, o.blockLen, o.counter, o.flags))
  {
    cv := StoreWords(f.inPlace(o.cv, o.block, o.blockLen, o.counter, o.flags));
  }

  /** The chaining words after n whole blocks, with the given flags on the first and last block. */
  ghost function BlockChain(f: Compression, key: Words, counter: nat, flags: Flags,
                            first: Flags, last: Flags, input: seq<Byte>, total: nat, n: nat): Words
    requires 64 * n <= |input|
  {
    if n == 0 then key
    else f.inPlace(BlockChain(f, key, counter, flags, first, last, input, total, n - 1),
                   input[64 * (n - 1)..64 * n], 64, counter, BlockFlags(flags, first, last, total, n))
  }

  function BlockFlags(flags: Flags, first: Flags, last: Flags, total: nat, n: nat): Flags {
    var b := if n == 1 then Or(flags, first) else flags;
    if n == total then Or(b, last) else b
  }

  /** hash_one_portable: a run of whole blocks, one after the other. */
  method HashOne(f: Compression, input: seq<Byte>, blocks: nat, key: Words, counter: nat,
                 flags: Flags, flagsStart: Flags, flagsEnd: Flags) returns (out: CV)
    requires |input| == BLOCK_LEN * blocks
    ensures out == StoreWords(BlockChain(f, key, counter, flags, flagsStart, flagsEnd, input, blocks, blocks))
  {
    var cv := key;
    var blockFlags := Or(flags, flagsStart);
    var left := blocks;
    var rest := input;
    while left > 0
      invariant 0 <= left <= blocks && rest == input[64 * (blocks - left)..]
      invariant cv == BlockChain(f, key, counter, flags, flagsStart, flagsEnd, input, blocks, blocks - left)
      invariant blockFlags == if left == blocks then Or(flags, flagsStart) else flags
    {
      if left == 1 {
        blockFlags := Or(blockFlags, flagsEnd);
      }
      ghost var n := blocks - left;
      ghost var block := rest[..BLOCK_LEN];
      assert block == input[64 * n..64 * (n + 1)];
      assert blockFlags == BlockFlags(flags, flagsStart, flagsEnd, blocks, n + 1);
      cv := f.inPlace(cv, rest[..BLOCK_LEN], BLOCK_LEN, counter, blockFlags);
      assert cv == BlockChain(f, key, counter, flags, flagsStart, flagsEnd, input, blocks, n + 1);
      rest := rest[BLOCK_LEN..];
      left := left - 1;
      blockFlags := flags;
    }
    out := StoreWords(cv);
  }

  lemma {:induction false} ChainIsChunkWords(m: Mode, counter: nat, chunk: seq<Byte>, n: nat)
    requires |chunk| == CHUNK_LEN && n < 16
    ensures BlockChain(m.f, m.key, counter, m.flags, CHUNK_START, CHUNK_END, chunk, 16, n)
            == ChunkWords(m, counter, chunk, n)
  {
    if n > 0 {
      ChainIsChunkWords(m, counter, chunk, n - 1);
    }
  }

  /** Hashing a whole chunk block by block gives the chaining value of the chunk's node. */
  lemma WholeChunk(m: Mode, counter: nat, chunk: seq<Byte>)
    requires |chunk| == CHUNK_LEN
    ensures StoreWords(BlockChain(m.f, m.key, counter, m.flags, CHUNK_START, CHUNK_END, chunk, 16, 16))
            == TreeCV(m, counter, chunk)
  {
    ChainIsChunkWords(m, counter, chunk, 15);
    assert chunk[960..1024] == chunk[960..] == Padded(chunk[960..]);
  }
}
