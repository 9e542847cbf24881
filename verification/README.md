# Verification of the native core

Dafny models of the C code under `app/src/main/jni`, with proofs of what it promises. Run `dafny verify dfyconfig.toml`.

Code that works in place is modelled in place: classes with the C fields, arrays for C arrays, loops with their
invariants. Each method is proved against a function on values, and the theorems are about those functions or about
whole runs.

- **BLAKE3** (`Bits`, `Blake3*`). `Blake3Tree` defines the tree hash recursively, after sections 2.1 and 2.4 to 2.6 of
  the BLAKE3 paper, for any compression function. The incremental hasher, its lazily merged stack, the bulk path over
  aligned subtrees and the seekable output are proved to compute it: `Blake3Hasher.HashPieces`. Which calls of the
  compression function that is, flags and counters in numbers: `Blake3Domains`.
- **X25519** (`Words64`, `Fe25519`, `FeBytes`, `X25519`, `Ladder25519`, `Curve25519`). Five 51-bit limbs with every
  intermediate value inside its C type, the addition chain of the inversion, canonical encoding, and the ladder with
  delayed swaps, refined to section 5 of RFC 7748: `Ladder25519.X25519ScalarMult`. On the curve
  v^2 = u^3 + 486662 u^2 + u that is a multiple of the point by doubling and differential addition:
  `Curve25519.ScalarMultIs`.
- **YAML documents** (`YamlGraph`, `YamlDumper`, `YamlLoader`, `YamlRoundTrip`, `YamlReach`, `YamlCanonical`,
  `YamlDumped`). Dumping and loading a node graph with sharing and cycles: `YamlRoundTrip.RoundTrip`. The loader
  replaces the tag "!" by a default tag, so the round trip is exact if and only if no reachable node has it:
  `YamlReach.RoundTripExactIff`.
- **Quoted scalars** (`YamlUtf8`, `YamlQuoted*`). The writer, with escapes and folded lines, and the scanner are
  inverse: `YamlQuotedRoundTrip.QuotedRoundTrip`. What the scanner accepts in general, in single and double quotes, and
  how it folds lines: `YamlQuotedText.ScanIff`, `YamlQuotedText.FoldedText`.
- **Parser** (`YamlNesting`, `YamlTrees`, `YamlGrammar`, `YamlFuture`, `YamlParser`, `YamlPresent`, `YamlTokens`,
  `YamlSyntax`, `YamlWritten`, `YamlHandles`). `YamlGrammar` reads tokens by recursive descent, after the productions at
  the head of `parser.c`. The pushdown machine is proved to do the same, event by event, errors included:
  `YamlParser.ParseAll`. Which trees there are tokens for, and that they come back: `YamlTokens.HasTokensIff`,
  `YamlTokens.StreamRead`. Which tokens are read: exactly those that the productions write, with directives and tag
  handles: `YamlWritten.StreamReadIff`, `YamlHandles.TagStandsFor`.
- **Loading** (`YamlLoad`). The loader on top of the parser yields whole graphs, and its assertions hold for any tokens:
  `YamlLoad.LoadNext`.
- **JSON bridge** (`YamlJson`, `YamlJsonRead`). The event-driven writer prints the recursive print of the documents that
  the tokens stand for, and an RFC 8259 reader gives them back: `YamlJson.YamlToJson`, `YamlJsonRead.YamlToJsonAndBack`.
- **Simple keys** (`YamlSimpleKeys`). The token queue with its late insertions, against the lexemes of the text:
  `YamlSimpleKeys.Scanner.FetchMoreTokens`.
- **Reader** (`YamlEncodings`, `YamlReader`). Decoding across refills, UTF-8 (RFC 3629, section 3) and UTF-16 (RFC 2781,
  section 2).
- **lwIP heap** (`LwipBlocks`, `LwipHeap`, `LwipRuns`, `LwipClients`, `LwipResults`). Linked headers in one array
  against a list of blocks, and whole runs of clients, whose data stays where they stored it: `LwipClients.Execute`,
  `LwipResults.StoredIsFound`. The shipped configuration selects the C library's allocator, so this code is present but
  not built in.
- **Checksum, packet buffers, timers** (`LwipChecksum`, `LwipPbuf`, `LwipTimer`, `LwipSteps`). One's-complement sums over
  fragments (RFC 1071, section 1), chains of buffers as one byte string, and list walks that callbacks disturb.

Five promises that the code does not keep, each with the exact condition and an input:

- A round trip through dumper and loader loses tags "!" and nothing else: `YamlReach.RoundTripExactIff`,
  `YamlReach.OneTagLost`.
- `pbuf_take_at` promises ERR_MEM for a buffer that is too small, but also returns it for no bytes at the very end:
  `LwipPbuf.Pool.TakeAt`, `LwipPbuf.TakeNothingAtEnd`.
- The result 0xFFFF of `pbuf_memcmp`, "too short", also stands for a first difference in the last of 65535 bytes; with
  fewer bytes to compare it cannot: `LwipPbuf.Pool.Memcmp`, `LwipPbuf.CompareLargest`.
- The timers handle every active connection once, except one that comes in with the stamp of this tick, which the 8-bit
  counter had 256 ticks ago: `LwipTimer.Tcp.SlowTimer`, `LwipTimer.SkippedOnce`.
- The grammar at the head of `parser.c` allows a single pair of a flow sequence to have an empty key and a value, but
  lines 1066-1071 skip the token behind an empty key: `YamlTokens.PairMeetsProductionIff`, `YamlTokens.EmptyKeyExample`.

The same grammar allows a VALUE without KEY in a block mapping, which lines 915-919 refuse; `YamlGrammar` follows the code.

## Model

| member | source | states |
|---|---|---|
| `Blake3Hasher.HashPieces` | app/src/main/jni/blake3/blake3.c:321-419 | for every input of fewer than 2^64 bytes and every split of it into `update` calls, empty ones included, finalizing at `seek` gives bytes [seek, seek + n) of the recursive tree hash of the concatenation, whose flags, counters and block lengths Blake3Domains states in numbers |
| `Blake3Hasher.Hasher.Update` | app/src/main/jni/blake3/blake3.c:321-382 | an update appends the piece to the hashed data and keeps the invariant: chunk state holds the tail, stack is the lazily merged decomposition |
| `Blake3Hasher.Hasher.FinalizeSeek` | app/src/main/jni/blake3/blake3.c:389-419 | writes exactly bytes [seek, seek + n) of the tree hash of all data so far, and leaves the hasher usable |
| `Blake3Hasher.Hasher.RootNode` | app/src/main/jni/blake3/blake3.c:395-417 | folding the stack from the top down, with or without a partial chunk, gives the root node of the recursive tree over all data |
| `Blake3Hasher.Hasher.MergeCvStack` | app/src/main/jni/blake3/blake3.c:302-311 | after merging, the stack is the sequence of subtree chaining values of the binary decomposition of the chunk count |
| `Blake3Hasher.Hasher.MergeTop` | app/src/main/jni/blake3/blake3.c:305-309 | one merge replaces the two topmost entries, equal neighbours, by their parent subtree |
| `Blake3Hasher.Hasher.PushCv` | app/src/main/jni/blake3/blake3.c:313-319 | a push merges everything that can be merged first and leaves the new subtree unmerged on top |
| `Blake3Hasher.Hasher.FinishChunk` | app/src/main/jni/blake3/blake3.c:337-342 | a full chunk with more input behind it becomes one pushed subtree, and the next chunk starts with the next counter |
| `Blake3Hasher.Hasher.TopUpChunk` | app/src/main/jni/blake3/blake3.c:329-346 | a started chunk takes the input it has room for; if input is left the state is at a chunk boundary |
| `Blake3Hasher.Hasher.PushSubtree` | app/src/main/jni/blake3/blake3.c:348-376 | one turn of the bulk loop absorbs an aligned power-of-two subtree; if nothing is left there are at least two entries on the stack |
| `Blake3Hasher.Hasher.PushHalves` | app/src/main/jni/blake3/blake3.c:365-371 | a subtree of more than one chunk is pushed as its two halves, in order |
| `Blake3Hasher.Hasher.KeepTail` | app/src/main/jni/blake3/blake3.c:378-381 | the last bytes stay in the chunk state and the stack in front of them is fully merged |
| `Blake3Hasher.Hasher.constructor` | app/src/main/jni/blake3/blake3.c:270-276 | a new hasher has hashed nothing and keeps key and flags |
| `Blake3Hasher.Hasher.Reset` | app/src/main/jni/blake3/blake3.c:421-424 | a reset hasher has hashed nothing and keeps its mode |
| `Blake3Hasher.LargestSubtree` | app/src/main/jni/blake3/blake3.c:348-353 | the subtree chosen is a power of two of chunks, fits the input, is aligned at the chunk count, and twice as much would not fit or not be aligned |
| `Blake3Hasher.InRangeIs64Bit` | app/src/main/jni/blake3/blake3.c:321-382 | the inputs the stack depth allows are exactly those of fewer than 2^64 bytes |
| `Blake3Hasher.InitKeyed` | app/src/main/jni/blake3/blake3.c:279-284 | keyed mode changes only key words and flags of the tree hash, to the words of the key and 16 |
| `Blake3Hasher.InitDeriveKeyRaw` | app/src/main/jni/blake3/blake3.c:286-296 | derive-key mode, flag 64, is keyed with the 32-byte hash of the context string under the initial value and flag 32 |
| `Blake3Stack.MergeStopsRight` | app/src/main/jni/blake3/blake3.c:302-311 | comparing the stack height with the popcount of the chunk count stops the merging exactly at the merged stack |
| `Blake3Stack.MergedWhenAligned` | app/src/main/jni/blake3/blake3.c:302-311 | when the next power of two divides the chunk count nothing is left to merge below a new subtree |
| `Blake3Stack.JoinNeighbours` | app/src/main/jni/blake3/blake3.c:302-311 | the parent of two equal aligned neighbours is the subtree of twice the size |
| `Blake3Stack.FoldIsTree` | app/src/main/jni/blake3/blake3.c:411-417 | folding the merged stack over any number of chunks onto the node of the rest is the whole tree |
| `Blake3Stack.FoldTopTwo` | app/src/main/jni/blake3/blake3.c:406-417 | with an empty chunk the fold starts from the two topmost entries, which exist, and gives the whole tree |
| `Blake3Stack.FoldChunk` | app/src/main/jni/blake3/blake3.c:403-417 | with a non-empty chunk the fold starts from the chunk and gives the whole tree |
| `Blake3Stack.StackFits` | app/src/main/jni/blake3/blake3.c:313-319 | below 2^64 bytes a lazily merged stack never needs more than 55 entries |
| `Blake3Stack.MergedFits` | app/src/main/jni/blake3/blake3.c:302-319 | below 2^64 bytes a merged stack has at most 54 entries |
| `Blake3Stack.ChunkSubtree` | app/src/main/jni/blake3/blake3.c:355-363 | the chaining value of a full chunk is the subtree of one chunk |
| `Blake3Stack.PairIsHalves` | app/src/main/jni/blake3/blake3.c:364-372 | the pair below the top of an aligned subtree is the pair of its two half subtrees |
| `Blake3Chunk.ChunkState.Update` | app/src/main/jni/blake3/blake3.c:113-139 | a chunk takes input in any pieces; its contents are their concatenation |
| `Blake3Chunk.ChunkState.Output` | app/src/main/jni/blake3/blake3.c:141-146 | the output of a chunk state is the node of its contents, however they came in |
| `Blake3Chunk.ChunkState.FillBuf` | app/src/main/jni/blake3/blake3.c:35-45 | the buffer takes what fits and the contents grow by exactly that |
| `Blake3Chunk.ChunkState.FlushBuffer` | app/src/main/jni/blake3/blake3.c:119-126 | compressing a full buffer keeps the contents and empties the buffer |
| `Blake3Chunk.ChunkState.AbsorbBlock` | app/src/main/jni/blake3/blake3.c:129-136 | a whole block compressed straight from the input is appended to the contents |
| `Blake3Chunk.ChunkState.Reset` | app/src/main/jni/blake3/blake3.c:21-28 | a reset chunk is empty and keeps its flags |
| `Blake3Chunk.HashOne` | app/src/main/jni/blake3/blake3_portable.c:125-143 | the portable block loop gives the chaining words after all blocks, with the start flag on the first and the end flag on the last |
| `Blake3Chunk.WholeChunk` | app/src/main/jni/blake3/blake3_portable.c:125-143 | a whole chunk hashed block by block has the chaining value of the chunk node that the chunk state outputs |
| `Blake3Subtree.LeftSubtreeLen` | app/src/main/jni/blake3/blake3.c:153-156 | the closed form is the split the tree prescribes: the largest power-of-two number of chunks that leaves at least one byte on the right |
| `Blake3Subtree.HashMany` | app/src/main/jni/blake3/blake3_portable.c:145-160 | each input is hashed by its own run of blocks, at its own counter, and nothing else is written |
| `Blake3Subtree.CompressChunksParallel` | app/src/main/jni/blake3/blake3.c:158-188 | writes the chaining value of the tree over a chunk, partial or whole, and nothing for no input |
| `Blake3Subtree.CompressParentsParallel` | app/src/main/jni/blake3/blake3.c:190-217 | pairs up neighbours, passes an odd one on, and writes nothing else |
| `Blake3Subtree.CompressSubtreeWide` | app/src/main/jni/blake3/blake3.c:219-256 | any input gives one chaining value for a chunk, else the two just below the top of its tree, inside the fixed arrays |
| `Blake3Subtree.CompressSubtreeToParentNode` | app/src/main/jni/blake3/blake3.c:258-268 | more than a chunk of input gives exactly the chaining values of the left and right subtrees |
| `Blake3Subtree.PairIsParent` | app/src/main/jni/blake3/blake3.c:258-268 | the parent of that pair is the chaining value of the whole subtree |
| `Blake3Subtree.OneBlock` | app/src/main/jni/blake3/blake3_portable.c:125-143 | a parent block through the block loop is the parent compression |
| `Blake3Output.OutputRootBytes` | app/src/main/jni/blake3/blake3.c:84-111 | byte i of the output is byte seek + i of the root output stream, the compression with the root flag, for every seek and length |
| `Blake3Output.CopyBlock` | app/src/main/jni/blake3/blake3.c:92-110 | a partial block writes its window of the stream, the compression with the root flag, and nothing else |
| `Blake3Tree.LeftLenIs` | app/src/main/jni/blake3/blake3.c:153-156 | the left subtree length is the only power-of-two chunk length with its bounds |
| `Blake3Tree.JoinSubtrees` | app/src/main/jni/blake3/blake3.c:148-156 | a tree with a full power-of-two left part is the parent of its two parts |
| `Blake3Tree.LoadStoreWords` | app/src/main/jni/blake3/blake3.c:76-82 | reading stored chaining words back gives the same words |
| `Blake3Tree.HashConcat` | app/src/main/jni/blake3/blake3.c:389-419 | reading the output stream in two goes is reading it in one |
| `Blake3Domains.OneBlockHash` | app/src/main/jni/blake3/blake3.c:84-146 | for at most 64 bytes of input, output byte i is byte i % 64 of the compression of the input padded with zeros, with output block counter i / 64 and flags 1, 2 and 8 (chunk start, chunk end, root) added to those of the mode |
| `Blake3Domains.TwoBlockHash` | app/src/main/jni/blake3/blake3.c:84-146 | for 65 to 128 bytes the first block is compressed with flag 1, and the output is the second block with flags 2 and 8 |
| `Blake3Domains.ChunkValueIs` | app/src/main/jni/blake3/blake3_portable.c:125-143 | the chaining value of a chunk is its blocks one after the other, at the counter of the chunk, flag 1 on the first and flag 2 on the last, padded, one |
| `Blake3Domains.ChunkSteps` | app/src/main/jni/blake3/blake3_portable.c:125-143 | the same block by block: words, block, length 64, counter and flags of every compression |
| `Blake3Domains.TwoChunkHash` | app/src/main/jni/blake3/blake3.c:148-151 | for up to two chunks the output is the compression of the two chaining values, chunks 0 and 1 in order, with the key words, flags 4 and 8 (parent, root) |
| `Blake3Domains.ParentValue` | app/src/main/jni/blake3/blake3.c:148-156 | above a chunk, a chaining value is the compression of those of the largest power of two of chunks and of the rest, with counter 0 and flag 4; the chunks of the rest are numbered on |
| `Blake3Domains.ParentHash` | app/src/main/jni/blake3/blake3.c:84-111 | the same at the root, with flag 8 as well and the number of the output block as counter |
| `Blake3Domains.HashDomains` | app/src/main/jni/blake3/blake3.c:84-156 | two compression functions give the same hash of every input if they agree, for chaining values, on chunk blocks and parents without the root flag and, for output, on those with it: no other call of the compression function matters |
| `Blake3Domains.OrLow` | app/src/main/jni/blake3/blake3_impl.h:17-25 | or-ing a mark below 16 to flags sets exactly the marks of both and leaves the mode |
| `Blake3Domains.StoredLittleEndian` | app/src/main/jni/blake3/blake3.c:76-82 | chaining words are stored in little-endian order |
| `Blake3Domains.InitialValueIsRoots` | app/src/main/jni/blake3/blake3_impl.h:39-41 | the initial value is the fractions of the square roots of the first eight primes |
| `Blake3Hasher.Init` | app/src/main/jni/blake3/blake3.c:277-277 | the plain mode is keyed with the initial value and has no flags |
| `Bits.DecomposeSumsAndCounts` | app/src/main/jni/blake3/blake3_impl.h:85-96 | the number of one bits is the number of powers of two that the number is the sum of |
| `Bits.MaskTestsAlignment` | app/src/main/jni/blake3/blake3.c:351-353 | masking with a power of two less one gives zero exactly for its multiples |
| `Bits.RoundDownToPowerOf2` | app/src/main/jni/blake3/blake3_impl.h:100-102 | the highest one bit of x, or of 1 for 0, is the largest power of two not above x, or 1 |
| `Fe25519.FeMul` | app/src/main/jni/blake3/CX25519.c:129-160 | for limbs below 2^54 and any aliasing the product is right mod 2^255 - 19, no 128-bit sum or 64-bit carry overflows, and the result meets what fe_sub needs |
| `Fe25519.FeMulA24` | app/src/main/jni/blake3/CX25519.c:166-187 | the same for multiplication by the constant of the curve, which Curve25519 ties to 486662 |
| `Fe25519.CarryChain` | app/src/main/jni/blake3/CX25519.c:147-159 | the carry chain leaves limbs just above 51 bits and keeps the value mod 2^255 - 19 |
| `Fe25519.FeAdd` | app/src/main/jni/blake3/CX25519.c:108-114 | limb-wise addition is addition in the field and stays within two tight limbs |
| `Fe25519.FeSub` | app/src/main/jni/blake3/CX25519.c:116-123 | subtraction through 2p never goes below zero limb by limb and is subtraction in the field |
| `Fe25519.FeSq` | app/src/main/jni/blake3/CX25519.c:162-164 | squaring in place is multiplication by itself |
| `Fe25519.ColumnBounds` | app/src/main/jni/blake3/CX25519.c:129-140 | the five column sums of a product stay far below 2^128 |
| `FeBytes.FeFromBytes` | app/src/main/jni/blake3/CX25519.c:36-47 | decoding is the little-endian value of the low 255 bits |
| `FeBytes.FeToBytes` | app/src/main/jni/blake3/CX25519.c:49-98 | encoding writes the one representative in [0, p) of every in-bounds limb vector |
| `FeBytes.EncodeReduced` | app/src/main/jni/blake3/CX25519.c:68-97 | the branch-free conditional subtraction of p and the packing give the canonical 32 bytes |
| `FeBytes.CarryPass` | app/src/main/jni/blake3/CX25519.c:54-66 | a carry pass keeps the field element, and after a second pass limb 0 is below 2^51 |
| `FeBytes.SubtractP` | app/src/main/jni/blake3/CX25519.c:68-86 | adding 19 overflows 255 bits exactly when the value is at least p, and dropping the overflow subtracts p |
| `FeBytes.Recode` | app/src/main/jni/blake3/CX25519.c:36-98 | decoding then encoding reduces mod p, and is the identity exactly on canonical strings |
| `FeBytes.Relimb` | app/src/main/jni/blake3/CX25519.c:36-98 | encoding and decoding again gives limbs of the same field element, now the representative below p |
| `X25519.FeInvert` | app/src/main/jni/blake3/CX25519.c:194-248 | the addition chain computes z^(p-2) mod p |
| `X25519.SquareTimes` | app/src/main/jni/blake3/CX25519.c:213-239 | n squarings in place multiply the exponent by 2^n |
| `X25519.Extend` | app/src/main/jni/blake3/CX25519.c:212-240 | a chain link takes exponents 2^k - 1 and 2^j - 1 to 2^(k+j) - 1 |
| `X25519.LastExponent` | app/src/main/jni/blake3/CX25519.c:241-247 | five squarings and a multiplication by z^11 make the exponent exactly p - 2 |
| `Ladder25519.X25519ScalarMult` | app/src/main/jni/blake3/CX25519.c:254-331 | for every scalar and point the result is the canonical encoding of the RFC 7748 ladder value for the decoded scalar and the point mod 2^255; what that value is on the curve is Curve25519.ScalarMultIs |
| `Ladder25519.RunLadder` | app/src/main/jni/blake3/CX25519.c:273-325 | limb bounds survive all 255 steps, and delayed swaps give the ladder that swaps and swaps back at every step |
| `Ladder25519.MontgomeryStep` | app/src/main/jni/blake3/CX25519.c:291-313 | one loop body is one step of section 5 of RFC 7748 on the four field elements, that is a doubling and a differential addition by Curve25519.DoubleStep and AddStep |
| `Ladder25519.ConditionalSwap` | app/src/main/jni/blake3/CX25519.c:279-288 | the masked xor loop swaps both pairs exactly when the swap bit is set |
| `Ladder25519.SwapTwice` | app/src/main/jni/blake3/CX25519.c:275-289 | swapping back and swapping anew is one swap on the xor of the bits |
| `Ladder25519.ClampedForm` | app/src/main/jni/blake3/CX25519.c:256-261 | a decoded scalar is a multiple of 8 in [2^254, 2^255) |
| `Ladder25519.BitOfBytes` | app/src/main/jni/blake3/CX25519.c:276-276 | the bit read from the bytes is that bit of the little-endian number |
| `Ladder25519.Quotient` | app/src/main/jni/blake3/CX25519.c:327-330 | the output is x2 times z2^(p-2), encoded |
| `Ladder25519.KeyAgreement` | app/src/main/jni/blake3/CX25519.c:370-378 | the shared secret is the ladder value, and the result is -1 exactly when it is all zero |
| `Curve25519.DoubleStep` | app/src/main/jni/blake3/CX25519.c:291-313 | with everything mod 2^255 - 19, the new x2 is (x2^2 - z2^2)^2 and the new z2 is 4 x2 z2 (x2^2 + 486662 x2 z2 + z2^2): doubling on v^2 = u^3 + 486662 u^2 + u |
| `Curve25519.AddStep` | app/src/main/jni/blake3/CX25519.c:291-313 | the new x3 is (2 (x2 x3 - z2 z3))^2 |
| `Curve25519.DifferenceStep` | app/src/main/jni/blake3/CX25519.c:291-313 | the new z3 is u (2 (x3 z2 - z3 x2))^2; with AddStep, this is the addition of two points whose difference has coordinate u |
| `Curve25519.MultiplesAre` | app/src/main/jni/blake3/CX25519.c:273-325 | the multiples 2m and 2m + 1, or 2m + 1 and 2m + 2, come from m and m + 1 by these operations, and those for 0 are infinity and the point |
| `Curve25519.PointOperations` | app/src/main/jni/blake3/CX25519.c:291-313 | doubling and addition in projective coordinates, in full |
| `Curve25519.LadderMultiplies` | app/src/main/jni/blake3/CX25519.c:273-325 | after any number of bits the ladder has the multiples m and m + 1 of the point, for the number m of these bits |
| `Curve25519.ScalarMultIs` | app/src/main/jni/blake3/CX25519.c:254-331 | the result is the u-coordinate x z^(p-2) of the multiple of the point by the decoded scalar |
| `Curve25519.ClampIs` | app/src/main/jni/blake3/CX25519.c:256-261 | the decoded scalar is 2^254 plus the low 254 bits of the scalar without the low three |
| `Curve25519.FieldIs` | app/src/main/jni/blake3/CX25519.c:1-47 | p is 2^255 - 19, bytes are in little-endian order, and powers are taken mod p |
| `YamlRoundTrip.RoundTrip` | app/src/main/jni/libyaml/src/dumper.c:111-393 | for every node graph, shared or cyclic, loading the dumped events gives the graph below the root, numbered depth first, each node as the original with references renumbered and "!" tags made default |
| `YamlRoundTrip.DumpAndLoad` | app/src/main/jni/libyaml/src/loader.c:87-544 | the same for the dumper and composer objects run one after the other |
| `YamlReach.RoundTripExactIff` | app/src/main/jni/libyaml/src/loader.c:374-458 | the loaded graph is the renumbered original, tags included, exactly when no reachable node is tagged "!" |
| `YamlReach.OneTagLost` | app/src/main/jni/libyaml/src/loader.c:374-408 | a document of one scalar tagged "!" comes back with the default tag |
| `YamlReach.DumpedIffReachable` | app/src/main/jni/libyaml/src/dumper.c:263-294 | exactly the nodes reachable from the root are dumped |
| `YamlCanonical.SecondRoundTrip` | app/src/main/jni/libyaml/src/dumper.c:111-393 | dumping and loading a loaded document gives back the very same document |
| `YamlCanonical.VisitRenamed` | app/src/main/jni/libyaml/src/dumper.c:263-294 | depth-first order commutes with renumbering |
| `YamlRoundTrip.DumpVisits` | app/src/main/jni/libyaml/src/dumper.c:263-294 | nodes are dumped in depth-first order of first visit |
| `YamlRoundTrip.NodeLoads` | app/src/main/jni/libyaml/src/loader.c:216-344 | the events of a node, and of everything first met below it, load as that part of the graph |
| `YamlRoundTrip.NameFindsNode` | app/src/main/jni/libyaml/src/loader.c:350-368 | looking up the anchor of a loaded node finds that node and no other |
| `YamlRoundTrip.NotYetNamed` | app/src/main/jni/libyaml/src/loader.c:263-292 | a node that is not loaded yet has an anchor name that is not registered |
| `YamlDumper.Emitter.AnchorNode` | app/src/main/jni/libyaml/src/dumper.c:206-238 | the marking walk ends on every graph, counts references and numbers anchors in depth-first order |
| `YamlDumper.MarkAnchors` | app/src/main/jni/libyaml/src/dumper.c:206-238 | anchors go exactly to the nodes met more than once, each its own number |
| `YamlDumper.AnchorNamesDiffer` | app/src/main/jni/libyaml/src/dumper.c:244-257 | different anchor numbers get different names, however many digits they have |
| `YamlDumper.Emitter.DumpNode` | app/src/main/jni/libyaml/src/dumper.c:263-294 | the dump walk ends on every graph; a node met again becomes an alias |
| `YamlDumper.Emitter.DumpItems` | app/src/main/jni/libyaml/src/dumper.c:338-362 | items are dumped in order |
| `YamlDumper.Emitter.DumpPairs` | app/src/main/jni/libyaml/src/dumper.c:368-393 | keys and values are dumped in turn, in order |
| `YamlDumper.DumpDocument` | app/src/main/jni/libyaml/src/dumper.c:111-160 | a document is its root between a document start and end, and an empty one gives no document events |
| `YamlLoader.Composer.Load` | app/src/main/jni/libyaml/src/loader.c:184-257 | composing events in place is the fold of the composer steps, with the same error on failure |
| `YamlLoader.Composer.Register` | app/src/main/jni/libyaml/src/loader.c:263-292 | a second anchor of the same name is refused, and nothing is registered without a name |
| `YamlLoader.Composer.LoadNodeAdd` | app/src/main/jni/libyaml/src/loader.c:298-344 | a node goes to the open sequence, or completes or starts a pair of the open mapping |
| `YamlLoader.Composer.LoadAlias` | app/src/main/jni/libyaml/src/loader.c:350-368 | an alias adds the first node registered under its name, or fails |
| `YamlLoader.Composer.LoadScalar` | app/src/main/jni/libyaml/src/loader.c:374-408 | a scalar node, "!" and no tag made default, is appended, registered and attached |
| `YamlLoader.Composer.OpenCollection` | app/src/main/jni/libyaml/src/loader.c:414-459 | a new collection is attached to its parent and becomes the open one |
| `YamlLoader.Composer.CloseCollection` | app/src/main/jni/libyaml/src/loader.c:461-476 | only the innermost open collection of the right kind can be closed |
| `YamlLoad.LoadNext` | app/src/main/jni/libyaml/src/loader.c:85-257 | whatever the tokens are, no assertion of the loader fails; a document loaded is what the loader makes of the events of the parser, it has a root, every child of a node is a node, and no pair lacks its value; no root means the end of the stream; the loader fails only for a duplicate anchor, an undefined alias or a limit |
| `YamlLoad.StepComposes` | app/src/main/jni/libyaml/src/loader.c:209-257 | the open collections of the loader and of the events stay in step, with errors about the document only |
| `YamlLoad.DocumentComposed` | app/src/main/jni/libyaml/src/loader.c:209-257 | at the end of a document its nodes are a whole graph |
| `YamlLoad.AddAttaches` | app/src/main/jni/libyaml/src/loader.c:298-344 | adding a node to the innermost open collection cannot meet a scalar there |
| `YamlLoader.RunConcat` | app/src/main/jni/libyaml/src/loader.c:216-257 | composing two stretches of events one after the other is composing both |
| `YamlLoader.LoadIsRun` | app/src/main/jni/libyaml/src/loader.c:216-257 | loading stops at the document end with what the events before it composed |
| `YamlGraph.PairUpFlatten` | app/src/main/jni/libyaml/src/loader.c:320-337 | adding all keys and values one by one rebuilds the pairs |
| `YamlGraph.PairUpShape` | app/src/main/jni/libyaml/src/loader.c:320-337 | the last pair waits for a value exactly after an odd number of children |
| `YamlDumped.LoadedIs` | app/src/main/jni/libyaml/src/loader.c:350-544 | node k of the loaded document has kind, value and style of the k-th node dumped, its tag or the literal default for "!", and as many children, each the loaded node that stands for the same child in the same place |
| `YamlDumped.DumpedFlags` | app/src/main/jni/libyaml/src/dumper.c:315-393 | every dumped node carries its tag, and its implicit flags are set exactly if that is tag:yaml.org,2002:str, seq or map for its kind |
| `YamlDumped.AnchorsAreUsed` | app/src/main/jni/libyaml/src/dumper.c:206-294 | an anchor is written only where an alias refers to it |
| `YamlDumped.AnchorsGiven` | app/src/main/jni/libyaml/src/dumper.c:206-238 | anchors go exactly to nodes met at least twice, different ones to different nodes |
| `YamlDumped.AnchorName` | app/src/main/jni/libyaml/src/dumper.c:244-257 | anchor names are "id" and the number in decimal, with zeros up to three digits |
| `YamlDumped.EventStep` | app/src/main/jni/libyaml/src/loader.c:350-459 | no tag and "!" become tag:yaml.org,2002:str, seq or map, any other tag stays; an alias is the first node of that name, and without such a node an error |
| `YamlDumped.NodeStep` | app/src/main/jni/libyaml/src/loader.c:263-292 | a node is refused behind 0x7FFFFFFE nodes or for an anchor seen before, and else appended under its anchor |
| `YamlDumped.ChildStep` | app/src/main/jni/libyaml/src/loader.c:298-344 | a child goes to the end of the sequence, or is the key or value that is due, unless the collection is full |
| `YamlQuotedRoundTrip.QuotedRoundTrip` | app/src/main/jni/libyaml/src/emitter.c:2050-2204 | for every sequence of Unicode scalar values, both unicode settings, every best width, line break and indent of at least 1, scanning the written text gives exactly the original octets, ending right behind the closing quote |
| `YamlQuotedRoundTrip.WriteThenScan` | app/src/main/jni/libyaml/src/emitter.c:1037-1054 | a scalar written one level deeper than its parent, as the emitter does, scans back to itself |
| `YamlQuotedRoundTrip.EscapeStep` | app/src/main/jni/libyaml/src/scanner.c:3115-3276 | every escape the writer produces is read back as the octets of its character |
| `YamlQuotedRoundTrip.HexRoundTrip` | app/src/main/jni/libyaml/src/scanner.c:3225-3241 | the digits of a code read back as the code |
| `YamlQuotedRoundTrip.InText` | app/src/main/jni/libyaml/src/scanner.c:3083-3286 | scanning goes through unfolded text character by character |
| `YamlQuotedRoundTrip.InBlanks` | app/src/main/jni/libyaml/src/scanner.c:3302-3363 | runs of spaces inside a line are kept |
| `YamlQuotedRoundTrip.InFold` | app/src/main/jni/libyaml/src/emitter.c:2173-2189 | a folded space and the spaces behind it, guarded by a backslash, come back as they were |
| `YamlQuotedWriter.Emitter.WriteDoubleQuoted` | app/src/main/jni/libyaml/src/emitter.c:2050-2204 | writes the quotes and the pieces of all characters, and tracks the column |
| `YamlQuotedWriter.Emitter.WriteChar` | app/src/main/jni/libyaml/src/emitter.c:2064-2194 | each character is escaped, folded or written as it is |
| `YamlQuotedWriter.Emitter.WriteEscape` | app/src/main/jni/libyaml/src/emitter.c:2068-2171 | writes the short escape, or the hexadecimal one of the right width |
| `YamlQuotedWriter.Emitter.WriteHex` | app/src/main/jni/libyaml/src/emitter.c:2165-2169 | writes n hexadecimal digits, highest first |
| `YamlQuotedWriter.Emitter.WriteIndent` | app/src/main/jni/libyaml/src/emitter.c:1787-1805 | breaks the line only where needed and pads to the indentation |
| `YamlQuotedWriter.Emitter.WriteIndicator` | app/src/main/jni/libyaml/src/emitter.c:1807-1830 | separates by a space only when whitespace is needed and missing |
| `YamlUtf8.DecodeUtf8` | app/src/main/jni/libyaml/src/emitter.c:2073-2085 | decoding the octets of a character, as the writer does, gives the character |
| `YamlUtf8.OctetTests` | app/src/main/jni/libyaml/src/scanner.c:3300-3331 | the tests on octets hold exactly for the characters they name |
| `YamlUtf8.PrintableIs` | app/src/main/jni/libyaml/src/emitter.c:2064-2067 | the characters left unescaped are exactly those of the printable ranges |
| `YamlQuotedScanner.Parser.ScanFlowScalar` | app/src/main/jni/libyaml/src/scanner.c:3024-3391 | the nested loops scan a quoted scalar to the result, or the error, of the recursive description, and always end; which texts are accepted, and as what, is YamlQuotedText.ScanIff |
| `YamlQuotedScanner.Parser.ScanText` | app/src/main/jni/libyaml/src/scanner.c:3077-3286 | the run of non-blank characters leads to the result of what follows it |
| `YamlQuotedScanner.Parser.ScanCode` | app/src/main/jni/libyaml/src/scanner.c:3225-3275 | a code is accepted exactly if all digits are hexadecimal and it is a Unicode scalar value |
| `YamlQuotedScanner.Parser.ScanBlanks` | app/src/main/jni/libyaml/src/scanner.c:3302-3333 | blanks and breaks are collected up to the next text |
| `YamlQuotedScanner.Parser.JoinBlanks` | app/src/main/jni/libyaml/src/scanner.c:3337-3363 | blanks between words stay, one line break folds to a space, and more to the breaks behind the first, with the literal result in YamlQuotedText.Folding |
| `YamlQuotedText.ScanIff` | app/src/main/jni/libyaml/src/scanner.c:3024-3391 | in single and double quotes, a text is accepted exactly if it is written with plain characters, doubled quotes, escapes by letter or code, blanks, folds and escaped line breaks, and the value is what these pieces mean, to the end behind the closing quote |
| `YamlQuotedText.ScanMeans` | app/src/main/jni/libyaml/src/scanner.c:3024-3391 | every text written with such pieces is read as what they mean |
| `YamlQuotedText.Folding` | app/src/main/jni/libyaml/src/scanner.c:3337-3363 | of n line breaks, with blanks around them, one is read as a space and more as n - 1 line feeds; U+2028 and U+2029 are kept; behind a backslash nothing comes in for the first break |
| `YamlQuotedText.FoldedText` | app/src/main/jni/libyaml/src/scanner.c:3302-3363 | plain text, blanks, n line breaks with blanks between them, and plain text are read as the first text, a space if n is 1 and else n - 1 line feeds, and the second text, in single quotes as in double quotes |
| `YamlQuotedText.Spellings` | app/src/main/jni/libyaml/src/scanner.c:3077-3286 | how each piece is written and where it may stand, in numbers: plain characters, doubled quotes, and codes of two, four or eight digits that are Unicode scalar values |
| `YamlQuotedText.PieceValues` | app/src/main/jni/libyaml/src/scanner.c:3225-3276 | what each piece means: its character, the apostrophe, the character of the hexadecimal code, the blanks |
| `YamlQuotedText.LetterTable` | app/src/main/jni/libyaml/src/scanner.c:3115-3216 | the eighteen letters of escapes and the octets they stand for, and no others |
| `YamlQuotedWriter.EscapedIff` | app/src/main/jni/libyaml/src/emitter.c:2064-2067 | a character is escaped exactly if it is a quote, a backslash, a control character, a line break, a byte order mark or above #xFFFF, or not ASCII where that is not allowed |
| `YamlQuotedWriter.ShortEscapes` | app/src/main/jni/libyaml/src/emitter.c:2068-2150 | the fifteen short escapes, octet by octet |
| `YamlQuotedWriter.LongEscapes` | app/src/main/jni/libyaml/src/emitter.c:2151-2171 | all other escapes: x, u or U with two, four or eight digits in upper case |
| `YamlQuotedWriter.PieceIs` | app/src/main/jni/libyaml/src/emitter.c:2173-2189 | a space is folded exactly behind the best width, not at either end and not behind another space; the next space gets a backslash |
| `YamlParser.ParseAll` | app/src/main/jni/libyaml/include/yaml.h:1410-1432 | calling the parser to the end, it fails exactly if reading the tokens by recursive descent fails, and otherwise its events are those of the documents read; which tokens are read, and as what, is YamlWritten.StreamReadIff |
| `YamlParser.Parser.Parse` | app/src/main/jni/libyaml/src/parser.c:181-201 | for any token stream, each event is allowed by the events before it, no stack is popped empty, and there is no event only after an error or after the end of the stream; an error means that the tokens are no stream of documents, and at the end the events are those of the documents |
| `YamlParser.Parser.StateMachine` | app/src/main/jni/libyaml/src/parser.c:245-324 | the open containers are a function of state and state stack, before and after every event, and the mark stack has as many marks as the states own |
| `YamlParser.Parser.ParseNode` | app/src/main/jni/libyaml/src/parser.c:548-753 | a node is accepted where one is due, and either consumes a token or enters a state that must; its events are those of the tree at this position, with the tag that YamlHandles.TagStandsFor states, or there is none |
| `YamlParser.Parser.ParseContent` | app/src/main/jni/libyaml/src/parser.c:651-744 | the same behind the anchor and the tag of the node |
| `YamlParser.Parser.ParseFlowItem` | app/src/main/jni/libyaml/src/parser.c:1015-1036 | an item of a flow sequence, a single pair, or its end, as the grammar tells |
| `YamlParser.Parser.ParseFlowPair` | app/src/main/jni/libyaml/src/parser.c:1171-1201 | a pair of a flow mapping, or its end, as the grammar tells |
| `YamlParser.Parser.StartExplicit` | app/src/main/jni/libyaml/src/parser.c:405-441 | directives and DOCUMENT-START, or the end of the stream, as the grammar tells |
| `YamlParser.Parser.StartImplicit` | app/src/main/jni/libyaml/src/parser.c:386-401 | a first document without DOCUMENT-START, as the grammar tells |
| `YamlParser.Parser.ParseStreamStart` | app/src/main/jni/libyaml/src/parser.c:332-351 | the stream start comes first and once; the event is one the open containers allow, and the termination measure goes down; it is the first event still to come by the grammar, and an error means that there is none |
| `YamlParser.Parser.ParseDocumentStart` | app/src/main/jni/libyaml/src/parser.c:361-451 | a document starts only between documents, and the stream ends only there; the event is one the open containers allow, and the termination measure goes down; it is the first event still to come by the grammar, and an error means that there is none |
| `YamlParser.Parser.ParseDocumentContent` | app/src/main/jni/libyaml/src/parser.c:459-479 | a document has exactly one root node, empty if the content is missing; the event is one the open containers allow, and the termination measure goes down; it is the first event still to come by the grammar, and an error means that there is none |
| `YamlParser.Parser.ParseDocumentEnd` | app/src/main/jni/libyaml/src/parser.c:489-517 | a document ends after its root; the event is one the open containers allow, and the termination measure goes down; it is the first event still to come by the grammar, and an error means that there is none |
| `YamlParser.Parser.ParseBlockSequenceEntry` | app/src/main/jni/libyaml/src/parser.c:761-811 | each entry is one node, and the end closes a sequence; the event is one the open containers allow, and the termination measure goes down; it is the first event still to come by the grammar, and an error means that there is none |
| `YamlParser.Parser.ParseIndentlessSequenceEntry` | app/src/main/jni/libyaml/src/parser.c:819-855 | the same without an indentation of its own; the event is one the open containers allow, and the termination measure goes down; it is the first event still to come by the grammar, and an error means that there is none |
| `YamlParser.Parser.ParseBlockMappingKey` | app/src/main/jni/libyaml/src/parser.c:869-920 | keys come where a key is due, and a mapping ends only between pairs; the event is one the open containers allow, and the termination measure goes down; it is the first event still to come by the grammar, and an error means that there is none |
| `YamlParser.Parser.ParseBlockMappingValue` | app/src/main/jni/libyaml/src/parser.c:934-968 | every key gets a value, an empty one if it is missing; the event is one the open containers allow, and the termination measure goes down; it is the first event still to come by the grammar, and an error means that there is none |
| `YamlParser.Parser.ParseFlowSequenceEntry` | app/src/main/jni/libyaml/src/parser.c:984-1037 | entries are nodes or single-pair mappings; the event is one the open containers allow, and the termination measure goes down; it is the first event still to come by the grammar, and an error means that there is none |
| `YamlParser.Parser.ParseFlowSequenceEntryMappingKey` | app/src/main/jni/libyaml/src/parser.c:1045-1072 | the pair in a flow sequence has a key; the event is one the open containers allow, and the termination measure goes down; it is the first event still to come by the grammar, and an error means that there is none |
| `YamlParser.Parser.ParseFlowSequenceEntryMappingValue` | app/src/main/jni/libyaml/src/parser.c:1080-1103 | and a value; the event is one the open containers allow, and the termination measure goes down; it is the first event still to come by the grammar, and an error means that there is none |
| `YamlParser.Parser.ParseFlowSequenceEntryMappingEnd` | app/src/main/jni/libyaml/src/parser.c:1111-1124 | and is closed as a mapping; the event is one the open containers allow, and the termination measure goes down; it is the first event still to come by the grammar, and an error means that there is none |
| `YamlParser.Parser.ParseFlowMappingKey` | app/src/main/jni/libyaml/src/parser.c:1140-1202 | keys come where a key is due, and the end closes a mapping between pairs; the event is one the open containers allow, and the termination measure goes down; it is the first event still to come by the grammar, and an error means that there is none |
| `YamlParser.Parser.ParseFlowMappingValue` | app/src/main/jni/libyaml/src/parser.c:1210-1240 | every key gets a value; the event is one the open containers allow, and the termination measure goes down; it is the first event still to come by the grammar, and an error means that there is none |
| `YamlParser.Parser.ProcessDirectives` | app/src/main/jni/libyaml/src/parser.c:1269-1376 | accepts exactly one or no %YAML directive, of version 1.1 or 1.2, and tag handles that are not known or declared before; afterwards the declared handles and the defaults are known |
| `YamlFuture.AllAhead` | app/src/main/jni/libyaml/src/parser.c:2-42 | at first, the events still to come are those of the documents that recursive descent reads |
| `YamlFuture.NodeFutureIs` | app/src/main/jni/libyaml/src/parser.c:548-753 | the events of the tree at a position and of the states below are an event of this node and what is to come in the state it leads to |
| `YamlFuture.Pushes` | app/src/main/jni/libyaml/src/parser.c:761-811 | a node with a state pushed for what follows it is the node and then the rest of the collection |
| `YamlPresent.StreamFits` | app/src/main/jni/libyaml/src/parser.c:332-1240 | the events carry the names of aliases and anchors and the texts of scalars of all tokens consumed, in order, and nothing else but empty scalars; flags follow from tags and styles, and no block collection is inside a flow collection |
| `YamlPresent.NodeFits` | app/src/main/jni/libyaml/src/parser.c:548-753 | the same for each node and the tokens it consumes |
| `YamlTokens.StreamRead` | app/src/main/jni/libyaml/src/parser.c:2-42 | documents with such flags and nesting, written as tokens in block and flow style, are read back as these documents, to the last token |
| `YamlTokens.TreeReads` | app/src/main/jni/libyaml/src/parser.c:2-42 | the same for every node, wherever it stands |
| `YamlTokens.HasTokensIff` | app/src/main/jni/libyaml/src/parser.c:332-1240 | a list of trees comes from some token stream exactly if all flags follow from tags and styles, every mapping is of pairs, and no block collection is inside a flow collection |
| `YamlTokens.ParsePresented` | app/src/main/jni/libyaml/src/parser.c:181-1240 | for all such documents the parser runs on their tokens without an error to exactly their events |
| `YamlTokens.PairMeetsProductionIff` | app/src/main/jni/libyaml/src/parser.c:1045-1103 | behind the KEY of a single pair the code does as its production says exactly if no FLOW-ENTRY follows, and a VALUE that follows has no node, or if neither accepts the pair |
| `YamlTokens.EmptyKeyRefused` | app/src/main/jni/libyaml/src/parser.c:1045-1103 | in a flow sequence, a pair with an empty key and a value is refused, whatever follows |
| `YamlTokens.EmptyKeyExample` | app/src/main/jni/libyaml/src/parser.c:1045-1103 | [ ? : v ] is refused |
| `YamlParser.PopShape` | app/src/main/jni/libyaml/src/parser.c:548-753 | popping a state leaves the containers that were open before the node, advanced by that node |
| `YamlParser.PushBefore` | app/src/main/jni/libyaml/src/parser.c:761-811 | pushing a state adds the containers and marks it stands for |
| `YamlNesting.AcceptConcat` | app/src/main/jni/libyaml/src/parser.c:245-324 | a word is well nested exactly if its front is and its rest is from there |
| `YamlTrees.WordsAre` | app/src/main/jni/libyaml/src/parser.c:332-1240 | the events of trees, documents and streams: a start and an end of the same kind around what is inside, in order |
| `YamlTrees.CompleteIffTrees` | app/src/main/jni/libyaml/src/parser.c:245-324 | an event word is complete exactly if it is the word of a list of trees with as many values as keys in every mapping |
| `YamlTrees.BuildSpells` | app/src/main/jni/libyaml/src/parser.c:245-324 | every well-nested word spells the partial trees built from it |
| `YamlTrees.ExtendStep` | app/src/main/jni/libyaml/src/parser.c:245-324 | every allowed event extends the partial trees and the open frames together |
| `YamlTrees.TreeAccepted` | app/src/main/jni/libyaml/src/parser.c:245-324 | the word of every sound tree is accepted wherever a node is |
| `YamlWritten.ParseTokens` | app/src/main/jni/libyaml/src/parser.c:181-1240 | for any token stream, the parser fails exactly if no documents are written with these tokens by the productions, and else its events are those of every list of documents that is |
| `YamlWritten.StreamReadIff` | app/src/main/jni/libyaml/src/parser.c:2-42 | tokens are read as certain documents up to a position exactly if documents are written with the tokens up to there by the productions, directives and tag handles included and the two deviations above aside, and mean these documents |
| `YamlWritten.StreamWritten` | app/src/main/jni/libyaml/src/parser.c:332-1240 | whatever is read has been written by the productions |
| `YamlWritten.NodeWritten` | app/src/main/jni/libyaml/src/parser.c:548-753 | the same for every node, wherever it stands |
| `YamlSyntax.StreamReads` | app/src/main/jni/libyaml/src/parser.c:2-42 | whatever is written by the productions is read as what it means, to the end of the stream |
| `YamlSyntax.SyntaxReads` | app/src/main/jni/libyaml/src/parser.c:2-42 | the same for every node, in every style, with properties in either order, with keys, values and items left out, wherever it may stand |
| `YamlHandles.TagStandsFor` | app/src/main/jni/libyaml/src/parser.c:614-648 | a tag without handle is its suffix; a handle that the document declares stands for the prefix of that declaration, "!" and "!!" for "!" and "tag:yaml.org,2002:" unless declared, each in front of the suffix; any other handle stands for nothing |
| `YamlHandles.TagsDeclared` | app/src/main/jni/libyaml/src/parser.c:489-517 | in tokens that are read, a tag with any other handle has a directive for it in front of the DOCUMENT-START of its own document: undeclared handles are refused, and a declaration does not outlive its document |
| `YamlHandles.PermittedIff` | app/src/main/jni/libyaml/src/parser.c:1269-1376 | the directives of a document are accepted exactly if at most one is %YAML, for version 1.1 or 1.2, and no two are %TAG for the same handle |
| `YamlHandles.Productions` | app/src/main/jni/libyaml/src/parser.c:2-42 | each production in tokens, literally |
| `YamlHandles.FlowProductions` | app/src/main/jni/libyaml/src/parser.c:30-41 | items of flow sequences with the separators between them, and one more behind the last one or not |
| `YamlHandles.Meanings` | app/src/main/jni/libyaml/src/parser.c:651-744 | the event of each production: anchor, tag, implicit flags and style, in full |
| `YamlHandles.Children` | app/src/main/jni/libyaml/src/parser.c:761-1240 | the children of a collection are its items in order, or its keys and values in turn |
| `YamlHandles.Places` | app/src/main/jni/libyaml/src/parser.c:2-42 | where each production may stand: no block collection inside a flow collection, and no node without tokens unless it may be left out |
| `YamlJson.YamlToJson` | app/src/main/jni/yaml_jni_bridge.c:185-272 | for any token stream, there is a text exactly if the tokens are a stream of documents within 128 levels, and it is their recursive print; failure means an error of this parser or too deep nesting of its events |
| `YamlJson.StreamPrinted` | app/src/main/jni/yaml_jni_bridge.c:185-272 | the events of any documents give exactly their prints, and are refused exactly if some document is nested too deep |
| `YamlJson.TreePrinted` | app/src/main/jni/yaml_jni_bridge.c:120-272 | wherever a value is due, the events of a tree print the tree behind the right separator |
| `YamlJson.MatchesAll` | app/src/main/jni/yaml_jni_bridge.c:120-183 | the context stack always stands for the containers that are open |
| `YamlJson.RefusedIsTooDeep` | app/src/main/jni/yaml_jni_bridge.c:129-135 | the writer refuses well-nested events only for their depth |
| `YamlJson.Bridge.Handle` | app/src/main/jni/yaml_jni_bridge.c:207-262 | one event changes text and contexts as the recursive description says |
| `YamlJson.Bridge.EmitSeparator` | app/src/main/jni/yaml_jni_bridge.c:141-163 | comma, colon or nothing, by the kind and count of the context |
| `YamlJson.Bridge.Advance` | app/src/main/jni/yaml_jni_bridge.c:165-183 | a key is followed by a value, and a value counts |
| `YamlJson.Bridge.Push` | app/src/main/jni/yaml_jni_bridge.c:129-135 | a context is pushed exactly if there is room for it |
| `YamlJson.Bridge.Pop` | app/src/main/jni/yaml_jni_bridge.c:137-139 | a closed container is forgotten and counts as a value of its parent |
| `YamlJson.Bridge.Quote` | app/src/main/jni/yaml_jni_bridge.c:58-99 | the string between quotes, each character by its escape |
| `YamlJsonRead.YamlToJsonAndBack` | app/src/main/jni/yaml_jni_bridge.c:185-272 | if the tokens are a stream of one document within 128 levels whose keys are scalars, there is a text, it is exactly one JSON value, and it has the meaning of the document |
| `YamlJsonRead.ThereAndBack` | app/src/main/jni/yaml_jni_bridge.c:185-272 | every presentable tree with scalar keys within 128 levels, written as tokens, parsed, printed as JSON and read again, comes back with its meaning |
| `YamlJsonRead.StringRead` | app/src/main/jni/yaml_jni_bridge.c:58-99 | reading an escaped string by RFC 8259 gives back the original characters, whatever follows |
| `YamlJsonRead.TreeRead` | app/src/main/jni/yaml_jni_bridge.c:185-272 | a document with scalar keys is printed as one JSON value with the same meaning |
| `YamlJson.CharIs` | app/src/main/jni/yaml_jni_bridge.c:58-99 | the escape of every character, literally |
| `YamlJson.LeafText` | app/src/main/jni/yaml_jni_bridge.c:207-262 | scalars are printed as strings whatever their tag or style, and aliases as null |
| `YamlJson.CollectionBrackets` | app/src/main/jni/yaml_jni_bridge.c:207-262 | sequences are printed in brackets and mappings in braces |
| `YamlJson.PairsText` | app/src/main/jni/yaml_jni_bridge.c:141-183 | a colon stands behind each key and a comma between pairs |
| `YamlJson.JsonIs` | app/src/main/jni/yaml_jni_bridge.c:101-135 | documents are printed one behind the other, and there is no text exactly if one is nested deeper than 128 |
| `YamlSimpleKeys.Scanner.FetchMoreTokens` | app/src/main/jni/libyaml/src/scanner.c:800-854 | in every reachable state the invariant holds: possible keys are numbered from the head of the queue on and increase with the flow level, indents increase from -1, starts minus ends are the open indents, and apart from block starts, block ends and KEY the tokens so far are STREAM-START and those of the lexemes fetched, in order, with as many KEY as there were "?" and completed simple keys; afterwards the head of the queue is no possible key |
| `YamlSimpleKeys.Scanner.Take` | app/src/main/jni/libyaml/src/scanner.c:743-776 | a token taken by the parser never gets another one in front of it: what is taken is a prefix of all tokens for good |
| `YamlSimpleKeys.Scanner.StaleSimpleKeys` | app/src/main/jni/libyaml/src/scanner.c:1056-1090 | exactly the keys of earlier lines or more than 1024 characters back are dropped, the others stay as they are, and the error comes exactly from a required one of these |
| `YamlSimpleKeys.Scanner.SaveSimpleKey` | app/src/main/jni/libyaml/src/scanner.c:1097-1128 | the saved key has the number of the token appended next |
| `YamlSimpleKeys.Scanner.RemoveSimpleKey` | app/src/main/jni/libyaml/src/scanner.c:1134-1155 | only the key of the current level is dropped |
| `YamlSimpleKeys.Scanner.IncreaseFlowLevel` | app/src/main/jni/libyaml/src/scanner.c:1161-1181 | a new level starts without a possible key, and the keys of the others stay |
| `YamlSimpleKeys.Scanner.DecreaseFlowLevel` | app/src/main/jni/libyaml/src/scanner.c:1187-1196 | the innermost level is forgotten, if there is one |
| `YamlSimpleKeys.Scanner.RollIndent` | app/src/main/jni/libyaml/src/scanner.c:1205-1249 | a deeper column opens one block with one start token |
| `YamlSimpleKeys.Scanner.RollIndentAt` | app/src/main/jni/libyaml/src/scanner.c:1205-1249 | the same in front of a token still in the queue |
| `YamlSimpleKeys.Scanner.UnrollIndent` | app/src/main/jni/libyaml/src/scanner.c:1258-1285 | closes, with one end token each, exactly the blocks deeper than the column, and none inside a flow collection |
| `YamlSimpleKeys.Scanner.InsertKey` | app/src/main/jni/libyaml/src/scanner.c:1690-1717 | KEY, and BLOCK-MAPPING-START for a first key, go right in front of the token of the key |
| `YamlSimpleKeys.Scanner.FetchValue` | app/src/main/jni/libyaml/src/scanner.c:1683-1759 | ":" completes a possible key in place, or stands for an empty one |
| `YamlSimpleKeys.Scanner.FetchBlockIndicator` | app/src/main/jni/libyaml/src/scanner.c:1569-1677 | "-" and "?" open a block only at a deeper column |
| `YamlSimpleKeys.Scanner.FetchKeyLike` | app/src/main/jni/libyaml/src/scanner.c:1765-1913 | a token that may begin a key is remembered under its own number; another key may follow it only behind a plain scalar that has swallowed a line break |
| `YamlSimpleKeys.Scanner.FetchFlowStart` | app/src/main/jni/libyaml/src/scanner.c:1448-1485 | a flow collection may be a key, and opens a level without one |
| `YamlSimpleKeys.Scanner.FetchFlowEnd` | app/src/main/jni/libyaml/src/scanner.c:1491-1528 | the end of a flow collection closes its level, if there is one, with its key; the keys below stay |
| `YamlSimpleKeys.Scanner.FetchPlain` | app/src/main/jni/libyaml/src/scanner.c:1534-1563 | ends the possible key of its level and no other; afterwards a key may follow |
| `YamlSimpleKeys.Scanner.FetchAtMargin` | app/src/main/jni/libyaml/src/scanner.c:1329-1442 | outside of flow collections directives, document indicators and the end of the stream close every block |
| `YamlSimpleKeys.Scanner.FetchNextToken` | app/src/main/jni/libyaml/src/scanner.c:860-1049 | one lexeme has exactly the effect of YamlSimpleKeys.ApproachTable, FetchTable and BehindTable on tokens, indents and the possible key, and it is refused exactly as stated there |
| `YamlSimpleKeys.FetchTable` | app/src/main/jni/libyaml/src/scanner.c:893-1049 | the tokens of each kind of lexeme, literally, with the block starts of deeper columns and, for a ":" behind a possible key, KEY in front of the token of the key |
| `YamlSimpleKeys.ApproachTable` | app/src/main/jni/libyaml/src/scanner.c:1056-1285 | in front of a lexeme as many block ends come as there are columns beyond its own, and outdated keys are dropped; for each kind of lexeme, exactly when it is refused |
| `YamlSimpleKeys.BehindTable` | app/src/main/jni/libyaml/src/scanner.c:1097-1913 | behind each kind of lexeme, whether a simple key may begin, the flow level, and the possible key |
| `YamlSimpleKeys.TokenTable` | app/src/main/jni/libyaml/src/scanner.c:893-1049 | each lexeme has one token, of its kind, and "?" none but KEY |
| `YamlSimpleKeys.FetchedLexical` | app/src/main/jni/libyaml/src/scanner.c:893-1049 | what a lexeme adds, apart from block starts and ends, is its token and, for "?" or a completed simple key, one KEY |
| `YamlSimpleKeys.NestedInsert` | app/src/main/jni/libyaml/src/scanner.c:1683-1759 | inserting a start token late leaves no prefix with more ends than starts |
| `YamlSimpleKeys.KeysAfterInsert` | app/src/main/jni/libyaml/src/scanner.c:1683-1759 | inserting in front of the last possible key does not move the keys of the levels below |
| `YamlReader.ReadAll` | app/src/main/jni/libyaml/src/reader.c:50-469 | however the read handler cuts the input, success gives the UTF-8 of the text it encodes, and there is an error only if there is no such text or it is too long |
| `YamlReader.Reader.UpdateBuffer` | app/src/main/jni/libyaml/src/reader.c:141-469 | afterwards there are as many characters as asked for, or all and the final NUL; nothing delivered before is lost or repeated |
| `YamlReader.Reader.DecodeNext` | app/src/main/jni/libyaml/src/reader.c:192-451 | one character moves from raw bytes to UTF-8, or the rest of it is not there yet, or the input is not readable |
| `YamlReader.Reader.FillBuffer` | app/src/main/jni/libyaml/src/reader.c:181-461 | refills until there are enough characters or the end, and always ends |
| `YamlReader.Reader.PutChar` | app/src/main/jni/libyaml/src/reader.c:427-450 | the buffer grows by the UTF-8 of the character |
| `YamlReader.Reader.PutEnd` | app/src/main/jni/libyaml/src/reader.c:453-459 | one NUL, once |
| `YamlReader.Reader.CompactBuffer` | app/src/main/jni/libyaml/src/reader.c:167-177 | characters not used up are moved and kept |
| `YamlReader.Reader.UpdateRaw` | app/src/main/jni/libyaml/src/reader.c:93-132 | bytes cut off by a refill are kept in front of the new ones |
| `YamlReader.Reader.DetermineEncoding` | app/src/main/jni/libyaml/src/reader.c:50-87 | the encoding is that of the byte order mark, however its bytes come in |
| `YamlReader.Reader.LookAtMark` | app/src/main/jni/libyaml/src/reader.c:64-84 | the comparisons recognise exactly the three byte order marks |
| `YamlReader.EndedMeans` | app/src/main/jni/libyaml/src/reader.c:453-459 | at the end all bytes behind the mark are decoded and the buffer ends with one NUL |
| `YamlReader.OneText` | app/src/main/jni/libyaml/src/reader.c:204-394 | an input encodes at most one text |
| `YamlReader.StuckIsUnreadable` | app/src/main/jni/libyaml/src/reader.c:236-418 | every decoding error means that the input is no text of allowed characters |
| `YamlEncodings.CharDecoded` | app/src/main/jni/libyaml/src/reader.c:204-418 | the encoding of an allowed character decodes to it, in all three encodings, whatever follows |
| `YamlEncodings.CharCut` | app/src/main/jni/libyaml/src/reader.c:243-253 | a character cut off anywhere is incomplete, not wrong |
| `YamlEncodings.CharExact` | app/src/main/jni/libyaml/src/reader.c:204-418 | whatever decodes is an allowed character and the bytes are its only encoding |
| `YamlEncodings.NeverStuck` | app/src/main/jni/libyaml/src/reader.c:192-451 | inside an encoded text no decoding step fails, and only a cut character is incomplete |
| `YamlEncodings.NextOfEncoded` | app/src/main/jni/libyaml/src/reader.c:192-451 | the bytes behind the characters read are the encoding of the rest of the text |
| `YamlEncodings.DetectEarly` | app/src/main/jni/libyaml/src/reader.c:50-87 | three bytes, or all there are, decide the encoding |
| `YamlEncodings.EncodeUtf8` | app/src/main/jni/libyaml/src/reader.c:425-450 | the UTF-8 encoding of a text is the concatenation of its octets |
| `YamlReader.ReadableIff` | app/src/main/jni/libyaml/src/reader.c:36-87 | an input is readable exactly if behind the mark FF FE, FE FF or EF BB BF it is the UTF-16 in that order, or the UTF-8, of allowed characters, and UTF-8 without a mark |
| `YamlEncodings.AllowedIs` | app/src/main/jni/libyaml/src/reader.c:404-418 | the allowed characters, range by range |
| `YamlEncodings.EncodeIs` | app/src/main/jni/libyaml/src/reader.c:204-394 | the octets of a character in UTF-8, and of its units in UTF-16, low or high one first |
| `YamlEncodings.DetectedBy` | app/src/main/jni/libyaml/src/reader.c:41-84 | the three byte order marks, byte by byte |
| `LwipRuns.RunIsSafe` | app/src/main/jni/lwip/src/core/mem.c:616-976 | after any run of allocations, frees and trims, every address held starts an aligned region of at least the bytes asked for, no two overlap, and with nothing held the heap is one free block again |
| `LwipClients.Execute` | app/src/main/jni/lwip/src/core/mem.c:515-976 | the same for any run on the heap object itself, with clients storing data in between; moreover, what a client has stored is in memory until it stores again, trims it away or frees it (LwipResults.DataStays) |
| `LwipClients.HoldsAfter` | app/src/main/jni/lwip/src/core/mem.c:616-976 | no operation changes what anybody has stored |
| `LwipClients.HoldsStored` | app/src/main/jni/lwip/src/core/mem.c:616-976 | a client that stores data in its region disturbs nobody else |
| `LwipHeap.ContentsStay` | app/src/main/jni/lwip/src/core/mem.c:616-976 | as operations write headers only, a region keeps its contents while it is live |
| `LwipHeap.Heap.Store` | app/src/main/jni/lwip/src/core/mem.c:341-380 | storing data in a region leaves the heap intact |
| `LwipRuns.StepAgrees` | app/src/main/jni/lwip/src/core/mem.c:616-976 | every operation keeps blocks and clients in agreement |
| `LwipRuns.MallocFails` | app/src/main/jni/lwip/src/core/mem.c:830-976 | a request fails exactly when it is zero, too large for the arena, or larger than every free block |
| `LwipHeap.Heap.Malloc` | app/src/main/jni/lwip/src/core/mem.c:830-976 | first fit from the lowest free block, split if the rest can hold a block, and the invariant is kept: blocks tile the arena, links match, no two neighbours are free, lfree is the lowest free block or the end |
| `LwipHeap.Heap.Free` | app/src/main/jni/lwip/src/core/mem.c:616-686 | a block in use becomes free, joined with free neighbours; anything not in use changes nothing |
| `LwipHeap.Heap.Trim` | app/src/main/jni/lwip/src/core/mem.c:698-820 | the block shrinks in place and the rest goes to the free block behind it, or becomes one |
| `LwipHeap.Heap.PlugHoles` | app/src/main/jni/lwip/src/core/mem.c:473-510 | a free block is joined with the free blocks beside it and lfree stays the lowest |
| `LwipHeap.Heap.PlugForward` | app/src/main/jni/lwip/src/core/mem.c:486-496 | the free block behind is taken in |
| `LwipHeap.Heap.PlugBackward` | app/src/main/jni/lwip/src/core/mem.c:499-509 | the free block in front takes the block in |
| `LwipHeap.Heap.Search` | app/src/main/jni/lwip/src/core/mem.c:870-884 | stopping at size minus request and starting at lfree, the scan still finds the first fit |
| `LwipHeap.Heap.Take` | app/src/main/jni/lwip/src/core/mem.c:883-950 | the block found is marked, split if possible, and lfree moved on |
| `LwipHeap.Heap.Carve` | app/src/main/jni/lwip/src/core/mem.c:886-927 | a split makes two blocks of one, otherwise the block is only marked |
| `LwipHeap.Heap.NextFree` | app/src/main/jni/lwip/src/core/mem.c:931-949 | the next free block, or the end, is the lowest one |
| `LwipHeap.Heap.LowerNext` | app/src/main/jni/lwip/src/core/mem.c:754-780 | the free neighbour moves down to the new end, also when it was lfree |
| `LwipHeap.Heap.SplitUsed` | app/src/main/jni/lwip/src/core/mem.c:781-804 | the rest becomes a free block, the lowest one if it lies below lfree |
| `LwipHeap.Heap.LinkValid` | app/src/main/jni/lwip/src/core/mem.c:550-564 | the link check holds for every block |
| `LwipHeap.Heap.constructor` | app/src/main/jni/lwip/src/core/mem.c:515-545 | a fresh heap is one free block and the end marker |
| `LwipHeap.OwnerWrites` | app/src/main/jni/lwip/src/core/mem.c:341-430 | whatever owners write into their regions, no header changes |
| `LwipBlocks.LiveDisjoint` | app/src/main/jni/lwip/src/core/mem.c:567-607 | live regions are aligned, inside the arena, and overlap neither each other nor any header |
| `LwipBlocks.AllocatedLive` | app/src/main/jni/lwip/src/core/mem.c:883-927 | an allocation adds one region, long enough and apart from all others |
| `LwipBlocks.FreedLive` | app/src/main/jni/lwip/src/core/mem.c:616-686 | a free removes exactly its region |
| `LwipBlocks.TrimmedLive` | app/src/main/jni/lwip/src/core/mem.c:698-820 | a trim moves the end of its region down, not below the new size, and touches no other; by how much is LwipResults.TrimmedResult |
| `LwipBlocks.AllocatedHeaped` | app/src/main/jni/lwip/src/core/mem.c:883-927 | splitting keeps the tiling and leaves no two free neighbours |
| `LwipBlocks.FreedHeaped` | app/src/main/jni/lwip/src/core/mem.c:473-510 | plugging keeps the tiling and leaves no two free neighbours |
| `LwipBlocks.TrimmedHeaped` | app/src/main/jni/lwip/src/core/mem.c:753-804 | shrinking keeps the tiling and leaves no two free neighbours |
| `LwipBlocks.NothingLive` | app/src/main/jni/lwip/src/core/mem.c:473-510 | without live regions the heap is a single free block |
| `LwipBlocks.FreedNotOwned` | app/src/main/jni/lwip/src/core/mem.c:616-686 | a freed address belongs to nobody |
| `LwipBlocks.TooHigh` | app/src/main/jni/lwip/src/core/mem.c:870-871 | behind the bound of the search no block can fit the request |
| `LwipBlocks.RoundingGuard` | app/src/main/jni/lwip/src/core/mem.c:844-856 | the range check catches every request whose rounding wrapped, and no other request that fits |
| `LwipResults.StoredIsFound` | app/src/main/jni/lwip/src/core/mem.c:515-976 | in any run on the heap object, bytes stored at an address that is not stored to, trimmed or freed later are in memory there at the end |
| `LwipResults.DataStays` | app/src/main/jni/lwip/src/core/mem.c:616-976 | whatever the others do in any run, data that is stored stays |
| `LwipResults.TextAfter` | app/src/main/jni/lwip/src/core/mem.c:616-976 | what each call makes of the data of an address: storing replaces the front, trimming cuts, freeing forgets, anything else leaves it |
| `LwipResults.MallocTakes` | app/src/main/jni/lwip/src/core/mem.c:830-950 | a request is answered with the lowest free block that has room for its size, rounded up to a multiple of 8 and not below 16 |
| `LwipResults.MallocRefuses` | app/src/main/jni/lwip/src/core/mem.c:830-976 | an empty request, one too large for the arena, and one no free block has room for are refused, and nothing changes |
| `LwipResults.AllocatedIs` | app/src/main/jni/lwip/src/core/mem.c:886-927 | the rest becomes a free block exactly if it has room for a header and 16 bytes |
| `LwipResults.FreedIs` | app/src/main/jni/lwip/src/core/mem.c:473-510 | a freed block swallows the free block behind it, and is swallowed by the free block in front of it |
| `LwipResults.TrimmedResult` | app/src/main/jni/lwip/src/core/mem.c:698-820 | the free block behind moves down to the new end, or the rest becomes one exactly if it has room for a header and 16 bytes |
| `LwipResults.FreeAndTrimIs` | app/src/main/jni/lwip/src/core/mem.c:616-820 | free and trim work on the block whose data start at the address, and a trim to more than it holds is refused |
| `LwipResults.HeldIs` | app/src/main/jni/lwip/src/core/mem.c:616-976 | who holds what after each operation |
| `LwipResults.SafeIs` | app/src/main/jni/lwip/src/core/mem.c:341-430 | addresses held are multiples of 8, their bytes are inside the arena and disjoint, and with nothing held there is one free block |
| `LwipResults.ConfigIs` | app/src/main/jni/lwip/src/core/mem.c:341-380 | headers of 8 bytes for 16-bit sizes and 16 bytes for 32-bit sizes |
| `LwipChecksum.StandardChecksum` | app/src/main/jni/lwip/src/core/inet_chksum.c:188-255 | for every start alignment and length the sum is the one's-complement value of the flat word sum, 0 only for all zeros, with no carry lost |
| `LwipChecksum.ChecksumChain` | app/src/main/jni/lwip/src/core/inet_chksum.c:567-588 | the checksum of a chain is that of its bytes, however they are cut up, odd lengths included |
| `LwipChecksum.SumChain` | app/src/main/jni/lwip/src/core/inet_chksum.c:259-283 | the byte swaps after odd lengths keep the accumulator equal to the flat sum |
| `LwipChecksum.ChecksumPseudo` | app/src/main/jni/lwip/src/core/inet_chksum.c:309-327 | the pseudo header is summed as if its bytes stood in front of the data |
| `LwipChecksum.SumWords` | app/src/main/jni/lwip/src/core/inet_chksum.c:206-236 | the unrolled 32-bit loop equals the flat sum of 16-bit words |
| `LwipChecksum.AddCarry` | app/src/main/jni/lwip/src/core/inet_chksum.c:213-222 | a carry out of 32 bits is added back |
| `LwipChecksum.Swapped` | app/src/main/jni/lwip/src/core/inet_chksum.c:250-252 | exchanging the bytes of every word multiplies the sum by 256 in one's complement |
| `LwipChecksum.FlatConcat` | app/src/main/jni/lwip/src/core/inet_chksum.c:265-283 | data behind an odd number of bytes counts with its bytes exchanged |
| `LwipChecksum.FlatZero` | app/src/main/jni/lwip/src/core/inet_chksum.c:188-255 | only zeros add up to 0 |
| `LwipChecksum.FoldTwice` | app/src/main/jni/lwip/src/include/lwip/inet_chksum.h:50-53 | folding twice leaves 16 bits of the same one's-complement value |
| `LwipChecksum.StoredChecksumVerifies` | app/src/main/jni/lwip/src/core/inet_chksum.c:567-588 | a message with its checksum stored sums to zero for the receiver |
| `LwipPbuf.Pool.Cat` | app/src/main/jni/lwip/src/core/pbuf.c:854-877 | the chains end to end hold the concatenation, and each tot_len stays the sum of lens from it onward, mod 2^16 |
| `LwipPbuf.ExactIffFits` | app/src/main/jni/lwip/src/core/pbuf.c:854-877 | every tot_len is the exact length exactly when the whole chain fits 16 bits |
| `LwipPbuf.TotalIs` | app/src/main/jni/lwip/src/include/lwip/pbuf.h:193-200 | tot_len is the length of everything from there on, cut to 16 bits |
| `LwipPbuf.Pool.Realloc` | app/src/main/jni/lwip/src/core/pbuf.c:401-462 | the chain holds exactly the prefix of the new length with right totals, and the buffers behind it lose one reference; chains of 2^16 bytes and more are cut the same way, where their tot_len admits it |
| `LwipPbuf.Pool.KeepWhole` | app/src/main/jni/lwip/src/core/pbuf.c:424-437 | the walk stops at the buffer that holds the new end |
| `LwipPbuf.Pool.Free` | app/src/main/jni/lwip/src/core/pbuf.c:726-802 | buffers from the head on are deallocated up to the first one that others refer to, and no other count changes |
| `LwipPbuf.Pool.Split64k` | app/src/main/jni/lwip/src/core/pbuf.c:1144-1178 | a chain of any size is cut behind the longest front that fits 16 bits; nothing is lost and both parts have right totals |
| `LwipPbuf.Pool.FrontOf` | app/src/main/jni/lwip/src/core/pbuf.c:1151-1158 | the overflow test on 16-bit sums finds exactly the longest front that fits |
| `LwipPbuf.Pool.Lower` | app/src/main/jni/lwip/src/core/pbuf.c:1165-1169 | every tot_len of the front is reduced by what was cut off |
| `LwipPbuf.Pool.CopyPartial` | app/src/main/jni/lwip/src/core/pbuf.c:1057-1088 | the bytes from the offset on are copied, as many as there are and at most as asked for |
| `LwipPbuf.Pool.Skip` | app/src/main/jni/lwip/src/core/pbuf.c:1182-1197 | finds the one buffer that holds the byte at the offset, and none exactly beyond the end |
| `LwipPbuf.Pool.Take` | app/src/main/jni/lwip/src/core/pbuf.c:1226-1257 | the data overwrites the start of the byte string, or nothing changes if tot_len does not admit it |
| `LwipPbuf.Pool.TakeAt` | app/src/main/jni/lwip/src/core/pbuf.c:1270-1293 | the data overwrites the byte string at the offset, exactly if the offset lies inside and the tot_len of the buffer there admits it; below 2^16 bytes data that fits is refused exactly if it is no bytes at the very end |
| `LwipPbuf.Pool.TakeHere` | app/src/main/jni/lwip/src/core/pbuf.c:1277-1290 | the part for the first buffer and the rest make one overwrite |
| `LwipPbuf.Pool.TryGetAt` | app/src/main/jni/lwip/src/core/pbuf.c:1419-1430 | the byte at the offset of the flat string, or -1 beyond it |
| `LwipPbuf.Pool.GetAt` | app/src/main/jni/lwip/src/core/pbuf.c:1401-1409 | the byte at the offset, or 0 beyond the end |
| `LwipPbuf.Pool.PutAt` | app/src/main/jni/lwip/src/core/pbuf.c:1441-1451 | one byte of the flat string changes, or none |
| `LwipPbuf.Pool.Memcmp` | app/src/main/jni/lwip/src/core/pbuf.c:1464-1492 | within what tot_len admits, 0 exactly for equal bytes, else one more than the first difference; for fewer than 65535 bytes 0xFFFF means exactly out of range, and for 65535 bytes in range it means a first difference in the last one |
| `LwipPbuf.Pool.Memfind` | app/src/main/jni/lwip/src/core/pbuf.c:1506-1519 | the first match at or after the start within what tot_len admits, or 0xFFFF, also where the 16-bit counter reaches its limit |
| `LwipPbuf.Pool.constructor` | app/src/main/jni/lwip/src/core/pbuf.c:178-189 | each buffer of a new pool is a packet of its own that holds its memory |
| `LwipPbuf.TakeNothingAtEnd` | app/src/main/jni/lwip/src/core/pbuf.c:1270-1293 | no bytes at offset 3, the end of a packet of three: ERR_MEM |
| `LwipPbuf.CompareLargest` | app/src/main/jni/lwip/src/core/pbuf.c:1464-1492 | 65535 bytes that differ from a packet of as many in the last one only: 0xFFFF |
| `LwipPbuf.JoinOverwrite` | app/src/main/jni/lwip/src/core/pbuf.c:1240-1254 | writing into one buffer is an overwrite of the flat string |
| `LwipTimer.Tcp.SlowTimer` | app/src/main/jni/lwip/src/core/tcp.c:1196-1438 | whatever the callbacks remove, register, allocate or free, the restarting walk ends, handles no connection twice and leaves none unstamped; an active connection that is not new was handled exactly if it did not have the stamp of this tick before; lists, stamps and flag are those after handling, each time, the first unstamped connection of the list as it then is, dropped, polled or left alone as the script says |
| `LwipTimer.OneTick` | app/src/main/jni/lwip/src/core/tcp.c:1196-1438 | lists, stamps and script determine whom a tick handles, in what order, and what comes out |
| `LwipTimer.UpcomingAt` | app/src/main/jni/lwip/src/core/tcp.c:1215-1227 | the connection where the walk stands with all before it stamped is the first unstamped one |
| `LwipTimer.Tcp.FastTimer` | app/src/main/jni/lwip/src/core/tcp.c:1482-1526 | the same for the fast timer, which processes the refused data of each connection that the script names and restarts after changes |
| `LwipTimer.Tcp.Walk` | app/src/main/jni/lwip/src/core/tcp.c:1209-1438 | the measure is the number of live connections not stamped yet |
| `LwipTimer.Tcp.WalkFast` | app/src/main/jni/lwip/src/core/tcp.c:1489-1525 | the same measure, without a predecessor to keep |
| `LwipTimer.Tcp.Handle` | app/src/main/jni/lwip/src/core/tcp.c:1382-1437 | a dropped connection is unlinked and freed, and the flag cleared, before the callback; the walk goes on at the start exactly if a callback has changed the list, else at the next connection |
| `LwipTimer.Tcp.HandleFast` | app/src/main/jni/lwip/src/core/tcp.c:1508-1520 | the next connection is remembered before the callback; the walk goes on there, or at the start exactly if the callback has changed the list |
| `LwipTimer.Tcp.Act` | app/src/main/jni/lwip/src/core/tcp.c:1838-1935 | what each action of a callback does to lists, stamps and flag; none leaves a new unstamped connection |
| `LwipTimer.Tcp.Callback` | app/src/main/jni/lwip/src/core/tcp.c:1838-1935 | a callback is its actions one after the other, stamps only what it allocates, and owns up to its changes |
| `LwipTimer.BornWereFree` | app/src/main/jni/lwip/src/core/tcp.c:1838-1935 | whatever counts as new was allocated by a callback, and was free at that moment |
| `LwipTimer.SkippedOnce` | app/src/main/jni/lwip/src/core/tcp.c:1220-1227 | a connection is allocated at tick 0, ticks 1 to 255 pass, it is registered, and the next tick handles nobody although it is active |
| `LwipTimer.Tcp.RemoveFromList` | app/src/main/jni/lwip/src/core/tcp.c:1389-1411 | the connection is out of the list and free, and the one behind it moves up |
| `LwipTimer.Tcp.RemoveActive` | app/src/main/jni/lwip/src/include/lwip/priv/tcp_priv.h:396-427 | the connection, and no other, leaves the list, and the change is flagged |
| `LwipTimer.Tcp.FindBefore` | app/src/main/jni/lwip/src/include/lwip/priv/tcp_priv.h:401-410 | the search finds the predecessor |
| `LwipTimer.Tcp.Unlink` | app/src/main/jni/lwip/src/core/tcp.c:1391-1398 | the list loses exactly this connection |
| `LwipSteps.ReachIs` | app/src/main/jni/lwip/src/core/tcp.c:1227-1437 | a connection that is reached is stamped; one that is dropped is unlinked and freed, then the flag is cleared, then the callback runs; one that is polled keeps its place |
| `LwipSteps.ActIs` | app/src/main/jni/lwip/src/core/tcp.c:1838-1935 | each action of a callback on a connection in each state, in full |
| `LwipSteps.RemovedIs` | app/src/main/jni/lwip/src/include/lwip/priv/tcp_priv.h:396-427 | taking a connection out of the list leaves the others in their order |
| `LwipSteps.UpcomingIs` | app/src/main/jni/lwip/src/core/tcp.c:1215-1227 | the connection the timer goes on with is the first of the list without the stamp of this tick |
| `LwipSteps.TickIff` | app/src/main/jni/lwip/src/core/tcp.c:1196-1438 | a tick is a sequence of connections, each the first unstamped one of the list that those before it have left behind, until there is none |

## Left out

BLAKE3
- The round function and the message schedule: compression is a parameter of every theorem.
- SIMD builds and `blake3_dispatch.c`: the model is the portable build with SIMD degree 1.
- 64-bit wrap-around of the output block counter, which no output of a feasible length reaches.
- `init_derive_key` on C strings, of which only the raw form is modelled, and `CTLSKeyDerivation.c`.

X25519
- The group law, so that the doubling and addition formulas are those of a group, primality of 2^255 - 19, and everything about timing.
- X25519.FeInvert: states the power z^(p-2), not that it is an inverse, which needs primality.
- `secure_random` and key pair generation.

libyaml
- Out-of-memory branches, contents of marks, error texts, and the style and version fields that no property mentions.
- YamlLoader.Composer.Load: events are given as a sequence, without stream events; YamlLoad.LoadNext runs the parser underneath.
- YamlDumper.DumpDocument: stream start and end, and the release of the document, are left out.
- The emitter state machine, single-quoted scalars in the emitter, and plain and block scalars in emitter and scanner.
- YamlQuotedScanner.Parser.ScanFlowScalar: works on decoded characters; refills of the buffer are the subject of YamlReader.
- YamlSimpleKeys.Scanner.FetchNextToken: what the characters of a lexeme are is given from outside (kind, start, end, line breaks around it, whether it is well formed); only queue, indents and keys are modelled.
- Directives of a document start and the implicit flags of documents, which events do not carry here.
- YamlReader.Reader.Read: the read handler never fails; it may return any positive number of bytes while there are any.
- UTF-16 output of writer.c, which masks the second surrogate wrongly and is no inverse of the reader.

JSON bridge
- YamlJsonRead.TreeRead: only for documents whose keys are scalars; the bridge prints other keys as they are, which is no JSON.
- The reading side accepts what the bridge can print: no whitespace, no numbers, and \u escapes below 256.
- YAML text to tokens: the bridge is run over the parser on an arbitrary token stream. The JNI entry points and string conversion are left out.

lwIP
- LwipHeap.Heap.Free: an address whose header reads as used has to come from mem_malloc, as the comment at mem.c:611-614 demands; mem.c does not notice other addresses that pass its checks.
- LwipHeap.Heap.Trim: the same for addresses inside the arena (mem.c:689).
- ram holds each header field at the place of its first byte; byte order of the fields is not modelled. Sanity regions, statistics, frees from other contexts, pools, calloc and the libc variant are left out.
- Checksum algorithms 1 and 2, partial sums, copy-and-sum and IPv6; alignment is the address modulo 4.
- pbufs are slots of a pool, each with a payload of its own; types, headers, allocation, queues of packets, custom free functions and the trimming of heap memory in pbuf_realloc are left out, as is `pbuf_copy_partial_pbuf`.
- Connections are slots; what a timer does to a connection besides dropping it or calling back is left open, and the TIME-WAIT list is not modelled.

Elsewhere
- Kotlin code, `lwip_bridge.c`, `netif.c`, `ip.c`, `init.c` and the rest of `tcp.c`.
