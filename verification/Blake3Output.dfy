/** Extendable output: any window of the root node's output stream. */
module Blake3Output {
  import opened Basics
  import opened Bits
  import opened Blake3Tree

  /** blake3_xof_many: whole output blocks. */
  method XofMany(m: Mode, o: Node, counter: nat, out: array<Byte>, pos: nat, blocks: nat)
    requires pos + 64 * blocks <= out.Length
    modifies out
    ensures forall i | pos <= i < pos + 64 * blocks :: out[i] == StreamByte(m, o, 64 * counter + (i - pos))
    ensures forall i | 0 <= i < out.Length && !(pos <= i < pos + 64 * blocks) :: out[i] == old(out[i])
  {
    var c, p, left := counter, pos, blocks;
    while left > 0
      invariant 0 <= left <= blocks && c == counter + (blocks - left) && p == pos + 64 * (blocks - left)
      invariant forall i | pos <= i < p :: out[i] == StreamByte(m, o, 64 * counter + (i - pos))
      invariant forall i | 0 <= i < out.Length && !(pos <= i < p) :: out[i] == old(out[i])
    {
      CopyBlock(m, o, c, 0, out, p, 64);
      c, p, left := c + 1, p + 64, left - 1;
    }
  }

  /** Writes n bytes of output block number counter, from the given offset on. */
  method CopyBlock(m: Mode, o: Node, counter: nat, offset: nat, out: array<Byte>, pos: nat, n: nat)
    requires offset + n <= 64 && pos + n <= out.Length
    modifies out
    ensures forall i | pos <= i < pos + n :: out[i] == StreamByte(m, o, 64 * counter + offset + (i - pos))
    ensures forall i | 0 <= i < out.Length && !(pos <= i < pos + n) :: out[i] == old(out[i])
  {
    var wideBuf := m.f.xof(o.cv, o.block, o.blockLen, counter, Or(o.flags, ROOT));
    forall i | pos <= i < pos + n {
      out[i] := wideBuf[offset + (i - pos)];
    }
    forall i | pos <= i < pos + n
      ensures out[i] == StreamByte(m, o, 64 * counter + offset + (i - pos))
    {
      var q := offset + (i - pos);
      assert (64 * counter + q) / 64 == counter && (64 * counter + q) % 64 == q;
    }
  }

  /** output_root_bytes: a partial first block, whole blocks, a partial last block. */
  method OutputRootBytes(m: Mode, o: Node, seek: nat, out: array<Byte>)
    modifies out
    ensures forall i | 0 <= i < out.Length :: out[i] == StreamByte(m, o, seek + i)
  {
    if out.Length == 0 {
      return;
    }
    var outputBlockCounter := seek / 64;
    var offsetWithinBlock := seek % 64;
    var pos, left := 0, out.Length;
    if offsetWithinBlock != 0 {
      var available := 64 - offsetWithinBlock;
      var bytes := if left > available then available else left;
      CopyBlock(m, o, outputBlockCounter, offsetWithinBlock, out, 0, bytes);
      pos, left := bytes, left - bytes;
      outputBlockCounter := outputBlockCounter + 1;
    }
    assert left > 0 ==> 64 * outputBlockCounter == seek + pos;
    if left / 64 != 0 {
      XofMany(m, o, outputBlockCounter, out, pos, left / 64);
    }
    outputBlockCounter := outputBlockCounter + left / 64;
    pos, left := pos + (left - left % 64), left % 64;
    assert forall i | 0 <= i < pos :: out[i] == StreamByte(m, o, seek + i);
    if left != 0 {
      CopyBlock(m, o, outputBlockCounter, 0, out, pos, left);
    }
  }
}
