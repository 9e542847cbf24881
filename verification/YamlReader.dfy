/** The reader: raw bytes in pieces of any size, decoded into a buffer that the scanner consumes. */
module YamlReader {
  import opened Basics
  import opened YamlUtf8
  import opened YamlEncodings

  const RAW_SIZE := 16384
  const BUFFER_SIZE := 3 * RAW_SIZE
  const MAX_FILE_SIZE := 0x7FFF_FFFF_FFFF_FFFF

  lemma Utf8Concat(s: seq<Scalar>, t: seq<Scalar>)
    ensures Utf8All(s + t) == Utf8All(s) + Utf8All(t)
  {
    hide EncodeAll, Utf8All;
    EncodeConcat(s, t, Utf8Encoding);
    EncodeUtf8(s);
    EncodeUtf8(t);
    EncodeUtf8(s + t);
  }

  lemma {:induction false} Utf8Length(s: seq<Scalar>)
    ensures |s| <= |Utf8All(s)| <= 4 * |s|
  {
    hide Utf8;
    if s != [] {
      Utf8Length(s[..|s| - 1]);
    }
  }

  lemma Utf8One(c: Scalar)
    ensures Utf8All([c]) == Utf8(c)
  {
    assert [c][..0] == [];
  }

  function Format(source: seq<Byte>, preset: Option<Encoding>): (Encoding, nat) {
    match preset
    case Some(e) => (e, 0)
    case None => Detect(source)
  }

  /** The bytes given so far are the byte order mark, the encoded characters and the raw bytes that are left. */
  ghost predicate Accounts(source: seq<Byte>, preset: Option<Encoding>, given: nat, encoding: Option<Encoding>, bom: nat,
                           delivered: seq<Scalar>, raw: seq<Byte>, offset: nat)
  {
    && given <= |source| && bom <= given && AllAllowed(delivered)
    && (encoding.Some? ==> (&& (encoding.value, bom) == Format(source, preset)
                            && source[..given] == source[..bom] + EncodeAll(delivered, encoding.value) + raw
                            && offset == bom + |EncodeAll(delivered, encoding.value)|))
    && (encoding.None? ==> preset.None? && delivered == [] && bom == 0 == offset && raw == source[..given])
  }

  lemma AccountsGrow(source: seq<Byte>, preset: Option<Encoding>, given: nat, encoding: Option<Encoding>, bom: nat,
                     delivered: seq<Scalar>, raw: seq<Byte>, offset: nat, next: nat)
    requires Accounts(source, preset, given, encoding, bom, delivered, raw, offset) && given <= next <= |source|
    ensures Accounts(source, preset, next, encoding, bom, delivered, raw + source[given..next], offset)
  {
    hide Format, EncodeAll, AllAllowed;
    assert source[..next] == source[..given] + source[given..next];
  }

  lemma InSource(source: seq<Byte>, preset: Option<Encoding>, given: nat, encoding: Option<Encoding>, bom: nat,
                 delivered: seq<Scalar>, raw: seq<Byte>, offset: nat)
    requires Accounts(source, preset, given, encoding, bom, delivered, raw, offset)
    ensures given <= |source|
    ensures encoding.None? ==> preset.None? && delivered == [] && raw == source[..given] && bom == 0 == offset
  {
    hide EncodeAll, AllAllowed, Format;
  }

  lemma NoBytes(source: seq<Byte>, i: nat)
    requires i <= |source|
    ensures source[i..i] == []
  {
  }

  /** The first three bytes, or all, decide on the encoding. */
  lemma AccountsDetect(source: seq<Byte>, given: nat, raw: seq<Byte>)
    requires given <= |source| && raw == source[..given] && (given >= 3 || given == |source|)
    ensures var (e, n) := Detect(raw);
      n <= |raw| && Accounts(source, None, given, Some(e), n, [], raw[n..], n)
  {
    hide Detect;
    DetectEarly(source, given);
    var (e, n) := Detect(raw);
    assert EncodeAll([], e) == [];
    assert raw == source[..n] + [] + raw[n..];
  }

  /** One character decoded. */
  lemma AccountsDecode(source: seq<Byte>, preset: Option<Encoding>, given: nat, e: Encoding, bom: nat,
                       delivered: seq<Scalar>, raw: seq<Byte>, offset: nat)
    requires Accounts(source, preset, given, Some(e), bom, delivered, raw, offset) && raw != [] && DecodeChar(raw, e).Char?
    ensures var o := DecodeChar(raw, e);
      && o.width <= |raw| && o.value < 0x110000 && !(0xD800 <= o.value <= 0xDFFF) && o.width == |Encode(o.value, e)|
      && Accounts(source, preset, given, Some(e), bom, delivered + [o.value], raw[o.width..], offset + o.width)
  {
    hide Format, EncodeAll, DecodeChar, Allowed, Encode;
    var o := DecodeChar(raw, e);
    CharExact(raw, e);
    EncodeConcat(delivered, [o.value], e);
    EncodeOne(o.value, e);
    assert raw == Encode(o.value, e) + raw[o.width..];
  }

  /** The input is the encoding of some text without forbidden characters. */
  ghost predicate Readable(source: seq<Byte>, preset: Option<Encoding>) {
    var (e, n) := Format(source, preset);
    n <= |source| && exists text :: AllAllowed(text) && source[n..] == EncodeAll(text, e)
  }

  /** The reader gives up on its raw bytes only if the input cannot be read. */
  lemma StuckIsUnreadable(source: seq<Byte>, preset: Option<Encoding>, given: nat, e: Encoding, bom: nat,
                          delivered: seq<Scalar>, raw: seq<Byte>, offset: nat)
    requires Accounts(source, preset, given, Some(e), bom, delivered, raw, offset) && raw != []
    requires DecodeChar(raw, e) == Bad || (DecodeChar(raw, e) == Incomplete && given == |source|)
    ensures !Readable(source, preset)
  {
    hide Format, EncodeAll, DecodeChar, AllAllowed;
    if Readable(source, preset) {
      var text :| AllAllowed(text) && source[bom..] == EncodeAll(text, e);
      var more := source[given..];
      assert source == source[..given] + more;
      assert source[bom..] == EncodeAll(delivered, e) + raw + more;
      NeverStuck(delivered, raw, more, text, e);
    }
  }

  class Reader {
    /** The whole input, and how much of it the read handler gives at each call, if it has that much. */
    const source: seq<Byte>
    const chunk: nat -> nat
    const preset: Option<Encoding>
    var given: nat
    var calls: nat
    const raw: array<Byte>
    var rawPointer: nat
    var rawLast: nat
    var eof: bool
    var encoding: Option<Encoding>
    const buffer: array<Byte>
    var pointer: nat
    var last: nat
    var unread: nat
    var offset: nat
    var error: bool
    /** The length of the byte order mark, the characters decoded, whether the final NUL is there, how many are used up. */
    ghost var bom: nat
    ghost var delivered: seq<Scalar>
    ghost var ended: bool
    ghost var taken: nat

    ghost function Raw(): seq<Byte>
      requires rawPointer <= rawLast <= raw.Length
      reads this`rawPointer, this`rawLast, raw
    {
      raw[rawPointer..rawLast]
    }

    /** The characters put into the buffer so far. */
    ghost function Pushed(): seq<Scalar>
      reads this`delivered, this`ended
    {
      delivered + if ended then [0] else []
    }

    /** The raw side. */
    ghost predicate RawValid()
      reads this`rawPointer, this`rawLast, this`eof, this`given, this`encoding, this`bom, this`delivered, this`offset, this`ended, raw
    {
      && raw.Length == RAW_SIZE && rawPointer <= rawLast <= raw.Length && (eof ==> given == |source|)
      && Accounts(source, preset, given, encoding, bom, delivered, Raw(), offset) && (encoding.None? ==> !ended)
    }

    /** The other side: the buffer holds the UTF-8 of the characters that are not used up. */
    ghost predicate BufferValid()
      reads this`pointer, this`last, this`unread, this`taken, this`delivered, this`ended, buffer
    {
      && buffer.Length == BUFFER_SIZE && pointer <= last <= buffer.Length && taken <= |Pushed()|
      && unread == |Pushed()| - taken && buffer[pointer..last] == Utf8All(Pushed()[taken..])
    }

    ghost predicate Valid()
      reads this, raw, buffer
    {
      && RawValid() && BufferValid()
      && (!error ==> (ended <==> eof && Raw() == []))
    }

    constructor (source: seq<Byte>, chunk: nat -> nat, preset: Option<Encoding>)
      ensures Valid() && this.source == source && this.preset == preset && !error && delivered == [] && taken == 0
      ensures fresh(raw) && fresh(buffer)
    {
      this.source, this.chunk, this.preset := source, chunk, preset;
      given, calls, rawPointer, rawLast, eof, encoding := 0, 0, 0, 0, false, preset;
      raw := new Byte[RAW_SIZE];
      buffer := new Byte[BUFFER_SIZE];
      pointer, last, unread, offset, error := 0, 0, 0, 0, false;
      bom, delivered, ended, taken := 0, [], false, 0;
    }

    /** The read handler. */
    method Read(size: nat) returns (n: nat)
      requires given <= |source| && size > 0
      modifies this`given, this`calls
      ensures n <= size && given == old(given) + n <= |source| && (n == 0 <==> given == |source| == old(given))
    {
      n := chunk(calls);
      calls := calls + 1;
      n := if n == 0 then 1 else n;
      n := if n > size then size else n;
      n := if n > |source| - given then |source| - given else n;
      given := given + n;
    }

    /** What has not been decoded yet goes to the front, to make room behind it. */
    method CompactRaw()
      requires rawPointer <= rawLast <= raw.Length
      modifies this`rawPointer, this`rawLast, raw
      ensures rawPointer == 0 <= rawLast <= raw.Length && Raw() == old(Raw())
    {
      ghost var before := Raw();
      var left := rawLast - rawPointer;
      if 0 < rawPointer < rawLast {
        forall k | 0 <= k < left {
          raw[k] := raw[rawPointer + k];
        }
      }
      rawLast := left;
      rawPointer := 0;
      assert |before| == left && forall k :: 0 <= k < left ==> raw[k] == before[k];
    }

    /** Let the read handler fill the rest of the raw buffer. */
    method FillRaw()
      requires rawPointer == 0 && rawLast < raw.Length && given <= |source| && !eof
      modifies this`given, this`calls, this`rawLast, this`eof, raw
      ensures rawPointer <= rawLast <= raw.Length && old(given) <= given <= |source|
      ensures Raw() == old(Raw()) + source[old(given)..given]
      ensures if eof then given == |source| == old(given) else old(given) < given
    {
      ghost var before := Raw();
      var n := Read(raw.Length - rawLast);
      forall k | 0 <= k < n {
        raw[rawLast + k] := source[given - n + k];
      }
      assert raw[0..rawLast + n] == before + source[old(given)..given];
      rawLast := rawLast + n;
      eof := n == 0;
    }

    /** yaml_parser_update_raw_buffer */
    method UpdateRaw()
      requires RawValid()
      modifies this`given, this`calls, this`rawPointer, this`rawLast, this`eof, raw
      ensures RawValid() && old(given) <= given <= |source|
      ensures Raw() == old(Raw()) + source[old(given)..given]
      ensures |old(Raw())| < RAW_SIZE ==> old(given) < given || eof
      ensures eof ==> given == old(given)
    {
      hide Accounts;
      InSource(source, preset, given, encoding, bom, delivered, Raw(), offset);
      NoBytes(source, given);
      if (rawPointer == 0 && rawLast == raw.Length) || eof {
        return;
      }
      CompactRaw();
      ghost var before := Raw();
      FillRaw();
      AccountsGrow(source, preset, old(given), encoding, bom, delivered, before, offset, given);
    }

    /** Have three raw bytes, or all there are. */
    method PeekThree()
      requires RawValid() && encoding.None?
      modifies this`given, this`calls, this`rawPointer, this`rawLast, this`eof, raw
      ensures RawValid() && old(given) <= given && (|Raw()| >= 3 || given == |source|)
    {
      hide Accounts;
      InSource(source, preset, given, encoding, bom, delivered, Raw(), offset);
      while !eof && rawLast - rawPointer < 3
        invariant RawValid() && old(given) <= given <= |source|
        decreases |source| - given, !eof
      {
        UpdateRaw();
      }
    }

    /** The comparisons with the byte order marks. */
    method LookAtMark() returns (e: Encoding, width: nat)
      requires rawPointer <= rawLast <= raw.Length
      ensures (e, width) == Detect(Raw())
    {
      hide Detect;
      ghost var b := Raw();
      var p, n := rawPointer, rawLast - rawPointer;
      assert |b| == n && forall k :: 0 <= k < n ==> raw[p + k] == b[k];
      e, width := Utf8Encoding, 0;
      if n >= 2 && raw[p] == 0xFF && raw[p + 1] == 0xFE {
        e, width := Utf16Le, 2;
      } else if n >= 2 && raw[p] == 0xFE && raw[p + 1] == 0xFF {
        e, width := Utf16Be, 2;
      } else if n >= 3 && raw[p] == 0xEF && raw[p + 1] == 0xBB && raw[p + 2] == 0xBF {
        width := 3;
      }
      DetectIs(b, e, width);
    }

    /** yaml_parser_determine_encoding: what the first three bytes say, however they come in. */
    method DetermineEncoding()
      requires RawValid() && encoding.None?
      modifies this`given, this`calls, this`rawPointer, this`rawLast, this`eof, this`encoding, this`offset, this`bom, raw
      ensures RawValid() && encoding.Some? && old(given) <= given
    {
      hide Accounts, Detect;
      PeekThree();
      ghost var b := Raw();
      InSource(source, preset, given, encoding, bom, delivered, b, offset);
      AccountsDetect(source, given, b);
      var e, width := LookAtMark();
      encoding, rawPointer, offset, bom := Some(e), rawPointer + width, offset + width, width;
      assert Raw() == b[width..];
    }

    /** Move the characters that are not used up to the beginning of the buffer. */
    method CompactBuffer()
      requires BufferValid()
      modifies this`pointer, this`last, buffer
      ensures BufferValid() && pointer == 0 && last == |Utf8All(Pushed()[taken..])|
    {
      hide Utf8All;
      ghost var before := buffer[pointer..last];
      if 0 < pointer < last {
        var size := last - pointer;
        forall k | 0 <= k < size {
          buffer[k] := buffer[pointer + k];
        }
        pointer, last := 0, size;
      } else if pointer == last {
        pointer, last := 0, 0;
      }
      assert |before| == last - pointer && forall k :: 0 <= k < last ==> buffer[k] == before[k];
      assert buffer[pointer..last] == before;
    }

    method PutByte(b: Byte)
      requires pointer <= last < buffer.Length
      modifies this`last, buffer
      ensures last == old(last) + 1 && buffer[pointer..last] == old(buffer[pointer..last]) + [b]
    {
      ghost var before := buffer[pointer..last];
      buffer[last] := b;
      last := last + 1;
      assert buffer[pointer..last] == before + [b];
    }

    /** Put one character into the buffer, in UTF-8. */
    method PutChar(c: Scalar)
      requires pointer <= last && last + |Utf8(c)| <= buffer.Length
      modifies this`last, this`unread, buffer
      ensures last == old(last) + |Utf8(c)| && pointer <= last <= buffer.Length && unread == old(unread) + 1
      ensures buffer[pointer..last] == old(buffer[pointer..last]) + Utf8(c)
    {
      ghost var before := buffer[pointer..last];
      if c <= 0x7F {
        PutByte(c);
      } else if c <= 0x7FF {
        PutTwo(0xC0 + c / 64, 0x80 + c % 64);
      } else if c <= 0xFFFF {
        PutByte(0xE0 + c / 4096);
        PutTwo(0x80 + c / 64 % 64, 0x80 + c % 64);
      } else {
        PutTwo(0xF0 + c / 0x40000, 0x80 + c / 4096 % 64);
        PutTwo(0x80 + c / 64 % 64, 0x80 + c % 64);
      }
      unread := unread + 1;
      assert buffer[pointer..last] == before + Utf8(c);
    }

    method PutTwo(b: Byte, c: Byte)
      requires pointer <= last && last + 2 <= buffer.Length
      modifies this`last, buffer
      ensures last == old(last) + 2 && buffer[pointer..last] == old(buffer[pointer..last]) + [b, c]
    {
      PutByte(b);
      PutByte(c);
    }

    // ----- decoding

    /** Room for the raw bytes that are left, decoded, and for the final NUL. */
    ghost predicate Room()
      requires rawPointer <= rawLast <= raw.Length
      reads this, raw
    {
      2 * (last + 1) + 3 * |Raw()| <= 2 * BUFFER_SIZE
    }

    /** Decode one character, if the raw bytes hold one. */
    method DecodeNext() returns (more: bool)
      requires RawValid() && BufferValid() && encoding.Some? && !ended && !error && Raw() != [] && Room()
      modifies this`rawPointer, this`offset, this`delivered, this`last, this`unread, this`error, buffer
      ensures RawValid() && BufferValid() && Room() && pointer == old(pointer)
      ensures more ==> !error && |Raw()| < |old(Raw())| && delivered[..|delivered| - 1] == old(delivered)
      ensures more ==> |delivered| == |old(delivered)| + 1
      ensures !more ==> delivered == old(delivered) && unread == old(unread)
      ensures error ==> !more && !Readable(source, preset)
      ensures !more && !error ==> !eof && |Raw()| < 4
    {
      hide Accounts, Utf8, Encode, DecodeChar, Utf8All, Allowed;
      var e := encoding.value;
      var o := DecodeChar(raw[rawPointer..rawLast], e);
      if o == Bad || (o == Incomplete && eof) {
        error, more := true, false;
        StuckIsUnreadable(source, preset, given, e, bom, delivered, Raw(), offset);
        return;
      }
      if o == Incomplete {
        CutIsShort(Raw(), e);
        more := false;
        return;
      }
      AccountsDecode(source, preset, given, e, bom, delivered, Raw(), offset);
      Growth(o.value, e);
      assert Raw()[o.width..] == raw[rawPointer + o.width..rawLast];
      Deliver(o.value);
      rawPointer, offset := rawPointer + o.width, offset + o.width;
      more := true;
    }

    /** The character goes to the end of the buffer. */
    method Deliver(c: Scalar)
      requires BufferValid() && !ended && last + |Utf8(c)| <= buffer.Length
      modifies this`last, this`unread, this`delivered, buffer
      ensures BufferValid() && delivered == old(delivered) + [c] && last == old(last) + |Utf8(c)|
    {
      hide Utf8, Utf8All;
      ghost var before := Pushed()[taken..];
      PutChar(c);
      delivered := delivered + [c];
      Utf8Concat(before, [c]);
      Utf8One(c);
      assert Pushed()[taken..] == before + [c];
    }

    /** The inner loop: decode the raw bytes as far as they go. */
    method DecodeAll()
      requires RawValid() && BufferValid() && encoding.Some? && !ended && !error && Room()
      modifies this`rawPointer, this`offset, this`delivered, this`last, this`unread, this`error, buffer
      ensures RawValid() && BufferValid() && pointer == old(pointer) && last + 1 <= BUFFER_SIZE
      ensures |old(delivered)| <= |delivered| && delivered[..|old(delivered)|] == old(delivered)
      ensures error ==> !Readable(source, preset)
      ensures !error ==> Raw() == [] || (!eof && |Raw()| < 4)
    {
      hide Accounts, Utf8All;
      while rawPointer != rawLast
        invariant RawValid() && BufferValid() && Room() && pointer == old(pointer) && !error && !ended
        invariant |old(delivered)| <= |delivered| && delivered[..|old(delivered)|] == old(delivered)
        decreases |Raw()|
      {
        ghost var before := delivered;
        var more := DecodeNext();
        if !more {
          break;
        }
        assert delivered[..|old(delivered)|] == before[..|old(delivered)|];
      }
    }

    /** On EOF, the NUL behind the last character. */
    method PutEnd()
      requires RawValid() && BufferValid() && eof && Raw() == [] && encoding.Some? && !ended && !error && last < BUFFER_SIZE
      modifies this`last, this`unread, this`ended, buffer
      ensures Valid() && ended
    {
      hide Accounts, Utf8All;
      ghost var before := Pushed()[taken..];
      PutByte(0);
      unread := unread + 1;
      ended := true;
      Utf8Concat(before, [0]);
      Utf8One(0);
      assert Pushed()[taken..] == before + [0];
    }

    /** Between refills: the encoding is known, the end is not reached, and the buffer is compact. */
    ghost predicate Filling()
      reads this, raw, buffer
    {
      RawValid() && BufferValid() && encoding.Some? && !ended && !error && pointer == 0
    }

    /** One turn of the outer loop: more raw bytes, if they are asked for, and their characters. */
    method Refill(read: bool)
      requires Filling() && unread < 1024 && (read || Raw() != []) && |Raw()| < RAW_SIZE + (if read then 0 else 1)
      modifies this, raw, buffer
      ensures RawValid() && BufferValid() && taken == old(taken) && given >= old(given)
      ensures |old(delivered)| <= |delivered| && delivered[..|old(delivered)|] == old(delivered)
      ensures error ==> !Readable(source, preset)
      ensures !error && eof ==> Valid() && ended
      ensures !error && !eof ==> Filling() && |Raw()| < 4 && (read ==> given > old(given))
    {
      hide Accounts, Utf8All, Readable;
      if read {
        UpdateRaw();
      }
      Utf8Length(Pushed()[taken..]);
      assert last == |buffer[pointer..last]|;
      DecodeAll();
      if !error && eof {
        PutEnd();
      }
    }

    /** The outer loop. */
    method FillBuffer(length: nat)
      requires Filling() && unread < length <= 1024
      modifies this, raw, buffer
      ensures RawValid() && BufferValid() && taken == old(taken)
      ensures |old(delivered)| <= |delivered| && delivered[..|old(delivered)|] == old(delivered)
      ensures error ==> !Readable(source, preset)
      ensures !error ==> Valid() && (unread >= length || ended)
    {
      hide Accounts, Utf8All, Readable;
      InSource(source, preset, given, encoding, bom, delivered, Raw(), offset);
      Refill(rawPointer == rawLast);
      InSource(source, preset, given, encoding, bom, delivered, Raw(), offset);
      while !error && !eof && unread < length
        invariant RawValid() && BufferValid() && taken == old(taken) && given <= |source|
        invariant |old(delivered)| <= |delivered| && delivered[..|old(delivered)|] == old(delivered)
        invariant error ==> !Readable(source, preset)
        invariant !error && eof ==> Valid() && ended
        invariant !error && !eof ==> Filling() && |Raw()| < 4
        decreases |source| - given, !error && !eof
      {
        ghost var before := delivered;
        Refill(true);
        InSource(source, preset, given, encoding, bom, delivered, Raw(), offset);
        assert delivered[..|old(delivered)|] == before[..|old(delivered)|];
      }
    }

    /** Know the encoding, and make room in the buffer. */
    method Prepare()
      requires Valid() && !error && !ended
      modifies this, raw, buffer
      ensures Filling() && taken == old(taken) && delivered == old(delivered) && unread == old(unread)
    {
      hide Accounts, Utf8All, BufferValid, RawValid;
      Separate();
      if encoding.None? {
        DetermineEncoding();
      }
      CompactBuffer();
    }

    lemma Separate()
      requires RawValid() && BufferValid()
      ensures raw != buffer
    {
      hide Accounts, Utf8All;
    }

    /**
     * yaml_parser_update_buffer: have length characters, or all and the final NUL. An error means that
     * the input is not a text without forbidden characters in its encoding, or too long.
     */
    method UpdateBuffer(length: nat)
      requires Valid() && !error && 1 <= length <= 1024
      modifies this, raw, buffer
      ensures Valid() && taken == old(taken)
      ensures |old(delivered)| <= |delivered| && delivered[..|old(delivered)|] == old(delivered)
      ensures !error ==> unread >= length || ended
      ensures error ==> !Readable(source, preset) || offset >= MAX_FILE_SIZE
    {
      hide Accounts, Utf8All, Readable, Filling;
      assert delivered[..|delivered|] == delivered;
      if (eof && rawPointer == rawLast) || unread >= length {
        return;
      }
      Prepare();
      FillBuffer(length);
      if !error && !eof && offset >= MAX_FILE_SIZE {
        error := true;
      }
    }

    /** The scanner uses up a character. */
    method Skip()
      requires Valid() && unread > 0
      modifies this`pointer, this`unread, this`taken
      ensures Valid() && taken == old(taken) + 1 && error == old(error)
    {
      hide Accounts, Utf8All, Utf8;
      ghost var left := Pushed()[taken..];
      FirstCharacter(left);
      ghost var u := Utf8(left[0]);
      assert buffer[pointer] == buffer[pointer..last][0];
      assert buffer[pointer + |u|..last] == buffer[pointer..last][|u|..];
      assert Pushed()[taken + 1..] == left[1..];
      pointer := pointer + Width(buffer[pointer]);
      unread := unread - 1;
      taken := taken + 1;
    }
  }

  lemma FirstCharacter(s: seq<Scalar>)
    requires s != []
    ensures Utf8All(s) == Utf8(s[0]) + Utf8All(s[1..]) && Width(Utf8All(s)[0]) == |Utf8(s[0])|
  {
    hide Utf8, Width, Utf8All, Decode;
    assert [s[0]] + s[1..] == s;
    Utf8Concat([s[0]], s[1..]);
    Utf8One(s[0]);
    DecodeUtf8(s[0]);
  }

  lemma CutIsShort(b: seq<Byte>, e: Encoding)
    requires b != [] && DecodeChar(b, e) == Incomplete
    ensures |b| < 4
  {
    LeadOnly(b[0]);
  }

  lemma DetectIs(b: seq<Byte>, e: Encoding, n: nat)
    requires if |b| >= 2 && b[0] == 0xFF && b[1] == 0xFE then (e, n) == (Utf16Le, 2)
             else if |b| >= 2 && b[0] == 0xFE && b[1] == 0xFF then (e, n) == (Utf16Be, 2)
             else if |b| >= 3 && b[0] == 0xEF && b[1] == 0xBB && b[2] == 0xBF then (e, n) == (Utf8Encoding, 3)
             else (e, n) == (Utf8Encoding, 0)
    ensures Detect(b) == (e, n)
  {
  }

  /** The end of the input is reached: everything is decoded, and the buffer ends with one NUL. */
  lemma EndedMeans(r: Reader)
    requires r.Valid() && !r.error && r.ended
    ensures var (e, n) := Format(r.source, r.preset);
      n <= |r.source| && AllAllowed(r.delivered) && r.source[n..] == EncodeAll(r.delivered, e)
  {
    hide Format, EncodeAll, AllAllowed;
    var n := r.bom;
    assert r.source[..r.given] == r.source;
  }

  /** The text of an input: at most one, so it cannot depend on how the bytes came in. */
  lemma OneText(a: seq<Scalar>, b: seq<Scalar>, e: Encoding)
    requires AllAllowed(a) && AllAllowed(b) && EncodeAll(a, e) == EncodeAll(b, e)
    ensures a == b
  {
    hide EncodeAll, AllAllowed;
    assert EncodeAll(b, e) == EncodeAll(a, e) + [];
    NextOfEncoded(a, [], b, e);
    if |a| < |b| {
      FrontOfEncoded(b[|a|..], e);
    }
  }

  lemma OffsetInside(r: Reader)
    requires r.RawValid()
    ensures r.offset <= |r.source| && r.given <= |r.source|
  {
    hide Format, EncodeAll, AllAllowed;
  }

  lemma {:induction false} EncodedLength(s: seq<Scalar>, e: Encoding)
    ensures |s| <= |EncodeAll(s, e)|
  {
    hide Encode;
    if s != [] {
      EncodedLength(s[..|s| - 1], e);
    }
  }

  lemma DeliveredLength(r: Reader)
    requires r.RawValid()
    ensures |r.delivered| <= |r.source|
  {
    hide Format, EncodeAll, AllAllowed;
    if r.encoding.Some? {
      EncodedLength(r.delivered, r.encoding.value);
    }
  }

  /** The octet at the pointer is NUL only at the end. */
  lemma AtPointer(r: Reader)
    requires r.Valid() && !r.error && r.unread > 0
    ensures r.pointer < r.last <= r.buffer.Length
    ensures r.buffer[r.pointer] == 0 <==> r.taken == |r.delivered|
    ensures r.taken < |r.delivered| ==> var w := Width(r.buffer[r.pointer]);
      r.pointer + w <= r.last && r.buffer[r.pointer..r.pointer + w] == Utf8(r.delivered[r.taken])
    ensures r.taken == |r.delivered| ==> r.ended
  {
    hide Accounts, Utf8All, Utf8;
    var left := r.Pushed()[r.taken..];
    FirstCharacter(left);
    var u := Utf8(left[0]);
    assert r.buffer[r.pointer] == r.buffer[r.pointer..r.last][0];
    assert r.buffer[r.pointer..r.pointer + |u|] == r.buffer[r.pointer..r.last][..|u|];
    FirstOctet(left[0]);
    NulIsForbidden(r);
  }

  lemma FirstOctet(c: Scalar)
    ensures Utf8(c)[0] == 0 <==> c == 0
  {
  }

  lemma NulIsForbidden(r: Reader)
    requires r.RawValid()
    ensures forall i :: 0 <= i < |r.delivered| ==> r.delivered[i] != 0
  {
    hide EncodeAll, Format;
  }

  lemma EndedIsReadable(r: Reader)
    requires r.Valid() && !r.error && r.ended
    ensures Readable(r.source, r.preset)
  {
    hide Format, EncodeAll, AllAllowed;
    EndedMeans(r);
  }

  /**
   * An input is readable if what follows its byte order mark is the encoding of a text of allowed characters: UTF-16 in
   * the order of the mark, or UTF-8 behind its mark or without one. With a preset encoding there is no mark.
   */
  lemma ReadableIff(source: seq<Byte>, e: Encoding)
    ensures Readable(source, Some(e)) <==> exists text :: AllAllowed(text) && source == EncodeAll(text, e)
    ensures Readable(source, None) <==>
              exists text :: AllAllowed(text) &&
                if [0xFF, 0xFE] <= source then source[2..] == EncodeAll(text, Utf16Le)
                else if [0xFE, 0xFF] <= source then source[2..] == EncodeAll(text, Utf16Be)
                else if [0xEF, 0xBB, 0xBF] <= source then source[3..] == EncodeAll(text, Utf8Encoding)
                else source == EncodeAll(text, Utf8Encoding)
  {
    hide AllAllowed, EncodeAll, Detect;
    DetectedBy(source);
    assert source[0..] == source;
  }

  /**
   * Reading to the end, one character at a time. The octets that come out are the UTF-8 of the text that
   * the input is the encoding of; there is an error only if there is no such text, or it is too long.
   */
  method ReadAll(source: seq<Byte>, chunk: nat -> nat, preset: Option<Encoding>) returns (ok: bool, out: seq<Byte>,
                                                                                       ghost text: seq<Scalar>)
    ensures if ok then Readable(source, preset) else !Readable(source, preset) || |source| >= 0x7FFF_FFFF_FFFF_FFFF
    ensures ok ==> var (e, n) := Format(source, preset);
      n <= |source| && AllAllowed(text) && source[n..] == EncodeAll(text, e) && out == Utf8All(text)
  {
    hide Readable, Format, EncodeAll, AllAllowed, Utf8All, Reader.Valid, Accounts;
    var r := new Reader(source, chunk, preset);
    out, text := [], [];
    assert Utf8All([]) == [] by { Utf8Nothing(); }
    while true
      invariant r.Valid() && !r.error && fresh(r) && fresh(r.raw) && fresh(r.buffer) && r.source == source && r.preset == preset
      invariant r.taken <= |r.delivered| <= |source| && out == Utf8All(r.delivered[..r.taken])
      decreases |source| - r.taken
    {
      ghost var before := r.delivered;
      r.UpdateBuffer(1);
      RawOf(r);
      OffsetInside(r);
      DeliveredLength(r);
      if r.error {
        ok := false;
        return;
      }
      assert r.delivered[..r.taken] == before[..r.taken];
      Unread(r);
      var u := NextCharacter(r);
      if u == [] {
        break;
      }
      Utf8AllSnoc(r.delivered, r.taken - 1);
      out := out + u;
    }
    ok, text := true, r.delivered;
    assert text[..r.taken] == text;
    EndedMeans(r);
    EndedIsReadable(r);
  }

  /** The octets of the next character, which is used up, or none at the end. */
  method NextCharacter(r: Reader) returns (u: seq<Byte>)
    requires r.Valid() && !r.error && r.unread > 0
    modifies r
    ensures r.Valid() && !r.error && r.delivered == old(r.delivered)
    ensures u == [] ==> r.taken == old(r.taken) == |r.delivered| && r.ended
    ensures u != [] ==> r.taken == old(r.taken) + 1 <= |r.delivered| && u == Utf8(r.delivered[r.taken - 1])
  {
    hide Utf8, Utf8All, Accounts;
    AtPointer(r);
    u := [];
    if r.buffer[r.pointer] != 0 {
      u := r.buffer[r.pointer..r.pointer + Width(r.buffer[r.pointer])];
      r.Skip();
    }
  }

  lemma Utf8Nothing()
    ensures Utf8All([]) == []
  {
  }

  lemma RawOf(r: Reader)
    requires r.Valid()
    ensures r.RawValid()
  {
  }

  /** As long as the final NUL is not used up, there is something to read when there is nothing more to decode. */
  lemma Unread(r: Reader)
    requires r.Valid() && r.taken <= |r.delivered| && (r.unread >= 1 || r.ended)
    ensures r.unread >= 1
  {
    hide Accounts, Utf8All;
  }
}
