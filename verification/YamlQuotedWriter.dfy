/** Writing a double-quoted scalar: escapes, and long lines folded at spaces. */
module YamlQuotedWriter {
  import opened YamlUtf8

  datatype LineBreak = Cr | Ln | CrLn

  /** The settings of an emitter, and the indentation of the node being written. */
  datatype Style = Style(indent: int, bestWidth: int, unicode: bool, lineBreak: LineBreak)

  const BACKSLASH: Scalar := 0x5C
  const SPACE: Scalar := 0x20
  const QUOTE: Scalar := 0x22

  predicate NeedsEscape(c: Scalar, unicode: bool) {
    var b := Utf8(c);
    || !IsPrintable(b) || (!unicode && !IsAscii(b)) || IsBom(b) || IsBreakOctets(b)
    || Octet(b, 0) == QUOTE || Octet(b, 0) == BACKSLASH
  }

  function Digit(d: nat): Scalar
    requires d < 16
  {
    if d < 10 then d + '0' as int else d - 10 + 'A' as int
  }

  /** value >> 4 * k */
  function Shift4(v: nat, k: nat): nat {
    if k == 0 then v else Shift4(v, k - 1) / 16
  }

  /** The low n hexadecimal digits, highest first. */
  function Hex(v: nat, n: nat): (r: seq<Scalar>)
    ensures |r| == n
  {
    if n == 0 then [] else Hex(v / 16, n - 1) + [Digit(v % 16)]
  }

  /** The letter of a short escape, or 0. */
  function Letter(v: nat): Scalar {
    if v == 0x00 then '0' as int
    else if v == 0x07 then 'a' as int
    else if v == 0x08 then 'b' as int
    else if v == 0x09 then 't' as int
    else if v == 0x0A then 'n' as int
    else if v == 0x0B then 'v' as int
    else if v == 0x0C then 'f' as int
    else if v == 0x0D then 'r' as int
    else if v == 0x1B then 'e' as int
    else if v == 0x22 then '"' as int
    else if v == 0x5C then '\\' as int
    else if v == 0x85 then 'N' as int
    else if v == 0xA0 then '_' as int
    else if v == 0x2028 then 'L' as int
    else if v == 0x2029 then 'P' as int
    else 0
  }

  function Digits(v: nat): nat {
    if v <= 0xFF then 2 else if v <= 0xFFFF then 4 else 8
  }

  function CodeLetter(v: nat): Scalar {
    if v <= 0xFF then 'x' as int else if v <= 0xFFFF then 'u' as int else 'U' as int
  }

  function Escape(v: nat): (r: seq<Scalar>) {
    if Letter(v) != 0 then [BACKSLASH, Letter(v)] else [BACKSLASH, CodeLetter(v)] + Hex(v, Digits(v))
  }

  function Break(b: LineBreak): seq<Scalar> {
    match b
    case Cr => [0x0D]
    case Ln => [0x0A]
    case CrLn => [0x0D, 0x0A]
  }

  function Spaces(n: nat): (r: seq<Scalar>)
    ensures |r| == n && forall k :: 0 <= k < n ==> r[k] == SPACE
  {
    if n == 0 then [] else Spaces(n - 1) + [SPACE]
  }

  function Margin(style: Style): nat {
    if style.indent >= 0 then style.indent else 0
  }

  /** The space at i is replaced by a line break: not the first character, nor the last, nor behind another space. */
  predicate Folds(style: Style, allow: bool, s: seq<Scalar>, i: nat, column: int, spaces: bool)
    requires i < |s|
  {
    s[i] == SPACE && allow && !spaces && column > style.bestWidth && i != 0 && i != |s| - 1
  }

  /** A space behind a fold is kept by a backslash. */
  function Guard(s: seq<Scalar>, i: nat): seq<Scalar>
    requires i < |s|
  {
    if i + 1 < |s| && s[i + 1] == SPACE then [BACKSLASH] else []
  }

  /** What is written for character i. */
  function Piece(style: Style, allow: bool, s: seq<Scalar>, i: nat, column: int, spaces: bool): seq<Scalar>
    requires i < |s|
  {
    if NeedsEscape(s[i], style.unicode) then Escape(s[i])
    else if Folds(style, allow, s, i, column, spaces) then
      Break(style.lineBreak) + Spaces(Margin(style)) + Guard(s, i)
    else [s[i]]
  }

  function NextColumn(style: Style, allow: bool, s: seq<Scalar>, i: nat, column: int, spaces: bool): int
    requires i < |s|
  {
    if NeedsEscape(s[i], style.unicode) then column + |Escape(s[i])|
    else if Folds(style, allow, s, i, column, spaces) then Margin(style) + |Guard(s, i)|
    else column + 1
  }

  function Body(style: Style, allow: bool, s: seq<Scalar>, i: nat, column: int, spaces: bool): seq<Scalar>
    requires i <= |s|
    decreases |s| - i
  {
    if i == |s| then []
    else Piece(style, allow, s, i, column, spaces)
         + Body(style, allow, s, i + 1, NextColumn(style, allow, s, i, column, spaces), s[i] == SPACE)
  }

  function EndColumn(style: Style, allow: bool, s: seq<Scalar>, i: nat, column: int, spaces: bool): int
    requires i <= |s|
    decreases |s| - i
  {
    if i == |s| then column
    else EndColumn(style, allow, s, i + 1, NextColumn(style, allow, s, i, column, spaces), s[i] == SPACE)
  }

  lemma SpaceIsPlain(unicode: bool)
    ensures !NeedsEscape(SPACE, unicode)
  {
  }

  class Emitter {
    const style: Style
    var output: seq<Scalar>
    var column: int
    var whitespace: bool
    var indention: bool

    constructor (style: Style)
      ensures this.style == style && output == [] && column == 0 && whitespace && indention
    {
      this.style := style;
      output, column, whitespace, indention := [], 0, true, true;
    }

    method Put(c: Scalar)
      modifies this`output, this`column
      ensures output == old(output) + [c] && column == old(column) + 1
    {
      output, column := output + [c], column + 1;
    }

    method PutBreak()
      modifies this`output, this`column
      ensures output == old(output) + Break(style.lineBreak) && column == 0
    {
      output, column := output + Break(style.lineBreak), 0;
    }

    /** yaml_emitter_write_indent. */
    method WriteIndent()
      modifies this
      ensures whitespace && indention
      ensures var breaks := !old(indention) || old(column) > Margin(style) || (old(column) == Margin(style) && !old(whitespace));
        var from := if breaks then 0 else old(column);
        && output == old(output) + (if breaks then Break(style.lineBreak) else [])
                     + Spaces(if from < Margin(style) then Margin(style) - from else 0)
        && column == if from < Margin(style) then Margin(style) else from
    {
      var indent := if style.indent >= 0 then style.indent else 0;
      if !indention || column > indent || (column == indent && !whitespace) {
        PutBreak();
      }
      ghost var from, was := column, output;
      while column < indent
        invariant from <= column && (column <= indent || column == from)
        invariant output == was + Spaces(column - from)
      {
        assert Spaces(column + 1 - from) == Spaces(column - from) + [SPACE];
        Put(SPACE);
      }
      whitespace, indention := true, true;
    }

    /** yaml_emitter_write_indicator for a one-character indicator. */
    method WriteIndicator(c: Scalar, needWhitespace: bool, isWhitespace: bool, isIndention: bool)
      modifies this
      ensures output == old(output) + (if needWhitespace && !old(whitespace) then [SPACE, c] else [c])
      ensures column == old(column) + (if needWhitespace && !old(whitespace) then 2 else 1)
      ensures whitespace == isWhitespace && indention == (old(indention) && isIndention)
    {
      if needWhitespace && !whitespace {
        Put(SPACE);
      }
      Put(c);
      whitespace := isWhitespace;
      indention := indention && isIndention;
    }

    /** The escape of the character encoded at the pointer. */
    method WriteEscape(c: Scalar)
      modifies this`output, this`column
      ensures output == old(output) + Escape(c) && column == old(column) + |Escape(c)|
    {
      hide Utf8, Width, LeadBits, Letter, Hex, Digit, CodeLetter, Digits;
      var b := Utf8(c);
      var width: nat, value: nat, k: nat := Width(b[0]), LeadBits(b[0]), 1;
      DecodeUtf8(c);
      while k < width
        invariant 1 <= k <= width && value == Decode(b, k)
      {
        value := value * 64 + b[k] % 64;
        k := k + 1;
      }
      Put(BACKSLASH);
      if Letter(value) != 0 {
        Put(Letter(value));
      } else {
        Put(CodeLetter(value));
        WriteHex(value, Digits(value));
      }
    }

    method WriteHex(v: nat, n: nat)
      modifies this`output, this`column
      ensures output == old(output) + Hex(v, n) && column == old(column) + n
    {
      var k := n;
      while k > 0
        invariant 0 <= k <= n
        invariant output == old(output) + Hex(Shift4(v, k), n - k) && column == old(column) + n - k
      {
        k := k - 1;
        Put(Digit(Shift4(v, k) % 16));
      }
    }

    /** Behind a fold the column is at the margin, and past it once something other than a space is written. */
    ghost predicate PastMargin(spaces: bool)
      reads this
    {
      indention ==> Margin(style) <= column && (spaces || Margin(style) < column)
    }

    /** The character at i: escaped, folded or as it is. */
    method WriteChar(s: seq<Scalar>, allow: bool, i: nat, spaces: bool)
      requires i < |s| && PastMargin(spaces)
      modifies this
      ensures output == old(output) + Piece(style, allow, s, i, old(column), spaces)
      ensures column == NextColumn(style, allow, s, i, old(column), spaces) && PastMargin(s[i] == SPACE)
    {
      hide NeedsEscape, Escape, Break;
      if NeedsEscape(s[i], style.unicode) {
        WriteEscape(s[i]);
        EscapeLength(s[i]);
      } else if s[i] == SPACE {
        if allow && !spaces && column > style.bestWidth && i != 0 && i != |s| - 1 {
          WriteIndent();
          if s[i + 1] == SPACE {
            Put(BACKSLASH);
          }
        } else {
          Put(s[i]);
        }
      } else {
        Put(s[i]);
      }
    }

    /** yaml_emitter_write_double_quoted_scalar. */
    method WriteDoubleQuoted(s: seq<Scalar>, allow: bool)
      modifies this
      ensures var opening := if old(whitespace) then [QUOTE] else [SPACE, QUOTE];
        && output == old(output) + opening + Body(style, allow, s, 0, old(column) + |opening|, false) + [QUOTE]
        && column == EndColumn(style, allow, s, 0, old(column) + |opening|, false) + 1
      ensures !whitespace && !indention
    {
      hide Piece, NextColumn;
      WriteIndicator(QUOTE, true, false, false);
      ghost var goal := output + Body(style, allow, s, 0, column, false);
      ghost var last := EndColumn(style, allow, s, 0, column, false);
      var spaces, i := false, 0;
      while i < |s|
        invariant i <= |s| && PastMargin(spaces)
        invariant output + Body(style, allow, s, i, column, spaces) == goal
        invariant EndColumn(style, allow, s, i, column, spaces) == last
      {
        ghost var was := output;
        ghost var piece := Piece(style, allow, s, i, column, spaces);
        ghost var rest := Body(style, allow, s, i + 1, NextColumn(style, allow, s, i, column, spaces), s[i] == SPACE);
        assert was + (piece + rest) == was + piece + rest;
        WriteChar(s, allow, i, spaces);
        spaces := s[i] == SPACE;
        i := i + 1;
      }
      WriteIndicator(QUOTE, false, false, false);
      whitespace, indention := false, false;
    }
  }

  lemma EscapeLength(v: nat)
    ensures |Escape(v)| >= 2
  {
  }

  // ----- the text, character by character

  /** What is written as it is: printable characters but the quote and the backslash, beyond ASCII only if that is allowed. */
  lemma EscapedIff(c: Scalar, unicode: bool)
    ensures NeedsEscape(c, unicode) <==>
              && !(0x20 <= c <= 0x7E && c != 0x22 && c != 0x5C)
              && !(unicode && (0xA0 <= c <= 0xD7FF || 0xE000 <= c <= 0xFFFD) && c != 0x2028 && c != 0x2029 && c != 0xFEFF)
  {
    hide IsPrintable, IsBreakOctets, IsAscii, IsBom;
    PrintableIs(c);
    OctetTests(c);
  }

  function HexCode(d: nat): Scalar
    requires d < 16
  {
    if d < 10 then 48 + d else 55 + d
  }

  /** The fifteen short escapes. */
  lemma ShortEscapes()
    ensures Escape(0x00) == [0x5C, 0x30] && Escape(0x07) == [0x5C, 0x61] && Escape(0x08) == [0x5C, 0x62]
    ensures Escape(0x09) == [0x5C, 0x74] && Escape(0x0A) == [0x5C, 0x6E] && Escape(0x0B) == [0x5C, 0x76]
    ensures Escape(0x0C) == [0x5C, 0x66] && Escape(0x0D) == [0x5C, 0x72] && Escape(0x1B) == [0x5C, 0x65]
    ensures Escape(0x22) == [0x5C, 0x22] && Escape(0x5C) == [0x5C, 0x5C] && Escape(0x85) == [0x5C, 0x4E]
    ensures Escape(0xA0) == [0x5C, 0x5F] && Escape(0x2028) == [0x5C, 0x4C] && Escape(0x2029) == [0x5C, 0x50]
  {
  }

  /** All others: "x" and two, "u" and four, or "U" and eight digits. */
  lemma LongEscapes(c: Scalar)
    requires c !in {0, 7, 8, 9, 10, 11, 12, 13, 0x1B, 0x22, 0x5C, 0x85, 0xA0, 0x2028, 0x2029}
    ensures c <= 0xFF ==> Escape(c) == [0x5C, 0x78, HexCode(c / 16 % 16), HexCode(c % 16)]
    ensures 0xFF < c <= 0xFFFF ==>
              Escape(c) == [0x5C, 0x75, HexCode(c / 4096 % 16), HexCode(c / 256 % 16), HexCode(c / 16 % 16), HexCode(c % 16)]
    ensures 0xFFFF < c ==>
              Escape(c) == [0x5C, 0x55, 0x30, 0x30, HexCode(c / 0x100000 % 16), HexCode(c / 0x10000 % 16),
                            HexCode(c / 4096 % 16), HexCode(c / 256 % 16), HexCode(c / 16 % 16), HexCode(c % 16)]
  {
    hide Hex;
    TwoDigits(c);
    TwoDigits(c / 256);
    TwoDigits(c / 256 / 256);
    TwoDigits(c / 256 / 256 / 256);
    HexSplit(c, 2);
    HexSplit(c / 256, 2);
    HexSplit(c / 256 / 256, 2);
    HexSplit(c, 6);
    HexSplit(c / 256, 4);
    Quotients(c);
  }

  lemma TwoDigits(v: nat)
    ensures Hex(v, 2) == [HexCode(v / 16 % 16), HexCode(v % 16)]
  {
    assert Hex(v / 16 / 16, 0) == [];
    assert Hex(v / 16, 1) == [Digit(v / 16 % 16)];
  }

  lemma HexSplit(v: nat, n: nat)
    ensures Hex(v, n + 2) == Hex(v / 256, n) + Hex(v, 2)
  {
    TwoDigits(v);
    assert v / 16 / 16 == v / 256;
    assert Hex(v / 16, n + 1) == Hex(v / 16 / 16, n) + [Digit(v / 16 % 16)];
  }

  lemma Quotients(c: Scalar)
    ensures c / 256 / 16 == c / 4096 && c / 256 / 256 == c / 0x10000 && c / 256 / 256 / 16 == c / 0x100000
    ensures c / 256 / 256 / 256 == 0 && c / 256 / 256 / 256 / 16 == 0
  {
  }

  /** What is written for a character, with the fold for a space behind the line's best width. */
  lemma PieceIs(style: Style, allow: bool, s: seq<Scalar>, i: nat, column: int, spaces: bool)
    requires i < |s|
    ensures NeedsEscape(s[i], style.unicode) ==> Piece(style, allow, s, i, column, spaces) == Escape(s[i])
    ensures var fold := s[i] == 0x20 && allow && !spaces && column > style.bestWidth && 0 < i < |s| - 1;
            var margin := if style.indent >= 0 then style.indent else 0;
            && (!NeedsEscape(s[i], style.unicode) && !fold ==> Piece(style, allow, s, i, column, spaces) == [s[i]])
            && (!NeedsEscape(s[i], style.unicode) && fold ==>
                  Piece(style, allow, s, i, column, spaces) ==
                    (match style.lineBreak case Cr => [0x0D] case Ln => [0x0A] case CrLn => [0x0D, 0x0A])
                    + seq(margin, _ => 0x20) + (if s[i + 1] == 0x20 then [0x5C] else []))
  {
    hide NeedsEscape, Escape;
    assert Spaces(Margin(style)) == seq(Margin(style), _ => 0x20);
  }
}
