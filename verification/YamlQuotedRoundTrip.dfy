/** Scanning what the double-quoted writer wrote gives the original octets. */
module YamlQuotedRoundTrip {
  import opened YamlUtf8
  import opened YamlQuotedWriter
  import S = YamlQuotedScanner

  ghost predicate Reads(t: seq<Scalar>, i: nat, x: seq<Scalar>) {
    i + |x| <= |t| && forall k :: 0 <= k < |x| ==> S.Peek(t, i + k) == x[k]
  }

  lemma ReadsSplit(t: seq<Scalar>, i: nat, x: seq<Scalar>, y: seq<Scalar>)
    requires Reads(t, i, x + y)
    ensures Reads(t, i, x) && Reads(t, i + |x|, y)
  {
    forall k | 0 <= k < |x|
      ensures S.Peek(t, i + k) == x[k]
    {
      assert (x + y)[k] == x[k];
    }
    forall k | 0 <= k < |y|
      ensures S.Peek(t, i + |x| + k) == y[k]
    {
      assert (x + y)[|x| + k] == y[k];
    }
  }

  lemma ReadsJoin(t: seq<Scalar>, i: nat, x: seq<Scalar>)
    requires i + |x| <= |t| && t[i..i + |x|] == x
    ensures Reads(t, i, x)
  {
    forall k | 0 <= k < |x|
      ensures S.Peek(t, i + k) == x[k]
    {
      assert t[i..i + |x|][k] == t[i + k];
    }
  }

  // ----- escapes

  lemma DigitIs(d: nat)
    requires d < 16
    ensures S.IsHex(Digit(d)) && S.HexValue(Digit(d)) == d
  {
  }

  ghost function Pow16(n: nat): nat {
    if n == 0 then 1 else 16 * Pow16(n - 1)
  }

  /** The scanner reads back the digits. */
  lemma {:induction false} HexRoundTrip(t: seq<Scalar>, i: nat, v: nat, n: nat)
    requires Reads(t, i, Hex(v, n)) && v < Pow16(n)
    ensures S.AllHex(t, i, n) && S.HexCode(t, i, n) == v
  {
    hide Digit;
    if n > 0 {
      ReadsSplit(t, i, Hex(v / 16, n - 1), [Digit(v % 16)]);
      HexRoundTrip(t, i, v / 16, n - 1);
      DigitIs(v % 16);
      assert S.Peek(t, i + n - 1) == Hex(v, n)[n - 1] == Digit(v % 16);
    }
  }

  lemma DigitsHold(c: Scalar)
    ensures c < Pow16(Digits(c))
  {
    assert Pow16(2) == 16 * Pow16(1) && Pow16(4) == 16 * Pow16(3) && Pow16(3) == 16 * Pow16(2);
    assert Pow16(6) == 16 * Pow16(5) && Pow16(5) == 16 * Pow16(4) && Pow16(8) == 16 * Pow16(7);
    assert Pow16(7) == 16 * Pow16(6);
  }

  lemma LetterIs(c: Scalar)
    requires Letter(c) != 0
    ensures S.Unescape(Letter(c)) == Utf8(c) && !IsBreak(Letter(c))
  {
  }

  lemma LetterStep(t: seq<Scalar>, sc: S.Scan, d: Scalar)
    requires sc.pos + 1 < |t| && S.Peek(t, sc.pos) == BACKSLASH && S.Peek(t, sc.pos + 1) == d
    requires !IsBreak(d) && S.Unescape(d) != []
    ensures S.Text(t, false, sc) == S.Text(t, false, S.Skip(S.Put(sc, S.Unescape(d)), 2))
  {
    hide S.Line, S.Blanks, S.Unescape, S.AllHex, Utf8;
  }

  lemma CodeStep(t: seq<Scalar>, sc: S.Scan, d: Scalar, c: Scalar)
    requires sc.pos + 1 < |t| && S.Peek(t, sc.pos) == BACKSLASH && S.Peek(t, sc.pos + 1) == d
    requires !IsBreak(d) && S.Unescape(d) == [] && S.CodeLength(d) > 0 && sc.pos + 2 + S.CodeLength(d) <= |t|
    requires S.AllHex(t, sc.pos + 2, S.CodeLength(d)) && S.HexCode(t, sc.pos + 2, S.CodeLength(d)) == c
    ensures S.Text(t, false, sc) == S.Text(t, false, S.Skip(S.Put(sc, Utf8(c)), 2 + S.CodeLength(d)))
  {
    hide S.Line, S.Blanks, S.Unescape, S.AllHex, Utf8, S.HexCode, S.CodeLength;
  }

  lemma EscapeStep(t: seq<Scalar>, sc: S.Scan, c: Scalar)
    requires sc.pos <= |t| && Reads(t, sc.pos, Escape(c))
    ensures sc.pos + |Escape(c)| <= |t|
    ensures S.Text(t, false, sc) == S.Text(t, false, S.Skip(S.Put(sc, Utf8(c)), |Escape(c)|))
  {
    hide Utf8, Letter, S.Unescape, S.AllHex, S.HexCode, Hex, S.Text, CodeLetter, Digits, IsBreak;
    var e := Escape(c);
    assert S.Peek(t, sc.pos + 0) == e[0] && S.Peek(t, sc.pos + 1) == e[1];
    if Letter(c) != 0 {
      LetterIs(c);
      LetterStep(t, sc, Letter(c));
    } else {
      var n := Digits(c);
      ReadsSplit(t, sc.pos, [BACKSLASH, CodeLetter(c)], Hex(c, n));
      DigitsHold(c);
      HexRoundTrip(t, sc.pos + 2, c, n);
      CodeLetterIs(c);
      CodeStep(t, sc, CodeLetter(c), c);
    }
  }

  lemma CodeLetterIs(c: Scalar)
    ensures S.Unescape(CodeLetter(c)) == [] && S.CodeLength(CodeLetter(c)) == Digits(c) > 0 && !IsBreak(CodeLetter(c))
  {
  }

  /** A character that is written as it is, other than a space, is read as it is. */
  lemma PlainIs(c: Scalar, unicode: bool)
    requires !NeedsEscape(c, unicode) && c != SPACE
    ensures !IsBlankZ(c) && c != QUOTE && c != BACKSLASH
  {
    OctetTests(c);
    PrintableIs(c);
  }

  // ----- the spaces of a fold

  lemma SpacesFront(n: nat)
    requires n > 0
    ensures Spaces(n) == [SPACE] + Spaces(n - 1)
  {
  }

  lemma {:induction false} SkipMargin(t: seq<Scalar>, sc: S.Scan, n: nat)
    requires sc.pos <= |t| && sc.blanks && Reads(t, sc.pos, Spaces(n))
    ensures sc.pos + n <= |t|
    ensures S.Blanks(t, false, sc) == S.Blanks(t, false, S.Skip(sc, n))
    decreases n
  {
    hide S.Line, S.Text, Spaces;
    if n > 0 {
      SpacesFront(n);
      ReadsSplit(t, sc.pos, [SPACE], Spaces(n - 1));
      assert S.Peek(t, sc.pos + 0) == [SPACE][0];
      SkipMargin(t, S.Skip(sc, 1), n - 1);
    } else {
      assert S.Skip(sc, 0) == sc;
    }
  }

  function AfterBreak(sc: S.Scan, n: nat): S.Scan {
    sc.(pos := sc.pos + n, column := 0, spaces := [], lead := [0x0A], blanks := true)
  }

  lemma BreakStep(b: LineBreak, t: seq<Scalar>, sc: S.Scan)
    requires sc.pos <= |t| && !sc.blanks && sc.lead == []
    requires Reads(t, sc.pos, Break(b)) && S.Peek(t, sc.pos + |Break(b)|) == SPACE
    ensures sc.pos + |Break(b)| <= |t|
    ensures S.Text(t, false, sc) == S.Blanks(t, false, AfterBreak(sc, |Break(b)|))
  {
    hide S.Line;
    var x := Break(b);
    assert S.Peek(t, sc.pos + 0) == x[0];
    if |x| == 2 {
      assert S.Peek(t, sc.pos + 1) == x[1];
    }
    assert S.TakeBreak(t, sc) == AfterBreak(sc, |x|);
  }

  /** At a space that is folded: the line break, and the margin behind it. */
  lemma FoldStep(style: Style, t: seq<Scalar>, sc: S.Scan)
    requires style.indent >= 1 && sc.pos <= |t| && !sc.blanks && sc.lead == []
    requires Reads(t, sc.pos, Break(style.lineBreak) + Spaces(Margin(style)))
    ensures var b := |Break(style.lineBreak)|;
      && sc.pos + b + Margin(style) <= |t|
      && S.Text(t, false, sc) == S.Blanks(t, false, S.Skip(AfterBreak(sc, b), Margin(style)))
  {
    hide S.Line, S.Text, S.Blanks, Break;
    var b, n := Break(style.lineBreak), Margin(style);
    ReadsSplit(t, sc.pos, b, Spaces(n));
    assert S.Peek(t, sc.pos + |b| + 0) == Spaces(n)[0];
    BreakStep(style.lineBreak, t, sc);
    SkipMargin(t, AfterBreak(sc, |b|), n);
  }

  // ----- single steps of the scanner

  lemma PlainStep(t: seq<Scalar>, sc: S.Scan, c: Scalar)
    requires sc.pos < |t| && S.Peek(t, sc.pos) == c && !IsBlankZ(c) && c != QUOTE && c != BACKSLASH
    ensures S.Text(t, false, sc) == S.Text(t, false, S.Skip(S.Put(sc, Utf8(c)), 1))
  {
    hide S.Line, S.Blanks;
  }

  lemma CloseStep(t: seq<Scalar>, sc: S.Scan)
    requires sc.pos < |t| && S.Peek(t, sc.pos) == QUOTE
    ensures S.Text(t, false, sc) == S.Done(sc.value, sc.pos + 1, sc.column + 1)
  {
  }

  lemma SpaceStep(t: seq<Scalar>, sc: S.Scan)
    requires sc.pos < |t| && S.Peek(t, sc.pos) == SPACE && !sc.blanks
    ensures S.Text(t, false, sc) == S.Blanks(t, false, sc)
    ensures S.Blanks(t, false, sc) == S.Blanks(t, false, S.Skip(sc.(spaces := sc.spaces + [SPACE]), 1))
  {
    hide S.Line;
  }

  /** Blanks end in front of anything else, which is text again unless a document indicator stands at column 0. */
  lemma JoinStep(t: seq<Scalar>, sc: S.Scan)
    requires sc.pos < |t| && !IsBlankZ(S.Peek(t, sc.pos)) && sc.column > 0
    ensures S.Blanks(t, false, sc) == S.Text(t, false, S.Joined(sc).(blanks := false))
  {
    hide S.Text;
  }

  // ----- the whole scalar

  /** What is left to scan from character i, and what scanning it must give. */
  ghost predicate Pending(style: Style, allow: bool, s: seq<Scalar>, i: nat, column: int, spaces: bool, t: seq<Scalar>,
                          pos: nat)
  {
    i <= |s| && column >= 1 && Reads(t, pos, Body(style, allow, s, i, column, spaces) + [QUOTE])
  }

  ghost function Goal(style: Style, allow: bool, s: seq<Scalar>, i: nat, column: int, spaces: bool, pos: nat): S.Result
    requires i <= |s| && EndColumn(style, allow, s, i, column, spaces) >= 0
  {
    S.Done(Utf8All(s), pos + |Body(style, allow, s, i, column, spaces)| + 1,
           EndColumn(style, allow, s, i, column, spaces) + 1)
  }

  lemma {:induction false} EndPositive(style: Style, allow: bool, s: seq<Scalar>, i: nat, column: int, spaces: bool)
    requires i <= |s| && column >= 1 && style.indent >= 1
    ensures EndColumn(style, allow, s, i, column, spaces) >= 1
    decreases |s| - i
  {
    hide NeedsEscape, Escape, Folds;
    if i < |s| {
      EndPositive(style, allow, s, i + 1, NextColumn(style, allow, s, i, column, spaces), s[i] == SPACE);
    }
  }

  lemma PendingEnd(style: Style, allow: bool, s: seq<Scalar>, i: nat, column: int, spaces: bool, t: seq<Scalar>, pos: nat)
    requires Pending(style, allow, s, i, column, spaces, t, pos) && style.indent >= 1
    ensures column >= 1 && EndColumn(style, allow, s, i, column, spaces) >= 1
  {
    hide Body, Reads;
    EndPositive(style, allow, s, i, column, spaces);
  }

  /** One piece further. */
  lemma PendingNext(style: Style, allow: bool, s: seq<Scalar>, i: nat, column: int, spaces: bool, t: seq<Scalar>, pos: nat)
    requires Pending(style, allow, s, i, column, spaces, t, pos) && i < |s| && style.indent >= 1
    ensures var p := Piece(style, allow, s, i, column, spaces);
      var next := NextColumn(style, allow, s, i, column, spaces);
      && Reads(t, pos, p) && Pending(style, allow, s, i + 1, next, s[i] == SPACE, t, pos + |p|)
      && EndColumn(style, allow, s, i, column, spaces) == EndColumn(style, allow, s, i + 1, next, s[i] == SPACE) >= 1
      && Goal(style, allow, s, i, column, spaces, pos)
         == Goal(style, allow, s, i + 1, next, s[i] == SPACE, pos + |p|)
  {
    hide Piece, Reads, Utf8All, NextColumn;
    var p, next := Piece(style, allow, s, i, column, spaces), NextColumn(style, allow, s, i, column, spaces);
    var rest := Body(style, allow, s, i + 1, next, s[i] == SPACE);
    NextPositive(style, allow, s, i, column, spaces);
    EndPositive(style, allow, s, i + 1, next, s[i] == SPACE);
    assert p + rest + [QUOTE] == p + (rest + [QUOTE]);
    ReadsSplit(t, pos, p, rest + [QUOTE]);
  }

  lemma NextPositive(style: Style, allow: bool, s: seq<Scalar>, i: nat, column: int, spaces: bool)
    requires i < |s| && column >= 1 && style.indent >= 1
    ensures NextColumn(style, allow, s, i, column, spaces) >= 1
  {
  }

  /** The scanner between two pieces, with value the octets of the first i characters. */
  ghost predicate Ready(s: seq<Scalar>, i: nat, column: int, sc: S.Scan) {
    && i <= |s| && !sc.blanks && sc.spaces == sc.lead == sc.trail == []
    && sc.value == Utf8All(s[..i]) && sc.column == column
  }

  /** What is written next begins with something to read as text, unless it is a space. */
  lemma FirstIsText(style: Style, allow: bool, s: seq<Scalar>, i: nat, column: int, spaces: bool, t: seq<Scalar>,
                    pos: nat)
    requires Pending(style, allow, s, i, column, spaces, t, pos) && (i < |s| ==> s[i] != SPACE)
    ensures pos < |t| && !IsBlankZ(S.Peek(t, pos))
  {
    hide NeedsEscape, EndColumn, NextColumn;
    var x := Body(style, allow, s, i, column, spaces) + [QUOTE];
    assert S.Peek(t, pos + 0) == x[0];
    if i < |s| {
      assert x[0] == Piece(style, allow, s, i, column, spaces)[0];
      if !NeedsEscape(s[i], style.unicode) {
        PlainIs(s[i], style.unicode);
      }
    }
  }

  lemma {:induction false} InText(style: Style, allow: bool, s: seq<Scalar>, i: nat, spaces: bool, t: seq<Scalar>,
                                  sc: S.Scan)
    requires style.indent >= 1 && Ready(s, i, sc.column, sc) && sc.pos <= |t|
    requires Pending(style, allow, s, i, sc.column, spaces, t, sc.pos)
    ensures EndColumn(style, allow, s, i, sc.column, spaces) >= 0
    ensures S.Text(t, false, sc) == Goal(style, allow, s, i, sc.column, spaces, sc.pos)
    decreases |s| - i, 1
  {
    hide S.Text, S.Blanks, NeedsEscape, Escape, Break, Utf8, Body, EndColumn, Goal, Pending, Guard;
    PendingEnd(style, allow, s, i, sc.column, spaces, t, sc.pos);
    if i == |s| {
      AtEnd(style, allow, s, sc.column, spaces, t, sc.pos);
      assert s[..i] == s;
      CloseStep(t, sc);
    } else {
      PendingNext(style, allow, s, i, sc.column, spaces, t, sc.pos);
      Utf8AllSnoc(s, i);
      var p := Piece(style, allow, s, i, sc.column, spaces);
      if NeedsEscape(s[i], style.unicode) {
        EscapeStep(t, sc, s[i]);
        SpaceIsPlain(style.unicode);
        InText(style, allow, s, i + 1, false, t, S.Skip(S.Put(sc, Utf8(s[i])), |p|));
      } else if Folds(style, allow, s, i, sc.column, spaces) {
        InFold(style, allow, s, i, t, sc);
      } else {
        assert S.Peek(t, sc.pos + 0) == p[0];
        if s[i] == SPACE {
          SpaceStep(t, sc);
          assert Utf8(SPACE) == [SPACE] by { SpaceOctet(); }
          InBlanks(style, allow, s, i + 1, t, S.Skip(sc.(spaces := sc.spaces + [SPACE]), 1));
        } else {
          PlainIs(s[i], style.unicode);
          PlainStep(t, sc, s[i]);
          InText(style, allow, s, i + 1, false, t, S.Skip(S.Put(sc, Utf8(s[i])), 1));
        }
      }
    }
  }

  lemma SpaceOctet()
    ensures Utf8(SPACE) == [SPACE]
  {
  }

  lemma AtEnd(style: Style, allow: bool, s: seq<Scalar>, column: int, spaces: bool, t: seq<Scalar>, pos: nat)
    requires Pending(style, allow, s, |s|, column, spaces, t, pos)
    ensures pos < |t| && S.Peek(t, pos) == QUOTE
    ensures Goal(style, allow, s, |s|, column, spaces, pos) == S.Done(Utf8All(s), pos + 1, column + 1)
  {
    hide Reads, Piece, NextColumn, Utf8All;
    assert Body(style, allow, s, |s|, column, spaces) + [QUOTE] == [QUOTE];
    ReadsOne(t, pos, QUOTE);
  }

  /** In a run of spaces within a line. */
  lemma {:induction false} InBlanks(style: Style, allow: bool, s: seq<Scalar>, i: nat, t: seq<Scalar>, sc: S.Scan)
    requires style.indent >= 1 && i <= |s| && sc.pos <= |t| && !sc.blanks && sc.lead == sc.trail == []
    requires sc.value + sc.spaces == Utf8All(s[..i])
    requires Pending(style, allow, s, i, sc.column, true, t, sc.pos)
    ensures EndColumn(style, allow, s, i, sc.column, true) >= 0
    ensures S.Blanks(t, false, sc) == Goal(style, allow, s, i, sc.column, true, sc.pos)
    decreases |s| - i, 2
  {
    hide S.Text, S.Blanks, NeedsEscape, Escape, Break, Utf8, Body, EndColumn, Goal, Guard, Reads;
    PendingEnd(style, allow, s, i, sc.column, true, t, sc.pos);
    if i < |s| && s[i] == SPACE {
      PendingNext(style, allow, s, i, sc.column, true, t, sc.pos);
      Utf8AllSnoc(s, i);
      SpaceOctet();
      SpaceIsPlain(style.unicode);
      ReadsOne(t, sc.pos, SPACE);
      SpaceStep(t, sc);
      var next := S.Skip(sc.(spaces := sc.spaces + [SPACE]), 1);
      assert next.value + next.spaces == sc.value + sc.spaces + [SPACE];
      InBlanks(style, allow, s, i + 1, t, next);
    } else {
      FirstIsText(style, allow, s, i, sc.column, true, t, sc.pos);
      JoinStep(t, sc);
      InText(style, allow, s, i, true, t, S.Joined(sc).(blanks := false));
    }
  }

  lemma ReadsOne(t: seq<Scalar>, pos: nat, c: Scalar)
    requires Reads(t, pos, [c])
    ensures pos < |t| && S.Peek(t, pos) == c
  {
    assert S.Peek(t, pos + 0) == [c][0];
  }

  /** At a space that is folded. */
  lemma {:induction false} InFold(style: Style, allow: bool, s: seq<Scalar>, i: nat, t: seq<Scalar>, sc: S.Scan)
    requires style.indent >= 1 && i < |s| && Ready(s, i, sc.column, sc) && sc.pos <= |t|
    requires Pending(style, allow, s, i, sc.column, false, t, sc.pos) && Folds(style, allow, s, i, sc.column, false)
    ensures EndColumn(style, allow, s, i, sc.column, false) >= 0
    ensures S.Text(t, false, sc) == Goal(style, allow, s, i, sc.column, false, sc.pos)
    decreases |s| - i, 0
  {
    hide S.Text, S.Blanks, NeedsEscape, Escape, Break, Utf8, Body, EndColumn, Goal, Reads, Spaces, Pending;
    PendingEnd(style, allow, s, i, sc.column, false, t, sc.pos);
    PendingNext(style, allow, s, i, sc.column, false, t, sc.pos);
    SpaceIsPlain(style.unicode);
    var b, n, g := Break(style.lineBreak), Margin(style), Guard(s, i);
    ReadsSplit(t, sc.pos, b + Spaces(n), g);
    FoldStep(style, t, sc);
    var at := S.Skip(AfterBreak(sc, |b|), n);
    Utf8AllSnoc(s, i);
    SpaceOctet();
    if g == [] {
      FirstIsText(style, allow, s, i + 1, n, true, t, at.pos);
      JoinStep(t, at);
      InText(style, allow, s, i + 1, true, t, S.Joined(at).(blanks := false));
    } else {
      ReadsOne(t, at.pos, BACKSLASH);
      JoinStep(t, at);
      GuardedSpace(style, allow, s, i + 1, t, S.Joined(at).(blanks := false));
    }
  }

  /** At the backslash in front of a space behind a fold. */
  lemma {:induction false} GuardedSpace(style: Style, allow: bool, s: seq<Scalar>, i: nat, t: seq<Scalar>, sc: S.Scan)
    requires style.indent >= 1 && i < |s| && s[i] == SPACE && Ready(s, i, sc.column, sc)
    requires sc.pos < |t| && S.Peek(t, sc.pos) == BACKSLASH && sc.column >= 1
    requires Pending(style, allow, s, i, sc.column + 1, true, t, sc.pos + 1)
    ensures EndColumn(style, allow, s, i, sc.column + 1, true) >= 0
    ensures S.Text(t, false, sc) == Goal(style, allow, s, i, sc.column + 1, true, sc.pos + 1)
    decreases |s| - i, 0
  {
    hide S.Text, S.Blanks, NeedsEscape, Escape, Break, Utf8, Body, EndColumn, Goal, Reads, Guard, Pending;
    PendingNext(style, allow, s, i, sc.column + 1, true, t, sc.pos + 1);
    SpaceIsPlain(style.unicode);
    ReadsOne(t, sc.pos + 1, SPACE);
    Utf8AllSnoc(s, i);
    SpaceOctet();
    EscapedSpace(t, sc);
    InText(style, allow, s, i + 1, true, t, S.Skip(S.Put(sc, [SPACE]), 2));
  }

  lemma EscapedSpace(t: seq<Scalar>, sc: S.Scan)
    requires sc.pos + 1 < |t| && S.Peek(t, sc.pos) == BACKSLASH && S.Peek(t, sc.pos + 1) == SPACE
    ensures S.Text(t, false, sc) == S.Text(t, false, S.Skip(S.Put(sc, [SPACE]), 2))
  {
    hide S.Line, S.Blanks;
  }

  lemma FirstNotNul(style: Style, allow: bool, s: seq<Scalar>, column: int, t: seq<Scalar>, pos: nat)
    requires Pending(style, allow, s, 0, column, false, t, pos) && style.indent >= 1
    ensures pos < |t| && S.Peek(t, pos) != 0
  {
    hide Body, NeedsEscape, Reads, NextColumn;
    if s != [] && s[0] == SPACE {
      PendingNext(style, allow, s, 0, column, false, t, pos);
      SpaceIsPlain(style.unicode);
      ReadsOne(t, pos, SPACE);
    } else {
      FirstIsText(style, allow, s, 0, column, false, t, pos);
    }
  }

  /**
   * Whatever the settings, the scanner reads back exactly the octets of the string, stops right behind
   * the closing quote and is in the column where the emitter was.
   */
  lemma QuotedRoundTrip(style: Style, allow: bool, s: seq<Scalar>, t: seq<Scalar>, pos: nat, column: nat)
    requires style.indent >= 1
    requires var text := [QUOTE] + Body(style, allow, s, 0, column + 1, false) + [QUOTE];
      pos + |text| <= |t| && t[pos..pos + |text|] == text
    ensures var text := [QUOTE] + Body(style, allow, s, 0, column + 1, false) + [QUOTE];
      && EndColumn(style, allow, s, 0, column + 1, false) >= 0
      && S.ScanQuoted(t, false, pos, column)
         == S.Done(Utf8All(s), pos + |text|, EndColumn(style, allow, s, 0, column + 1, false) + 1)
  {
    hide S.Text, Body, EndColumn, Reads;
    var b := Body(style, allow, s, 0, column + 1, false);
    assert [QUOTE] + b + [QUOTE] == [QUOTE] + (b + [QUOTE]);
    ReadsJoin(t, pos, [QUOTE] + (b + [QUOTE]));
    ReadsSplit(t, pos, [QUOTE], b + [QUOTE]);
    var sc := S.Scan(pos + 1, column + 1, [], [], [], [], false);
    assert s[..0] == [];
    InText(style, allow, s, 0, false, t, sc);
    FirstNotNul(style, allow, s, column + 1, t, pos + 1);
    assert S.Line(t, false, sc) == S.Text(t, false, sc);
  }

  /** yaml_emitter_increase_indent. */
  function IncreaseIndent(indent: int, bestIndent: int, flow: bool, indentless: bool): int {
    if indent < 0 then (if flow then bestIndent else 0) else if !indentless then indent + bestIndent else indent
  }

  /**
   * A scalar is written one level deeper than its parent, and bestIndent is between 2 and 9 once a
   * stream is started, so the margin is never 0 and scanning gives the string back.
   */
  method WriteThenScan(parent: int, bestIndent: int, style: Style, allow: bool, s: seq<Scalar>, rest: seq<Scalar>)
    returns (r: S.Result)
    requires 2 <= bestIndent <= 9 && style.indent == IncreaseIndent(parent, bestIndent, true, false)
    ensures r.Done? && r.value == Utf8All(s)
  {
    hide Body, EndColumn, S.ScanQuoted, Utf8All;
    var emitter := new Emitter(style);
    emitter.WriteDoubleQuoted(s, allow);
    var text := emitter.output + rest;
    ghost var b := emitter.output;
    assert b == [QUOTE] + Body(style, allow, s, 0, 1, false) + [QUOTE];
    assert text[0..0 + |b|] == b;
    QuotedRoundTrip(style, allow, s, text, 0, 0);
    var parser := new S.Parser(text);
    r := parser.ScanFlowScalar(false);
  }
}
