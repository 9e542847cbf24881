/**
 What a quoted scalar means, whoever wrote it: plain characters, doubled quotes, escapes, blanks, and
 line breaks, which are folded (sections 7.3.1 and 7.3.2 of YAML 1.1, "Flow Scalar Styles").
 */
module YamlQuotedText {
  import opened Basics
  import opened YamlUtf8
  import S = YamlQuotedScanner

  type Text = seq<Scalar>

  /** A line break, and the blanks behind it. */
  datatype Line = Line(eol: Text, indent: Text)

  datatype Piece =
    | Plain(c: Scalar)
    /** '' in a single-quoted scalar */
    | Apostrophe
    /** Backslash and a letter. */
    | Letter(c: Scalar)
    /** Backslash, x, u or U, and hexadecimal digits. */
    | Code(c: Scalar, digits: Text)
    /** Blanks between other characters of a line. */
    | Gap(blanks: Text)
    /** Blanks, and then line breaks. */
    | Fold(blanks: Text, lines: seq<Line>)
    /** A backslash in front of line breaks. */
    | Joint(lines: seq<Line>)

  // ----- how it is written

  function SpellLine(l: Line): Text {
    l.eol + l.indent
  }

  function SpellLines(lines: seq<Line>): Text {
    if lines == [] then [] else SpellLine(lines[0]) + SpellLines(lines[1..])
  }

  function Spell(p: Piece): Text {
    match p
    case Plain(c) => [c]
    case Apostrophe => [0x27, 0x27]
    case Letter(c) => [0x5C, c]
    case Code(c, digits) => [0x5C, c] + digits
    case Gap(blanks) => blanks
    case Fold(blanks, lines) => blanks + SpellLines(lines)
    case Joint(lines) => [0x5C] + SpellLines(lines)
  }

  function SpellAll(ps: seq<Piece>): Text {
    if ps == [] then [] else Spell(ps[0]) + SpellAll(ps[1..])
  }

  // ----- what it means

  /** A line break as content: U+2028 and U+2029 stay, all others become a line feed. */
  function EolOctets(l: Line): seq<Byte> {
    if l.eol == [0x2028] then [0xE2, 0x80, 0xA8] else if l.eol == [0x2029] then [0xE2, 0x80, 0xA9] else [0x0A]
  }

  function EolsOctets(lines: seq<Line>): seq<Byte> {
    if lines == [] then [] else EolOctets(lines[0]) + EolsOctets(lines[1..])
  }

  function DigitValue(c: Scalar): nat {
    if 0x30 <= c <= 0x39 then c - 0x30 else if 0x41 <= c <= 0x46 then c - 0x41 + 10 else if 0x61 <= c <= 0x66 then c - 0x61 + 10 else 0
  }

  predicate IsDigit(c: Scalar) {
    0x30 <= c <= 0x39 || 0x41 <= c <= 0x46 || 0x61 <= c <= 0x66
  }

  function Number(digits: Text): nat {
    if digits == [] then 0 else Number(digits[..|digits| - 1]) * 16 + DigitValue(digits[|digits| - 1])
  }

  function Means(p: Piece): seq<Byte> {
    match p
    case Plain(c) => Utf8(c)
    case Apostrophe => [0x27]
    case Letter(c) => S.Unescape(c)
    case Code(_, digits) => if S.IsCode(Number(digits)) then Utf8(Number(digits)) else []
    case Gap(blanks) => Utf8All(blanks)
    case Fold(_, lines) =>
      if lines == [] then []
      else if EolOctets(lines[0]) != [0x0A] then EolsOctets(lines)
      else if |lines| == 1 then [0x20]
      else EolsOctets(lines[1..])
    case Joint(lines) => if lines == [] then [] else EolsOctets(lines[1..])
  }

  function MeansAll(ps: seq<Piece>): seq<Byte> {
    if ps == [] then [] else Means(ps[0]) + MeansAll(ps[1..])
  }

  // ----- what may be written

  predicate IsEol(eol: Text) {
    eol == [0x0D, 0x0A] || eol == [0x0D] || eol == [0x0A] || eol == [0x85] || eol == [0x2028] || eol == [0x2029]
  }

  predicate AllBlank(w: Text) {
    forall k :: 0 <= k < |w| ==> w[k] == 0x20 || w[k] == 0x09
  }

  /** Lines in front of text that goes on with next: a CR in front of a LF is one line break with it. */
  predicate Breaks(lines: seq<Line>, next: Scalar) {
    lines == [] ||
    (&& IsEol(lines[0].eol) && AllBlank(lines[0].indent) && Breaks(lines[1..], next)
     && (lines[0].eol == [0x0D] ==> (SpellLine(lines[0]) + SpellLines(lines[1..]) + [next])[1] != 0x0A))
  }

  predicate IsLetter(c: Scalar) {
    S.Unescape(c) != []
  }

  predicate IsKind(c: Scalar, n: nat) {
    (c == 0x78 && n == 2) || (c == 0x75 && n == 4) || (c == 0x55 && n == 8)
  }

  predicate Blank(p: Piece) {
    p.Gap? || p.Fold?
  }

  /** A piece in front of text that goes on with next. */
  predicate Proper(p: Piece, single: bool, next: Scalar) {
    match p
    case Plain(c) => !IsBlankZ(c) && c != (if single then 0x27 else 0x22) && (single || c != 0x5C)
    case Apostrophe => single
    case Letter(c) => !single && IsLetter(c)
    case Code(c, digits) =>
      !single && IsKind(c, |digits|) && S.IsCode(Number(digits)) && forall k :: 0 <= k < |digits| ==> IsDigit(digits[k])
    case Gap(blanks) => blanks != [] && AllBlank(blanks)
    case Fold(blanks, lines) => AllBlank(blanks) && lines != [] && Breaks(lines, next)
    case Joint(lines) => !single && lines != [] && Breaks(lines, next)
  }

  /** The first character of the pieces, or of what follows them. */
  function Head(ps: seq<Piece>, next: Scalar): Scalar {
    if ps == [] || Spell(ps[0]) == [] then next else Spell(ps[0])[0]
  }

  predicate AllProper(ps: seq<Piece>, single: bool, next: Scalar) {
    ps == [] ||
    (&& Proper(ps[0], single, Head(ps[1..], next)) && AllProper(ps[1..], single, next)
     && (|ps| > 1 && (Blank(ps[0]) || ps[0].Joint?) ==> !Blank(ps[1])))
  }

  /** Whether the pieces end at the start of a line. */
  function Column(p: Piece, before: nat): nat {
    match p
    case Fold(_, lines) => if lines == [] then before else |lines[|lines| - 1].indent|
    case Joint(lines) => if lines == [] then before else |lines[|lines| - 1].indent|
    case _ => before + |Spell(p)|
  }

  predicate Holds(t: Text, i: nat, w: Text) {
    i + |w| <= |t| && t[i..i + |w|] == w
  }

  /** No document indicator where one of the pieces ends at the start of a line. */
  predicate NoIndicator(t: Text, i: nat, ps: seq<Piece>)
    decreases |ps|
  {
    ps == [] ||
    (&& NoIndicator(t, i + |Spell(ps[0])|, ps[1..])
     && ((ps[0].Fold? || ps[0].Joint?) && Column(ps[0], 1) == 0 ==> !S.AtIndicator(t, i + |Spell(ps[0])|)))
  }

  // ----- one character after the other

  lemma HoldsSplit(t: Text, i: nat, v: Text, w: Text)
    requires Holds(t, i, v + w)
    ensures Holds(t, i, v) && Holds(t, i + |v|, w)
  {
    assert t[i..i + |v|] == (v + w)[..|v|];
    assert t[i + |v|..i + |v| + |w|] == (v + w)[|v|..];
  }

  lemma HoldsAt(t: Text, i: nat, w: Text, k: nat)
    requires Holds(t, i, w) && k < |w|
    ensures i + k < |t| && S.Peek(t, i + k) == w[k]
  {
    assert t[i + k] == t[i..i + |w|][k];
  }

  predicate Fresh(s: S.Scan) {
    s.spaces == [] && s.lead == [] && s.trail == [] && !s.blanks
  }

  lemma PlainStep(t: Text, single: bool, c: Scalar, s: S.Scan)
    requires s.pos <= |t| && Holds(t, s.pos, [c]) && Proper(Plain(c), single, 0)
    ensures S.Text(t, single, s) == S.Text(t, single, S.Skip(S.Put(s, Utf8(c)), 1))
  {
    hide S.Blanks, S.Line, Utf8, IsBlankZ;
    HoldsAt(t, s.pos, [c], 0);
  }

  lemma ApostropheStep(t: Text, s: S.Scan)
    requires s.pos <= |t| && Holds(t, s.pos, [0x27, 0x27])
    ensures S.Text(t, true, s) == S.Text(t, true, S.Skip(S.Put(s, [0x27]), 2))
  {
    HoldsAt(t, s.pos, [0x27, 0x27], 0);
    HoldsAt(t, s.pos, [0x27, 0x27], 1);
    TwoQuotes(t, s);
  }

  lemma TwoQuotes(t: Text, s: S.Scan)
    requires s.pos + 1 < |t| && S.Peek(t, s.pos) == 0x27 && S.Peek(t, s.pos + 1) == 0x27
    ensures S.Text(t, true, s) == S.Text(t, true, S.Skip(S.Put(s, [0x27]), 2))
  {
    hide S.Blanks, S.Line, Utf8, S.Unescape, S.AllHex, S.HexCode, S.CodeLength, S.AfterText, S.Peek;
  }

  lemma LetterStep(t: Text, c: Scalar, s: S.Scan)
    requires s.pos <= |t| && Holds(t, s.pos, [0x5C, c]) && IsLetter(c)
    ensures S.Text(t, false, s) == S.Text(t, false, S.Skip(S.Put(s, S.Unescape(c)), 2))
  {
    hide S.Blanks, S.Line, Utf8, S.Unescape;
    HoldsAt(t, s.pos, [0x5C, c], 0);
    HoldsAt(t, s.pos, [0x5C, c], 1);
    LetterIsNoBreak(c);
  }

  lemma LetterIsNoBreak(c: Scalar)
    ensures IsLetter(c) ==> !IsBreak(c)
    ensures c == 0x78 || c == 0x75 || c == 0x55 ==> !IsLetter(c) && !IsBreak(c)
    ensures S.CodeLength(c) == if c == 0x78 then 2 else if c == 0x75 then 4 else if c == 0x55 then 8 else 0
  {
  }

  lemma DigitIs(c: Scalar)
    requires IsDigit(c)
    ensures S.IsHex(c) && S.HexValue(c) == DigitValue(c)
  {
  }

  lemma {:induction false} DigitsRead(t: Text, i: nat, digits: Text)
    requires Holds(t, i, digits) && forall k :: 0 <= k < |digits| ==> IsDigit(digits[k])
    ensures S.AllHex(t, i, |digits|) && S.HexCode(t, i, |digits|) == Number(digits)
  {
    hide IsDigit, DigitValue;
    if digits != [] {
      var n := |digits| - 1;
      assert digits == digits[..n] + [digits[n]];
      HoldsSplit(t, i, digits[..n], [digits[n]]);
      DigitsRead(t, i, digits[..n]);
      HoldsAt(t, i, digits, n);
      DigitIs(digits[n]);
    }
  }

  lemma CodeStep(t: Text, c: Scalar, digits: Text, s: S.Scan)
    requires s.pos <= |t| && Holds(t, s.pos, [0x5C, c] + digits) && Proper(Code(c, digits), false, 0)
    ensures S.Text(t, false, s) == S.Text(t, false, S.Skip(S.Put(s, Utf8(Number(digits))), 2 + |digits|))
  {
    hide S.Blanks, S.Line, Utf8, S.Unescape, S.AllHex, S.HexCode, S.CodeLength, Number, IsDigit;
    HoldsSplit(t, s.pos, [0x5C, c], digits);
    HoldsAt(t, s.pos, [0x5C, c], 0);
    HoldsAt(t, s.pos, [0x5C, c], 1);
    LetterIsNoBreak(c);
    DigitsRead(t, s.pos + 2, digits);
  }

  // ----- blanks and line breaks

  function Blanked(s: S.Scan, w: Text): S.Scan {
    S.Skip(if s.blanks then s else s.(spaces := s.spaces + Utf8All(w)), |w|)
  }

  lemma BlankStep(t: Text, single: bool, s: S.Scan)
    requires s.pos <= |t| && IsBlank(S.Peek(t, s.pos))
    ensures s.pos < |t| && S.Blanks(t, single, s) == S.Blanks(t, single, S.TakeBlank(s, S.Peek(t, s.pos)))
  {
    hide S.Line, Utf8;
  }

  lemma {:induction false} BlankRun(t: Text, single: bool, s: S.Scan, w: Text)
    requires s.pos <= |t| && Holds(t, s.pos, w) && AllBlank(w)
    ensures S.Blanks(t, single, s) == S.Blanks(t, single, Blanked(s, w))
  {
    hide S.Blanks, Utf8, Utf8All;
    if w == [] {
      NoBlanks();
      assert s.spaces + [] == s.spaces;
      assert Blanked(s, w) == s;
    } else {
      var n := |w| - 1;
      assert w == w[..n] + [w[n]];
      HoldsSplit(t, s.pos, w[..n], [w[n]]);
      BlankRun(t, single, s, w[..n]);
      HoldsAt(t, s.pos, w, n);
      BlankStep(t, single, Blanked(s, w[..n]));
      Utf8AllSnoc(w, n);
      assert w[..n + 1] == w;
      assert s.spaces + Utf8All(w[..n]) + Utf8(w[n]) == s.spaces + Utf8All(w);
    }
  }

  lemma NoBlanks()
    ensures Utf8All([]) == []
  {
  }

  function Broken(s: S.Scan, l: Line): S.Scan {
    var r := if s.blanks then s.(trail := s.trail + EolOctets(l))
             else s.(spaces := [], lead := s.lead + EolOctets(l), blanks := true);
    r.(pos := s.pos + |SpellLine(l)|, column := |l.indent|)
  }

  lemma EolRun(t: Text, single: bool, s: S.Scan, l: Line)
    requires s.pos <= |t| && Holds(t, s.pos, l.eol) && IsEol(l.eol) && (l.eol == [0x0D] ==> S.Peek(t, s.pos + 1) != 0x0A)
    ensures S.Blanks(t, single, s) == S.Blanks(t, single, S.TakeBreak(t, s))
    ensures S.TakeBreak(t, s) == Broken(s, Line(l.eol, []))
  {
    hide S.Line;
    HoldsAt(t, s.pos, l.eol, 0);
    if |l.eol| == 2 {
      HoldsAt(t, s.pos, l.eol, 1);
    }
    assert l.eol + [] == l.eol;
  }

  /** A whole line break at a position, and its blanks. */
  predicate LineAt(t: Text, i: nat, l: Line) {
    && IsEol(l.eol) && AllBlank(l.indent) && Holds(t, i, l.eol) && Holds(t, i + |l.eol|, l.indent)
    && (l.eol == [0x0D] ==> S.Peek(t, i + 1) != 0x0A)
  }

  predicate LinesAt(t: Text, i: nat, lines: seq<Line>)
    decreases |lines|
  {
    lines == [] || (LineAt(t, i, lines[0]) && LinesAt(t, i + |SpellLine(lines[0])|, lines[1..]))
  }

  lemma {:induction false} LinesHold(t: Text, i: nat, lines: seq<Line>, next: Scalar)
    requires Breaks(lines, next) && Holds(t, i, SpellLines(lines)) && S.Peek(t, i + |SpellLines(lines)|) == next
    ensures LinesAt(t, i, lines)
    decreases |lines|
  {
    hide IsEol, AllBlank;
    if lines != [] {
      var l, rest := lines[0], lines[1..];
      NoSplit(t, i, lines, next);
      HoldsSplit(t, i, SpellLine(l), SpellLines(rest));
      HoldsSplit(t, i, l.eol, l.indent);
      LinesHold(t, i + |SpellLine(l)|, rest, next);
    }
  }

  lemma LineRun(t: Text, single: bool, s: S.Scan, l: Line)
    requires s.pos <= |t| && LineAt(t, s.pos, l)
    ensures s.pos + |SpellLine(l)| <= |t| && S.Blanks(t, single, s) == S.Blanks(t, single, Broken(s, l))
  {
    hide S.Blanks, S.TakeBreak, EolOctets, IsEol;
    EolRun(t, single, s, l);
    var r := Broken(s, Line(l.eol, []));
    assert l.eol + [] == l.eol;
    SameEol(l);
    BlankRun(t, single, r, l.indent);
    assert Blanked(r, l.indent) == Broken(s, l);
  }

  lemma SameEol(l: Line)
    ensures EolOctets(Line(l.eol, [])) == EolOctets(l)
  {
  }

  function LastColumn(lines: seq<Line>, before: nat): nat {
    if lines == [] then before else |lines[|lines| - 1].indent|
  }

  /** The break at a position ends where it seems to end. */
  lemma NoSplit(t: Text, i: nat, lines: seq<Line>, next: Scalar)
    requires lines != [] && Breaks(lines, next) && Holds(t, i, SpellLines(lines)) && S.Peek(t, i + |SpellLines(lines)|) == next
    ensures lines[0].eol == [0x0D] ==> S.Peek(t, i + 1) != 0x0A
    ensures SpellLine(lines[0]) != []
  {
    var w := SpellLine(lines[0]) + SpellLines(lines[1..]);
    assert w == SpellLines(lines);
    if lines[0].eol == [0x0D] {
      if |w| > 1 {
        HoldsAt(t, i, w, 1);
        assert (w + [next])[1] == w[1];
      } else {
        assert (w + [next])[1] == next;
      }
    }
  }

  function Lined(s: S.Scan, lines: seq<Line>): S.Scan {
    s.(pos := s.pos + |SpellLines(lines)|, column := LastColumn(lines, s.column), trail := s.trail + EolsOctets(lines))
  }

  lemma {:induction false} LinesRun(t: Text, single: bool, s: S.Scan, lines: seq<Line>)
    requires s.pos <= |t| && s.blanks && LinesAt(t, s.pos, lines)
    ensures s.pos + |SpellLines(lines)| <= |t| && S.Blanks(t, single, s) == S.Blanks(t, single, Lined(s, lines))
    decreases |lines|
  {
    hide S.Blanks, LineAt, Lined, Broken, SpellLine, SpellLines;
    if lines == [] {
      NoLined(s);
    } else {
      var l, rest := lines[0], lines[1..];
      assert lines == [l] + rest;
      LineRun(t, single, s, l);
      BrokenIs(s, l);
      LinesRun(t, single, Broken(s, l), rest);
      LinedCons(s, l, rest);
    }
  }

  lemma NoLined(s: S.Scan)
    ensures Lined(s, []) == s && SpellLines([]) == []
  {
    assert s.trail + [] == s.trail;
  }

  lemma LinedCons(s: S.Scan, l: Line, rest: seq<Line>)
    requires s.blanks
    ensures Lined(Broken(s, l), rest) == Lined(s, [l] + rest)
    ensures |SpellLines([l] + rest)| == |SpellLine(l)| + |SpellLines(rest)|
  {
    hide EolOctets;
    var lines := [l] + rest;
    assert lines[1..] == rest;
    assert EolsOctets(lines) == EolOctets(l) + EolsOctets(rest);
    Regroup(s.trail, EolOctets(l), EolsOctets(rest));
  }

  /** Behind blanks and line breaks. */
  lemma Resume(t: Text, single: bool, r: S.Scan)
    requires r.pos <= |t| && !IsBlankZ(S.Peek(t, r.pos)) && (r.column == 0 ==> !S.AtIndicator(t, r.pos))
    ensures S.Blanks(t, single, r) == S.Text(t, single, S.Joined(r).(blanks := false))
  {
    hide S.Text, S.AtIndicator, S.Joined;
    JoinedStays(r);
  }

  lemma JoinedStays(r: S.Scan)
    ensures S.Joined(r).pos == r.pos && S.Joined(r).column == r.column
  {
  }

  lemma Enter(t: Text, single: bool, s: S.Scan)
    requires s.pos <= |t| && (IsBlank(S.Peek(t, s.pos)) || IsBreak(S.Peek(t, s.pos)))
    ensures S.Text(t, single, s) == S.Blanks(t, single, s)
  {
    hide S.Blanks;
  }

  /** Where a piece ends. */
  function After(p: Piece, s: S.Scan): S.Scan {
    s.(pos := s.pos + |Spell(p)|, column := Column(p, s.column), value := s.value + Means(p))
  }

  lemma GapStep(t: Text, single: bool, w: Text, s: S.Scan)
    requires s.pos <= |t| && Fresh(s) && Holds(t, s.pos, w) && Proper(Gap(w), single, 0)
    requires !IsBlankZ(S.Peek(t, s.pos + |w|))
    ensures S.Text(t, single, s) == S.Text(t, single, After(Gap(w), s))
  {
    hide S.Blanks, S.Text, S.Joined, Utf8All, Blanked, After;
    HoldsAt(t, s.pos, w, 0);
    Enter(t, single, s);
    BlankRun(t, single, s, w);
    GapJoined(w, s);
    Resume(t, single, Blanked(s, w));
  }

  lemma GapJoined(w: Text, s: S.Scan)
    requires Fresh(s) && w != []
    ensures var r := Blanked(s, w);
            r.pos == s.pos + |w| && r.column > 0 && S.Joined(r).(blanks := false) == After(Gap(w), s)
  {
    hide Utf8All;
    assert [] + Utf8All(w) == Utf8All(w);
  }

  lemma EolFirst(l: Line)
    requires IsEol(l.eol)
    ensures l.eol != [] && IsBreak(l.eol[0]) && !IsBlank(l.eol[0])
  {
  }

  /** The line breaks of a fold or a joint, behind the first one. */
  function Folded(lines: seq<Line>, s: S.Scan, n: nat, lead: seq<Byte>): S.Scan
    requires lines != []
  {
    s.(pos := s.pos + n, column := LastColumn(lines, 0), spaces := [], lead := lead, trail := EolsOctets(lines[1..]), blanks := true)
  }

  lemma FirstLine(lines: seq<Line>)
    requires lines != []
    ensures |SpellLines(lines)| == |SpellLine(lines[0])| + |SpellLines(lines[1..])|
  {
  }

  lemma FoldRun(t: Text, single: bool, w: Text, lines: seq<Line>, s: S.Scan)
    requires s.pos <= |t| && Fresh(s) && lines != [] && AllBlank(w) && Holds(t, s.pos, w) && LinesAt(t, s.pos + |w|, lines)
    ensures s.pos + |w + SpellLines(lines)| <= |t|
    ensures S.Blanks(t, single, s) == S.Blanks(t, single, Folded(lines, s, |w + SpellLines(lines)|, EolOctets(lines[0])))
  {
    hide S.Blanks, AllBlank, SpellLines, SpellLine, Broken, Lined, Folded, Fresh, LineAt, Blanked;
    var l, rest := lines[0], lines[1..];
    FirstLine(lines);
    BlankRun(t, single, s, w);
    var r := Blanked(s, w);
    BlankedIs(s, w);
    LineRun(t, single, r, l);
    BrokenIs(r, l);
    LinesRun(t, single, Broken(r, l), rest);
    FoldEnd(w, lines, s);
  }

  lemma BrokenIs(s: S.Scan, l: Line)
    ensures Broken(s, l).pos == s.pos + |SpellLine(l)| && Broken(s, l).blanks
  {
  }

  lemma FoldEnd(w: Text, lines: seq<Line>, s: S.Scan)
    requires Fresh(s) && lines != [] && |SpellLines(lines)| == |SpellLine(lines[0])| + |SpellLines(lines[1..])|
    ensures Lined(Broken(Blanked(s, w), lines[0]), lines[1..]) == Folded(lines, s, |w + SpellLines(lines)|, EolOctets(lines[0]))
  {
    hide SpellLines, SpellLine, EolOctets, EolsOctets, Utf8All;
    assert [] + EolOctets(lines[0]) == EolOctets(lines[0]);
    assert [] + EolsOctets(lines[1..]) == EolsOctets(lines[1..]);
  }

  lemma FoldStep(t: Text, single: bool, w: Text, lines: seq<Line>, s: S.Scan, next: Scalar)
    requires s.pos <= |t| && Fresh(s) && Proper(Fold(w, lines), single, next) && Holds(t, s.pos, Spell(Fold(w, lines)))
    requires var end := s.pos + |Spell(Fold(w, lines))|;
             S.Peek(t, end) == next && !IsBlankZ(next) && (LastColumn(lines, 0) == 0 ==> !S.AtIndicator(t, end))
    ensures S.Text(t, single, s) == S.Text(t, single, After(Fold(w, lines), s))
  {
    hide S.Blanks, S.Text, S.Joined, S.AtIndicator, EolOctets, EolsOctets, Breaks, AllBlank, IsBlankZ, SpellLines, After, Fresh, LinesAt;
    HoldsSplit(t, s.pos, w, SpellLines(lines));
    LinesHold(t, s.pos + |w|, lines, next);
    EnterFold(t, single, w, lines, s);
    FoldRun(t, single, w, lines, s);
    Resume(t, single, Folded(lines, s, |w + SpellLines(lines)|, EolOctets(lines[0])));
    FoldJoined(w, lines, s);
  }

  lemma EnterFold(t: Text, single: bool, w: Text, lines: seq<Line>, s: S.Scan)
    requires s.pos <= |t| && lines != [] && AllBlank(w) && Holds(t, s.pos, w) && LinesAt(t, s.pos + |w|, lines)
    ensures S.Text(t, single, s) == S.Blanks(t, single, s)
  {
    hide S.Blanks, S.Text;
    if w == [] {
      EolFirst(lines[0]);
      HoldsAt(t, s.pos, lines[0].eol, 0);
    } else {
      HoldsAt(t, s.pos, w, 0);
    }
    Enter(t, single, s);
  }

  lemma FoldJoined(w: Text, lines: seq<Line>, s: S.Scan)
    requires Fresh(s) && lines != []
    ensures var e := Folded(lines, s, |w + SpellLines(lines)|, EolOctets(lines[0]));
            S.Joined(e).(blanks := false) == After(Fold(w, lines), s)
  {
    hide EolOctets, SpellLines, EolsOctets, Column;
    EolSome(lines[0]);
    FoldValue(s.value, lines);
    FoldColumn(w, lines, s.column);
  }

  lemma FoldColumn(w: Text, lines: seq<Line>, before: nat)
    requires lines != []
    ensures Column(Fold(w, lines), before) == Column(Joint(lines), before) == LastColumn(lines, 0)
  {
  }

  lemma FoldValue(v: seq<Byte>, lines: seq<Line>)
    requires lines != []
    ensures EolsOctets(lines[1..]) == [] <==> |lines| == 1
    ensures v + EolOctets(lines[0]) + EolsOctets(lines[1..]) == v + EolsOctets(lines)
  {
    EolsAre(lines);
    if |lines| > 1 {
      EolsAre(lines[1..]);
    }
    Regroup(v, EolOctets(lines[0]), EolsOctets(lines[1..]));
  }

  lemma EolsAre(lines: seq<Line>)
    requires lines != []
    ensures EolsOctets(lines) == EolOctets(lines[0]) + EolsOctets(lines[1..]) && EolsOctets(lines) != [] && EolsOctets([]) == []
  {
    hide EolOctets;
    EolSome(lines[0]);
  }

  lemma Regroup(x: seq<Byte>, y: seq<Byte>, z: seq<Byte>)
    ensures x + y + z == x + (y + z)
  {
  }

  lemma EolSome(l: Line)
    ensures EolOctets(l) != [] && (EolOctets(l)[0] == 0x0A <==> EolOctets(l) == [0x0A])
  {
  }

  lemma JointRun(t: Text, lines: seq<Line>, s: S.Scan)
    requires s.pos < |t| && Fresh(s) && lines != [] && S.Peek(t, s.pos) == 0x5C && LinesAt(t, s.pos + 1, lines)
    ensures s.pos + 1 + |lines[0].eol| <= |t| && s.pos + 1 + |SpellLines(lines)| <= |t|
    ensures S.Text(t, false, s) == S.AfterText(t, false, Jointed(lines[0], s))
    ensures S.Blanks(t, false, Jointed(lines[0], s)) == S.Blanks(t, false, Folded(lines, s, 1 + |SpellLines(lines)|, []))
  {
    hide S.Blanks, S.Text, S.AfterText, AllBlank, IsEol, SpellLines, Lined, Folded, Blanked, Fresh, S.Continued;
    var l, rest := lines[0], lines[1..];
    FirstLine(lines);
    Continues(t, s, l);
    var c := Jointed(l, s);
    BlankRun(t, false, c, l.indent);
    BlankedIs(c, l.indent);
    LinesRun(t, false, Blanked(c, l.indent), rest);
    JointEnd(lines, s);
  }

  /** Behind a backslash and a line break. */
  function Jointed(l: Line, s: S.Scan): S.Scan {
    s.(pos := s.pos + 1 + |l.eol|, column := 0, blanks := true)
  }

  lemma BlankedIs(s: S.Scan, w: Text)
    ensures Blanked(s, w).pos == s.pos + |w| && Blanked(s, w).blanks == s.blanks
  {
    hide Utf8All;
  }

  lemma JointEnd(lines: seq<Line>, s: S.Scan)
    requires Fresh(s) && lines != [] && |SpellLines(lines)| == |lines[0].eol| + |lines[0].indent| + |SpellLines(lines[1..])|
    ensures Lined(Blanked(Jointed(lines[0], s), lines[0].indent), lines[1..]) == Folded(lines, s, 1 + |SpellLines(lines)|, [])
  {
    hide SpellLines, EolsOctets, Utf8All;
    assert [] + EolsOctets(lines[1..]) == EolsOctets(lines[1..]);
  }

  lemma JointStep(t: Text, lines: seq<Line>, s: S.Scan, next: Scalar)
    requires s.pos <= |t| && Fresh(s) && Proper(Joint(lines), false, next) && Holds(t, s.pos, Spell(Joint(lines)))
    requires var end := s.pos + |Spell(Joint(lines))|;
             S.Peek(t, end) == next && !IsBlankZ(next) && (LastColumn(lines, 0) == 0 ==> !S.AtIndicator(t, end))
    ensures S.Text(t, false, s) == S.Text(t, false, After(Joint(lines), s))
  {
    hide S.Text, S.AtIndicator, Breaks, IsBlankZ, SpellLines, After, Fresh, LinesAt, LastColumn, Spell, Proper, Holds, S.Peek;
    JointParts(lines, next);
    HoldsSplit(t, s.pos, [0x5C], SpellLines(lines));
    HoldsAt(t, s.pos, [0x5C], 0);
    LinesHold(t, s.pos + 1, lines, next);
    JointFinish(t, lines, s);
  }

  lemma JointParts(lines: seq<Line>, next: Scalar)
    ensures Spell(Joint(lines)) == [0x5C] + SpellLines(lines) && |Spell(Joint(lines))| == 1 + |SpellLines(lines)|
    ensures Proper(Joint(lines), false, next) ==> lines != [] && Breaks(lines, next)
  {
    hide Breaks, SpellLines;
  }

  lemma JointFinish(t: Text, lines: seq<Line>, s: S.Scan)
    requires s.pos < |t| && Fresh(s) && lines != [] && S.Peek(t, s.pos) == 0x5C && LinesAt(t, s.pos + 1, lines)
    requires var end := s.pos + 1 + |SpellLines(lines)|;
             !IsBlankZ(S.Peek(t, end)) && (LastColumn(lines, 0) == 0 ==> !S.AtIndicator(t, end))
    ensures After(Joint(lines), s).pos <= |t| && S.Text(t, false, s) == S.Text(t, false, After(Joint(lines), s))
  {
    hide S.Blanks, S.Text, S.AfterText, S.Joined, S.AtIndicator, IsBlankZ, SpellLines, After, Fresh, Jointed, LinesAt, LastColumn, Folded, S.Peek;
    JointRun(t, lines, s);
    JointJoined(lines, s);
    JointedIs(lines[0], s);
    NotQuote(t, Jointed(lines[0], s));
    if S.Peek(t, s.pos + 1 + |lines[0].eol|) == 0x22 {
      QuoteEnds(t, s.pos + 1, lines);
      QuoteInside(t, s.pos + 1 + |lines[0].eol|);
      JointCloses(t, lines, s);
    } else {
      FoldedIs(lines, s, 1 + |SpellLines(lines)|, []);
      Resume(t, false, Folded(lines, s, 1 + |SpellLines(lines)|, []));
    }
  }

  lemma QuoteInside(t: Text, i: nat)
    ensures S.Peek(t, i) == 0x22 ==> i < |t|
  {
  }

  lemma FoldedIs(lines: seq<Line>, s: S.Scan, n: nat, lead: seq<Byte>)
    requires lines != []
    ensures Folded(lines, s, n, lead).pos == s.pos + n && Folded(lines, s, n, lead).column == LastColumn(lines, 0)
  {
  }

  lemma JointedIs(l: Line, s: S.Scan)
    ensures Jointed(l, s).pos == s.pos + 1 + |l.eol|
  {
  }

  lemma NotQuote(t: Text, c: S.Scan)
    requires c.pos <= |t|
    ensures S.Peek(t, c.pos) != 0x22 ==> S.AfterText(t, false, c) == S.Blanks(t, false, c)
  {
    hide S.Blanks;
  }

  lemma JointJoined(lines: seq<Line>, s: S.Scan)
    requires Fresh(s) && lines != []
    ensures var e := Folded(lines, s, 1 + |SpellLines(lines)|, []);
            S.Joined(e).(blanks := false) == After(Joint(lines), s)
    ensures After(Joint(lines), s).pos == s.pos + 1 + |SpellLines(lines)|
  {
    hide SpellLines, EolsOctets, Column;
    FoldColumn([], lines, s.column);
    assert s.value + [] + EolsOctets(lines[1..]) == s.value + EolsOctets(lines[1..]);
  }

  /** The closing quote right behind the line break. */
  lemma JointCloses(t: Text, lines: seq<Line>, s: S.Scan)
    requires lines != [] && lines[0].indent == [] && lines[1..] == []
    requires S.Peek(t, s.pos + 1 + |lines[0].eol|) == 0x22
    requires s.pos + 1 + |lines[0].eol| < |t|
    ensures s.pos + 1 + |lines[0].eol| == After(Joint(lines), s).pos < |t|
    ensures S.AfterText(t, false, Jointed(lines[0], s)) == S.Text(t, false, After(Joint(lines), s))
  {
    hide S.Text, S.AfterText;
    assert lines == [lines[0]];
    assert SpellLines(lines) == lines[0].eol + [] + SpellLines(lines[1..]) == lines[0].eol;
    assert s.value + [] == s.value;
    AfterCloses(t, Jointed(lines[0], s));
    CloseStep(t, false, After(Joint(lines), s));
  }

  lemma AfterCloses(t: Text, c: S.Scan)
    requires c.pos < |t| && S.Peek(t, c.pos) == 0x22
    ensures S.AfterText(t, false, c) == S.Done(c.value, c.pos + 1, c.column + 1)
  {
    hide S.Blanks;
  }

  lemma Continues(t: Text, s: S.Scan, l: Line)
    requires s.pos < |t| && S.Peek(t, s.pos) == 0x5C && LineAt(t, s.pos + 1, l)
    ensures s.pos + 1 + |l.eol| <= |t|
    ensures S.Text(t, false, s) == S.AfterText(t, false, Jointed(l, s))
  {
    hide S.Blanks, S.Text, AllBlank;
    HoldsAt(t, s.pos + 1, l.eol, 0);
    if |l.eol| == 2 {
      HoldsAt(t, s.pos + 1, l.eol, 1);
    }
    EolFirst(l);
    EolLength(t, s.pos + 1, l.eol);
    BackslashBreak(t, s);
  }

  lemma BackslashBreak(t: Text, s: S.Scan)
    requires s.pos < |t| && S.Peek(t, s.pos) == 0x5C && IsBreak(S.Peek(t, s.pos + 1)) && s.pos + 1 + S.BreakLength(t, s.pos + 1) <= |t|
    ensures S.Text(t, false, s) == S.AfterText(t, false, S.Continued(t, s))
  {
    hide S.Blanks, S.Line, S.AfterText, S.Unescape, S.AllHex, S.HexCode, Utf8, S.CodeLength, S.Peek, S.BreakLength;
  }

  lemma EolLength(t: Text, i: nat, eol: Text)
    requires IsEol(eol) && S.Peek(t, i) == eol[0] && (|eol| == 2 ==> S.Peek(t, i + 1) == eol[1])
    requires eol == [0x0D] ==> S.Peek(t, i + 1) != 0x0A
    ensures S.BreakLength(t, i) == |eol|
  {
  }

  /** The closing quote right behind the first break. */
  lemma QuoteEnds(t: Text, i: nat, lines: seq<Line>)
    requires lines != [] && LinesAt(t, i, lines) && S.Peek(t, i + |lines[0].eol|) == 0x22
    ensures lines[0].indent == [] && lines[1..] == []
  {
    hide S.Peek, Holds;
    BehindEol(t, i, lines[0], lines[1..]);
  }

  lemma BehindEol(t: Text, i: nat, l: Line, rest: seq<Line>)
    requires LineAt(t, i, l) && LinesAt(t, i + |SpellLine(l)|, rest)
    ensures l.indent != [] ==> IsBlank(S.Peek(t, i + |l.eol|))
    ensures l.indent == [] && rest != [] ==> IsBreak(S.Peek(t, i + |l.eol|))
  {
    hide S.Peek, IsEol;
    if l.indent != [] {
      HoldsAt(t, i + |l.eol|, l.indent, 0);
    } else if rest != [] {
      EolFirst(rest[0]);
      assert |SpellLine(l)| == |l.eol|;
      HoldsAt(t, i + |l.eol|, rest[0].eol, 0);
    }
  }

  // ----- the whole scalar

  lemma LeafStep(t: Text, single: bool, p: Piece, s: S.Scan)
    requires s.pos <= |t| && Fresh(s) && Proper(p, single, 0) && Holds(t, s.pos, Spell(p))
    requires p.Plain? || p.Apostrophe? || p.Letter? || p.Code?
    ensures S.Text(t, single, s) == S.Text(t, single, After(p, s))
  {
    hide S.Text, Utf8, IsBlankZ, S.Unescape, Number, IsDigit;
    match p
    case Plain(c) => PlainStep(t, single, c, s);
    case Apostrophe => ApostropheStep(t, s);
    case Letter(c) => LetterStep(t, c, s);
    case Code(c, digits) => CodeStep(t, c, digits, s);
  }

  lemma PieceStep(t: Text, single: bool, p: Piece, s: S.Scan, next: Scalar)
    requires s.pos <= |t| && Fresh(s) && Proper(p, single, next) && Holds(t, s.pos, Spell(p))
    requires var end := s.pos + |Spell(p)|;
             S.Peek(t, end) == next && (Blank(p) || p.Joint? ==> !IsBlankZ(next))
             && ((p.Fold? || p.Joint?) && Column(p, 1) == 0 ==> !S.AtIndicator(t, end))
    ensures S.Text(t, single, s) == S.Text(t, single, After(p, s))
    ensures Fresh(After(p, s))
  {
    hide S.Text, S.AtIndicator, IsBlankZ, After, Column, Fresh, S.Peek, Spell, Proper, Holds;
    AfterIs(p, s);
    NextMatters(p, single, next);
    match p
    case Gap(w) =>
      SpellGap(w);
      GapStep(t, single, w, s);
    case Fold(w, lines) =>
      SomeLines(w, lines, single, next);
      FoldColumn(w, lines, 1);
      FoldStep(t, single, w, lines, s, next);
    case Joint(lines) =>
      SomeLines([], lines, single, next);
      FoldColumn([], lines, 1);
      JointStep(t, lines, s, next);
    case _ => LeafStep(t, single, p, s);
  }

  lemma NextMatters(p: Piece, single: bool, next: Scalar)
    requires Proper(p, single, next)
    ensures p.Fold? || p.Joint? || Proper(p, single, 0)
    ensures p.Joint? ==> !single
  {
  }

  lemma SpellGap(w: Text)
    ensures Spell(Gap(w)) == w
  {
  }

  lemma SomeLines(w: Text, lines: seq<Line>, single: bool, next: Scalar)
    ensures Proper(Fold(w, lines), single, next) || Proper(Joint(lines), single, next) ==> lines != []
  {
  }

  lemma CloseStep(t: Text, single: bool, s: S.Scan)
    requires s.pos < |t| && S.Peek(t, s.pos) == S.Quote(single) && (single ==> S.Peek(t, s.pos + 1) != 0x27)
    ensures S.Text(t, single, s) == S.Done(s.value, s.pos + 1, s.column + 1)
  {
    hide S.Blanks, S.Line, Utf8, S.Unescape, S.AllHex, S.HexCode, S.CodeLength;
  }

  /** A piece that is not blank begins with a character that is not. */
  lemma HeadIs(ps: seq<Piece>, single: bool, next: Scalar)
    requires AllProper(ps, single, next) && (ps == [] || !Blank(ps[0]))
    ensures IsBlankZ(Head(ps, next)) ==> IsBlankZ(next)
  {
  }

  lemma HeadHolds(t: Text, i: nat, ps: seq<Piece>, next: Scalar)
    requires Holds(t, i, SpellAll(ps) + [next]) && (ps == [] || Spell(ps[0]) != [])
    ensures S.Peek(t, i) == Head(ps, next) && i < |t|
  {
    hide Spell;
    var w := SpellAll(ps) + [next];
    HoldsAt(t, i, w, 0);
    assert w[0] == Head(ps, next);
  }

  lemma SomeSpelling(p: Piece, single: bool, next: Scalar)
    requires Proper(p, single, next)
    ensures Spell(p) != []
  {
  }

  lemma {:induction false} TextMeans(t: Text, single: bool, ps: seq<Piece>, s: S.Scan)
    requires s.pos <= |t| && Fresh(s) && AllProper(ps, single, S.Quote(single)) && NoIndicator(t, s.pos, ps)
    requires Holds(t, s.pos, SpellAll(ps) + [S.Quote(single)])
    requires single ==> S.Peek(t, s.pos + |SpellAll(ps)| + 1) != 0x27
    ensures var r := S.Text(t, single, s);
            r.Done? && r.value == s.value + MeansAll(ps) && r.pos == s.pos + |SpellAll(ps)| + 1
    decreases |ps|
  {
    hide S.Text, Spell, Means, Proper, S.AtIndicator, IsBlankZ, Head, Column, Fresh;
    var q := S.Quote(single);
    if ps == [] {
      assert SpellAll(ps) + [q] == [q];
      HoldsAt(t, s.pos, [q], 0);
      CloseStep(t, single, s);
      assert s.value + [] == s.value;
    } else {
      var p, rest := ps[0], ps[1..];
      assert SpellAll(ps) + [q] == Spell(p) + (SpellAll(rest) + [q]);
      HoldsSplit(t, s.pos, Spell(p), SpellAll(rest) + [q]);
      var next := Head(rest, q);
      if rest != [] {
        SomeSpelling(rest[0], single, Head(rest[1..], q));
      }
      HeadHolds(t, s.pos + |Spell(p)|, rest, q);
      NotBlankNext(p, rest, single);
      PieceStep(t, single, p, s, next);
      AfterIs(p, s);
      TextMeans(t, single, rest, After(p, s));
      assert s.value + Means(p) + MeansAll(rest) == s.value + (Means(p) + MeansAll(rest));
    }
  }

  lemma AfterIs(p: Piece, s: S.Scan)
    ensures After(p, s).pos == s.pos + |Spell(p)| && After(p, s).value == s.value + Means(p)
    ensures Fresh(s) ==> Fresh(After(p, s))
  {
  }

  lemma NotBlankNext(p: Piece, rest: seq<Piece>, single: bool)
    requires AllProper([p] + rest, single, S.Quote(single))
    ensures Blank(p) || p.Joint? ==> !IsBlankZ(Head(rest, S.Quote(single)))
  {
    hide Proper;
    var q := S.Quote(single);
    assert ([p] + rest)[1..] == rest;
    if Blank(p) || p.Joint? {
      HeadIs(rest, single, q);
    }
  }

  /**
   * Scanning a quoted scalar that is written with these pieces gives what they mean, and ends right
   * behind the closing quote.
   */
  lemma ScanMeans(t: Text, single: bool, ps: seq<Piece>, pos: nat, column: nat)
    requires pos < |t| && AllProper(ps, single, S.Quote(single)) && NoIndicator(t, pos + 1, ps)
    requires Holds(t, pos + 1, SpellAll(ps) + [S.Quote(single)])
    requires single ==> S.Peek(t, pos + 1 + |SpellAll(ps)| + 1) != 0x27
    ensures var r := S.ScanQuoted(t, single, pos, column);
            r.Done? && r.value == MeansAll(ps) && r.pos == pos + 1 + |SpellAll(ps)| + 1
  {
    hide S.Text, SpellAll, MeansAll, AllProper, S.AtIndicator, S.Quote;
    var s := S.Scan(pos + 1, column + 1, [], [], [], [], false);
    NotNul(t, single, ps, pos + 1);
    TextMeans(t, single, ps, s);
    assert [] + MeansAll(ps) == MeansAll(ps);
  }

  lemma NotNul(t: Text, single: bool, ps: seq<Piece>, i: nat)
    requires AllProper(ps, single, S.Quote(single)) && Holds(t, i, SpellAll(ps) + [S.Quote(single)])
    ensures i < |t| && S.Peek(t, i) != 0
  {
    hide AllProper;
    var q := S.Quote(single);
    if ps == [] {
      HoldsAt(t, i, SpellAll(ps) + [q], 0);
    } else {
      FirstProper(ps, single, q);
      SomeSpelling(ps[0], single, Head(ps[1..], q));
      HeadHolds(t, i, ps, q);
    }
  }

  lemma FirstProper(ps: seq<Piece>, single: bool, next: Scalar)
    requires AllProper(ps, single, next) && ps != []
    ensures Proper(ps[0], single, Head(ps[1..], next)) && (Spell(ps[0]) != [] ==> Spell(ps[0])[0] != 0)
  {
    hide Spell, Proper, Head;
    StartsWell(ps[0], single, Head(ps[1..], next));
  }

  lemma StartsWell(p: Piece, single: bool, next: Scalar)
    requires Proper(p, single, next)
    ensures Spell(p) != [] ==> Spell(p)[0] != 0
  {
    hide S.IsCode, Number, IsLetter, IsDigit;
    if p.Fold? {
      FoldStarts(p.blanks, p.lines, next);
    }
  }

  lemma FoldStarts(w: Text, lines: seq<Line>, next: Scalar)
    requires AllBlank(w) && lines != [] && Breaks(lines, next)
    ensures w + SpellLines(lines) != [] ==> (w + SpellLines(lines))[0] != 0
  {
    EolFirst(lines[0]);
    var x := w + SpellLines(lines);
    assert SpellLines(lines)[0] == lines[0].eol[0];
    assert x[0] == if w == [] then lines[0].eol[0] else w[0];
  }

  // ----- and nothing else is accepted

  lemma {:induction false} LinesProper(t: Text, i: nat, lines: seq<Line>)
    requires i <= |t| && LinesAt(t, i, lines)
    ensures Holds(t, i, SpellLines(lines)) && Breaks(lines, S.Peek(t, i + |SpellLines(lines)|))
    decreases |lines|
  {
    hide IsEol, AllBlank, Holds, S.Peek;
    if lines == [] {
      HoldsNothing(t, i);
    } else {
      var l, rest := lines[0], lines[1..];
      HoldsJoin(t, i, l.eol, l.indent);
      HoldsBound(t, i, SpellLine(l));
      LinesProper(t, i + |SpellLine(l)|, rest);
      HoldsJoin(t, i, SpellLine(l), SpellLines(rest));
      SecondIs(t, i, lines);
    }
  }

  lemma HoldsNothing(t: Text, i: nat)
    requires i <= |t|
    ensures Holds(t, i, [])
  {
  }

  lemma TwoHere(t: Text, i: nat, c: Scalar, d: Scalar)
    requires S.Peek(t, i) == c && S.Peek(t, i + 1) == d && d != 0
    ensures Holds(t, i, [c, d])
  {
    assert t[i..i + 2] == [t[i], t[i + 1]];
  }

  lemma HoldsJoin(t: Text, i: nat, v: Text, w: Text)
    requires Holds(t, i, v) && Holds(t, i + |v|, w)
    ensures Holds(t, i, v + w)
  {
    assert t[i..i + |v + w|] == t[i..i + |v|] + t[i + |v|..i + |v| + |w|];
  }

  lemma SecondIs(t: Text, i: nat, lines: seq<Line>)
    requires lines != [] && LineAt(t, i, lines[0]) && Holds(t, i, SpellLines(lines))
    ensures lines[0].eol == [0x0D] ==>
              (SpellLine(lines[0]) + SpellLines(lines[1..]) + [S.Peek(t, i + |SpellLines(lines)|)])[1] != 0x0A
  {
    var w := SpellLine(lines[0]) + SpellLines(lines[1..]);
    assert w == SpellLines(lines);
    if lines[0].eol == [0x0D] && |w| > 1 {
      HoldsAt(t, i, w, 1);
    }
  }

  /** The blanks at a position. */
  function BlanksAt(t: Text, i: nat): (w: Text)
    requires i <= |t|
    ensures Holds(t, i, w) && AllBlank(w) && !IsBlank(S.Peek(t, i + |w|))
    decreases |t| - i
  {
    if IsBlank(S.Peek(t, i)) then [t[i]] + BlanksAt(t, i + 1) else []
  }

  /** The line break at a position. */
  function EolAt(t: Text, i: nat): (eol: Text)
    requires i < |t| && IsBreak(t[i])
    ensures IsEol(eol) && Holds(t, i, eol) && (eol == [0x0D] ==> S.Peek(t, i + 1) != 0x0A)
  {
    if t[i] == 0x0D && S.Peek(t, i + 1) == 0x0A then [0x0D, 0x0A] else [t[i]]
  }

  /** The line breaks at a position. */
  function RunAt(t: Text, i: nat): seq<Line>
    requires i <= |t|
    decreases |t| - i
  {
    if i < |t| && IsBreak(t[i]) then
      var eol := EolAt(t, i);
      var indent := BlanksAt(t, i + |eol|);
      [Line(eol, indent)] + RunAt(t, i + |eol| + |indent|)
    else []
  }

  lemma {:induction false} RunIs(t: Text, i: nat)
    requires i <= |t|
    ensures LinesAt(t, i, RunAt(t, i)) && i + |SpellLines(RunAt(t, i))| <= |t|
    ensures !IsBreak(S.Peek(t, i + |SpellLines(RunAt(t, i))|))
    ensures RunAt(t, i) != [] ==> !IsBlank(S.Peek(t, i + |SpellLines(RunAt(t, i))|))
    ensures RunAt(t, i) == [] <==> !IsBreak(S.Peek(t, i))
    decreases |t| - i
  {
    hide IsBreak, IsBlank, IsEol, AllBlank, BlanksAt, EolAt, LinesAt, SpellLines;
    NulIsNoBreak();
    if i < |t| && IsBreak(t[i]) {
      var eol := EolAt(t, i);
      var l := Line(eol, BlanksAt(t, i + |eol|));
      var next := i + |eol| + |l.indent|;
      EolNotEmpty(eol);
      RunIs(t, next);
      RunCons(t, i, l, RunAt(t, next));
    } else {
      NoSpelling();
      NoLines(t, i);
    }
  }

  lemma NoLines(t: Text, i: nat)
    ensures LinesAt(t, i, [])
  {
  }

  lemma RunCons(t: Text, i: nat, l: Line, rest: seq<Line>)
    requires LineAt(t, i, l) && LinesAt(t, i + |l.eol| + |l.indent|, rest)
    ensures LinesAt(t, i, [l] + rest) && |SpellLines([l] + rest)| == |l.eol| + |l.indent| + |SpellLines(rest)|
    ensures rest == [] ==> SpellLines(rest) == []
  {
    hide LineAt;
    assert ([l] + rest)[1..] == rest;
  }

  lemma NulIsNoBreak()
    ensures !IsBreak(0) && !IsBlank(0)
  {
  }

  lemma EolNotEmpty(eol: Text)
    requires IsEol(eol)
    ensures eol != []
  {
  }

  /** No way on from a NUL, or from a document indicator at the start of a line. */
  lemma Stuck(t: Text, single: bool, r: S.Scan)
    requires r.pos <= |t| && !IsBlank(S.Peek(t, r.pos)) && !IsBreak(S.Peek(t, r.pos))
    requires S.Peek(t, r.pos) == 0 || (r.column == 0 && S.AtIndicator(t, r.pos))
    ensures S.Blanks(t, single, r).Failed?
  {
    hide S.Text, S.AtIndicator, S.Joined;
    JoinedStays(r);
  }

  lemma {:induction false} DigitsWritten(t: Text, i: nat, n: nat)
    requires S.AllHex(t, i, n) && i + n <= |t|
    ensures var digits := t[i..i + n];
            S.HexCode(t, i, n) == Number(digits) && forall k :: 0 <= k < n ==> IsDigit(digits[k])
  {
    if n > 0 {
      DigitsWritten(t, i, n - 1);
      assert t[i..i + n][..n - 1] == t[i..i + n - 1];
    }
  }

  /** The pieces from here to the closing quote. */
  predicate Written(t: Text, single: bool, ps: seq<Piece>, i: nat) {
    var q := S.Quote(single);
    && AllProper(ps, single, q) && NoIndicator(t, i, ps) && Holds(t, i, SpellAll(ps) + [q])
    && (single ==> S.Peek(t, i + |SpellAll(ps)| + 1) != 0x27)
    && (!IsBlankZ(S.Peek(t, i)) ==> ps == [] || !Blank(ps[0]))
  }

  lemma WrittenCons(t: Text, single: bool, p: Piece, rest: seq<Piece>, i: nat)
    requires i <= |t| && Holds(t, i, Spell(p)) && Written(t, single, rest, i + |Spell(p)|)
    requires Proper(p, single, S.Peek(t, i + |Spell(p)|))
    requires Blank(p) || p.Joint? ==> !IsBlankZ(S.Peek(t, i + |Spell(p)|))
    requires (p.Fold? || p.Joint?) && Column(p, 1) == 0 ==> !S.AtIndicator(t, i + |Spell(p)|)
    requires !IsBlankZ(S.Peek(t, i)) ==> !Blank(p)
    ensures Written(t, single, [p] + rest, i)
  {
    hide Spell, Proper, IsBlankZ, S.AtIndicator, Blank, Column;
    var q, ps := S.Quote(single), [p] + rest;
    assert ps[1..] == rest;
    HoldsJoin(t, i, Spell(p), SpellAll(rest) + [q]);
    assert Spell(p) + (SpellAll(rest) + [q]) == SpellAll(ps) + [q];
    assert |SpellAll(ps)| == |Spell(p)| + |SpellAll(rest)|;
    if rest != [] {
      SomeSpelling(rest[0], single, Head(rest[1..], q));
    }
    HeadHolds(t, i + |Spell(p)|, rest, q);
  }

  lemma ClosedWritten(t: Text, single: bool, i: nat)
    requires i < |t| && S.Peek(t, i) == S.Quote(single) && (single ==> S.Peek(t, i + 1) != 0x27)
    ensures Written(t, single, [], i)
  {
    assert SpellAll([]) + [S.Quote(single)] == [S.Quote(single)];
    assert t[i..i + 1] == [S.Quote(single)];
  }

  /** The piece at a position that is not the closing quote, if scanning succeeds from there. */
  lemma LeafWritten(t: Text, single: bool, s: S.Scan) returns (p: Piece)
    requires s.pos < |t| && !IsBlankZ(S.Peek(t, s.pos)) && S.Text(t, single, s).Done?
    requires !(S.Peek(t, s.pos) == S.Quote(single) && (single ==> S.Peek(t, s.pos + 1) != 0x27))
    requires !(!single && S.Peek(t, s.pos) == 0x5C && IsBreak(S.Peek(t, s.pos + 1)))
    ensures !Blank(p) && !p.Joint? && Proper(p, single, 0) && Holds(t, s.pos, Spell(p))
  {
    hide S.Blanks, S.Line, Utf8, S.Unescape, S.AllHex, S.HexCode, S.CodeLength;
    var i := s.pos;
    var c, d := S.Peek(t, i), S.Peek(t, i + 1);
    if single && c == 0x27 {
      p := Apostrophe;
      TwoHere(t, i, 0x27, 0x27);
    } else if single || c != 0x5C {
      p := Plain(c);
      assert t[i..i + 1] == [c];
    } else {
      LetterIsNoBreak(d);
      NulLetter();
      TwoHere(t, i, 0x5C, d);
      if IsLetter(d) {
        p := Letter(d);
      } else {
        p := CodeWritten(t, i, d);
      }
    }
  }

  lemma CodeWritten(t: Text, i: nat, d: Scalar) returns (p: Piece)
    requires Holds(t, i, [0x5C, d]) && S.CodeLength(d) > 0 && S.AllHex(t, i + 2, S.CodeLength(d))
    requires S.IsCode(S.HexCode(t, i + 2, S.CodeLength(d)))
    ensures p.Code? && Proper(p, false, 0) && Holds(t, i, Spell(p))
  {
    hide S.AllHex, S.HexCode, S.Unescape;
    var n := S.CodeLength(d);
    LetterIsNoBreak(d);
    S.HexInside(t, i + 2, n);
    DigitsWritten(t, i + 2, n);
    p := Code(d, t[i + 2..i + 2 + n]);
    HoldsJoin(t, i, [0x5C, d], t[i + 2..i + 2 + n]);
  }

  lemma NulLetter()
    ensures !IsLetter(0) && S.CodeLength(0) == 0
  {
  }

  lemma BlankEnter(t: Text, single: bool, s: S.Scan)
    requires s.pos <= |t| && IsBlankZ(S.Peek(t, s.pos)) && S.Text(t, single, s).Done?
    ensures S.Peek(t, s.pos) != 0 && S.Text(t, single, s) == S.Blanks(t, single, s)
  {
    hide S.Blanks;
    if S.Peek(t, s.pos) == 0 {
      Stuck(t, single, s);
    }
  }

  lemma GapWritten(t: Text, single: bool, w: Text, s: S.Scan)
    requires s.pos <= |t| && Fresh(s) && w != [] && AllBlank(w) && Holds(t, s.pos, w)
    requires !IsBlank(S.Peek(t, s.pos + |w|)) && !IsBreak(S.Peek(t, s.pos + |w|)) && S.Blanks(t, single, s).Done?
    ensures !IsBlankZ(S.Peek(t, s.pos + |w|))
  {
    hide S.Blanks, S.Joined, Utf8All, Blanked, After, Fresh, AllBlank, S.Peek, IsBlank, IsBreak, Holds;
    HoldsBound(t, s.pos, w);
    BlankRun(t, single, s, w);
    GapJoined(w, s);
    BlankZIs(S.Peek(t, s.pos + |w|));
    if S.Peek(t, s.pos + |w|) == 0 {
      Stuck(t, single, Blanked(s, w));
    }
  }

  lemma HoldsBound(t: Text, i: nat, w: Text)
    requires Holds(t, i, w)
    ensures i + |w| <= |t|
  {
  }

  lemma BlankZIs(c: Scalar)
    ensures IsBlankZ(c) <==> IsBlank(c) || IsBreak(c) || c == 0
  {
  }

  lemma FoldWritten(t: Text, single: bool, w: Text, lines: seq<Line>, s: S.Scan)
    requires s.pos <= |t| && Fresh(s) && lines != [] && AllBlank(w) && Holds(t, s.pos, w) && LinesAt(t, s.pos + |w|, lines)
    requires var end := s.pos + |w| + |SpellLines(lines)|;
             !IsBlank(S.Peek(t, end)) && !IsBreak(S.Peek(t, end)) && S.Blanks(t, single, s).Done?
    ensures var end := s.pos + |w| + |SpellLines(lines)|;
            !IsBlankZ(S.Peek(t, end)) && (LastColumn(lines, 0) == 0 ==> !S.AtIndicator(t, end))
  {
    hide S.Blanks, S.AtIndicator, Fresh, AllBlank, S.Peek, IsBlank, IsBreak, Holds, LinesAt, Folded, SpellLines, LastColumn;
    FoldRun(t, single, w, lines, s);
    var end := s.pos + |w| + |SpellLines(lines)|;
    var r := Folded(lines, s, |w + SpellLines(lines)|, EolOctets(lines[0]));
    FoldedIs(lines, s, |w + SpellLines(lines)|, EolOctets(lines[0]));
    BlankZIs(S.Peek(t, end));
    if S.Peek(t, end) == 0 || (LastColumn(lines, 0) == 0 && S.AtIndicator(t, end)) {
      Stuck(t, single, r);
    }
  }

  lemma JointWritten(t: Text, lines: seq<Line>, s: S.Scan)
    requires s.pos < |t| && Fresh(s) && lines != [] && S.Peek(t, s.pos) == 0x5C && LinesAt(t, s.pos + 1, lines)
    requires var end := s.pos + 1 + |SpellLines(lines)|;
             !IsBlank(S.Peek(t, end)) && !IsBreak(S.Peek(t, end)) && S.Text(t, false, s).Done?
    ensures var end := s.pos + 1 + |SpellLines(lines)|;
            !IsBlankZ(S.Peek(t, end)) && (LastColumn(lines, 0) == 0 ==> !S.AtIndicator(t, end))
  {
    hide S.Blanks, S.Text, S.AfterText, S.AtIndicator, Fresh, S.Peek, IsBlank, IsBreak, LinesAt, Folded, SpellLines, LastColumn, Jointed;
    JointRun(t, lines, s);
    JointedIs(lines[0], s);
    NotQuote(t, Jointed(lines[0], s));
    var end := s.pos + 1 + |SpellLines(lines)|;
    BlankZIs(S.Peek(t, end));
    if S.Peek(t, s.pos + 1 + |lines[0].eol|) == 0x22 {
      QuoteEnds(t, s.pos + 1, lines);
      OneLine(lines);
      QuoteIsNothingElse(t, end);
    } else {
      FoldedIs(lines, s, 1 + |SpellLines(lines)|, []);
      if S.Peek(t, end) == 0 || (LastColumn(lines, 0) == 0 && S.AtIndicator(t, end)) {
        Stuck(t, false, Folded(lines, s, 1 + |SpellLines(lines)|, []));
      }
    }
  }

  lemma OneLine(lines: seq<Line>)
    requires lines != [] && lines[0].indent == [] && lines[1..] == []
    ensures |SpellLines(lines)| == |lines[0].eol|
  {
  }

  lemma QuoteIsNothingElse(t: Text, i: nat)
    ensures S.Peek(t, i) == 0x22 ==> !S.AtIndicator(t, i) && S.Peek(t, i) != 0
  {
  }

  /** The blanks and line breaks at a position, as a piece. */
  lemma BlankWritten(t: Text, single: bool, s: S.Scan) returns (p: Piece)
    requires s.pos <= |t| && Fresh(s) && IsBlankZ(S.Peek(t, s.pos)) && S.Text(t, single, s).Done?
    ensures var end := s.pos + |Spell(p)|;
            && Blank(p) && Spell(p) != [] && Holds(t, s.pos, Spell(p)) && Proper(p, single, S.Peek(t, end))
            && !IsBlankZ(S.Peek(t, end)) && (p.Fold? && Column(p, 1) == 0 ==> !S.AtIndicator(t, end))
  {
    hide S.Text, S.Blanks, S.AtIndicator, AllBlank, IsBreak, IsBlank, IsBlankZ, Breaks, SpellLines, LinesAt, Fresh, Column, BlanksAt, RunAt, S.Peek, Holds;
    BlankEnter(t, single, s);
    var w := BlanksAt(t, s.pos);
    HoldsBound(t, s.pos, w);
    var lines := RunAt(t, s.pos + |w|);
    RunIs(t, s.pos + |w|);
    BlankZIs(S.Peek(t, s.pos));
    if lines == [] {
      NoSpelling();
      p := Gap(w);
      GapWritten(t, single, w, s);
    } else {
      p := Fold(w, lines);
      FoldWritten(t, single, w, lines, s);
      LinesProper(t, s.pos + |w|, lines);
      HoldsJoin(t, s.pos, w, SpellLines(lines));
      FoldColumn(w, lines, 1);
      NotNothing(lines, S.Peek(t, s.pos + |w| + |SpellLines(lines)|));
      assert |w + SpellLines(lines)| == |w| + |SpellLines(lines)|;
    }
  }

  lemma NoSpelling()
    ensures SpellLines([]) == []
  {
  }

  lemma NotNothing(lines: seq<Line>, next: Scalar)
    requires lines != [] && Breaks(lines, next)
    ensures SpellLines(lines) != []
  {
  }

  lemma BreaksWritten(t: Text, s: S.Scan) returns (p: Piece)
    requires s.pos < |t| && Fresh(s) && S.Peek(t, s.pos) == 0x5C && IsBreak(S.Peek(t, s.pos + 1)) && S.Text(t, false, s).Done?
    ensures var end := s.pos + |Spell(p)|;
            && p.Joint? && Holds(t, s.pos, Spell(p)) && Proper(p, false, S.Peek(t, end))
            && !IsBlankZ(S.Peek(t, end)) && (Column(p, 1) == 0 ==> !S.AtIndicator(t, end))
  {
    hide S.Text, S.AtIndicator, AllBlank, IsBreak, IsBlank, IsBlankZ, Breaks, SpellLines, LinesAt, Fresh, Column, RunAt, Holds;
    BlankInside(t, s.pos + 1);
    var lines := RunAt(t, s.pos + 1);
    RunIs(t, s.pos + 1);
    NoSpelling();
    p := Joint(lines);
    JointWritten(t, lines, s);
    LinesProper(t, s.pos + 1, lines);
    HoldsOne(t, s.pos, 0x5C);
    HoldsJoin(t, s.pos, [0x5C], SpellLines(lines));
    FoldColumn([], lines, 1);
    assert |[0x5C] + SpellLines(lines)| == 1 + |SpellLines(lines)|;
  }

  lemma HoldsOne(t: Text, i: nat, c: Scalar)
    requires i < |t| && S.Peek(t, i) == c
    ensures Holds(t, i, [c])
  {
  }

  lemma BlankInside(t: Text, i: nat)
    requires IsBreak(S.Peek(t, i))
    ensures i < |t|
  {
  }

  lemma {:induction false} TextWritten(t: Text, single: bool, s: S.Scan) returns (ps: seq<Piece>)
    requires s.pos <= |t| && Fresh(s) && S.Text(t, single, s).Done?
    ensures Written(t, single, ps, s.pos)
    decreases |t| - s.pos
  {
    hide S.Text, Spell, Proper, IsBlankZ, IsBreak, S.AtIndicator, Column, Written, Fresh, After, Blank;
    var i := s.pos;
    if i < |t| && S.Peek(t, i) == S.Quote(single) && (single ==> S.Peek(t, i + 1) != 0x27) {
      ps := [];
      ClosedWritten(t, single, i);
    } else {
      var p;
      if IsBlankZ(S.Peek(t, i)) {
        p := BlankWritten(t, single, s);
      } else {
        NotBlank(t, i);
        if !single && S.Peek(t, i) == 0x5C && IsBreak(S.Peek(t, i + 1)) {
          p := BreaksWritten(t, s);
        } else {
          p := LeafWritten(t, single, s);
          LeafNext(p, single, S.Peek(t, i + |Spell(p)|));
        }
      }
      HoldsBound(t, i, Spell(p));
      KindsDiffer(p);
      PieceStep(t, single, p, s, S.Peek(t, i + |Spell(p)|));
      AfterIs(p, s);
      SomeSpelling(p, single, S.Peek(t, i + |Spell(p)|));
      var rest := TextWritten(t, single, After(p, s));
      ps := [p] + rest;
      WrittenCons(t, single, p, rest, i);
    }
  }

  lemma NotBlank(t: Text, i: nat)
    ensures !IsBlankZ(S.Peek(t, i)) ==> i < |t|
  {
  }

  lemma LeafNext(p: Piece, single: bool, next: Scalar)
    requires Proper(p, single, 0) && !Blank(p) && !p.Joint?
    ensures Proper(p, single, next)
  {
  }

  lemma KindsDiffer(p: Piece)
    ensures Blank(p) <==> p.Gap? || p.Fold?
  {
  }

  /** A quoted scalar is accepted exactly if it is written with such pieces, and then it is what they mean. */
  lemma ScanIff(t: Text, single: bool, pos: nat, column: nat, value: seq<Byte>, end: nat)
    requires pos < |t|
    ensures var r := S.ScanQuoted(t, single, pos, column);
            (r.Done? && r.value == value && r.pos == end) <==>
            exists ps :: Written(t, single, ps, pos + 1) && MeansAll(ps) == value && end == pos + 1 + |SpellAll(ps)| + 1
  {
    hide S.Text, Spell, Proper, IsBlankZ, S.AtIndicator, SpellAll, MeansAll, AllProper, NoIndicator;
    var r := S.ScanQuoted(t, single, pos, column);
    if r.Done? {
      var ps := TextWritten(t, single, S.Scan(pos + 1, column + 1, [], [], [], [], false));
      ScanMeans(t, single, ps, pos, column);
    }
    if ps :| Written(t, single, ps, pos + 1) && MeansAll(ps) == value && end == pos + 1 + |SpellAll(ps)| + 1 {
      ScanMeans(t, single, ps, pos, column);
    }
  }

  // ----- in numbers

  /** The letters of escapes, and what they stand for. */
  lemma LetterTable(c: Scalar)
    ensures Means(Letter(0x30)) == [0x00] && Means(Letter(0x61)) == [0x07] && Means(Letter(0x62)) == [0x08]
    ensures Means(Letter(0x74)) == [0x09] && Means(Letter(0x09)) == [0x09] && Means(Letter(0x6E)) == [0x0A]
    ensures Means(Letter(0x76)) == [0x0B] && Means(Letter(0x66)) == [0x0C] && Means(Letter(0x72)) == [0x0D]
    ensures Means(Letter(0x65)) == [0x1B] && Means(Letter(0x20)) == [0x20] && Means(Letter(0x22)) == [0x22]
    ensures Means(Letter(0x2F)) == [0x2F] && Means(Letter(0x5C)) == [0x5C] && Means(Letter(0x4E)) == [0xC2, 0x85]
    ensures Means(Letter(0x5F)) == [0xC2, 0xA0] && Means(Letter(0x4C)) == [0xE2, 0x80, 0xA8] && Means(Letter(0x50)) == [0xE2, 0x80, 0xA9]
    ensures c !in [0x30, 0x61, 0x62, 0x74, 0x09, 0x6E, 0x76, 0x66, 0x72, 0x65, 0x20, 0x22, 0x2F, 0x5C, 0x4E, 0x5F, 0x4C, 0x50]
            ==> !Proper(Letter(c), false, 0)
  {
  }

  /** n line feeds. */
  function Feeds(n: nat): (r: seq<Byte>)
    ensures |r| == n && forall k :: 0 <= k < n ==> r[k] == 0x0A
  {
    if n == 0 then [] else [0x0A] + Feeds(n - 1)
  }

  lemma {:induction false} EolsAreFeeds(lines: seq<Line>)
    requires forall k :: 0 <= k < |lines| ==> lines[k].eol != [0x2028] && lines[k].eol != [0x2029]
    ensures EolsOctets(lines) == Feeds(|lines|)
  {
    if lines != [] {
      EolsAreFeeds(lines[1..]);
    }
  }

  /**
   * Folding: of n line breaks between other characters one becomes a space, and of more the first is
   * dropped and the others become line feeds; blanks beside them are dropped. U+2028 and U+2029 stay as
   * they are. Behind a backslash nothing comes in for the first break.
   */
  lemma Folding(blanks: Text, lines: seq<Line>)
    requires lines != []
    ensures var plain := forall k :: 0 <= k < |lines| ==> lines[k].eol != [0x2028] && lines[k].eol != [0x2029];
            && (plain ==> Means(Fold(blanks, lines)) == if |lines| == 1 then [0x20] else Feeds(|lines| - 1))
            && (plain ==> Means(Joint(lines)) == Feeds(|lines| - 1))
    ensures lines[0].eol == [0x2028] ==> Means(Fold(blanks, lines)) == [0xE2, 0x80, 0xA8] + EolsOctets(lines[1..])
    ensures lines[0].eol == [0x2029] ==> Means(Fold(blanks, lines)) == [0xE2, 0x80, 0xA9] + EolsOctets(lines[1..])
  {
    if forall k :: 0 <= k < |lines| ==> lines[k].eol != [0x2028] && lines[k].eol != [0x2029] {
      EolsAreFeeds(lines[1..]);
    }
  }

  function Plains(x: Text): seq<Piece> {
    if x == [] then [] else [Plain(x[0])] + Plains(x[1..])
  }

  predicate PlainText(x: Text, single: bool) {
    forall k :: 0 <= k < |x| ==> !IsBlankZ(x[k]) && x[k] != (if single then 0x27 else 0x22) && (single || x[k] != 0x5C)
  }

  lemma {:induction false} Utf8AllCons(x: Text)
    requires x != []
    ensures Utf8All(x) == Utf8(x[0]) + Utf8All(x[1..])
  {
    hide Utf8, Utf8All;
    var n := |x| - 1;
    Utf8AllSnoc(x, n);
    assert x[..n + 1] == x;
    if n == 0 {
      NoBlanks();
      assert x[1..] == x[..0] == [];
      assert [] + Utf8(x[0]) == Utf8(x[0]) + [];
    } else {
      Utf8AllCons(x[..n]);
      Utf8AllSnoc(x[1..], n - 1);
      assert x[1..][..n] == x[1..] && x[1..][..n - 1] == x[..n][1..] && x[1..][n - 1] == x[n];
      Regroup(Utf8(x[0]), Utf8All(x[..n][1..]), Utf8(x[n]));
    }
  }

  /** Plain characters in front of other pieces. */
  lemma {:induction false} PlainsFirst(t: Text, i: nat, x: Text, ps: seq<Piece>, single: bool)
    requires PlainText(x, single) && AllProper(ps, single, S.Quote(single)) && NoIndicator(t, i + |x|, ps)
    ensures var all := Plains(x) + ps;
            && AllProper(all, single, S.Quote(single)) && NoIndicator(t, i, all)
            && SpellAll(all) == x + SpellAll(ps) && MeansAll(all) == Utf8All(x) + MeansAll(ps)
    decreases |x|
  {
    hide AllProper, NoIndicator, SpellAll, MeansAll, Utf8, Utf8All, IsBlankZ, S.Quote;
    if x == [] {
      assert Plains(x) + ps == ps && x + SpellAll(ps) == SpellAll(ps);
      NoBlanks();
      assert [] + MeansAll(ps) == MeansAll(ps);
    } else {
      var rest := Plains(x[1..]) + ps;
      PlainsFirst(t, i + 1, x[1..], ps, single);
      assert Plains(x) + ps == [Plain(x[0])] + rest && [x[0]][0] == x[0];
      PlainFirst(t, i, x[0], rest, single);
      Utf8AllCons(x);
      Regrouped(x, SpellAll(ps));
      Regroup(Utf8(x[0]), Utf8All(x[1..]), MeansAll(ps));
    }
  }

  lemma Regrouped(x: Text, y: Text)
    requires x != []
    ensures [x[0]] + (x[1..] + y) == x + y
  {
  }

  lemma PlainFirst(t: Text, i: nat, c: Scalar, rest: seq<Piece>, single: bool)
    requires PlainText([c], single) && AllProper(rest, single, S.Quote(single)) && NoIndicator(t, i + 1, rest)
    ensures var all := [Plain(c)] + rest;
            && AllProper(all, single, S.Quote(single)) && NoIndicator(t, i, all)
            && SpellAll(all) == [c] + SpellAll(rest) && MeansAll(all) == Utf8(c) + MeansAll(rest)
  {
    hide Utf8, IsBlankZ, S.AtIndicator, Head;
    var all := [Plain(c)] + rest;
    assert all[1..] == rest && [c][0] == c;
  }

  /**
   * Plain characters, line breaks with blanks around them, and plain characters: one line break is read
   * as a space, and n of them as n - 1 line feeds, in single quotes as in double quotes.
   */
  lemma FoldedText(t: Text, single: bool, pos: nat, column: nat, x: Text, blanks: Text, lines: seq<Line>, y: Text)
    requires pos < |t| && PlainText(x, single) && PlainText(y, single) && AllBlank(blanks) && lines != []
    requires Breaks(lines, (y + [S.Quote(single)])[0])
    requires forall k :: 0 <= k < |lines| ==> lines[k].eol != [0x2028] && lines[k].eol != [0x2029]
    requires var text := x + (blanks + SpellLines(lines)) + y;
             && Holds(t, pos + 1, text + [S.Quote(single)]) && (single ==> S.Peek(t, pos + 1 + |text| + 1) != 0x27)
             && (lines[|lines| - 1].indent == [] ==> !S.AtIndicator(t, pos + 1 + |x + (blanks + SpellLines(lines))|))
    ensures var r := S.ScanQuoted(t, single, pos, column);
            && r.Done? && r.value == Utf8All(x) + (if |lines| == 1 then [0x20] else Feeds(|lines| - 1)) + Utf8All(y)
            && r.pos == pos + 1 + |x + (blanks + SpellLines(lines)) + y| + 1
  {
    hide S.ScanQuoted, AllBlank, Breaks, IsBlankZ, S.AtIndicator, SpellLines, Utf8All, Means, Feeds, PlainText;
    hide Holds, S.Peek, S.Quote, Plains, AllProper, NoIndicator, SpellAll, MeansAll, Column, Head;
    var p, q := Fold(blanks, lines), S.Quote(single);
    var tail := Plains(y) + [];
    var end := pos + 1 + |x| + |Spell(p)|;
    NothingElse(t, end + |y|, single);
    PlainsFirst(t, end, y, [], single);
    HeadOfPlains(y, q);
    LastIs(blanks, lines);
    FoldedPieces(t, pos + 1 + |x|, p, tail, y, single);
    PlainsFirst(t, pos + 1, x, [p] + tail, single);
    var ps := Plains(x) + ([p] + tail);
    assert SpellAll(ps) == x + (Spell(p) + y) == x + (blanks + SpellLines(lines)) + y;
    ScanMeans(t, single, ps, pos, column);
    Folding(blanks, lines);
    assert Utf8All(x) + (Means(p) + Utf8All(y)) == Utf8All(x) + Means(p) + Utf8All(y);
  }

  lemma NothingElse(t: Text, i: nat, single: bool)
    ensures AllProper([], single, S.Quote(single)) && NoIndicator(t, i, []) && SpellAll([]) == [] && MeansAll([]) == []
  {
  }

  lemma HeadOfPlains(y: Text, next: Scalar)
    ensures Head(Plains(y) + [], next) == (y + [next])[0]
    ensures y != [] ==> !Blank((Plains(y) + [])[0])
  {
    assert Plains(y) + [] == Plains(y);
  }

  lemma LastIs(blanks: Text, lines: seq<Line>)
    requires lines != []
    ensures Column(Fold(blanks, lines), 1) == |lines[|lines| - 1].indent|
  {
  }

  lemma FoldedPieces(t: Text, i: nat, p: Piece, tail: seq<Piece>, y: Text, single: bool)
    requires p.Fold? && Proper(p, single, Head(tail, S.Quote(single))) && tail == Plains(y) + []
    requires AllProper(tail, single, S.Quote(single)) && NoIndicator(t, i + |Spell(p)|, tail)
    requires Column(p, 1) == 0 ==> !S.AtIndicator(t, i + |Spell(p)|)
    requires SpellAll(tail) == y + [] && MeansAll(tail) == Utf8All(y) + []
    ensures AllProper([p] + tail, single, S.Quote(single)) && NoIndicator(t, i, [p] + tail)
    ensures SpellAll([p] + tail) == Spell(p) + y && MeansAll([p] + tail) == Means(p) + Utf8All(y)
  {
    hide Proper, Spell, S.AtIndicator, Utf8All, Means, Head, Column;
    assert ([p] + tail)[1..] == tail;
    assert y + [] == y && Utf8All(y) + [] == Utf8All(y);
    if y != [] {
      HeadOfPlains(y, 0);
    } else {
      assert tail == [];
    }
  }

  /** How each piece is written, and where it may stand. */
  lemma Spellings(c: Scalar, digits: Text, w: Text, lines: seq<Line>, single: bool, next: Scalar)
    ensures Spell(Plain(c)) == [c] && Spell(Apostrophe) == [0x27, 0x27] && Spell(Letter(c)) == [0x5C, c]
    ensures Spell(Code(c, digits)) == [0x5C, c] + digits && Spell(Gap(w)) == w
    ensures Spell(Fold(w, lines)) == w + SpellLines(lines) && Spell(Joint(lines)) == [0x5C] + SpellLines(lines)
    ensures Proper(Plain(c), single, next) <==>
              && c !in {0, 0x09, 0x0A, 0x0D, 0x20, 0x85, 0x2028, 0x2029} && (if single then c != 0x27 else c != 0x22 && c != 0x5C)
    ensures Proper(Apostrophe, single, next) <==> single
    ensures Proper(Code(c, digits), single, next) <==>
              && !single && ((c == 0x78 && |digits| == 2) || (c == 0x75 && |digits| == 4) || (c == 0x55 && |digits| == 8))
              && (Number(digits) <= 0xD7FF || 0xE000 <= Number(digits) <= 0x10FFFF)
              && forall k :: 0 <= k < |digits| ==> 0x30 <= digits[k] <= 0x39 || 0x41 <= digits[k] <= 0x46 || 0x61 <= digits[k] <= 0x66
  {
    hide Number, SpellLines;
  }

  /** What the pieces without line breaks mean. */
  lemma PieceValues(c: Scalar, digits: Text, w: Text)
    ensures Means(Plain(c)) == Utf8(c) && Means(Apostrophe) == [0x27] && Means(Gap(w)) == Utf8All(w)
    ensures forall v: Scalar :: Number(digits) == v ==> Means(Code(c, digits)) == Utf8(v)
    ensures Number([]) == 0
    ensures 0x30 <= c <= 0x39 ==> Number(digits + [c]) == Number(digits) * 16 + (c - 0x30)
    ensures 0x41 <= c <= 0x46 ==> Number(digits + [c]) == Number(digits) * 16 + (c - 0x37)
    ensures 0x61 <= c <= 0x66 ==> Number(digits + [c]) == Number(digits) * 16 + (c - 0x57)
  {
    hide Utf8, Utf8All;
    assert (digits + [c])[..|digits|] == digits;
  }
}
