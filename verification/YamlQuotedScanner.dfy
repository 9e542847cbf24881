/** Scanning a quoted scalar. The buffer holds decoded characters; the value is built in UTF-8. */
module YamlQuotedScanner {
  import opened Basics
  import opened YamlUtf8

  datatype Problem = DocumentIndicator | EndOfStream | UnknownEscape | NotHexadecimal | InvalidCode

  datatype Result = Done(value: seq<Byte>, pos: nat, column: nat) | Failed(problem: Problem)

  /** Where the scanner is, what it has, and the pending blanks of its inner loop. */
  datatype Scan = Scan(pos: nat, column: nat, value: seq<Byte>, spaces: seq<Byte>, lead: seq<Byte>, trail: seq<Byte>,
                       blanks: bool)

  /** The character at a position; a NUL follows the text. */
  function Peek(t: seq<Scalar>, i: nat): Scalar {
    if i < |t| then t[i] else 0
  }

  function Quote(single: bool): Scalar {
    if single then 0x27 else 0x22
  }

  predicate AtIndicator(t: seq<Scalar>, i: nat) {
    var c := Peek(t, i);
    && (c == '-' as int || c == '.' as int)
    && Peek(t, i + 1) == c && Peek(t, i + 2) == c && IsBlankZ(Peek(t, i + 3))
  }

  /** The characters of the line break at a position, and the octets it is read as. */
  function BreakLength(t: seq<Scalar>, i: nat): (r: nat)
    ensures 1 <= r <= 2
  {
    if Peek(t, i) == 0x0D && Peek(t, i + 1) == 0x0A then 2 else 1
  }

  function BreakOctets(c: Scalar): seq<Byte> {
    if c == 0x2028 || c == 0x2029 then Utf8(c) else [0x0A]
  }

  /** The octets of a one-letter escape. */
  function Unescape(c: Scalar): (r: seq<Byte>)
    ensures c == 0 ==> r == []
  {
    if c == '0' as int then [0]
    else if c == 'a' as int then [0x07]
    else if c == 'b' as int then [0x08]
    else if c == 't' as int || c == 0x09 then [0x09]
    else if c == 'n' as int then [0x0A]
    else if c == 'v' as int then [0x0B]
    else if c == 'f' as int then [0x0C]
    else if c == 'r' as int then [0x0D]
    else if c == 'e' as int then [0x1B]
    else if c == ' ' as int then [0x20]
    else if c == '"' as int then [0x22]
    else if c == '/' as int then [0x2F]
    else if c == '\\' as int then [0x5C]
    else if c == 'N' as int then [0xC2, 0x85]
    else if c == '_' as int then [0xC2, 0xA0]
    else if c == 'L' as int then [0xE2, 0x80, 0xA8]
    else if c == 'P' as int then [0xE2, 0x80, 0xA9]
    else []
  }

  function CodeLength(c: Scalar): (n: nat)
    ensures n > 0 ==> Unescape(c) == []
  {
    if c == 'x' as int then 2 else if c == 'u' as int then 4 else if c == 'U' as int then 8 else 0
  }

  predicate IsHex(c: Scalar) {
    '0' as int <= c <= '9' as int || 'A' as int <= c <= 'F' as int || 'a' as int <= c <= 'f' as int
  }

  function HexValue(c: Scalar): (v: nat)
    requires IsHex(c)
    ensures v < 16
  {
    if 'A' as int <= c <= 'F' as int then c - 'A' as int + 10
    else if 'a' as int <= c <= 'f' as int then c - 'a' as int + 10
    else c - '0' as int
  }

  predicate AllHex(t: seq<Scalar>, i: nat, n: nat) {
    n == 0 || (AllHex(t, i, n - 1) && IsHex(Peek(t, i + n - 1)))
  }

  function HexCode(t: seq<Scalar>, i: nat, n: nat): nat
    requires AllHex(t, i, n)
  {
    if n == 0 then 0 else HexCode(t, i, n - 1) * 16 + HexValue(Peek(t, i + n - 1))
  }

  predicate IsCode(v: nat) {
    v <= 0x10FFFF && !(0xD800 <= v <= 0xDFFF)
  }

  // ----- the three nested loops

  function Skip(s: Scan, n: nat): Scan {
    s.(pos := s.pos + n, column := s.column + n)
  }

  function Put(s: Scan, b: seq<Byte>): Scan {
    s.(value := s.value + b)
  }

  /** Bounds on the steps that can follow at a character without consuming it. */
  function RankLine(c: Scalar): nat {
    if IsBlank(c) || IsBreak(c) then 2 else if c == 0 then 0 else 1
  }

  function RankText(c: Scalar): nat {
    if IsBlank(c) || IsBreak(c) then 1 else if c == 0 then 2 else 0
  }

  function RankBlanks(c: Scalar): nat {
    if IsBlank(c) || IsBreak(c) then 0 else if c == 0 then 1 else 2
  }

  /** The outer loop: the checks in front of a run of non-blank characters. */
  function Line(t: seq<Scalar>, single: bool, s: Scan): Result
    requires s.pos <= |t|
    decreases |t| - s.pos, RankLine(Peek(t, s.pos))
  {
    if s.column == 0 && AtIndicator(t, s.pos) then Failed(DocumentIndicator)
    else if Peek(t, s.pos) == 0 then Failed(EndOfStream)
    else Text(t, single, s.(blanks := false))
  }

  /** The loop over non-blank characters. */
  function Text(t: seq<Scalar>, single: bool, s: Scan): Result
    requires s.pos <= |t|
    decreases |t| - s.pos, RankText(Peek(t, s.pos))
  {
    var c, d := Peek(t, s.pos), Peek(t, s.pos + 1);
    if IsBlankZ(c) then Blanks(t, single, s)
    else if single && c == 0x27 && d == 0x27 then Text(t, single, Put(Skip(s, 2), [0x27]))
    else if c == Quote(single) then Close(s)
    else if !single && c == '\\' as int && IsBreak(d) then AfterText(t, single, Continued(t, s))
    else if !single && c == '\\' as int && Unescape(d) != [] then Text(t, single, Skip(Put(s, Unescape(d)), 2))
    else if !single && c == '\\' as int && CodeLength(d) == 0 then Failed(UnknownEscape)
    else if !single && c == '\\' as int then
      if !AllHex(t, s.pos + 2, CodeLength(d)) then Failed(NotHexadecimal)
      else if !IsCode(HexCode(t, s.pos + 2, CodeLength(d))) then Failed(InvalidCode)
      else
        HexInside(t, s.pos + 2, CodeLength(d));
        Text(t, single, Skip(Put(s, Utf8(HexCode(t, s.pos + 2, CodeLength(d)))), 2 + CodeLength(d)))
    else Text(t, single, Skip(Put(s, Utf8(c)), 1))
  }

  /** A backslash and a line break. */
  function Continued(t: seq<Scalar>, s: Scan): Scan {
    s.(pos := s.pos + 1 + BreakLength(t, s.pos + 1), column := 0, blanks := true)
  }

  function Close(s: Scan): Result {
    Done(s.value, s.pos + 1, s.column + 1)
  }

  /** Behind the non-blank characters: the end, or blanks. */
  function AfterText(t: seq<Scalar>, single: bool, s: Scan): Result
    requires s.pos <= |t|
    decreases |t| - s.pos, 3
  {
    if Peek(t, s.pos) == Quote(single) then Close(s) else Blanks(t, single, s)
  }

  /** The loop over blanks and line breaks, and the join behind it. */
  function Blanks(t: seq<Scalar>, single: bool, s: Scan): Result
    requires s.pos <= |t|
    decreases |t| - s.pos, RankBlanks(Peek(t, s.pos))
  {
    var c := Peek(t, s.pos);
    if IsBlank(c) then Blanks(t, single, TakeBlank(s, c))
    else if IsBreak(c) then Blanks(t, single, TakeBreak(t, s))
    else Line(t, single, Joined(s))
  }

  function TakeBlank(s: Scan, c: Scalar): Scan {
    Skip(if s.blanks then s else s.(spaces := s.spaces + Utf8(c)), 1)
  }

  function TakeBreak(t: seq<Scalar>, s: Scan): Scan {
    var b := BreakOctets(Peek(t, s.pos));
    var r := if s.blanks then s.(trail := s.trail + b) else s.(spaces := [], lead := s.lead + b, blanks := true);
    r.(pos := s.pos + BreakLength(t, s.pos), column := 0)
  }

  /** Blanks inside a line are kept; the first line break is folded into a space or into the others. */
  function Joined(s: Scan): Scan {
    if !s.blanks then s.(value := s.value + s.spaces, spaces := [])
    else if s.lead != [] && s.lead[0] == 0x0A then
      s.(value := s.value + if s.trail == [] then [0x20] else s.trail, lead := [], trail := [])
    else s.(value := s.value + s.lead + s.trail, lead := [], trail := [])
  }

  lemma HexInside(t: seq<Scalar>, i: nat, n: nat)
    requires AllHex(t, i, n)
    ensures n > 0 ==> i + n <= |t|
  {
    if n > 0 {
      assert IsHex(Peek(t, i + n - 1));
    }
  }

  function ScanQuoted(t: seq<Scalar>, single: bool, pos: nat, column: nat): Result
    requires pos < |t|
  {
    Line(t, single, Scan(pos + 1, column + 1, [], [], [], [], false))
  }

  class Parser {
    const buffer: seq<Scalar>
    var pos: nat
    var column: nat
    // the strings of yaml_parser_scan_flow_scalar
    var value: seq<Byte>
    var spaces: seq<Byte>
    var lead: seq<Byte>
    var trail: seq<Byte>
    var blanks: bool

    constructor (buffer: seq<Scalar>)
      ensures this.buffer == buffer && pos == column == 0
    {
      this.buffer := buffer;
      pos, column := 0, 0;
      value, spaces, lead, trail, blanks := [], [], [], [], false;
    }

    ghost function Here(): Scan
      reads this
    {
      Scan(pos, column, value, spaces, lead, trail, blanks)
    }

    /** The digits of an escape, at the first of them. */
    method ScanCode(n: nat) returns (problem: Option<Problem>)
      requires pos <= |buffer| && n > 0
      modifies this
      ensures problem == None <==> AllHex(buffer, old(pos), n) && IsCode(HexCode(buffer, old(pos), n))
      ensures problem == None ==> Here() == Skip(Put(old(Here()), Utf8(HexCode(buffer, old(pos), n))), n)
      ensures problem == None ==> pos <= |buffer|
      ensures problem == Some(InvalidCode) ==> AllHex(buffer, old(pos), n)
      ensures problem.Some? ==> problem.value in {InvalidCode, NotHexadecimal}
      ensures problem == Some(NotHexadecimal) ==> !AllHex(buffer, old(pos), n)
      ensures problem.Some? ==> pos == old(pos)
    {
      var code, k := 0, 0;
      while k < n
        invariant k <= n && AllHex(buffer, pos, k) && code == HexCode(buffer, pos, k)
        invariant Here() == old(Here())
      {
        if !IsHex(Peek(buffer, pos + k)) {
          NotAllHex(buffer, pos, k, n);
          return Some(NotHexadecimal);
        }
        code := code * 16 + HexValue(Peek(buffer, pos + k));
        k := k + 1;
      }
      if !IsCode(code) {
        return Some(InvalidCode);
      }
      HexInside(buffer, pos, n);
      value := value + Utf8(code);
      pos, column := pos + n, column + n;
      problem := None;
    }

    /** The run of non-blank characters at the pointer. */
    method ScanText(single: bool, ghost goal: Result) returns (problem: Option<Problem>)
      requires pos <= |buffer| && !blanks && Text(buffer, single, Here()) == goal
      modifies this
      ensures old(pos) <= pos <= |buffer|
      ensures problem.Some? ==> goal == Failed(problem.value)
      ensures problem.None? ==> AfterText(buffer, single, Here()) == goal
      ensures problem.None? && pos == old(pos) ==> IsBlankZ(Peek(buffer, pos)) || Peek(buffer, pos) == Quote(single)
    {
      hide Line, Blanks, Utf8, Unescape, AllHex, HexCode, IsBreak, Joined, IsBlankZ, BreakLength;
      problem := None;
      while !IsBlankZ(Peek(buffer, pos))
        invariant old(pos) <= pos <= |buffer| && !blanks && problem.None?
        invariant Text(buffer, single, Here()) == goal
        decreases |buffer| - pos
      {
        var c, d := Peek(buffer, pos), Peek(buffer, pos + 1);
        PlainInside(buffer, pos);
        if single && c == 0x27 && d == 0x27 {
          value := value + [0x27];
          pos, column := pos + 2, column + 2;
        } else if c == Quote(single) {
          break;
        } else if !single && c == '\\' as int && IsBreak(d) {
          BlankInside(buffer, pos + 1);
          pos, column, blanks := pos + 1 + BreakLength(buffer, pos + 1), 0, true;
          break;
        } else if !single && c == '\\' as int {
          var b, n := Unescape(d), CodeLength(d);
          if b == [] && n == 0 {
            return Some(UnknownEscape);
          }
          if b != [] {
            value := value + b;
          }
          pos, column := pos + 2, column + 2;
          if n > 0 {
            problem := ScanCode(n);
            if problem.Some? {
              return;
            }
          }
        } else {
          value := value + Utf8(c);
          pos, column := pos + 1, column + 1;
        }
      }
      PlainInside(buffer, pos);
    }

    /** A blank or a line break. */
    method StepBlank()
      requires IsBlank(Peek(buffer, pos)) || IsBreak(Peek(buffer, pos))
      modifies this
      ensures Here() == var c := Peek(buffer, old(pos));
        if IsBlank(c) then TakeBlank(old(Here()), c) else TakeBreak(buffer, old(Here()))
      ensures old(pos) < pos <= |buffer|
    {
      hide Utf8, IsBlank, IsBreak, BreakLength, BreakOctets;
      var c := Peek(buffer, pos);
      BlankInside(buffer, pos);
      if IsBlank(c) {
        if !blanks {
          spaces := spaces + Utf8(c);
        }
        pos, column := pos + 1, column + 1;
      } else {
        if !blanks {
          spaces, lead, blanks := [], lead + BreakOctets(c), true;
        } else {
          trail := trail + BreakOctets(c);
        }
        pos, column := pos + BreakLength(buffer, pos), 0;
      }
    }

    /** The run of blanks and line breaks at the pointer. */
    method ScanBlanks(single: bool, ghost goal: Result)
      requires pos <= |buffer| && Blanks(buffer, single, Here()) == goal
      modifies this
      ensures old(pos) <= pos <= |buffer| && Line(buffer, single, Here()) == goal
      ensures pos == old(pos) ==> !IsBlank(Peek(buffer, pos)) && !IsBreak(Peek(buffer, pos))
    {
      hide Line, Text, IsBlank, IsBreak, TakeBlank, TakeBreak, Joined;
      while IsBlank(Peek(buffer, pos)) || IsBreak(Peek(buffer, pos))
        invariant old(pos) <= pos <= |buffer|
        invariant pos == old(pos) || old(IsBlank(Peek(buffer, pos)) || IsBreak(Peek(buffer, pos)))
        invariant Blanks(buffer, single, Here()) == goal
        decreases |buffer| - pos
      {
        StepBlank();
      }
      JoinBlanks();
    }

    /** What has been collected between two texts becomes part of the value. */
    method JoinBlanks()
      modifies this
      ensures Here() == Joined(old(Here())) && pos == old(pos)
    {
      if blanks {
        if lead != [] && lead[0] == 0x0A {
          value := value + if trail == [] then [0x20] else trail;
        } else {
          value := value + lead + trail;
        }
        lead, trail := [], [];
      } else {
        value := value + spaces;
        spaces := [];
      }
    }

    /** yaml_parser_scan_flow_scalar, at an opening quote. */
    method ScanFlowScalar(single: bool) returns (r: Result)
      requires pos < |buffer|
      modifies this
      ensures r == ScanQuoted(buffer, single, old(pos), old(column))
      ensures r.Done? ==> r.pos == pos && r.column == column
    {
      hide Text, Blanks, IsBlank, IsBreak, Quote, AtIndicator;
      ghost var goal := ScanQuoted(buffer, single, pos, column);
      pos, column := pos + 1, column + 1;
      value, spaces, lead, trail, blanks := [], [], [], [], false;
      while true
        invariant pos <= |buffer| && Line(buffer, single, Here()) == goal
        decreases |buffer| - pos
      {
        if column == 0 && AtIndicator(buffer, pos) {
          return Failed(DocumentIndicator);
        }
        if Peek(buffer, pos) == 0 {
          return Failed(EndOfStream);
        }
        blanks := false;
        var problem := ScanText(single, goal);
        if problem.Some? {
          return Failed(problem.value);
        }
        if Peek(buffer, pos) == Quote(single) {
          break;
        }
        ScanBlanks(single, goal);
      }
      pos, column := pos + 1, column + 1;
      r := Done(value, pos, column);
    }
  }

  lemma PlainInside(t: seq<Scalar>, i: nat)
    ensures !IsBlankZ(Peek(t, i)) ==> i < |t|
    ensures !IsBlankZ(0x22) && !IsBlankZ(0x27)
  {
  }

  lemma BlankInside(t: seq<Scalar>, i: nat)
    requires IsBlank(Peek(t, i)) || IsBreak(Peek(t, i))
    ensures i + BreakLength(t, i) <= |t| && i < |t|
  {
  }

  lemma {:induction false} NotAllHex(t: seq<Scalar>, i: nat, k: nat, n: nat)
    requires k < n && !IsHex(Peek(t, i + k))
    ensures !AllHex(t, i, n)
  {
    if k < n - 1 {
      NotAllHex(t, i, k, n - 1);
    }
  }
}
