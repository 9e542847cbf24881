/** The token queue of the scanner: indentation, and simple keys found after the fact. */
module YamlSimpleKeys {

  datatype Token =
    | StreamStart | StreamEnd | Directive | DocumentIndicator
    | BlockSequenceStart | BlockMappingStart | BlockEnd
    | FlowStart | FlowEnd | FlowEntry | BlockEntry | Key | Value
    | Anchor | Tag | Scalar

  datatype Mark = Mark(index: nat, line: nat, column: nat)

  datatype Kind =
    | EndOfStream | ADirective | ADocumentIndicator | OpenFlow | CloseFlow | Comma | Dash | Question | Colon
    | AnAnchor | ATag | BlockScalar | FlowOrPlainScalar | Unknown

  /**
   * What the scanner finds next: whether it skipped a line break on the way, where the lexeme begins and
   * ends, whether its characters can be scanned, and whether it is a plain scalar that has swallowed a
   * line break behind it. These come from the text, which is left open here.
   */
  datatype Lexeme = Lexeme(kind: Kind, newLine: bool, start: Mark, end: Mark, good: bool, broken: bool)

  datatype SimpleKey = SimpleKey(possible: bool, required: bool, number: nat, mark: Mark)

  /** A simple key has to be on one line and within 1024 characters of its ':'. */
  predicate Outdated(key: SimpleKey, mark: Mark) {
    key.mark.line < mark.line || key.mark.index + 1024 < mark.index
  }

  function Aged(key: SimpleKey, mark: Mark): SimpleKey {
    if key.possible && Outdated(key, mark) then key.(possible := false) else key
  }

  const NO_KEY := SimpleKey(false, false, 0, Mark(0, 0, 0))

  // ----- block starts and ends

  function Weight(t: Token): int {
    if t == BlockSequenceStart || t == BlockMappingStart then 1 else if t == BlockEnd then -1 else 0
  }

  /** Block starts less block ends. */
  function Depth(s: seq<Token>): int {
    if s == [] then 0 else Depth(s[..|s| - 1]) + Weight(s[|s| - 1])
  }

  /** Nowhere more ends than starts. */
  ghost predicate Nested(s: seq<Token>) {
    forall k :: 0 <= k <= |s| ==> Depth(s[..k]) >= 0
  }

  lemma {:induction false} DepthConcat(s: seq<Token>, t: seq<Token>)
    ensures Depth(s + t) == Depth(s) + Depth(t)
  {
    hide Weight;
    if t == [] {
      assert s + t == s;
    } else {
      var n := |t| - 1;
      DepthConcat(s, t[..n]);
      assert (s + t)[..|s| + n] == s + t[..n];
    }
  }

  lemma DepthOne(t: Token)
    ensures Depth([t]) == Weight(t)
  {
    assert [t][..0] == [];
  }

  lemma NestedAppend(s: seq<Token>, t: Token)
    requires Nested(s) && Depth(s) + Weight(t) >= 0
    ensures Nested(s + [t]) && Depth(s + [t]) == Depth(s) + Weight(t)
  {
    hide Depth, Weight;
    DepthConcat(s, [t]);
    DepthOne(t);
    forall k | 0 <= k <= |s| + 1
      ensures Depth((s + [t])[..k]) >= 0
    {
      if k <= |s| {
        assert (s + [t])[..k] == s[..k];
      } else {
        assert (s + [t])[..k] == s + [t];
      }
    }
  }

  /** n block ends. */
  function Ends(n: nat): (r: seq<Token>)
    ensures |r| == n && forall k :: 0 <= k < n ==> r[k] == BlockEnd
  {
    if n == 0 then [] else Ends(n - 1) + [BlockEnd]
  }

  lemma EndsAre(s: seq<Token>, n: nat)
    requires |s| == n && forall k :: 0 <= k < n ==> s[k] == BlockEnd
    ensures s == Ends(n)
  {
  }

  /** How many of the columns are to the right of a column. */
  function Above(columns: seq<int>, column: int): (n: nat)
    ensures n <= |columns|
  {
    if columns == [] then 0
    else Above(columns[..|columns| - 1], column) + if columns[|columns| - 1] > column then 1 else 0
  }

  lemma {:induction false} AboveIs(columns: seq<int>, column: int, n: nat)
    requires n <= |columns|
    requires forall i :: 0 <= i < n ==> columns[i] <= column
    requires forall i :: n <= i < |columns| ==> columns[i] > column
    ensures Above(columns, column) == |columns| - n
  {
    if |columns| > 0 {
      AboveIs(columns[..|columns| - 1], column, if n == |columns| then n - 1 else n);
    }
  }

  function Insert(s: seq<Token>, i: nat, t: Token): seq<Token>
    requires i <= |s|
  {
    s[..i] + [t] + s[i..]
  }

  /** Anything but a block end may be inserted anywhere. */
  lemma NestedInsert(s: seq<Token>, i: nat, t: Token)
    requires Nested(s) && i <= |s| && Weight(t) >= 0
    ensures Nested(Insert(s, i, t)) && Depth(Insert(s, i, t)) == Depth(s) + Weight(t)
  {
    hide Depth, Weight;
    var r := Insert(s, i, t);
    DepthOne(t);
    forall k | i < k <= |r|
      ensures Depth(r[..k]) == Depth(s[..k - 1]) + Weight(t)
    {
      assert r[..k] == s[..i] + [t] + s[i..k - 1] && s[..k - 1] == s[..i] + s[i..k - 1];
      DepthConcat(s[..i] + [t], s[i..k - 1]);
      DepthConcat(s[..i], [t]);
      DepthConcat(s[..i], s[i..k - 1]);
    }
    forall k | 0 <= k <= |r|
      ensures Depth(r[..k]) >= 0
    {
      if k <= i {
        assert r[..k] == s[..k];
      }
    }
    assert r[..|r|] == r && s[..|s|] == s;
  }

  // ----- simple keys

  /** Possible keys have numbers from lo on and below hi, which increase with the flow level. */
  ghost predicate Keys(keys: seq<SimpleKey>, lo: nat, hi: nat) {
    && (forall i :: 0 <= i < |keys| && keys[i].possible ==> lo <= keys[i].number < hi)
    && (forall i, j :: 0 <= i < j < |keys| && keys[i].possible && keys[j].possible ==> keys[i].number < keys[j].number)
  }

  predicate StartsKey(t: Token) {
    t == Anchor || t == Tag || t == Scalar || t == FlowStart
  }

  /** The number of a possible key is that of a token a simple key can begin with. */
  ghost predicate KeyStarts(keys: seq<SimpleKey>, all: seq<Token>) {
    forall i :: 0 <= i < |keys| && keys[i].possible && keys[i].number < |all| ==> StartsKey(all[keys[i].number])
  }

  /** Indentation levels, from -1 up. */
  ghost predicate Levels(indents: seq<int>, indent: int) {
    && (indents == [] <==> indent == -1)
    && (indents != [] ==> indents[0] == -1 && indents[|indents| - 1] < indent)
    && (forall i, j :: 0 <= i < j < |indents| ==> indents[i] < indents[j])
  }

  // ----- one lexeme, on values

  /** The tokens so far, the open columns, the flow level, whether a simple key is allowed, and the key of the level. */
  datatype Look = Look(all: seq<Token>, columns: seq<int>, flow: nat, allowed: bool, key: SimpleKey)

  /** Blocks to the right of the lexeme are closed, and its key may be too old. */
  function Approach(q: Look, l: Lexeme): Look {
    var n := if q.flow == 0 then Above(q.columns, l.start.column) else 0;
    q.(all := q.all + Ends(n), columns := q.columns[..|q.columns| - n], allowed := q.allowed || (l.newLine && q.flow == 0),
       key := Aged(q.key, l.start))
  }

  /** A block starts here if no open one is as far to the right. */
  function Starts(q: Look, column: int, start: Token): seq<Token> {
    if q.flow == 0 && q.columns != [] && q.columns[|q.columns| - 1] < column then [start] else []
  }

  predicate IsNeeded(q: Look) {
    q.key.possible && q.key.required
  }

  predicate Refuses(q: Look, l: Lexeme) {
    match l.kind
    case EndOfStream | ADirective | ADocumentIndicator | Comma | BlockScalar => IsNeeded(q) || !l.good
    case OpenFlow => q.allowed && IsNeeded(q)
    case CloseFlow => IsNeeded(q)
    case Dash | Question => (q.flow == 0 && !q.allowed) || IsNeeded(q)
    case Colon => !q.key.possible && q.flow == 0 && !q.allowed
    case AnAnchor | ATag | FlowOrPlainScalar => (q.allowed && IsNeeded(q)) || !l.good
    case Unknown => true
  }

  /** The tokens with those of the lexeme. */
  function Fetched(q: Look, l: Lexeme): seq<Token> {
    var column := l.start.column;
    match l.kind
    case EndOfStream => q.all + Ends(if q.flow == 0 && q.columns != [] then |q.columns| - 1 else 0) + [StreamEnd]
    case ADirective => q.all + Ends(if q.flow == 0 && q.columns != [] then |q.columns| - 1 else 0) + [Directive]
    case ADocumentIndicator => q.all + Ends(if q.flow == 0 && q.columns != [] then |q.columns| - 1 else 0) + [DocumentIndicator]
    case OpenFlow => q.all + [FlowStart]
    case CloseFlow => q.all + [FlowEnd]
    case Comma => q.all + [FlowEntry]
    case Dash => q.all + Starts(q, column, BlockSequenceStart) + [BlockEntry]
    case Question => q.all + Starts(q, column, BlockMappingStart) + [Key]
    case Colon =>
      if q.key.possible && q.key.number <= |q.all| then
        q.all[..q.key.number] + Starts(q, q.key.mark.column, BlockMappingStart) + [Key] + q.all[q.key.number..] + [Value]
      else q.all + Starts(q, column, BlockMappingStart) + [Value]
    case AnAnchor => q.all + [Anchor]
    case ATag => q.all + [Tag]
    case BlockScalar => q.all + [Scalar]
    case FlowOrPlainScalar => q.all + [Scalar]
    case Unknown => q.all
  }

  /** Whether a simple key is allowed behind the lexeme. */
  predicate Allows(q: Look, l: Lexeme) {
    match l.kind
    case OpenFlow | Comma | Dash | BlockScalar => true
    case Question => q.flow == 0
    case Colon => !q.key.possible && q.flow == 0
    case FlowOrPlainScalar => l.broken
    case _ => false
  }

  function LevelAfter(q: Look, l: Lexeme): nat {
    match l.kind
    case OpenFlow => q.flow + 1
    case CloseFlow => if q.flow == 0 then 0 else q.flow - 1
    case _ => q.flow
  }

  /** The key of the level of the lexeme, behind the lexeme: it may begin one if this is allowed. */
  function KeyAfter(q: Look, l: Lexeme): SimpleKey {
    match l.kind
    case OpenFlow | AnAnchor | ATag | FlowOrPlainScalar =>
      if q.allowed then SimpleKey(true, q.flow == 0 && q.columns != [] && q.columns[|q.columns| - 1] == l.start.column, |q.all|, l.start)
      else q.key
    case _ => q.key.(possible := false)
  }

  // ----- all lexemes

  /** The tokens that stand for lexemes, without block starts, block ends and KEY. */
  function Lexical(s: seq<Token>): seq<Token> {
    if s == [] then []
    else
      var t := s[|s| - 1];
      Lexical(s[..|s| - 1]) + if t in {BlockSequenceStart, BlockMappingStart, BlockEnd, Key} then [] else [t]
  }

  /** The token that stands for a lexeme. */
  function TokenOf(k: Kind): seq<Token> {
    match k
    case EndOfStream => [StreamEnd]
    case ADirective => [Directive]
    case ADocumentIndicator => [DocumentIndicator]
    case OpenFlow => [FlowStart]
    case CloseFlow => [FlowEnd]
    case Comma => [FlowEntry]
    case Dash => [BlockEntry]
    case Question => []
    case Colon => [Value]
    case AnAnchor => [Anchor]
    case ATag => [Tag]
    case BlockScalar => [Scalar]
    case FlowOrPlainScalar => [Scalar]
    case Unknown => []
  }

  function TokensOf(ls: seq<Lexeme>): seq<Token> {
    if ls == [] then [] else TokensOf(ls[..|ls| - 1]) + TokenOf(ls[|ls| - 1].kind)
  }

  function Questions(ls: seq<Lexeme>): nat {
    if ls == [] then 0 else Questions(ls[..|ls| - 1]) + if ls[|ls| - 1].kind == Question then 1 else 0
  }

  function Count(s: seq<Token>, t: Token): nat {
    if s == [] then 0 else Count(s[..|s| - 1], t) + if s[|s| - 1] == t then 1 else 0
  }

  lemma {:induction false} LexicalConcat(s: seq<Token>, r: seq<Token>)
    ensures Lexical(s + r) == Lexical(s) + Lexical(r)
  {
    if r == [] {
      assert s + r == s;
    } else {
      var n := |r| - 1;
      assert (s + r)[..|s| + n] == s + r[..n];
      LexicalConcat(s, r[..n]);
    }
  }

  lemma {:induction false} CountConcat(s: seq<Token>, r: seq<Token>, t: Token)
    ensures Count(s + r, t) == Count(s, t) + Count(r, t)
  {
    if r == [] {
      assert s + r == s;
    } else {
      var n := |r| - 1;
      assert (s + r)[..|s| + n] == s + r[..n];
      CountConcat(s, r[..n], t);
    }
  }

  lemma {:induction false} EndsSilent(n: nat)
    ensures Lexical(Ends(n)) == [] && Count(Ends(n), Key) == Count(Ends(n), BlockSequenceStart) == Count(Ends(n), BlockMappingStart) == 0
  {
    if n > 0 {
      EndsSilent(n - 1);
      assert Ends(n)[..n - 1] == Ends(n - 1);
    }
  }

  lemma OneLexical(t: Token)
    ensures Lexical([t]) == (if t in {BlockSequenceStart, BlockMappingStart, BlockEnd, Key} then [] else [t]) && Lexical([]) == []
    ensures forall u :: Count([t], u) == (if t == u then 1 else 0) && Count([], u) == 0
  {
    assert [t][..0] == [];
  }

  /** The pieces a lexeme adds, in the order in which they stand, on both sides of some earlier tokens. */
  lemma Added(a: seq<Token>, start: seq<Token>, key: seq<Token>, b: seq<Token>, t: seq<Token>, u: Token)
    ensures Lexical(a + start + key + b + t) == Lexical(a) + Lexical(start) + Lexical(key) + Lexical(b) + Lexical(t)
    ensures Count(a + start + key + b + t, u) == Count(a, u) + Count(start, u) + Count(key, u) + Count(b, u) + Count(t, u)
  {
    LexicalConcat(a + start + key + b, t);
    LexicalConcat(a + start + key, b);
    LexicalConcat(a + start, key);
    LexicalConcat(a, start);
    CountConcat(a + start + key + b, t, u);
    CountConcat(a + start + key, b, u);
    CountConcat(a + start, key, u);
    CountConcat(a, start, u);
  }

  /** What the lexeme adds is its token, and KEY for a "?" or for a ":" behind a possible key. */
  lemma FetchedLexical(q: Look, l: Lexeme)
    requires l.kind != Unknown && (q.key.possible ==> q.key.number <= |q.all|)
    ensures Lexical(Fetched(q, l)) == Lexical(q.all) + TokenOf(l.kind)
    ensures Count(Fetched(q, l), Key) == Count(q.all, Key) + if l.kind == Question || (l.kind == Colon && q.key.possible) then 1 else 0
  {
    hide Lexical, Count, Ends, Starts, Above;
    var t := TokenOf(l.kind);
    if l.kind == Colon && q.key.possible {
      var a, b := q.all[..q.key.number], q.all[q.key.number..];
      StartsSilent(q, q.key.mark.column, BlockMappingStart);
      OneLexical(Key);
      OneLexical(Value);
      Added(a, Starts(q, q.key.mark.column, BlockMappingStart), [Key], b, t, Key);
      LexicalConcat(a, b);
      CountConcat(a, b, Key);
      assert a + b == q.all;
    } else {
      AppendedLexical(q, l);
    }
  }

  /** What comes between the earlier tokens and the token of the lexeme. */
  function Between(q: Look, l: Lexeme): seq<Token> {
    match l.kind
    case EndOfStream | ADirective | ADocumentIndicator => Ends(if q.flow == 0 && q.columns != [] then |q.columns| - 1 else 0)
    case Dash => Starts(q, l.start.column, BlockSequenceStart)
    case Question | Colon => Starts(q, l.start.column, BlockMappingStart)
    case _ => []
  }

  lemma BetweenSilent(q: Look, l: Lexeme)
    ensures Lexical(Between(q, l)) == [] && Count(Between(q, l), Key) == 0
  {
    hide Lexical, Count, Ends, Starts;
    EndsSilent(if q.flow == 0 && q.columns != [] then |q.columns| - 1 else 0);
    StartsSilent(q, l.start.column, BlockSequenceStart);
    StartsSilent(q, l.start.column, BlockMappingStart);
    OneLexical(Key);
  }

  lemma AppendedLexical(q: Look, l: Lexeme)
    requires l.kind != Unknown && !(l.kind == Colon && q.key.possible)
    ensures Lexical(Fetched(q, l)) == Lexical(q.all) + TokenOf(l.kind)
    ensures Count(Fetched(q, l), Key) == Count(q.all, Key) + if l.kind == Question then 1 else 0
  {
    hide Lexical, Count, Between;
    var key, t := if l.kind == Question then [Key] else [], TokenOf(l.kind);
    AppendedAre(q, l);
    BetweenSilent(q, l);
    OneLexical(Key);
    if t != [] {
      OneLexical(t[0]);
    }
    Added(q.all, Between(q, l), key, [], t, Key);
    TokenCount(l.kind);
    assert Lexical(q.all) + [] + [] + [] + t == Lexical(q.all) + t;
  }

  lemma TokenCount(k: Kind)
    ensures Count(TokenOf(k), Key) == 0 && Lexical(TokenOf(k)) == TokenOf(k)
  {
    var t := TokenOf(k);
    if t != [] {
      OneLexical(t[0]);
      assert t == [t[0]];
    }
  }

  lemma AppendedAre(q: Look, l: Lexeme)
    requires l.kind != Unknown && !(l.kind == Colon && q.key.possible)
    ensures Fetched(q, l) == q.all + Between(q, l) + (if l.kind == Question then [Key] else []) + [] + TokenOf(l.kind)
  {
    hide Ends, Starts;
  }

  lemma Approached(q: Look, l: Lexeme, s: Look)
    requires var n := if q.flow == 0 then Above(q.columns, l.start.column) else 0;
             && s.all == q.all + Ends(n) && s.columns <= q.columns && |s.columns| == |q.columns| - n && s.flow == q.flow
             && s.allowed == (q.allowed || (l.newLine && q.flow == 0)) && s.key == Aged(q.key, l.start)
    ensures s == Approach(q, l)
  {
    hide Above, Ends, Outdated;
  }

  lemma UnknownIsRefused(q: Look, l: Lexeme)
    ensures l.kind == Unknown ==> Refuses(q, l)
  {
  }

  lemma LexedNext(q: Look, l: Lexeme, ls: seq<Lexeme>, c: nat)
    requires Lexical(q.all) == [StreamStart] + TokensOf(ls) && Count(q.all, Key) == Questions(ls) + c
    requires l.kind != Unknown
    requires Approach(q, l).key.possible ==> Approach(q, l).key.number <= |Approach(q, l).all|
    ensures var s := Fetched(Approach(q, l), l);
            && Lexical(s) == [StreamStart] + TokensOf(ls + [l])
            && Count(s, Key) == Questions(ls + [l]) + c + if l.kind == Colon && Aged(q.key, l.start).possible then 1 else 0
  {
    hide Above, Ends, Outdated, Lexical, Count, Fetched, TokenOf;
    var n := if q.flow == 0 then Above(q.columns, l.start.column) else 0;
    EndsSilent(n);
    LexicalConcat(q.all, Ends(n));
    CountConcat(q.all, Ends(n), Key);
    FetchedLexical(Approach(q, l), l);
    assert (ls + [l])[..|ls|] == ls;
    assert [StreamStart] + TokensOf(ls) + TokenOf(l.kind) == [StreamStart] + (TokensOf(ls) + TokenOf(l.kind));
    assert Lexical(q.all) + [] == Lexical(q.all);
  }

  // ----- in full

  /** Each kind of lexeme and the tokens that come of it. */
  lemma FetchTable(q: Look, l: Lexeme)
    requires q.columns != []
    ensures var column := l.start.column;
            var deeper := q.flow == 0 && q.columns[|q.columns| - 1] < column;
            var closed := if q.flow == 0 then Ends(|q.columns| - 1) else [];
            var r := Fetched(q, l);
            match l.kind
            case EndOfStream => r == q.all + closed + [StreamEnd]
            case ADirective => r == q.all + closed + [Directive]
            case ADocumentIndicator => r == q.all + closed + [DocumentIndicator]
            case OpenFlow => r == q.all + [FlowStart]
            case CloseFlow => r == q.all + [FlowEnd]
            case Comma => r == q.all + [FlowEntry]
            case Dash => r == q.all + (if deeper then [BlockSequenceStart] else []) + [BlockEntry]
            case Question => r == q.all + (if deeper then [BlockMappingStart] else []) + [Key]
            case Colon =>
              if q.key.possible && q.key.number <= |q.all| then
                var start := if q.flow == 0 && q.columns[|q.columns| - 1] < q.key.mark.column then [BlockMappingStart] else [];
                r == q.all[..q.key.number] + start + [Key] + q.all[q.key.number..] + [Value]
              else r == q.all + (if deeper then [BlockMappingStart] else []) + [Value]
            case AnAnchor => r == q.all + [Anchor]
            case ATag => r == q.all + [Tag]
            case BlockScalar => r == q.all + [Scalar]
            case FlowOrPlainScalar => r == q.all + [Scalar]
            case Unknown => r == q.all
  {
  }

  /** What is in front of the lexeme, and which lexemes are refused. */
  lemma ApproachTable(q: Look, l: Lexeme)
    ensures var r := Approach(q, l);
            && (q.flow == 0 ==> r.all == q.all + Ends(Above(q.columns, l.start.column)))
            && (q.flow > 0 ==> r.all == q.all && r.columns == q.columns)
            && (r.allowed <==> q.allowed || (l.newLine && q.flow == 0)) && r.flow == q.flow
            && (r.key.possible <==> q.key.possible && q.key.mark.line >= l.start.line && q.key.mark.index + 1024 >= l.start.index)
    ensures var needed := q.key.possible && q.key.required;
            match l.kind
            case EndOfStream | ADirective | ADocumentIndicator | Comma | BlockScalar => Refuses(q, l) <==> needed || !l.good
            case OpenFlow => Refuses(q, l) <==> q.allowed && needed
            case CloseFlow => Refuses(q, l) <==> needed
            case Dash | Question => Refuses(q, l) <==> (q.flow == 0 && !q.allowed) || needed
            case Colon => Refuses(q, l) <==> !q.key.possible && q.flow == 0 && !q.allowed
            case AnAnchor | ATag | FlowOrPlainScalar => Refuses(q, l) <==> (q.allowed && needed) || !l.good
            case Unknown => Refuses(q, l)
  {
    hide Ends, Above;
    assert q.all + Ends(0) == q.all && q.columns[..|q.columns|] == q.columns by { NoEnds(q.all); }
  }

  lemma NoEnds(s: seq<Token>)
    ensures s + Ends(0) == s
  {
  }

  /** What is known behind the lexeme: whether a simple key may begin, the flow level, and the possible key. */
  lemma BehindTable(q: Look, l: Lexeme)
    requires q.columns != []
    ensures match l.kind
            case OpenFlow | Comma | Dash | BlockScalar => Allows(q, l)
            case Question => Allows(q, l) <==> q.flow == 0
            case Colon => Allows(q, l) <==> !q.key.possible && q.flow == 0
            case FlowOrPlainScalar => Allows(q, l) <==> l.broken
            case _ => !Allows(q, l)
    ensures LevelAfter(q, l) == if l.kind == OpenFlow then q.flow + 1 else if l.kind == CloseFlow && q.flow > 0 then q.flow - 1 else q.flow
    ensures l.kind in {OpenFlow, AnAnchor, ATag, FlowOrPlainScalar} && q.allowed ==>
              KeyAfter(q, l) == SimpleKey(true, q.flow == 0 && q.columns[|q.columns| - 1] == l.start.column, |q.all|, l.start)
    ensures l.kind in {OpenFlow, AnAnchor, ATag, FlowOrPlainScalar} && !q.allowed ==> KeyAfter(q, l) == q.key
    ensures l.kind !in {OpenFlow, AnAnchor, ATag, FlowOrPlainScalar} ==> !KeyAfter(q, l).possible
  {
  }

  /** One more lexeme, one more token, of the kind of the lexeme; none for a "?". */
  lemma TokenTable(ls: seq<Lexeme>, l: Lexeme)
    ensures TokensOf([]) == [] && Questions([]) == 0
    ensures Questions(ls + [l]) == Questions(ls) + if l.kind == Question then 1 else 0
    ensures var r := TokensOf(ls + [l]);
            match l.kind
            case EndOfStream => r == TokensOf(ls) + [StreamEnd]
            case ADirective => r == TokensOf(ls) + [Directive]
            case ADocumentIndicator => r == TokensOf(ls) + [DocumentIndicator]
            case OpenFlow => r == TokensOf(ls) + [FlowStart]
            case CloseFlow => r == TokensOf(ls) + [FlowEnd]
            case Comma => r == TokensOf(ls) + [FlowEntry]
            case Dash => r == TokensOf(ls) + [BlockEntry]
            case Colon => r == TokensOf(ls) + [Value]
            case AnAnchor => r == TokensOf(ls) + [Anchor]
            case ATag => r == TokensOf(ls) + [Tag]
            case BlockScalar | FlowOrPlainScalar => r == TokensOf(ls) + [Scalar]
            case Question | Unknown => r == TokensOf(ls)
  {
    assert (ls + [l])[..|ls|] == ls && TokensOf(ls) + [] == TokensOf(ls);
  }

  lemma StartsSilent(q: Look, column: int, start: Token)
    requires start == BlockSequenceStart || start == BlockMappingStart
    ensures Lexical(Starts(q, column, start)) == [] && Count(Starts(q, column, start), Key) == 0
  {
    OneLexical(start);
  }

  class Scanner {
    const lexemes: seq<Lexeme>
    var next: nat
    var queue: seq<Token>
    var tokensParsed: nat
    var tokenAvailable: bool
    var mark: Mark
    var indent: int
    var indents: seq<int>
    var simpleKeyAllowed: bool
    var flowLevel: nat
    var simpleKeys: seq<SimpleKey>
    var streamStartProduced: bool
    var error: bool
    /** The tokens the parser has taken. */
    ghost var taken: seq<Token>
    /** How many ":" have completed a possible simple key. */
    ghost var completed: nat

    ghost function All(): seq<Token>
      reads this`taken, this`queue
    {
      taken + queue
    }

    /** slack is 1 between saving a key and appending its token. */
    ghost predicate Consistent(slack: nat)
      reads this`next, this`queue, this`taken, this`tokensParsed, this`indent, this`indents, this`flowLevel, this`simpleKeys
      reads this`streamStartProduced
    {
      && next <= |lexemes| && |taken| == tokensParsed && |simpleKeys| == flowLevel + 1 && streamStartProduced
      && Keys(simpleKeys, tokensParsed, tokensParsed + |queue| + slack) && Levels(indents, indent)
      && KeyStarts(simpleKeys, All()) && Nested(All()) && Depth(All()) == |indents|
    }

    /** Before the first token nothing is there; a token that may be taken is not where a key may have to go. */
    ghost predicate Valid()
      reads this
    {
      !error ==>
        (if streamStartProduced then Consistent(0)
         else next <= |lexemes| && queue == [] && taken == [] && tokensParsed == 0 && simpleKeys == [] && flowLevel == 0
              && indents == [] && !tokenAvailable)
        && (tokenAvailable ==> queue != [] && HeadIsFree())
        && Lexed()
    }

    /** The tokens are those of the lexemes, with block starts, block ends and KEY in between. */
    ghost predicate Lexed()
      reads this`next, this`streamStartProduced, this`completed, this`taken, this`queue
    {
      next <= |lexemes| &&
      if streamStartProduced then
        && Lexical(All()) == [StreamStart] + TokensOf(lexemes[..next])
        && Count(All(), Key) == Questions(lexemes[..next]) + completed
      else next == 0 && completed == 0
    }

    ghost predicate HeadIsFree()
      reads this`simpleKeys, this`tokensParsed
    {
      forall i :: 0 <= i < |simpleKeys| && simpleKeys[i].possible ==> simpleKeys[i].number != tokensParsed
    }

    constructor (lexemes: seq<Lexeme>)
      ensures Valid() && this.lexemes == lexemes && taken == [] && !error
    {
      this.lexemes := lexemes;
      next, queue, tokensParsed, tokenAvailable, mark := 0, [], 0, false, Mark(0, 0, 0);
      indent, indents, simpleKeyAllowed, flowLevel, simpleKeys := 0, [], false, 0, [];
      streamStartProduced, error, taken, completed := false, false, [], 0;
    }

    // ----- the queue

    /** Append a token that neither starts nor ends a block. */
    method Enqueue(t: Token, ghost slack: nat)
      requires Consistent(slack) && slack <= 1 && Weight(t) == 0 && (slack == 1 ==> StartsKey(t))
      modifies this`queue
      ensures Consistent(0) && All() == old(All()) + [t] && queue == old(queue) + [t]
    {
      hide Depth, Weight, Nested;
      NestedAppend(All(), t);
      assert taken + (queue + [t]) == taken + queue + [t];
      queue := queue + [t];
    }

    /** QUEUE_INSERT, by the number that the token gets in the whole stream. */
    method InsertToken(number: nat, t: Token)
      requires tokensParsed <= number <= tokensParsed + |queue| && |taken| == tokensParsed
      modifies this`queue
      ensures All() == Insert(old(All()), number, t) && |queue| == old(|queue|) + 1
    {
      var i := number - tokensParsed;
      ghost var was := taken + queue;
      assert was[..number] == taken + queue[..i] && was[number..] == queue[i..];
      queue := queue[..i] + [t] + queue[i..];
    }

    // ----- simple keys

    /** yaml_parser_stale_simple_keys */
    method StaleSimpleKeys()
      requires Consistent(0) && !error
      modifies this`simpleKeys, this`error
      ensures |simpleKeys| == old(|simpleKeys|)
      ensures !error ==> Consistent(0) && forall i :: 0 <= i < |simpleKeys| ==> simpleKeys[i] == Aged(old(simpleKeys)[i], mark)
      ensures error <==> exists key :: key in old(simpleKeys) && key.possible && key.required && Outdated(key, mark)
    {
      hide Nested, Levels, Depth, Outdated;
      var i := 0;
      while i < |simpleKeys|
        invariant i <= |simpleKeys| == old(|simpleKeys|) && Consistent(0) && !error
        invariant forall j :: 0 <= j < i ==> simpleKeys[j] == Aged(old(simpleKeys)[j], mark)
        invariant forall j :: i <= j < |simpleKeys| ==> simpleKeys[j] == old(simpleKeys)[j]
        invariant forall j :: 0 <= j < i && old(simpleKeys)[j].possible && old(simpleKeys)[j].required
                    ==> !Outdated(old(simpleKeys)[j], mark)
      {
        var key := simpleKeys[i];
        assert key == old(simpleKeys)[i] && key in old(simpleKeys);
        if key.possible && Outdated(key, mark) {
          if key.required {
            error := true;
            return;
          }
          simpleKeys := simpleKeys[i := key.(possible := false)];
        }
        i := i + 1;
      }
    }

    /** yaml_parser_remove_simple_key */
    method RemoveSimpleKey(ghost slack: nat)
      requires Consistent(slack) && !error
      modifies this`simpleKeys, this`error
      ensures error <==> old(simpleKeys[flowLevel].possible && simpleKeys[flowLevel].required)
      ensures !error ==> (&& Consistent(slack)
                          && simpleKeys == old(simpleKeys)[flowLevel := old(simpleKeys)[flowLevel].(possible := false)])
    {
      hide Nested, Levels, Depth;
      var key := simpleKeys[flowLevel];
      if key.possible && key.required {
        error := true;
        return;
      }
      simpleKeys := simpleKeys[flowLevel := key.(possible := false)];
    }

    /** yaml_parser_save_simple_key: the key gets the number of the token that is appended next. */
    method SaveSimpleKey()
      requires Consistent(0) && !error
      modifies this`simpleKeys, this`error
      ensures !error ==> Consistent(1)
      ensures error <==> simpleKeyAllowed && old(simpleKeys[flowLevel].possible && simpleKeys[flowLevel].required)
      ensures !error ==> simpleKeys == if simpleKeyAllowed
                                       then old(simpleKeys)[flowLevel := SimpleKey(true, flowLevel == 0 && indent == mark.column, |All()|, mark)]
                                       else old(simpleKeys)
    {
      hide Nested, Levels, Depth;
      var required := flowLevel == 0 && indent == mark.column;
      if simpleKeyAllowed {
        var key := SimpleKey(true, required, tokensParsed + |queue|, mark);
        RemoveSimpleKey(0);
        if !error {
          simpleKeys := simpleKeys[flowLevel := key];
        }
      }
    }

    method IncreaseFlowLevel()
      requires Consistent(1)
      modifies this`simpleKeys, this`flowLevel
      ensures Consistent(1) && flowLevel == old(flowLevel) + 1 && simpleKeys == old(simpleKeys) + [NO_KEY]
    {
      hide Nested, Levels, Depth;
      simpleKeys := simpleKeys + [NO_KEY];
      flowLevel := flowLevel + 1;
    }

    method DecreaseFlowLevel()
      requires Consistent(0)
      modifies this`simpleKeys, this`flowLevel
      ensures Consistent(0) && flowLevel == if old(flowLevel) == 0 then 0 else old(flowLevel) - 1
      ensures simpleKeys == old(simpleKeys)[..flowLevel + 1]
    {
      hide Nested, Levels, Depth;
      if flowLevel > 0 {
        flowLevel := flowLevel - 1;
        simpleKeys := simpleKeys[..flowLevel + 1];
      }
    }

    // ----- indentation

    /** yaml_parser_roll_indent, with the new token at the end of the queue. */
    method RollIndent(column: nat, t: Token)
      requires Consistent(0) && Weight(t) == 1
      modifies this`queue, this`indent, this`indents
      ensures Consistent(0)
      ensures All() == old(All()) + (if flowLevel == 0 && old(indent) < column then [t] else [])
    {
      hide Depth, Weight, Nested;
      if flowLevel == 0 && indent < column {
        NestedAppend(All(), t);
        assert taken + (queue + [t]) == taken + queue + [t];
        LevelsPush(indents, indent, column);
        indents := indents + [indent];
        indent := column;
        queue := queue + [t];
      }
    }

    /** yaml_parser_roll_indent, with the new token in front of a token of the queue. */
    method RollIndentAt(column: nat, number: nat, t: Token)
      requires Consistent(0) && Weight(t) == 1 && tokensParsed <= number <= tokensParsed + |queue|
      requires !simpleKeys[flowLevel].possible
      modifies this`queue, this`indent, this`indents
      ensures Consistent(0)
      ensures All() == if flowLevel == 0 && old(indent) < column then Insert(old(All()), number, t) else old(All())
    {
      hide Depth, Weight, Nested, Insert;
      if flowLevel == 0 && indent < column {
        NestedInsert(All(), number, t);
        LevelsPush(indents, indent, column);
        indents := indents + [indent];
        indent := column;
        InsertToken(number, t);
      }
    }

    /** The columns of all open blocks, innermost last. */
    ghost function Now(): Look
      requires |simpleKeys| == flowLevel + 1
      reads this
    {
      Look(All(), Columns(), flowLevel, simpleKeyAllowed, simpleKeys[flowLevel])
    }

    ghost function Columns(): seq<int>
      reads this`indent, this`indents
    {
      indents + [indent]
    }

    /** yaml_parser_unroll_indent */
    method UnrollIndent(column: int)
      requires Consistent(0) && column >= -1
      modifies this`queue, this`indent, this`indents
      ensures Consistent(0)
      ensures flowLevel == 0 ==> indent <= column
      ensures Columns() <= old(Columns())
      ensures forall i :: |Columns()| <= i < |old(Columns())| ==> flowLevel == 0 && old(Columns())[i] > column
      ensures |All()| == |old(All())| + |old(Columns())| - |Columns()| && old(All()) <= All()
      ensures forall i :: |old(All())| <= i < |All()| ==> All()[i] == BlockEnd
      ensures All() == old(All()) + Ends(|old(Columns())| - |Columns()|)
      ensures |Columns()| == |old(Columns())| - if flowLevel == 0 then Above(old(Columns()), column) else 0
    {
      hide Depth, Nested;
      Unroll(column);
      EndsAre(All()[|old(All())|..], |old(Columns())| - |Columns()|);
      assert All() == old(All()) + All()[|old(All())|..];
      if flowLevel == 0 {
        ColumnsBelow(column);
        AboveIs(old(Columns()), column, |Columns()|);
      }
    }

    /** One more token in the queue is fine for the keys. */
    lemma KeysLonger()
      requires Consistent(0)
      ensures Keys(simpleKeys, tokensParsed, tokensParsed + |queue| + 1)
      ensures KeyStarts(simpleKeys, All() + [BlockEnd])
    {
      hide Depth, Nested, Levels;
    }

    lemma ColumnsBelow(column: int)
      requires Consistent(0) && indent <= column
      ensures forall i :: 0 <= i < |Columns()| ==> Columns()[i] <= column
    {
      hide Depth, Nested, Keys, KeyStarts;
    }

    method Unroll(column: int)
      requires Consistent(0) && column >= -1
      modifies this`queue, this`indent, this`indents
      ensures Consistent(0)
      ensures if flowLevel == 0 then indent <= column else Columns() == old(Columns())
      ensures Columns() <= old(Columns())
      ensures forall i :: |Columns()| <= i < |old(Columns())| ==> flowLevel == 0 && old(Columns())[i] > column
      ensures |All()| == |old(All())| + |old(Columns())| - |Columns()| && old(All()) <= All()
      ensures forall i :: |old(All())| <= i < |All()| ==> All()[i] == BlockEnd
    {
      hide Consistent, All, Columns;
      if flowLevel == 0 {
        while indent > column
          invariant Consistent(0) && old(All()) <= All() && Columns() <= old(Columns())
          invariant |All()| == |old(All())| + |old(Columns())| - |Columns()|
          invariant forall i :: |old(All())| <= i < |All()| ==> All()[i] == BlockEnd
          invariant forall i :: |Columns()| <= i < |old(Columns())| ==> old(Columns())[i] > column
          decreases |Columns()|
        {
          ghost var columns := Columns();
          Innermost();
          PopIndent();
          assert old(Columns())[|columns| - 1] == columns[|columns| - 1];
        }
      }
    }

    lemma Innermost()
      ensures |Columns()| > 0 && Columns()[|Columns()| - 1] == indent
    {
    }

    /** Close the innermost block. */
    method PopIndent()
      requires Consistent(0) && indent > -1
      modifies this`queue, this`indent, this`indents
      ensures Consistent(0) && All() == old(All()) + [BlockEnd] && Columns() == old(Columns())[..|old(Columns())| - 1]
    {
      hide Depth, Nested, Keys, KeyStarts;
      NestedAppend(All(), BlockEnd);
      assert taken + (queue + [BlockEnd]) == taken + queue + [BlockEnd];
      KeysLonger();
      LevelsPop(indents, indent);
      queue := queue + [BlockEnd];
      indent := indents[|indents| - 1];
      indents := indents[..|indents| - 1];
    }

    /** One key for each flow level. */
    lemma Levelled(slack: nat)
      requires Consistent(slack)
      ensures |simpleKeys| == flowLevel + 1 && |All()| == tokensParsed + |queue|
    {
      hide Depth, Nested, Levels, Keys, KeyStarts;
    }

    lemma Deep()
      requires Consistent(0)
      ensures Depth(All()) == |indents|
    {
      hide Depth, Nested, Levels, Keys, KeyStarts;
    }

    // ----- token fetchers

    method FetchStreamStart()
      requires Valid() && !error && !streamStartProduced
      modifies this
      ensures Valid() && !error && streamStartProduced && queue == [StreamStart] && taken == [] && next == old(next)
      ensures !tokenAvailable && All() == [StreamStart] && Columns() == [-1] && flowLevel == 0 && simpleKeyAllowed
    {
      hide Lexical, Count, TokensOf, Questions, Depth, Nested;
      indent := -1;
      simpleKeys := simpleKeys + [NO_KEY];
      simpleKeyAllowed := true;
      streamStartProduced := true;
      queue := queue + [StreamStart];
      assert taken + queue == [StreamStart];
      OneToken(StreamStart);
      StartLexed();
      assert lexemes[..0] == [];
    }

    /** The KEY token of a simple key found before, and the start of its mapping if this is its first key. */
    method InsertKey()
      requires Consistent(0) && simpleKeys[flowLevel].possible
      modifies this`queue, this`indent, this`indents, this`simpleKeys
      ensures Consistent(0)
      ensures var key := old(simpleKeys[flowLevel]);
        && key.number < |old(All())|
        && All() == old(All())[..key.number]
                    + (if flowLevel == 0 && old(indent) < key.mark.column then [BlockMappingStart] else [])
                    + [Key] + old(All())[key.number..]
      ensures simpleKeys == old(simpleKeys)[flowLevel := old(simpleKeys[flowLevel]).(possible := false)]
    {
      hide Depth, Nested, Levels;
      var key := simpleKeys[flowLevel];
      ghost var all := All();
      assert key.number < |all| && tokensParsed <= key.number;
      NestedInsert(all, key.number, Key);
      InsertTwice(all, key.number, Key, BlockMappingStart);
      KeysAfterInsert(simpleKeys, flowLevel, tokensParsed, all, Key);
      simpleKeys := simpleKeys[flowLevel := key.(possible := false)];
      InsertToken(key.number, Key);
      RollIndentAt(key.mark.column, key.number, BlockMappingStart);
    }

    /** yaml_parser_fetch_value */
    method FetchValue(l: Lexeme)
      requires Consistent(0) && !error
      modifies this`queue, this`indent, this`indents, this`simpleKeys, this`simpleKeyAllowed, this`mark, this`error
      ensures !error ==> Consistent(0)
      ensures !error ==> var key := old(simpleKeys[flowLevel]);
        var start := if flowLevel == 0 && old(indent) < (if key.possible then key.mark.column else old(mark).column)
                     then [BlockMappingStart] else [];
        if key.possible then
          && key.number <= |old(All())|
          && All() == old(All())[..key.number] + start + [Key] + old(All())[key.number..] + [Value]
        else All() == old(All()) + start + [Value]
      ensures error <==> !old(simpleKeys[flowLevel].possible) && flowLevel == 0 && !old(simpleKeyAllowed)
      ensures !error ==> var key := old(simpleKeys[flowLevel]);
        && simpleKeyAllowed == (!key.possible && flowLevel == 0) && mark == l.end
        && simpleKeys == old(simpleKeys)[flowLevel := key.(possible := false)]
    {
      hide Depth, Nested, Levels, Keys, KeyStarts;
      if simpleKeys[flowLevel].possible {
        InsertKey();
        simpleKeyAllowed := false;
      } else {
        if flowLevel == 0 {
          if !simpleKeyAllowed {
            error := true;
            return;
          }
          RollIndent(mark.column, BlockMappingStart);
        }
        simpleKeyAllowed := flowLevel == 0;
      }
      mark := l.end;
      Enqueue(Value, 0);
    }

    /** yaml_parser_fetch_block_entry and yaml_parser_fetch_key. */
    method FetchBlockIndicator(l: Lexeme, start: Token, t: Token)
      requires Consistent(0) && !error
      requires (start == BlockSequenceStart && t == BlockEntry) || (start == BlockMappingStart && t == Key)
      modifies this`queue, this`indent, this`indents, this`simpleKeys, this`simpleKeyAllowed, this`mark, this`error
      ensures !error ==> Consistent(0)
      ensures !error ==> All() == old(All()) + (if flowLevel == 0 && old(indent) < old(mark).column then [start] else []) + [t]
      ensures error <==> || (flowLevel == 0 && !old(simpleKeyAllowed))
                         || old(simpleKeys[flowLevel].possible && simpleKeys[flowLevel].required)
      ensures !error ==> simpleKeyAllowed == (t == BlockEntry || flowLevel == 0) && mark == l.end
      ensures !error ==> simpleKeys == old(simpleKeys)[flowLevel := old(simpleKeys)[flowLevel].(possible := false)]
    {
      hide Consistent, All;
      Levelled(0);
      if flowLevel == 0 {
        if !simpleKeyAllowed {
          error := true;
          return;
        }
        RollIndent(mark.column, start);
      }
      RemoveSimpleKey(0);
      if error {
        return;
      }
      simpleKeyAllowed := t == BlockEntry || flowLevel == 0;
      mark := l.end;
      Enqueue(t, 0);
    }

    /** A token that may begin a simple key: an anchor, alias or tag, a scalar that is not a block scalar. */
    method FetchKeyLike(l: Lexeme, t: Token)
      requires Consistent(0) && !error && (t == Anchor || t == Tag || t == Scalar)
      modifies this`queue, this`simpleKeys, this`simpleKeyAllowed, this`mark, this`error
      ensures !error ==> Consistent(0) && All() == old(All()) + [t] && simpleKeyAllowed == (t == Scalar && l.broken)
      ensures error <==> || (old(simpleKeyAllowed) && old(simpleKeys[flowLevel].possible && simpleKeys[flowLevel].required))
                         || !l.good
      ensures !error ==> simpleKeys == (if old(simpleKeyAllowed)
                                        then old(simpleKeys)[flowLevel := SimpleKey(true, flowLevel == 0 && indent == old(mark).column,
                                                                                    |old(All())|, old(mark))]
                                        else old(simpleKeys)) && mark == l.end
    {
      hide Consistent, All;
      Levelled(0);
      SaveSimpleKey();
      if error {
        return;
      }
      simpleKeyAllowed := false;
      if !l.good {
        error := true;
        return;
      }
      if t == Scalar && l.broken {
        simpleKeyAllowed := true;
      }
      mark := l.end;
      Enqueue(t, 1);
    }

    method FetchFlowStart(l: Lexeme)
      requires Consistent(0) && !error
      modifies this`queue, this`simpleKeys, this`simpleKeyAllowed, this`flowLevel, this`mark, this`error
      ensures !error ==> Consistent(0) && All() == old(All()) + [FlowStart] && flowLevel == old(flowLevel) + 1
      ensures !error ==> simpleKeys[flowLevel] == NO_KEY && simpleKeyAllowed && mark == l.end
      ensures error <==> old(simpleKeyAllowed) && old(simpleKeys[flowLevel].possible && simpleKeys[flowLevel].required)
      ensures !error ==> simpleKeys == (if old(simpleKeyAllowed)
                                        then old(simpleKeys)[old(flowLevel) := SimpleKey(true, old(flowLevel) == 0 && indent == old(mark).column,
                                                                                         |old(All())|, old(mark))]
                                        else old(simpleKeys)) + [NO_KEY]
    {
      hide Consistent, All;
      Levelled(0);
      SaveSimpleKey();
      if error {
        return;
      }
      IncreaseFlowLevel();
      simpleKeyAllowed := true;
      mark := l.end;
      Enqueue(FlowStart, 1);
    }

    method FetchFlowEnd(l: Lexeme)
      requires Consistent(0) && !error
      modifies this`queue, this`simpleKeys, this`simpleKeyAllowed, this`flowLevel, this`mark, this`error
      ensures !error ==> Consistent(0) && All() == old(All()) + [FlowEnd]
      ensures !error ==> flowLevel == if old(flowLevel) == 0 then 0 else old(flowLevel) - 1
      ensures !error && old(flowLevel) > 0 ==> simpleKeys == old(simpleKeys)[..flowLevel + 1]
      ensures !error && old(flowLevel) == 0 ==> simpleKeys == old(simpleKeys)[0 := old(simpleKeys)[0].(possible := false)]
      ensures error <==> old(simpleKeys[flowLevel].possible && simpleKeys[flowLevel].required)
      ensures !error ==> !simpleKeyAllowed && mark == l.end
    {
      hide Consistent, All;
      Levelled(0);
      RemoveSimpleKey(0);
      if error {
        return;
      }
      DecreaseFlowLevel();
      simpleKeyAllowed := false;
      mark := l.end;
      Enqueue(FlowEnd, 0);
    }

    /** A token that ends any possible simple key on its level: ',' and block scalars. */
    method FetchPlain(l: Lexeme, t: Token)
      requires Consistent(0) && !error && (t == FlowEntry || t == Scalar)
      modifies this`queue, this`simpleKeys, this`simpleKeyAllowed, this`mark, this`error
      ensures !error ==> Consistent(0) && All() == old(All()) + [t] && simpleKeyAllowed
      ensures !error ==> simpleKeys == old(simpleKeys)[flowLevel := old(simpleKeys)[flowLevel].(possible := false)]
      ensures error <==> old(simpleKeys[flowLevel].possible && simpleKeys[flowLevel].required) || !l.good
      ensures !error ==> mark == l.end
    {
      hide Consistent, All;
      Levelled(0);
      RemoveSimpleKey(0);
      if error {
        return;
      }
      simpleKeyAllowed := true;
      if !l.good {
        error := true;
        return;
      }
      mark := l.end;
      Enqueue(t, 0);
    }

    /** Outside of flow collections. */
    method CloseAll()
      requires Consistent(0)
      modifies this`queue, this`indent, this`indents
      ensures Consistent(0) && (flowLevel == 0 ==> indents == [])
      ensures All() == old(All()) + Ends(if flowLevel == 0 then |old(Columns())| - 1 else 0)
      ensures Columns() == if flowLevel == 0 then [-1] else old(Columns())
    {
      hide Depth, Nested, Levels, Keys, KeyStarts, Ends, Above;
      UnrollIndent(-1);
      LevelsOut(indents, indent);
      NothingOpen();
    }

    /** Directives, document indicators and the end of the stream close all blocks, unless a flow collection is open. */
    method FetchAtMargin(l: Lexeme, t: Token)
      requires Consistent(0) && !error && (t == Directive || t == DocumentIndicator || t == StreamEnd)
      modifies this`queue, this`indent, this`indents, this`simpleKeys, this`simpleKeyAllowed, this`mark, this`error
      ensures !error ==> Consistent(0) && All() != [] && All()[|All()| - 1] == t
      ensures !error && flowLevel == 0 ==> Depth(All()) == 0
      ensures !error ==> All() == old(All()) + Ends(if flowLevel == 0 then |old(Columns())| - 1 else 0) + [t]
      ensures !error ==> Columns() == if flowLevel == 0 then [-1] else old(Columns())
      ensures error <==> old(simpleKeys[flowLevel].possible && simpleKeys[flowLevel].required) || !l.good
      ensures !error ==> !simpleKeyAllowed && simpleKeys == old(simpleKeys)[flowLevel := old(simpleKeys)[flowLevel].(possible := false)]
      ensures !error ==> mark == if t != StreamEnd then l.end
                                 else if old(mark).column != 0 then Mark(old(mark).index, old(mark).line + 1, 0) else old(mark)
    {
      hide Consistent, All, Columns, Ends, Depth;
      Levelled(0);
      if t == StreamEnd && mark.column != 0 {
        mark := Mark(mark.index, mark.line + 1, 0);
      }
      CloseAll();
      RemoveSimpleKey(0);
      if error {
        return;
      }
      simpleKeyAllowed := false;
      if !l.good {
        error := true;
        return;
      }
      if t != StreamEnd {
        mark := l.end;
      }
      Enqueue(t, 0);
      Deep();
    }

    lemma NothingOpen()
      requires Levels(indents, indent)
      ensures indent <= -1 ==> Columns() == [-1]
    {
    }

    /**
     * yaml_parser_fetch_next_token: the stream start, or the tokens of the next lexeme. It fails exactly
     * if there is none, if a required simple key is too old, or if the lexeme is refused.
     */
    method FetchNextToken()
      requires Valid() && !error && !tokenAvailable
      modifies this
      ensures Valid() && !tokenAvailable && taken == old(taken) && tokensParsed == old(tokensParsed)
      ensures !error ==> streamStartProduced && (old(next) < next || (old(next) == next && !old(streamStartProduced)))
      ensures old(streamStartProduced) ==> |old(simpleKeys)| == old(flowLevel) + 1
      ensures error <==>
              old(streamStartProduced) &&
              (|| old(next) == |lexemes|
               || (exists key :: key in old(simpleKeys) && key.possible && key.required && Outdated(key, lexemes[old(next)].start))
               || Refuses(Approach(old(Now()), lexemes[old(next)]), lexemes[old(next)]))
      ensures !error && !old(streamStartProduced) ==> All() == [StreamStart]
      ensures !error && old(streamStartProduced) ==>
                var l := lexemes[old(next)];
                next == old(next) + 1 && Follows(Approach(old(Now()), l), l)
      ensures !error && old(streamStartProduced) ==>
                completed == old(completed) + if lexemes[old(next)].kind == Colon && Aged(old(simpleKeys[flowLevel]), lexemes[old(next)].start).possible then 1 else 0
    {
      hide Depth, Nested, Levels, Keys, KeyStarts, Lexical, Count, Approach, Refuses, Follows, Outdated, TokensOf, Questions;
      if !streamStartProduced {
        FetchStreamStart();
        return;
      }
      Levelled(0);
      if next == |lexemes| {
        error := true;
        return;
      }
      var l := lexemes[next];
      ghost var ls, q := lexemes[..next], Now();
      next := next + 1;
      Prepare(l);
      if error {
        return;
      }
      KeyInside();
      Fetch(l);
      FollowsIs(Approach(q, l), l);
      if !error {
        completed := completed + if l.kind == Colon && Aged(q.key, l.start).possible then 1 else 0;
        UnknownIsRefused(Approach(q, l), l);
        assert lexemes[..next] == ls + [l];
        LexedNext(q, l, ls, old(completed));
      }
    }

    /** What happens in front of a lexeme. */
    method Prepare(l: Lexeme)
      requires Consistent(0) && !error
      modifies this`mark, this`simpleKeyAllowed, this`simpleKeys, this`error, this`queue, this`indent, this`indents
      ensures error <==> exists key :: key in old(simpleKeys) && key.possible && key.required && Outdated(key, l.start)
      ensures |old(simpleKeys)| == flowLevel + 1
      ensures !error ==> Consistent(0) && mark == l.start && (flowLevel == 0 ==> indent <= mark.column)
      ensures !error ==> |simpleKeys| == flowLevel + 1 && Now() == Approach(old(Now()), l)
    {
      hide Consistent, All, Columns, Above, Ends, Outdated;
      Levelled(0);
      ghost var q := Now();
      mark := l.start;
      if l.newLine && flowLevel == 0 {
        simpleKeyAllowed := true;
      }
      StaleSimpleKeys();
      if error {
        return;
      }
      UnrollIndent(mark.column);
      Approached(q, l, Now());
    }

    lemma FollowsIs(q: Look, l: Lexeme)
      requires Follows(q, l)
      ensures error <==> Refuses(q, l)
      ensures !error ==> All() == Fetched(q, l)
    {
    }

    /** The number of a possible key is that of a token. */
    lemma KeyInside()
      requires Consistent(0)
      ensures |simpleKeys| == flowLevel + 1 && (simpleKeys[flowLevel].possible ==> simpleKeys[flowLevel].number <= |All()|)
    {
      hide Depth, Nested, Levels, KeyStarts;
    }

    /** The state is what the lexeme makes of an earlier one, or the lexeme is refused. */
    ghost predicate Follows(q: Look, l: Lexeme)
      reads this`error, this`taken, this`queue, this`simpleKeyAllowed, this`flowLevel, this`simpleKeys
    {
      && (error <==> Refuses(q, l))
      && (!error ==>
            && All() == Fetched(q, l) && simpleKeyAllowed == Allows(q, l) && flowLevel == LevelAfter(q, l)
            && (q.flow < |simpleKeys| ==> simpleKeys[q.flow] == KeyAfter(q, l)))
    }

    /** One more token, or a few, by the character at the cursor. */
    method Fetch(l: Lexeme)
      requires Consistent(0) && !error && mark == l.start && (flowLevel == 0 ==> indent <= mark.column)
      modifies this`queue, this`indent, this`indents, this`simpleKeys, this`simpleKeyAllowed, this`flowLevel
      modifies this`mark, this`error
      ensures !error ==> Consistent(0)
      ensures |old(simpleKeys)| == old(flowLevel) + 1 && Follows(old(Now()), l)
    {
      hide Consistent, All, Ends, Follows, Columns;
      Levelled(0);
      match l.kind
      case EndOfStream => FetchMargin(l);
      case ADirective => FetchMargin(l);
      case ADocumentIndicator => FetchMargin(l);
      case OpenFlow => FetchFlow(l);
      case CloseFlow => FetchFlow(l);
      case Comma => FetchFlow(l);
      case Dash => FetchBlock(l);
      case Question => FetchBlock(l);
      case Colon => FetchBlock(l);
      case AnAnchor => FetchContent(l);
      case ATag => FetchContent(l);
      case BlockScalar => FetchContent(l);
      case FlowOrPlainScalar => FetchContent(l);
      case Unknown =>
        error := true;
        UnknownRefused(old(Now()), l);
    }

    lemma UnknownRefused(q: Look, l: Lexeme)
      requires l.kind == Unknown && error
      ensures Follows(q, l)
    {
    }

    method FetchMargin(l: Lexeme)
      requires Consistent(0) && !error && mark == l.start
      requires l.kind == EndOfStream || l.kind == ADirective || l.kind == ADocumentIndicator
      modifies this`queue, this`indent, this`indents, this`simpleKeys, this`simpleKeyAllowed, this`mark, this`error
      ensures !error ==> Consistent(0)
      ensures |old(simpleKeys)| == old(flowLevel) + 1 && Follows(old(Now()), l)
    {
      hide Consistent, All, Ends;
      Levelled(0);
      match l.kind
      case EndOfStream => FetchAtMargin(l, StreamEnd);
      case ADirective => FetchAtMargin(l, Directive);
      case ADocumentIndicator => FetchAtMargin(l, DocumentIndicator);
    }

    method FetchFlow(l: Lexeme)
      requires Consistent(0) && !error && mark == l.start && (l.kind == OpenFlow || l.kind == CloseFlow || l.kind == Comma)
      modifies this`queue, this`simpleKeys, this`simpleKeyAllowed, this`flowLevel, this`mark, this`error
      ensures !error ==> Consistent(0)
      ensures |old(simpleKeys)| == old(flowLevel) + 1 && Follows(old(Now()), l)
    {
      hide Consistent, All, Ends;
      Levelled(0);
      match l.kind
      case OpenFlow => FetchFlowStart(l);
      case CloseFlow => FetchFlowEnd(l);
      case Comma => FetchPlain(l, FlowEntry);
    }

    method FetchBlock(l: Lexeme)
      requires Consistent(0) && !error && mark == l.start && (l.kind == Dash || l.kind == Question || l.kind == Colon)
      modifies this`queue, this`indent, this`indents, this`simpleKeys, this`simpleKeyAllowed, this`mark, this`error
      ensures !error ==> Consistent(0)
      ensures |old(simpleKeys)| == old(flowLevel) + 1 && Follows(old(Now()), l)
    {
      hide Consistent, All, Ends;
      Levelled(0);
      match l.kind
      case Dash => FetchBlockIndicator(l, BlockSequenceStart, BlockEntry);
      case Question => FetchBlockIndicator(l, BlockMappingStart, Key);
      case Colon => FetchValue(l);
    }

    method FetchContent(l: Lexeme)
      requires Consistent(0) && !error && mark == l.start
      requires l.kind == AnAnchor || l.kind == ATag || l.kind == BlockScalar || l.kind == FlowOrPlainScalar
      modifies this`queue, this`simpleKeys, this`simpleKeyAllowed, this`mark, this`error
      ensures !error ==> Consistent(0)
      ensures |old(simpleKeys)| == old(flowLevel) + 1 && Follows(old(Now()), l)
    {
      hide Consistent, All, Ends;
      Levelled(0);
      match l.kind
      case AnAnchor => FetchKeyLike(l, Anchor);
      case ATag => FetchKeyLike(l, Tag);
      case BlockScalar => FetchPlain(l, Scalar);
      case FlowOrPlainScalar => FetchKeyLike(l, Scalar);
    }

    /** Whether a key may still have to be put in front of the next token the parser would get. */
    method HeadMayBeKey() returns (r: bool)
      ensures r <==> !HeadIsFree()
    {
      var i := 0;
      while i < |simpleKeys|
        invariant i <= |simpleKeys|
        invariant forall j :: 0 <= j < i && simpleKeys[j].possible ==> simpleKeys[j].number != tokensParsed
      {
        if simpleKeys[i].possible && simpleKeys[i].number == tokensParsed {
          return true;
        }
        i := i + 1;
      }
      r := false;
    }

    /** yaml_parser_fetch_more_tokens: afterwards there is a token that no KEY can come in front of any more. */
    method FetchMoreTokens()
      requires Valid() && !error
      modifies this
      ensures Valid() && taken == old(taken) && (!error ==> tokenAvailable)
      ensures !error ==> Lexical(All()) == [StreamStart] + TokensOf(lexemes[..next])
      ensures !error ==> Count(All(), Key) == Questions(lexemes[..next]) + completed
    {
      hide Depth, Nested, Levels, Keys, KeyStarts;
      tokenAvailable := false;
      while true
        invariant Valid() && !error && !tokenAvailable && taken == old(taken)
        invariant queue != [] ==> streamStartProduced
        decreases |lexemes| - next, !streamStartProduced
      {
        var need := queue == [];
        if !need {
          StaleSimpleKeys();
          if error {
            return;
          }
          need := HeadMayBeKey();
        }
        if !need {
          break;
        }
        FetchNextToken();
        if error {
          return;
        }
      }
      tokenAvailable := true;
    }

    /** The parser takes the head of the queue; nothing will ever be put in front of what it has taken. */
    method Take() returns (t: Token)
      requires Valid() && !error && tokenAvailable && streamStartProduced
      modifies this`queue, this`tokensParsed, this`tokenAvailable, this`taken
      ensures Valid() && taken == old(taken) + [t] && All() == old(All())
    {
      hide Depth, Nested, Levels;
      t := queue[0];
      assert taken + queue == (taken + [t]) + queue[1..];
      taken := taken + [t];
      queue := queue[1..];
      tokensParsed := tokensParsed + 1;
      tokenAvailable := false;
    }
  }

  lemma StartLexed()
    ensures Lexical([StreamStart]) == [StreamStart] + TokensOf([]) && Count([StreamStart], Key) == Questions([]) + 0
  {
    OneLexical(StreamStart);
    assert [StreamStart] + [] == [StreamStart];
  }

  lemma OneToken(t: Token)
    requires Weight(t) == 0
    ensures Nested([t]) && Depth([t]) == 0
  {
    hide Nested, Depth, Weight;
    NestedNothing();
    NestedAppend([], t);
    assert [] + [t] == [t];
  }

  lemma NestedNothing()
    ensures Nested([]) && Depth([]) == 0
  {
  }

  lemma InsertTwice(s: seq<Token>, i: nat, t: Token, u: Token)
    requires i <= |s|
    ensures Insert(s, i, t) == s[..i] + [] + [t] + s[i..]
    ensures Insert(Insert(s, i, t), i, u) == s[..i] + [u] + [t] + s[i..]
  {
    var r := Insert(s, i, t);
    assert r[..i] == s[..i] && r[i..] == [t] + s[i..];
  }

  /** Inserting in front of the token of the last possible key leaves the keys below alone. */
  lemma KeysAfterInsert(keys: seq<SimpleKey>, top: nat, lo: nat, all: seq<Token>, t: Token)
    requires top == |keys| - 1 && keys[top].possible && Keys(keys, lo, |all|) && KeyStarts(keys, all)
    ensures var left := keys[top := keys[top].(possible := false)];
      Keys(left, lo, |all| + 1) && KeyStarts(left, Insert(all, keys[top].number, t))
  {
  }

  lemma LevelsPush(indents: seq<int>, indent: int, column: int)
    requires Levels(indents, indent) && indent < column
    ensures Levels(indents + [indent], column)
  {
  }

  lemma LevelsOut(indents: seq<int>, indent: int)
    requires Levels(indents, indent)
    ensures indent <= -1 ==> indents == []
  {
  }

  lemma LevelsPop(indents: seq<int>, indent: int)
    requires Levels(indents, indent) && indent > -1
    ensures indents != [] && Levels(indents[..|indents| - 1], indents[|indents| - 1]) && indents[|indents| - 1] < indent
  {
  }
}
