/** The bridge that prints parser events as JSON, against a recursive printer of trees. */
module YamlJson {
  import opened Basics
  import opened YamlGraph
  import opened YamlNesting
  import opened YamlTrees
  import P = YamlParser
  import G = YamlGrammar
  import F = YamlFuture
  import V = YamlPresent

  const MAX_DEPTH := 128

  // ----- strings

  function HexDigit(d: nat): char
    requires d < 16
  {
    "0123456789abcdef"[d]
  }

  /** The escape of one character, or the character. */
  function JsonChar(c: char): string {
    if c == '"' then "\\\""
    else if c == '\\' then "\\\\"
    else if c as int == 0x08 then "\\b"
    else if c as int == 0x0C then "\\f"
    else if c == '\n' then "\\n"
    else if c == '\r' then "\\r"
    else if c == '\t' then "\\t"
    else if c as int < 0x20 then "\\u00" + [HexDigit(c as int / 16), HexDigit(c as int % 16)]
    else [c]
  }

  function JsonChars(s: string): string {
    if s == "" then "" else JsonChars(s[..|s| - 1]) + JsonChar(s[|s| - 1])
  }

  function JsonString(s: string): string {
    "\"" + JsonChars(s) + "\""
  }

  // ----- the printer of trees

  function Print(t: Tree): string {
    match t
    case Leaf(e) => if e.ScalarEvent? then JsonString(e.value) else "null"
    case Collection(start, children) =>
      if start.MappingStart? then "{" + PrintAll(true, children) + "}" else "[" + PrintAll(false, children) + "]"
  }

  /** The children, with a comma between entries and a colon between a key and its value. */
  function PrintAll(mapping: bool, ts: seq<Tree>): string
    decreases ts
  {
    if ts == [] then ""
    else
      var n := |ts| - 1;
      PrintAll(mapping, ts[..n]) + Mark(mapping, n) + Print(ts[n])
  }

  function Mark(mapping: bool, n: nat): string {
    if mapping && n % 2 == 1 then ":" else if n > 0 then "," else ""
  }

  function Depth(t: Tree): nat {
    match t
    case Leaf(_) => 0
    case Collection(_, children) => 1 + MaxDepth(children)
  }

  function MaxDepth(ts: seq<Tree>): nat {
    if ts == [] then 0
    else
      var n := |ts| - 1;
      if Depth(ts[n]) > MaxDepth(ts[..n]) then Depth(ts[n]) else MaxDepth(ts[..n])
  }

  // ----- the text, character by character

  /** The escapes: short ones where JSON has them, four digits in lower case for other control characters. */
  lemma CharIs(c: char)
    ensures c as int < 32 && c as int !in {8, 9, 10, 12, 13} ==>
              var d := c as int % 16;
              JsonChar(c) == ['\\', 'u', '0', '0', if c as int < 16 then '0' else '1', if d < 10 then (48 + d) as char else (87 + d) as char]
    ensures JsonChar(8 as char) == ['\\', 'b'] && JsonChar(9 as char) == ['\\', 't'] && JsonChar(10 as char) == ['\\', 'n']
    ensures JsonChar(12 as char) == ['\\', 'f'] && JsonChar(13 as char) == ['\\', 'r']
    ensures JsonChar('"') == ['\\', '"'] && JsonChar('\\') == ['\\', '\\']
    ensures c as int >= 32 && c != '"' && c != '\\' ==> JsonChar(c) == [c]
  {
    var d := c as int % 16;
    assert HexDigit(d) == if d < 10 then (48 + d) as char else (87 + d) as char;
    assert c as int < 32 ==> HexDigit(c as int / 16) == if c as int < 16 then '0' else '1';
  }

  /** Scalars are strings, whatever their tag or style; aliases are null. */
  lemma LeafText(e: Event, s: string, c: char)
    ensures e.ScalarEvent? ==> Print(Leaf(e)) == "\"" + JsonChars(e.value) + "\""
    ensures e.Alias? ==> Print(Leaf(e)) == "null"
    ensures JsonChars("") == "" && JsonChars(s + [c]) == JsonChars(s) + JsonChar(c)
  {
    hide JsonChar;
    assert (s + [c])[..|s|] == s;
  }

  lemma PrintOneMore(mapping: bool, ts: seq<Tree>, t: Tree)
    ensures PrintAll(mapping, ts + [t]) == PrintAll(mapping, ts) + Mark(mapping, |ts|) + Print(t)
  {
    hide Print, Mark;
    assert (ts + [t])[..|ts|] == ts;
  }

  /** Sequences in brackets, mappings in braces. */
  lemma CollectionBrackets(start: Event, ts: seq<Tree>)
    ensures start.SequenceStart? ==> Print(Collection(start, ts)) == "[" + PrintAll(false, ts) + "]"
    ensures start.MappingStart? ==> Print(Collection(start, ts)) == "{" + PrintAll(true, ts) + "}"
  {
    hide PrintAll;
  }

  /** Commas between items. */
  lemma ItemsText(ts: seq<Tree>, t: Tree)
    ensures PrintAll(false, []) == PrintAll(true, []) == ""
    ensures PrintAll(false, ts + [t]) == PrintAll(false, ts) + (if ts == [] then "" else ",") + Print(t)
  {
    hide Print, PrintAll;
    PrintOneMore(false, ts, t);
    NothingPrinted();
  }

  /** Colons behind keys, and commas between pairs. */
  lemma PairsText(ts: seq<Tree>, t: Tree, u: Tree)
    requires |ts| % 2 == 0
    ensures PrintAll(true, ts + [t] + [u]) == PrintAll(true, ts) + (if ts == [] then "" else ",") + Print(t) + ":" + Print(u)
  {
    hide Print, PrintAll, Mark;
    PrintOneMore(true, ts, t);
    PrintOneMore(true, ts + [t], u);
    PairMarks(|ts|);
  }

  lemma PairMarks(n: nat)
    requires n % 2 == 0
    ensures Mark(true, n) == (if n == 0 then "" else ",") && Mark(true, n + 1) == ":"
  {
  }

  lemma NothingPrinted()
    ensures PrintAll(false, []) == PrintAll(true, []) == ""
  {
  }

  /** How deep collections are nested. */
  lemma DepthIs(e: Event, start: Event, ts: seq<Tree>, t: Tree)
    ensures Depth(Leaf(e)) == 0 && Depth(Collection(start, ts)) == 1 + MaxDepth(ts) && MaxDepth([]) == 0
    ensures MaxDepth(ts + [t]) == if Depth(t) > MaxDepth(ts) then Depth(t) else MaxDepth(ts)
  {
    hide Depth;
    assert (ts + [t])[..|ts|] == ts;
    CollectionDepth(e, start, ts);
  }

  lemma CollectionDepth(e: Event, start: Event, ts: seq<Tree>)
    ensures Depth(Leaf(e)) == 0 && Depth(Collection(start, ts)) == 1 + MaxDepth(ts)
  {
    hide MaxDepth;
  }

  // ----- the writer, one event at a time

  datatype Context = Key(count: nat) | Value(count: nat) | Items(count: nat)

  datatype Json = Json(text: string, contexts: seq<Context>)

  function Separator(s: seq<Context>): string {
    if s == [] then ""
    else
      match s[|s| - 1]
      case Key(n) => if n > 0 then "," else ""
      case Value(_) => ":"
      case Items(n) => if n > 0 then "," else ""
  }

  function Next(c: Context): Context {
    match c
    case Key(n) => Value(n)
    case Value(n) => Key(n + 1)
    case Items(n) => Items(n + 1)
  }

  function AdvanceContext(s: seq<Context>): seq<Context> {
    if s == [] then [] else s[..|s| - 1] + [Next(s[|s| - 1])]
  }

  function PopContext(s: seq<Context>): seq<Context> {
    if s == [] then [] else s[..|s| - 1]
  }

  function OpenOn(j: Json, bracket: string, c: Context): Option<Json> {
    if |j.contexts| >= MAX_DEPTH then None
    else Some(Json(j.text + Separator(j.contexts) + bracket, j.contexts + [c]))
  }

  function CloseOn(j: Json, bracket: string): Option<Json> {
    Some(Json(j.text + bracket, AdvanceContext(PopContext(j.contexts))))
  }

  function WriteOn(j: Json, s: string): Option<Json> {
    Some(Json(j.text + Separator(j.contexts) + s, AdvanceContext(j.contexts)))
  }

  function Feed(j: Json, e: StreamEvent): Option<Json> {
    if !e.In? then Some(j)
    else
      match e.event
      case DocumentStart => Some(j)
      case DocumentEnd => Some(j)
      case MappingStart(_, _, _, _) => OpenOn(j, "{", Key(0))
      case MappingEnd => CloseOn(j, "}")
      case SequenceStart(_, _, _, _) => OpenOn(j, "[", Items(0))
      case SequenceEnd => CloseOn(j, "]")
      case ScalarEvent(_, _, v, _, _, _) => WriteOn(j, JsonString(v))
      case Alias(_) => WriteOn(j, "null")
  }

  function FeedAll(j: Json, w: seq<StreamEvent>): Option<Json> {
    if w == [] then Some(j)
    else
      match FeedAll(j, w[..|w| - 1])
      case None => None
      case Some(k) => Feed(k, w[|w| - 1])
  }

  lemma {:induction false} FeedConcat(j: Json, v: seq<StreamEvent>, w: seq<StreamEvent>)
    ensures FeedAll(j, v + w) == match FeedAll(j, v) case None => None case Some(k) => FeedAll(k, w)
  {
    hide Feed;
    if w == [] {
      assert v + w == v;
    } else {
      assert (v + w)[..|v + w| - 1] == v + w[..|w| - 1];
      FeedConcat(j, v, w[..|w| - 1]);
    }
  }

  lemma FeedOne(j: Json, e: StreamEvent)
    ensures FeedAll(j, [e]) == Feed(j, e) && FeedAll(j, []) == Some(j)
  {
    hide Feed;
    assert [e][..0] == [];
  }

  // ----- the writer prints trees

  /** The context of a collection with n children so far. */
  function After(mapping: bool, n: nat): Context {
    if !mapping then Items(n) else if n % 2 == 0 then Key(n / 2) else Value(n / 2)
  }

  function Printed(j: Json, t: Tree): Option<Json> {
    if |j.contexts| + Depth(t) > MAX_DEPTH then None
    else Some(Json(j.text + Separator(j.contexts) + Print(t), AdvanceContext(j.contexts)))
  }

  ghost predicate EachPrinted(ts: seq<Tree>) {
    forall i, j: Json :: 0 <= i < |ts| && |j.contexts| <= MAX_DEPTH ==> FeedAll(j, Word(ts[i])) == Printed(j, ts[i])
  }

  lemma {:induction false} ChildrenPrinted(text: string, s: seq<Context>, mapping: bool, ts: seq<Tree>)
    requires EachPrinted(ts) && |s| < MAX_DEPTH
    ensures FeedAll(Json(text, s + [After(mapping, 0)]), Words(ts))
         == if |s| + 1 + MaxDepth(ts) > MAX_DEPTH then None
            else Some(Json(text + PrintAll(mapping, ts), s + [After(mapping, |ts|)]))
  {
    hide Word, Print, Depth, FeedAll, After, Mark, EachPrinted;
    var j := Json(text, s + [After(mapping, 0)]);
    if ts == [] {
      FeedOne(j, NoEvent);
      assert text + PrintAll(mapping, ts) == text;
    } else {
      var n := |ts| - 1;
      LastPrinted(ts);
      ChildrenPrinted(text, s, mapping, ts[..n]);
      FeedConcat(j, Words(ts[..n]), Word(ts[n]));
      if |s| + 1 + MaxDepth(ts[..n]) <= MAX_DEPTH {
        ChildPrinted(text + PrintAll(mapping, ts[..n]), s, mapping, n, ts[n]);
        assert text + PrintAll(mapping, ts[..n]) + Mark(mapping, n) + Print(ts[n]) == text + PrintAll(mapping, ts);
      }
    }
  }

  lemma LastPrinted(ts: seq<Tree>)
    requires EachPrinted(ts) && ts != []
    ensures EachPrinted([ts[|ts| - 1]]) && EachPrinted(ts[..|ts| - 1])
  {
    hide Word, Print, Depth, FeedAll, Printed;
    var one, init := [ts[|ts| - 1]], ts[..|ts| - 1];
    forall i, j: Json | 0 <= i < |one| && |j.contexts| <= MAX_DEPTH
      ensures FeedAll(j, Word(one[i])) == Printed(j, one[i])
    {
      assert FeedAll(j, Word(ts[|ts| - 1])) == Printed(j, ts[|ts| - 1]);
    }
    forall i, j: Json | 0 <= i < |init| && |j.contexts| <= MAX_DEPTH
      ensures FeedAll(j, Word(init[i])) == Printed(j, init[i])
    {
      assert FeedAll(j, Word(ts[i])) == Printed(j, ts[i]);
    }
  }

  lemma ChildPrinted(text: string, s: seq<Context>, mapping: bool, n: nat, t: Tree)
    requires |s| < MAX_DEPTH && EachPrinted([t])
    ensures FeedAll(Json(text, s + [After(mapping, n)]), Word(t))
         == if |s| + 1 + Depth(t) > MAX_DEPTH then None
            else Some(Json(text + Mark(mapping, n) + Print(t), s + [After(mapping, n + 1)]))
  {
    hide Word, Print, Depth, FeedAll, After, Mark, Separator, AdvanceContext;
    AfterNext(s, mapping, n);
    var k := Json(text, s + [After(mapping, n)]);
    assert FeedAll(k, Word([t][0])) == Printed(k, [t][0]);
  }

  lemma AfterNext(s: seq<Context>, mapping: bool, n: nat)
    ensures Separator(s + [After(mapping, n)]) == Mark(mapping, n)
    ensures AdvanceContext(s + [After(mapping, n)]) == s + [After(mapping, n + 1)]
  {
  }

  lemma Brackets(j: Json, start: Event, e: Event, children: seq<Tree>)
    requires IsStart(start) && |j.contexts| < MAX_DEPTH && (start.MappingStart? ==> |children| % 2 == 0)
    ensures var m := start.MappingStart?;
      var k := Json(j.text + Separator(j.contexts) + (if m then "{" else "["), j.contexts + [After(m, 0)]);
      && Feed(j, In(start)) == Some(k)
      && Feed(Json(k.text + PrintAll(m, children), j.contexts + [After(m, |children|)]), In(EndOf(start)))
         == Some(Json(k.text + PrintAll(m, children) + (if m then "}" else "]"), AdvanceContext(j.contexts)))
  {
    hide PrintAll, Separator, AdvanceContext;
    var m := start.MappingStart?;
    assert PopContext(j.contexts + [After(m, |children|)]) == j.contexts;
  }

  /** Fed with the events of a tree, the writer prints the tree behind a separator; it fails exactly if the tree is too deep. */
  lemma {:induction false} TreePrinted(j: Json, t: Tree)
    requires Sound(t) && |j.contexts| <= MAX_DEPTH
    ensures FeedAll(j, Word(t)) == Printed(j, t)
    decreases t
  {
    match t
    case Leaf(e) => FeedOne(j, In(e));
    case Collection(start, children) =>
      forall i, k: Json | 0 <= i < |children| && |k.contexts| <= MAX_DEPTH
        ensures FeedAll(k, Word(children[i])) == Printed(k, children[i])
      {
        TreePrinted(k, children[i]);
      }
      CollectionPrinted(j, start, children);
  }

  lemma CollectionPrinted(j: Json, start: Event, children: seq<Tree>)
    requires IsStart(start) && (start.MappingStart? ==> |children| % 2 == 0) && EachPrinted(children)
    requires |j.contexts| <= MAX_DEPTH
    ensures FeedAll(j, Word(Collection(start, children))) == Printed(j, Collection(start, children))
  {
    hide FeedAll, Words, PrintAll, MaxDepth, AdvanceContext, Separator, EachPrinted, After, EndOf;
    var m := start.MappingStart?;
    var w, end := Words(children), In(EndOf(start));
    FeedOne(j, In(start));
    FeedConcat(j, [In(start)], w);
    FeedConcat(j, [In(start)] + w, [end]);
    if |j.contexts| < MAX_DEPTH {
      var k := Json(j.text + Separator(j.contexts) + (if m then "{" else "["), j.contexts + [After(m, 0)]);
      Brackets(j, start, EndOf(start), children);
      ChildrenPrinted(k.text, j.contexts, m, children);
      FeedOne(Json(k.text + PrintAll(m, children), j.contexts + [After(m, |children|)]), end);
      var open, body, close := if m then "{" else "[", PrintAll(m, children), if m then "}" else "]";
      assert j.text + Separator(j.contexts) + open + body + close == j.text + Separator(j.contexts) + (open + body + close);
    } else {
      FullStack(j, start);
    }
  }

  lemma FullStack(j: Json, start: Event)
    requires IsStart(start) && |j.contexts| == MAX_DEPTH
    ensures Feed(j, In(start)) == None
  {
  }

  // ----- whole streams

  function PrintDocuments(ts: seq<Tree>): string {
    if ts == [] then "" else PrintDocuments(ts[..|ts| - 1]) + Print(ts[|ts| - 1])
  }

  const START := Json("", [])

  lemma {:induction false} DocumentsPrinted(ts: seq<Tree>)
    requires AllSound(ts)
    ensures FeedAll(START, [StreamStart] + DocumentWords(ts))
         == if MaxDepth(ts) > MAX_DEPTH then None else Some(Json(PrintDocuments(ts), []))
  {
    hide Word, Print, Depth, Sound, FeedAll, Feed;
    if ts == [] {
      FeedOne(START, StreamStart);
      assert [StreamStart] + DocumentWords(ts) == [StreamStart];
      NeutralEvents(START);
    } else {
      var n := |ts| - 1;
      var v := [StreamStart] + DocumentWords(ts[..n]);
      DocumentsPrinted(ts[..n]);
      assert [StreamStart] + DocumentWords(ts) == v + [In(DocumentStart)] + Word(ts[n]) + [In(DocumentEnd)];
      FeedConcat(START, v, [In(DocumentStart)]);
      FeedConcat(START, v + [In(DocumentStart)], Word(ts[n]));
      FeedConcat(START, v + [In(DocumentStart)] + Word(ts[n]), [In(DocumentEnd)]);
      if MaxDepth(ts[..n]) <= MAX_DEPTH {
        var j := Json(PrintDocuments(ts[..n]), []);
        NeutralEvents(j);
        TreePrinted(j, ts[n]);
        NeutralEvents(Json(PrintDocuments(ts), []));
        assert j.text + "" + Print(ts[n]) == PrintDocuments(ts);
      }
    }
  }

  lemma NeutralEvents(j: Json)
    ensures FeedAll(j, [StreamStart]) == FeedAll(j, [StreamEnd]) == Some(j)
    ensures FeedAll(j, [In(DocumentStart)]) == FeedAll(j, [In(DocumentEnd)]) == Some(j)
  {
    FeedOne(j, StreamStart);
    FeedOne(j, StreamEnd);
    FeedOne(j, In(DocumentStart));
    FeedOne(j, In(DocumentEnd));
  }

  /** The events of a stream give the prints of its documents, and fail exactly if some document is too deep. */
  lemma StreamPrinted(ts: seq<Tree>)
    requires AllSound(ts)
    ensures FeedAll(START, StreamWord(ts)) == if MaxDepth(ts) > MAX_DEPTH then None else Some(Json(PrintDocuments(ts), []))
  {
    hide FeedAll, DocumentWords, MaxDepth, PrintDocuments;
    DocumentsPrinted(ts);
    FeedConcat(START, [StreamStart] + DocumentWords(ts), [StreamEnd]);
    NeutralEvents(Json(PrintDocuments(ts), []));
  }

  // ----- the bridge

  class Bridge {
    var text: string
    const stack: array<Context>
    var depth: nat

    ghost predicate Valid()
      reads this
    {
      stack.Length == MAX_DEPTH && depth <= MAX_DEPTH
    }

    ghost function Contents(): Json
      requires Valid()
      reads this, stack
    {
      Json(text, stack[..depth])
    }

    constructor ()
      ensures Valid() && fresh(stack) && Contents() == START
    {
      text, depth := "", 0;
      stack := new Context[MAX_DEPTH];
    }

    /** emit_separator */
    method EmitSeparator()
      requires Valid()
      modifies this`text
      ensures Valid() && Contents() == Json(old(text) + Separator(stack[..depth]), stack[..depth])
    {
      if depth > 0 {
        match stack[depth - 1]
        case Key(n) =>
          if n > 0 {
            text := text + ",";
          }
        case Value(_) => text := text + ":";
        case Items(n) =>
          if n > 0 {
            text := text + ",";
          }
      }
    }

    /** advance_context */
    method Advance()
      requires Valid()
      modifies stack
      ensures Valid() && Contents() == Json(text, AdvanceContext(old(stack[..depth])))
    {
      if depth > 0 {
        stack[depth - 1] := match stack[depth - 1]
          case Key(n) => Value(n)
          case Value(n) => Key(n + 1)
          case Items(n) => Items(n + 1);
      }
    }

    method Push(bracket: string, c: Context) returns (ok: bool)
      requires Valid()
      modifies this`text, this`depth, stack
      ensures Valid() && ok == OpenOn(old(Contents()), bracket, c).Some?
      ensures ok ==> OpenOn(old(Contents()), bracket, c) == Some(Contents())
    {
      EmitSeparator();
      text := text + bracket;
      ok := depth < MAX_DEPTH;
      if ok {
        stack[depth] := c;
        depth := depth + 1;
        assert stack[..depth] == old(stack[..depth]) + [c];
      }
    }

    method Pop(bracket: string)
      requires Valid()
      modifies this`text, this`depth, stack
      ensures Valid() && CloseOn(old(Contents()), bracket) == Some(Contents())
    {
      if depth > 0 {
        depth := depth - 1;
      }
      assert stack[..depth] == PopContext(old(stack[..depth]));
      text := text + bracket;
      Advance();
    }

    method Put(s: string)
      requires Valid()
      modifies this`text, stack
      ensures Valid() && WriteOn(old(Contents()), s) == Some(Contents())
    {
      EmitSeparator();
      text := text + s;
      Advance();
    }

    /** strbuf_append_json_string, into a buffer of its own. */
    method Quote(s: string) returns (r: string)
      ensures r == JsonString(s)
    {
      hide JsonChar;
      r := "\"";
      for i := 0 to |s|
        invariant r == "\"" + JsonChars(s[..i])
      {
        assert s[..i + 1][..i] == s[..i];
        r := r + JsonChar(s[i]);
      }
      assert s[..|s|] == s;
      r := r + "\"";
    }

    /** One event of yaml_to_json. */
    method Handle(e: StreamEvent) returns (ok: bool)
      requires Valid()
      modifies this`text, this`depth, stack
      ensures Valid() && ok == Feed(old(Contents()), e).Some?
      ensures ok ==> Feed(old(Contents()), e) == Some(Contents())
    {
      hide OpenOn, CloseOn, WriteOn, JsonString;
      ok := true;
      if e.In? {
        match e.event
        case DocumentStart =>
        case DocumentEnd =>
        case MappingStart(_, _, _, _) => ok := Push("{", Key(0));
        case MappingEnd => Pop("}");
        case SequenceStart(_, _, _, _) => ok := Push("[", Items(0));
        case SequenceEnd => Pop("]");
        case ScalarEvent(_, _, v, _, _, _) =>
          var s := Quote(v);
          Put(s);
        case Alias(_) => Put("null");
      }
    }
  }

  // ----- the context stack is the stack of open collections

  function KindOf(c: Context): Frame {
    match c
    case Key(_) => MappingKey
    case Value(_) => MappingValue
    case Items(_) => InSequence
  }

  function Kinds(s: seq<Context>): (r: seq<Frame>)
    ensures |r| == |s|
  {
    if s == [] then [] else Kinds(s[..|s| - 1]) + [KindOf(s[|s| - 1])]
  }

  function Framed(s: seq<Context>): seq<Frame> {
    [InStream, DocumentRoot] + Kinds(s)
  }

  /** Contexts stand for the frames inside a document; outside there are none. */
  predicate Matches(contexts: seq<Context>, s: seq<Frame>) {
    s == Framed(contexts) || (contexts == [] && s in {[], [InStream], [StreamDone], [InStream, DocumentDone]})
  }

  lemma KindsSnoc(s: seq<Context>, c: Context)
    ensures Framed(s + [c]) == Framed(s) + [KindOf(c)]
  {
    assert (s + [c])[..|s|] == s;
  }

  lemma FramedNothing()
    ensures Framed([]) == [InStream, DocumentRoot]
  {
  }

  lemma AdvanceFramed(s: seq<Context>)
    ensures Matches(AdvanceContext(s), AdvanceTop(Framed(s)))
  {
    if s == [] {
      FramedNothing();
      RootAdvances();
    } else {
      hide Framed;
      var n := |s| - 1;
      assert s == s[..n] + [s[n]];
      KindsSnoc(s[..n], s[n]);
      KindsSnoc(s[..n], Next(s[n]));
    }
  }

  lemma OutsideStep(j: Json, s: seq<Frame>, e: StreamEvent)
    requires j.contexts == [] && s in {[], [InStream], [StreamDone], [InStream, DocumentDone]}
    requires Accept(s, e).Some? && Feed(j, e).Some?
    ensures Matches(Feed(j, e).value.contexts, Accept(s, e).value)
  {
    hide JsonString, Framed;
    FramedNothing();
  }

  lemma InsideStep(j: Json, e: Event)
    requires Accept(Framed(j.contexts), In(e)).Some? && Feed(j, In(e)).Some?
    ensures Matches(Feed(j, In(e)).value.contexts, Accept(Framed(j.contexts), In(e)).value)
  {
    hide Framed, AdvanceTop, AdvanceContext, JsonString;
    var c := j.contexts;
    FramedShort(c);
    if IsLeaf(e) {
      AdvanceFramed(c);
    } else if IsStart(e) {
      KindsSnoc(c, Key(0));
      KindsSnoc(c, Items(0));
    } else if c != [] {
      var n := |c| - 1;
      assert c == c[..n] + [c[n]];
      KindsSnoc(c[..n], c[n]);
      assert Framed(c)[..|Framed(c)| - 1] == Framed(c[..n]);
      AdvanceFramed(c[..n]);
    }
  }

  lemma FramedShort(s: seq<Context>)
    ensures |Framed(s)| == |s| + 2 && Framed(s)[0] == InStream && Framed(s)[1] == DocumentRoot
  {
  }

  /** An allowed event that the writer does not refuse keeps contexts and frames together. */
  lemma MatchesStep(j: Json, s: seq<Frame>, e: StreamEvent)
    requires Matches(j.contexts, s) && Accept(s, e).Some? && Feed(j, e).Some?
    ensures Matches(Feed(j, e).value.contexts, Accept(s, e).value)
  {
    hide Feed, Framed;
    FramedShort(j.contexts);
    if s == Framed(j.contexts) {
      if e.In? {
        InsideStep(j, e.event);
      }
    } else {
      OutsideStep(j, s, e);
    }
  }

  lemma {:induction false} MatchesAll(w: seq<StreamEvent>)
    requires AcceptAll(w).Some? && FeedAll(START, w).Some?
    ensures Matches(FeedAll(START, w).value.contexts, AcceptAll(w).value)
  {
    hide Feed, Accept, Matches;
    if w == [] {
      assert Matches([], []) by { StartMatches(); }
    } else {
      var v := w[..|w| - 1];
      MatchesAll(v);
      MatchesStep(FeedAll(START, v).value, AcceptAll(v).value, w[|w| - 1]);
    }
  }

  lemma StartMatches()
    ensures Matches([], [])
  {
  }

  /** More collections are open after some of the events than the context stack holds. */
  predicate TooDeep(w: seq<StreamEvent>) {
    exists k :: 0 <= k <= |w| && AcceptAll(w[..k]).Some? && |AcceptAll(w[..k]).value| > 2 + MAX_DEPTH
  }

  /** The writer refuses a well-nested word only for its depth. */
  lemma {:induction false} RefusedIsTooDeep(w: seq<StreamEvent>)
    requires AcceptAll(w).Some? && FeedAll(START, w).None?
    ensures TooDeep(w)
  {
    hide Feed, Accept, Matches;
    var n := |w| - 1;
    var v := w[..n];
    if FeedAll(START, v).None? {
      RefusedIsTooDeep(v);
      var k :| 0 <= k <= |v| && AcceptAll(v[..k]).Some? && |AcceptAll(v[..k]).value| > 2 + MAX_DEPTH;
      assert v[..k] == w[..k];
    } else {
      MatchesAll(v);
      RefusedStep(FeedAll(START, v).value, AcceptAll(v).value, w[n]);
      assert w[..|w|] == w;
    }
  }

  lemma RefusedStep(j: Json, s: seq<Frame>, e: StreamEvent)
    requires Matches(j.contexts, s) && Accept(s, e).Some? && Feed(j, e).None?
    ensures |Accept(s, e).value| > 2 + MAX_DEPTH
  {
    hide Framed, JsonString;
    FramedShort(j.contexts);
  }

  // ----- the whole run

  /** The prints of the documents, unless there are none or some are nested too deep. */
  function JsonOf(docs: G.ParsedAll): Option<string> {
    match docs
    case None => None
    case Some((ts, _)) => if MaxDepth(ts) > MAX_DEPTH then None else Some(PrintDocuments(ts))
  }

  /** The documents one behind the other, with nothing in between; no text if 128 collections may not hold them. */
  lemma JsonIs(docs: seq<Tree>, d: Tree, next: nat)
    ensures JsonOf(None) == None && JsonOf(Some((docs, next))) == if MaxDepth(docs) > 128 then None else Some(PrintDocuments(docs))
    ensures PrintDocuments([]) == "" && PrintDocuments(docs + [d]) == PrintDocuments(docs) + Print(d)
  {
    hide MaxDepth, Print;
    assert (docs + [d])[..|docs|] == docs;
  }

  lemma Documented(ts: G.Tokens)
    requires G.StreamAt(ts).Some?
    ensures AllSound(G.StreamAt(ts).value.0)
  {
    hide G.StreamAt, V.Presentable, Sound;
    var docs := G.StreamAt(ts).value.0;
    V.StreamFits(ts);
    forall i | 0 <= i < |docs|
      ensures Sound(docs[i])
    {
      V.PresentableSound(docs[i], true);
    }
  }

  /** If the bridge refuses an event, there is no text for the tokens. */
  lemma RefusedTokens(ts: G.Tokens, log: seq<StreamEvent>, ahead: F.Outlook)
    requires F.ToStream(G.StreamAt(ts)) == F.First(log, ahead) && FeedAll(START, log) == None
    ensures JsonOf(G.StreamAt(ts)) == None
  {
    hide G.StreamAt, FeedAll, StreamWord, PrintDocuments, MaxDepth, AllSound;
    if G.StreamAt(ts).Some? {
      Documented(ts);
      StreamPrinted(G.StreamAt(ts).value.0);
      FeedConcat(START, log, ahead.value);
    }
  }

  /** If it takes all of them, the text is the one for the tokens. */
  lemma TakenTokens(ts: G.Tokens, log: seq<StreamEvent>, j: Json)
    requires F.ToStream(G.StreamAt(ts)) == Some(log) && FeedAll(START, log) == Some(j)
    ensures JsonOf(G.StreamAt(ts)) == Some(j.text)
  {
    hide G.StreamAt, FeedAll, StreamWord, PrintDocuments, MaxDepth, AllSound;
    Documented(ts);
    StreamPrinted(G.StreamAt(ts).value.0);
  }

  /**
   * yaml_to_json on a parser that has not produced any event yet: it succeeds exactly if the tokens are
   * a well-formed stream of documents, none of them nested deeper than the context stack, and then the
   * text is their prints in order. It fails only if the parser fails or more than MAX_DEPTH collections
   * are open at once.
   */
  method YamlToJson(parser: P.Parser) returns (ok: bool, text: string)
    requires parser.Valid() && parser.log == [] && !parser.error
    modifies parser
    ensures parser.Valid() && AcceptAll(parser.log).Some?
    ensures JsonOf(G.StreamAt(parser.tokens)) == if ok then Some(text) else None
    ensures ok ==> !parser.error
    ensures ok ==> exists docs :: AllSound(docs) && parser.log == StreamWord(docs) && MaxDepth(docs) <= MAX_DEPTH
                                  && text == PrintDocuments(docs)
    ensures !ok ==> parser.error || TooDeep(parser.log)
  {
    hide Feed, FeedAll, Accept, AcceptFrom, P.Shape, P.Balanced, P.StackMarks, P.Marked, G.StreamAt, F.First, F.Future;
    hide AllSound, StreamWord, MaxDepth, PrintDocuments, TooDeep, Separator;
    NothingFed();
    var bridge := new Bridge();
    ok := true;
    var done := false;
    while ok && !done
      invariant parser.Valid() && bridge.Valid() && fresh(bridge) && fresh(bridge.stack)
      invariant AcceptAll(parser.log).Some? && (ok ==> !parser.error)
      invariant ok ==> FeedAll(START, parser.log) == Some(bridge.Contents())
      invariant !ok && !parser.error ==> FeedAll(START, parser.log) == None
      invariant done && ok ==> AcceptAll(parser.log) == Some([StreamDone])
      decreases ok && !done, |parser.tokens| - parser.pos, P.Height(parser.state, |parser.states|), P.Rank(parser.state)
    {
      ghost var log := parser.log;
      var e := parser.Parse();
      if parser.error {
        ok := false;
      } else if e == NoEvent {
        done := true;
      } else {
        assert parser.log[..|log|] == log;
        FeedOneMore(START, log, e);
        ok := bridge.Handle(e);
        if e == StreamEnd {
          LastEvent(parser.log);
          done := true;
        }
      }
    }
    text := bridge.text;
    if ok {
      parser.AllTold();
      TakenTokens(parser.tokens, parser.log, bridge.Contents());
      var docs := CompleteWord(parser.log);
      StreamPrinted(docs);
    } else if !parser.error {
      RefusedTokens(parser.tokens, parser.log, parser.Ahead());
      RefusedIsTooDeep(parser.log);
    }
  }

  lemma NothingFed()
    ensures FeedAll(START, []) == Some(START) && AcceptAll([]).Some?
  {
  }

  lemma FeedOneMore(j: Json, w: seq<StreamEvent>, e: StreamEvent)
    ensures FeedAll(j, w + [e]) == match FeedAll(j, w) case None => None case Some(k) => Feed(k, e)
  {
    hide Feed;
    assert (w + [e])[..|w|] == w;
  }

  lemma LastEvent(w: seq<StreamEvent>)
    requires AcceptAll(w).Some? && w != [] && w[|w| - 1] == StreamEnd
    ensures AcceptAll(w) == Some([StreamDone])
  {
  }
}
