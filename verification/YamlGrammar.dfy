/** Token streams and the node trees they stand for, by recursive descent. */
module YamlGrammar {
  import opened Basics
  import opened YamlGraph
  import opened YamlTrees

  /** Tokens. deep tells whether the scanner's nesting limit is reached when the token is at the head of the queue. */
  datatype Token =
    | StreamStartToken
    | StreamEndToken
    | VersionDirective(major: int, minor: int)
    | TagDirective(handle: string, prefix: string)
    | DocumentStartToken
    | DocumentEndToken
    | BlockSequenceStart(deep: bool)
    | BlockMappingStart(deep: bool)
    | BlockEnd
    | FlowSequenceStart(deep: bool)
    | FlowSequenceEnd
    | FlowMappingStart(deep: bool)
    | FlowMappingEnd
    | BlockEntry
    | FlowEntry
    | Key
    | Value
    | AliasToken(name: string)
    | AnchorToken(name: string)
    | TagToken(handle: string, suffix: string)
    | ScalarToken(text: string, style: nat)

  const PLAIN := 1
  const BLOCK := 1
  const FLOW := 2

  /** What stands for a missing node. */
  const EMPTY := ScalarEvent(None, None, "", true, false, PLAIN)

  type Tokens = seq<Token>
  /** The known tag handles with their prefixes. */
  type Tags = seq<(string, string)>
  /** A tree, or several, and the position behind it. */
  type Parsed = Option<(Tree, nat)>
  type ParsedAll = Option<(seq<Tree>, nat)>

  // ----- directives

  predicate StartsExplicit(t: Token) {
    t.VersionDirective? || t.TagDirective? || t == DocumentStartToken
  }

  /** A collection starts here, and the nesting limit is reached. */
  predicate TooDeep(block: bool, t: Token) {
    match t
    case FlowSequenceStart(deep) => deep
    case FlowMappingStart(deep) => deep
    case BlockSequenceStart(deep) => block && deep
    case BlockMappingStart(deep) => block && deep
    case _ => false
  }

  function HandleIndex(directives: seq<(string, string)>, handle: string): (i: nat)
    ensures i <= |directives|
    ensures i < |directives| ==> directives[i].0 == handle
    ensures forall k :: 0 <= k < i ==> directives[k].0 != handle
  {
    if directives == [] || directives[0].0 == handle then 0 else 1 + HandleIndex(directives[1..], handle)
  }

  predicate IsDirective(t: Token) {
    t.VersionDirective? || t.TagDirective?
  }

  /** How many directives follow one another. */
  function DirectiveRun(tokens: seq<Token>, pos: nat): (n: nat)
    requires pos <= |tokens|
    ensures pos + n <= |tokens| && forall i :: pos <= i < pos + n ==> IsDirective(tokens[i])
    ensures pos + n < |tokens| ==> !IsDirective(tokens[pos + n])
    decreases |tokens| - pos
  {
    if pos < |tokens| && IsDirective(tokens[pos]) then 1 + DirectiveRun(tokens, pos + 1) else 0
  }

  predicate HasVersion(run: seq<Token>) {
    exists i :: 0 <= i < |run| && run[i].VersionDirective?
  }

  predicate Declares(run: seq<Token>, handle: string) {
    exists i :: 0 <= i < |run| && run[i].TagDirective? && run[i].handle == handle
  }

  /** No directive is of another version, or a second %YAML directive, or for a handle that is known or declared before. */
  ghost predicate Permitted(run: seq<Token>, known: seq<(string, string)>) {
    && (forall i :: 0 <= i < |run| && run[i].VersionDirective? ==>
          run[i].major == 1 && (run[i].minor == 1 || run[i].minor == 2) && !HasVersion(run[..i]))
    && (forall i :: 0 <= i < |run| && run[i].TagDirective? ==>
          HandleIndex(known, run[i].handle) == |known| && !Declares(run[..i], run[i].handle))
  }

  /** The handles and prefixes of the tag directives. */
  function Declared(run: seq<Token>): seq<(string, string)> {
    if run == [] then []
    else
      var t := run[|run| - 1];
      Declared(run[..|run| - 1]) + if t.TagDirective? then [(t.handle, t.prefix)] else []
  }

  function WithDefault(directives: seq<(string, string)>, handle: string, prefix: string): seq<(string, string)> {
    if HandleIndex(directives, handle) < |directives| then directives else directives + [(handle, prefix)]
  }

  function Defaults(directives: seq<(string, string)>): seq<(string, string)> {
    WithDefault(WithDefault(directives, "!", "!"), "!!", "tag:yaml.org,2002:")
  }

  /** The position behind the directives and the handles known there, unless a directive is refused or the tokens end. */
  ghost function Directives(tokens: seq<Token>, pos: nat, known: seq<(string, string)>): Option<(nat, seq<(string, string)>)>
    requires pos <= |tokens|
  {
    var n := DirectiveRun(tokens, pos);
    var run := tokens[pos..pos + n];
    if pos + n < |tokens| && Permitted(run, known) then Some((pos + n, Defaults(known + Declared(run)))) else None
  }

  // ----- nodes

  /** What a tag stands for: prefix of its handle's directive, and suffix. */
  function Resolve(tags: Tags, handle: string, suffix: string): Option<string> {
    if handle == "" then Some(suffix) else
    var i := HandleIndex(tags, handle);
    if i == |tags| then None else Some(tags[i].1 + suffix)
  }

  /** Anchor, tag and the position behind them. */
  datatype Properties = Properties(anchor: Option<string>, tag: Option<string>, next: nat)

  function Tagged(ts: Tokens, pos: nat, tags: Tags, anchor: Option<string>, t: Token): (r: Option<Properties>)
    requires t.TagToken?
    ensures r.Some? ==> r.value.next == pos < |ts| && r.value.tag.Some?
  {
    match Resolve(tags, t.handle, t.suffix)
    case None => None
    case Some(tag) => if pos < |ts| then Some(Properties(anchor, Some(tag), pos)) else None
  }

  /** The anchor and the tag in front of a node, in either order. */
  function PropertiesAt(ts: Tokens, pos: nat, tags: Tags): (r: Option<Properties>)
    ensures r.Some? ==> pos <= r.value.next < |ts|
    ensures r.Some? && (r.value.anchor.Some? || r.value.tag.Some?) ==> pos < r.value.next
  {
    if pos >= |ts| then None
    else
      var next := if pos + 1 < |ts| then ts[pos + 1] else StreamEndToken;
      match ts[pos]
      case AnchorToken(a) =>
        if next.TagToken? then Tagged(ts, pos + 2, tags, Some(a), next)
        else if pos + 1 < |ts| then Some(Properties(Some(a), None, pos + 1)) else None
      case TagToken(_, _) =>
        if next.AnchorToken? then Tagged(ts, pos + 2, tags, Some(next.name), ts[pos])
        else Tagged(ts, pos + 1, tags, None, ts[pos])
      case _ => Some(Properties(None, None, pos))
  }

  function IsImplicit(tag: Option<string>): bool {
    tag == None || tag == Some("")
  }

  function ScalarOf(anchor: Option<string>, tag: Option<string>, text: string, style: nat): Event {
    var plain := (style == PLAIN && tag == None) || tag == Some("!");
    ScalarEvent(anchor, tag, text, plain, !plain && tag == None, style)
  }

  function SequenceOf(p: Properties, style: nat): Event {
    SequenceStart(p.anchor, p.tag, IsImplicit(p.tag), style)
  }

  function MappingOf(p: Properties, style: nat): Event {
    MappingStart(p.anchor, p.tag, IsImplicit(p.tag), style)
  }

  function Collect(start: Event, children: ParsedAll): Parsed {
    match children
    case None => None
    case Some((ts, next)) => Some((Collection(start, ts), next))
  }

  function Cons(t: Tree, rest: ParsedAll): ParsedAll {
    match rest
    case None => None
    case Some((ts, next)) => Some(([t] + ts, next))
  }

  /** A node. block: block collections may start here. indentless: so may a sequence of entries on the indentation of its parent. */
  function NodeAt(ts: Tokens, pos: nat, tags: Tags, block: bool, indentless: bool): (r: Parsed)
    ensures r.Some? ==> pos < r.value.1 <= |ts|
    decreases |ts| - pos, 1
  {
    if pos >= |ts| then None
    else if ts[pos].AliasToken? then Some((Leaf(Alias(Some(ts[pos].name))), pos + 1))
    else
      match PropertiesAt(ts, pos, tags)
      case None => None
      case Some(p) =>
        var t := ts[p.next];
        if indentless && t.BlockEntry? then Collect(SequenceOf(p, BLOCK), IndentlessItems(ts, p.next, tags))
        else if t.ScalarToken? then Some((Leaf(ScalarOf(p.anchor, p.tag, t.text, t.style)), p.next + 1))
        else if t.FlowSequenceStart? && !t.deep then Collect(SequenceOf(p, FLOW), FlowItems(ts, p.next + 1, tags))
        else if t.FlowMappingStart? && !t.deep then Collect(MappingOf(p, FLOW), FlowPairs(ts, p.next + 1, tags))
        else if block && t.BlockSequenceStart? && !t.deep then Collect(SequenceOf(p, BLOCK), BlockItems(ts, p.next + 1, tags))
        else if block && t.BlockMappingStart? && !t.deep then Collect(MappingOf(p, BLOCK), BlockPairs(ts, p.next + 1, tags))
        else if (p.anchor != None || p.tag != None) && !TooDeep(block, t) then
          Some((Leaf(ScalarEvent(p.anchor, p.tag, "", IsImplicit(p.tag), false, PLAIN)), p.next))
        else None
  }

  /** A node, or an empty one where the next token shows that it is missing. */
  function EntryAt(ts: Tokens, pos: nat, tags: Tags, block: bool, indentless: bool, missing: bool): (r: Parsed)
    ensures r.Some? ==> pos <= r.value.1 <= |ts|
    decreases |ts| - pos, 2
  {
    if pos >= |ts| then None
    else if missing then Some((Leaf(EMPTY), pos))
    else NodeAt(ts, pos, tags, block, indentless)
  }

  predicate NoBlockItem(t: Token) {
    t.BlockEntry? || t.BlockEnd?
  }

  predicate NoIndentlessItem(t: Token) {
    t.BlockEntry? || t.Key? || t.Value? || t.BlockEnd?
  }

  predicate NoBlockKey(t: Token) {
    t.Key? || t.Value? || t.BlockEnd?
  }

  predicate NoPairKey(t: Token) {
    t.Value? || t.FlowEntry? || t.FlowSequenceEnd?
  }

  predicate NoPairValue(t: Token) {
    t.FlowEntry? || t.FlowSequenceEnd?
  }

  predicate NoFlowKey(t: Token) {
    t.Value? || t.FlowEntry? || t.FlowMappingEnd?
  }

  predicate NoFlowValue(t: Token) {
    t.FlowEntry? || t.FlowMappingEnd?
  }

  predicate Is(ts: Tokens, pos: nat, what: Token -> bool) {
    pos < |ts| && what(ts[pos])
  }

  /** (BLOCK-ENTRY block_node?)* BLOCK-END */
  function BlockItems(ts: Tokens, pos: nat, tags: Tags): (r: ParsedAll)
    ensures r.Some? ==> pos < r.value.1 <= |ts|
    decreases |ts| - pos, 0
  {
    if pos >= |ts| then None
    else if ts[pos].BlockEnd? then Some(([], pos + 1))
    else if !ts[pos].BlockEntry? then None
    else
      match EntryAt(ts, pos + 1, tags, true, false, Is(ts, pos + 1, NoBlockItem))
      case None => None
      case Some((t, next)) => Cons(t, BlockItems(ts, next, tags))
  }

  /** (BLOCK-ENTRY block_node?)*, up to anything else */
  function IndentlessItems(ts: Tokens, pos: nat, tags: Tags): (r: ParsedAll)
    ensures r.Some? ==> pos < |ts| && pos <= r.value.1 <= |ts| && (ts[pos].BlockEntry? ==> pos < r.value.1)
    decreases |ts| - pos, 0
  {
    if pos >= |ts| then None
    else if !ts[pos].BlockEntry? then Some(([], pos))
    else
      match EntryAt(ts, pos + 1, tags, true, false, Is(ts, pos + 1, NoIndentlessItem))
      case None => None
      case Some((t, next)) => Cons(t, IndentlessItems(ts, next, tags))
  }

  /** (KEY node? (VALUE node?)?)* BLOCK-END: a VALUE needs its KEY. */
  function BlockPairs(ts: Tokens, pos: nat, tags: Tags): (r: ParsedAll)
    ensures r.Some? ==> pos < r.value.1 <= |ts|
    decreases |ts| - pos, 0
  {
    if pos >= |ts| then None
    else if ts[pos].BlockEnd? then Some(([], pos + 1))
    else if !ts[pos].Key? then None
    else
      match EntryAt(ts, pos + 1, tags, true, true, Is(ts, pos + 1, NoBlockKey))
      case None => None
      case Some((t, next)) => Cons(t, BlockValue(ts, next, tags))
  }

  function BlockValue(ts: Tokens, pos: nat, tags: Tags): (r: ParsedAll)
    ensures r.Some? ==> pos < r.value.1 <= |ts|
    decreases |ts| - pos, 1
  {
    if pos >= |ts| then None
    else if !ts[pos].Value? then Cons(Leaf(EMPTY), BlockPairs(ts, pos, tags))
    else
      match EntryAt(ts, pos + 1, tags, true, true, Is(ts, pos + 1, NoBlockKey))
      case None => None
      case Some((t, next)) => Cons(t, BlockPairs(ts, next, tags))
  }

  /** Items separated by FLOW-ENTRY, and FLOW-SEQUENCE-END: where an item may start. */
  function FlowItems(ts: Tokens, pos: nat, tags: Tags): (r: ParsedAll)
    ensures r.Some? ==> pos < r.value.1 <= |ts|
    decreases |ts| - pos, 2
  {
    if pos >= |ts| then None
    else if ts[pos].FlowSequenceEnd? then Some(([], pos + 1))
    else
      match (if ts[pos].Key? then Collect(PAIR, PairKey(ts, pos + 1, tags)) else NodeAt(ts, pos, tags, false, false))
      case None => None
      case Some((t, next)) => Cons(t, MoreItems(ts, next, tags))
  }

  /** The same where a separator is due. */
  function MoreItems(ts: Tokens, pos: nat, tags: Tags): (r: ParsedAll)
    ensures r.Some? ==> pos < r.value.1 <= |ts|
    decreases |ts| - pos, 0
  {
    if pos >= |ts| then None
    else if ts[pos].FlowSequenceEnd? then Some(([], pos + 1))
    else if ts[pos].FlowEntry? then FlowItems(ts, pos + 1, tags)
    else None
  }

  /** Key and value of a single pair inside a flow sequence. Behind an empty key a VALUE, or a FLOW-ENTRY, is skipped. */
  function PairKey(ts: Tokens, pos: nat, tags: Tags): (r: ParsedAll)
    ensures r.Some? ==> pos <= r.value.1 <= |ts| && |r.value.0| == 2
    decreases |ts| - pos, 3
  {
    if pos >= |ts| then None
    else if NoPairKey(ts[pos]) then
      Cons(Leaf(EMPTY), PairValue(ts, if ts[pos].FlowSequenceEnd? then pos else pos + 1, tags))
    else
      match NodeAt(ts, pos, tags, false, false)
      case None => None
      case Some((k, next)) => Cons(k, PairValue(ts, next, tags))
  }

  const PAIR := MappingStart(None, None, true, FLOW)

  function PairValue(ts: Tokens, pos: nat, tags: Tags): (r: ParsedAll)
    ensures r.Some? ==> pos <= r.value.1 <= |ts| && |r.value.0| == 1
    decreases |ts| - pos, 0
  {
    if pos >= |ts| then None
    else if !ts[pos].Value? then Some(([Leaf(EMPTY)], pos))
    else
      match EntryAt(ts, pos + 1, tags, false, false, Is(ts, pos + 1, NoPairValue))
      case None => None
      case Some((v, next)) => Some(([v], next))
  }

  /** Pairs separated by FLOW-ENTRY, and FLOW-MAPPING-END: where a pair may start. */
  function FlowPairs(ts: Tokens, pos: nat, tags: Tags): (r: ParsedAll)
    ensures r.Some? ==> pos < r.value.1 <= |ts|
    decreases |ts| - pos, 2
  {
    if pos >= |ts| then None
    else if ts[pos].FlowMappingEnd? then Some(([], pos + 1))
    else if ts[pos].Key? then
      match EntryAt(ts, pos + 1, tags, false, false, Is(ts, pos + 1, NoFlowKey))
      case None => None
      case Some((k, next)) => Cons(k, FlowValue(ts, next, tags))
    else
      match NodeAt(ts, pos, tags, false, false)
      case None => None
      case Some((k, next)) => Cons(k, Cons(Leaf(EMPTY), MorePairs(ts, next, tags)))
  }

  function FlowValue(ts: Tokens, pos: nat, tags: Tags): (r: ParsedAll)
    ensures r.Some? ==> pos < r.value.1 <= |ts|
    decreases |ts| - pos, 1
  {
    if pos >= |ts| then None
    else if !ts[pos].Value? then Cons(Leaf(EMPTY), MorePairs(ts, pos, tags))
    else
      match EntryAt(ts, pos + 1, tags, false, false, Is(ts, pos + 1, NoFlowValue))
      case None => None
      case Some((v, next)) => Cons(v, MorePairs(ts, next, tags))
  }

  /** The same where a separator is due. */
  function MorePairs(ts: Tokens, pos: nat, tags: Tags): (r: ParsedAll)
    ensures r.Some? ==> pos < r.value.1 <= |ts|
    decreases |ts| - pos, 0
  {
    if pos >= |ts| then None
    else if ts[pos].FlowMappingEnd? then Some(([], pos + 1))
    else if ts[pos].FlowEntry? then FlowPairs(ts, pos + 1, tags)
    else None
  }

  // ----- documents

  /** The position behind the DOCUMENT-END tokens. */
  function PastEnds(ts: Tokens, pos: nat): (r: nat)
    ensures pos <= r && (pos <= |ts| ==> r <= |ts|)
    ensures r < |ts| ==> !ts[r].DocumentEndToken?
    decreases |ts| - pos
  {
    if pos < |ts| && ts[pos].DocumentEndToken? then PastEnds(ts, pos + 1) else pos
  }

  predicate NoRoot(t: Token) {
    StartsExplicit(t) || t.DocumentEndToken? || t.StreamEndToken?
  }

  /** What follows the root node of a document; the tag handles are forgotten. */
  ghost function AfterRoot(ts: Tokens, root: Parsed): (r: ParsedAll)
    requires root.Some? ==> root.value.1 <= |ts|
    ensures root.Some? && r.Some? ==> root.value.1 < r.value.1 <= |ts|
    decreases |ts| - (if root.Some? then root.value.1 else |ts|), 2
  {
    match root
    case None => None
    case Some((t, next)) =>
      if next >= |ts| then None
      else Cons(t, Documents(ts, PastEnds(ts, if ts[next].DocumentEndToken? then next + 1 else next), []))
  }

  /** explicit_document* STREAM-END */
  ghost function Documents(ts: Tokens, pos: nat, tags: Tags): (r: ParsedAll)
    ensures r.Some? ==> pos < r.value.1 <= |ts|
    decreases |ts| - pos, 1
  {
    if pos >= |ts| then None
    else if ts[pos].StreamEndToken? then Some(([], pos + 1))
    else
      match Directives(ts, pos, tags)
      case None => None
      case Some((next, known)) =>
        if !ts[next].DocumentStartToken? then None
        else AfterRoot(ts, EntryAt(ts, next + 1, known, true, false, Is(ts, next + 1, NoRoot)))
  }

  /** implicit_document? explicit_document* STREAM-END */
  ghost function FirstDocument(ts: Tokens, pos: nat, tags: Tags): (r: ParsedAll)
    ensures r.Some? ==> pos < r.value.1 <= |ts|
  {
    if pos >= |ts| then None
    else if StartsExplicit(ts[pos]) || ts[pos].StreamEndToken? then Documents(ts, pos, tags)
    else
      match Directives(ts, pos, tags)
      case None => None
      case Some((next, known)) => AfterRoot(ts, NodeAt(ts, next, known, true, false))
  }

  /** The documents of a token stream, and the position behind its end. */
  ghost function StreamAt(ts: Tokens): (r: ParsedAll)
    ensures r.Some? ==> r.value.1 <= |ts|
  {
    if |ts| > 0 && ts[0].StreamStartToken? then FirstDocument(ts, 1, []) else None
  }
}
