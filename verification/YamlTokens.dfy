/** Token streams for trees: every presentable tree has one, and it is read back as that tree. */
module YamlTokens {
  import opened Basics
  import opened YamlGraph
  import opened YamlTrees
  import opened YamlGrammar
  import opened YamlPresent
  import P = YamlParser
  import F = YamlFuture

  // ----- writing tokens

  function PropertyTokens(anchor: Option<string>, tag: Option<string>): Tokens {
    (if anchor.Some? then [AnchorToken(anchor.value)] else []) + (if tag.Some? then [TagToken("", tag.value)] else [])
  }

  function LeafTokens(e: Event): Tokens {
    match e
    case Alias(Some(name)) => [AliasToken(name)]
    case ScalarEvent(anchor, tag, text, _, _, style) =>
      PropertyTokens(anchor, tag) + if IsScalar(e) then [ScalarToken(text, style)] else []
    case _ => []
  }

  function StartTokens(start: Event): Tokens {
    match start
    case SequenceStart(anchor, tag, _, style) =>
      PropertyTokens(anchor, tag) + [if style == BLOCK then BlockSequenceStart(false) else FlowSequenceStart(false)]
    case MappingStart(anchor, tag, _, style) =>
      PropertyTokens(anchor, tag) + [if style == BLOCK then BlockMappingStart(false) else FlowMappingStart(false)]
    case _ => []
  }

  function EndToken(start: Event): Token {
    if IsBlock(start) then BlockEnd else if start.SequenceStart? then FlowSequenceEnd else FlowMappingEnd
  }

  function TokensOf(t: Tree): Tokens
    decreases t
  {
    match t
    case Leaf(e) => LeafTokens(e)
    case Collection(start, children) => StartTokens(start) + ChildTokens(start, children) + [EndToken(start)]
  }

  /** The children still to come, with their indicators; in a mapping a key is due if their number is even. */
  function ChildTokens(start: Event, children: seq<Tree>): Tokens
    decreases children
  {
    if children == [] then [] else
    var w := TokensOf(children[0]);
    var rest := ChildTokens(start, children[1..]);
    if start.SequenceStart? then (if IsBlock(start) then [BlockEntry] + w else w + [FlowEntry]) + rest
    else if |children| % 2 == 0 then [Key] + w + rest
    else [Value] + w + (if IsBlock(start) then [] else [FlowEntry]) + rest
  }

  function DocumentTokens(docs: seq<Tree>): Tokens {
    if docs == [] then [] else [DocumentStartToken] + TokensOf(docs[0]) + DocumentTokens(docs[1..])
  }

  function StreamTokens(docs: seq<Tree>): Tokens {
    [StreamStartToken] + DocumentTokens(docs) + [StreamEndToken]
  }

  // ----- and reading them back

  predicate Holds(ts: Tokens, pos: nat, w: Tokens) {
    pos + |w| <= |ts| && ts[pos..pos + |w|] == w
  }

  lemma HoldsSplit(ts: Tokens, pos: nat, v: Tokens, w: Tokens)
    requires Holds(ts, pos, v + w)
    ensures Holds(ts, pos, v) && Holds(ts, pos + |v|, w)
  {
    assert ts[pos..pos + |v|] == (v + w)[..|v|];
    assert ts[pos + |v|..pos + |v| + |w|] == (v + w)[|v|..];
  }

  lemma HoldsOne(ts: Tokens, pos: nat, t: Token)
    requires Holds(ts, pos, [t])
    ensures pos < |ts| && ts[pos] == t
  {
    assert ts[pos] == ts[pos..pos + 1][0];
  }

  /** Tokens a node can begin with. */
  predicate Starts(t: Token) {
    || t.AliasToken? || t.AnchorToken? || t.TagToken? || t.ScalarToken?
    || t.FlowSequenceStart? || t.FlowMappingStart? || t.BlockSequenceStart? || t.BlockMappingStart?
  }

  /** Tokens behind a node. */
  predicate Follows(t: Token, indentless: bool) {
    || t.FlowEntry? || t.FlowSequenceEnd? || t.FlowMappingEnd? || t.BlockEnd? || t.Key? || t.Value?
    || t.DocumentStartToken? || t.StreamEndToken? || (t.BlockEntry? && !indentless)
  }

  lemma FirstToken(t: Tree, block: bool)
    requires Presentable(t, block)
    ensures TokensOf(t) != [] && Starts(TokensOf(t)[0])
  {
    hide ChildTokens;
  }

  /** The node whose tokens are at pos. */
  predicate ReadAt(t: Tree, ts: Tokens, pos: nat, tags: Tags, block: bool, indentless: bool) {
    NodeAt(ts, pos, tags, block, indentless) == Some((t, pos + |TokensOf(t)|))
  }

  predicate Ready(t: Tree, ts: Tokens, pos: nat, indentless: bool) {
    var end := pos + |TokensOf(t)|;
    Holds(ts, pos, TokensOf(t)) && end < |ts| && Follows(ts[end], indentless)
  }

  ghost predicate Reads(t: Tree, block: bool) {
    forall ts, pos: nat, tags, indentless | (indentless ==> block) && Ready(t, ts, pos, indentless) ::
      ReadAt(t, ts, pos, tags, block, indentless)
  }

  ghost predicate AllRead(children: seq<Tree>, block: bool) {
    forall i :: 0 <= i < |children| ==> Presentable(children[i], block) && Reads(children[i], block)
  }

  lemma PropertiesRead(ts: Tokens, pos: nat, tags: Tags, anchor: Option<string>, tag: Option<string>)
    requires var next := pos + |PropertyTokens(anchor, tag)|;
             Holds(ts, pos, PropertyTokens(anchor, tag)) && next < |ts| && !ts[next].AnchorToken? && !ts[next].TagToken?
    ensures PropertiesAt(ts, pos, tags) == Some(Properties(anchor, tag, pos + |PropertyTokens(anchor, tag)|))
  {
    var w := PropertyTokens(anchor, tag);
    assert w != [] ==> ts[pos] == ts[pos..pos + |w|][0];
    assert |w| == 2 ==> ts[pos + 1] == ts[pos..pos + |w|][1];
  }

  lemma LeafRead(e: Event, ts: Tokens, pos: nat, tags: Tags, block: bool, indentless: bool)
    requires Presentable(Leaf(e), block) && Ready(Leaf(e), ts, pos, indentless)
    ensures ReadAt(Leaf(e), ts, pos, tags, block, indentless)
  {
    hide PropertyTokens, PropertiesAt;
    if e.Alias? {
      HoldsOne(ts, pos, AliasToken(e.aliased.value));
    } else {
      var p := PropertyTokens(e.anchor, e.scalarTag);
      var w := if IsScalar(e) then [ScalarToken(e.value, e.style)] else [];
      HoldsSplit(ts, pos, p, w);
      if IsScalar(e) {
        HoldsOne(ts, pos + |p|, ScalarToken(e.value, e.style));
      }
      PropertiesRead(ts, pos, tags, e.anchor, e.scalarTag);
      NotAlias(ts, pos, e.anchor, e.scalarTag);
    }
  }

  lemma NotAlias(ts: Tokens, pos: nat, anchor: Option<string>, tag: Option<string>)
    requires var next := pos + |PropertyTokens(anchor, tag)|;
             Holds(ts, pos, PropertyTokens(anchor, tag)) && next < |ts| && !ts[next].AliasToken?
    ensures !ts[pos].AliasToken?
  {
    var w := PropertyTokens(anchor, tag);
    assert w != [] ==> ts[pos] == ts[pos..pos + |w|][0];
    assert |w| == 2 ==> ts[pos + 1] == ts[pos..pos + |w|][1];
  }

  // ----- children

  /** The children of a collection and the token that closes it. */
  predicate ChildrenAt(ts: Tokens, pos: nat, start: Event, children: seq<Tree>) {
    Holds(ts, pos, ChildTokens(start, children) + [EndToken(start)])
  }

  function Behind(start: Event, children: seq<Tree>, pos: nat): ParsedAll {
    Some((children, pos + |ChildTokens(start, children)| + 1))
  }

  lemma NoChildren(ts: Tokens, pos: nat, start: Event)
    requires ChildrenAt(ts, pos, start, [])
    ensures pos < |ts| && ts[pos] == EndToken(start) && Behind(start, [], pos) == Some(([], pos + 1))
  {
    assert ChildTokens(start, []) + [EndToken(start)] == [EndToken(start)];
    HoldsOne(ts, pos, EndToken(start));
  }

  /** What the first child stands between. */
  function Indicator(start: Event, n: nat): Tokens {
    if start.SequenceStart? then if IsBlock(start) then [BlockEntry] else []
    else if n % 2 == 0 then [Key] else [Value]
  }

  function Separator(start: Event, n: nat): Tokens {
    if IsBlock(start) || (start.MappingStart? && n % 2 == 0) then [] else [FlowEntry]
  }

  lemma ChildTokensIs(start: Event, children: seq<Tree>)
    requires children != [] && IsOpening(start, true)
    ensures ChildTokens(start, children)
         == Indicator(start, |children|) + (TokensOf(children[0]) + (Separator(start, |children|) + ChildTokens(start, children[1..])))
  {
    hide TokensOf;
    Regroup(Indicator(start, |children|), TokensOf(children[0]), Separator(start, |children|), ChildTokens(start, children[1..]));
  }

  lemma Regroup(i: Tokens, w: Tokens, s: Tokens, rest: Tokens)
    ensures i + w + s + rest == i + (w + (s + rest))
    ensures [] + w + s + rest == w + s + rest && i + w + [] + rest == i + w + rest
  {
    assert [] + w == w && i + w + [] == i + w;
  }

  lemma FirstChild(ts: Tokens, pos: nat, start: Event, children: seq<Tree>, block: bool)
    requires ChildrenAt(ts, pos, start, children) && children != [] && IsOpening(start, true)
    requires Presentable(children[0], block)
    ensures var n := |children|;
            var at := pos + |Indicator(start, n)|;
            var end := at + |TokensOf(children[0])|;
            var next := end + |Separator(start, n)|;
            && Holds(ts, pos, Indicator(start, n)) && Holds(ts, at, TokensOf(children[0]))
            && Holds(ts, end, Separator(start, n)) && ChildrenAt(ts, next, start, children[1..])
            && at < end < |ts| && Starts(ts[at])
            && Behind(start, children, pos) == Cons(children[0], Behind(start, children[1..], next))
  {
    hide TokensOf, Holds, Starts, ChildTokens, Indicator, Separator;
    var n := |children|;
    var i, w, s := Indicator(start, n), TokensOf(children[0]), Separator(start, n);
    var rest := ChildTokens(start, children[1..]) + [EndToken(start)];
    FirstToken(children[0], block);
    ChildTokensIs(start, children);
    assert ChildTokens(start, children) + [EndToken(start)] == i + (w + (s + rest));
    HoldsSplit(ts, pos, i, w + (s + rest));
    HoldsSplit(ts, pos + |i|, w, s + rest);
    HoldsSplit(ts, pos + |i| + |w|, s, rest);
    HoldsFirst(ts, pos + |i|, w);
    HoldsFirst(ts, pos + |i| + |w|, s + rest);
    assert children == [children[0]] + children[1..];
  }

  lemma HoldsFirst(ts: Tokens, pos: nat, w: Tokens)
    requires Holds(ts, pos, w) && w != []
    ensures pos < |ts| && ts[pos] == w[0]
  {
    assert ts[pos] == ts[pos..pos + |w|][0];
  }

  /** The token in front of the children still to come. */
  lemma NextChild(ts: Tokens, pos: nat, start: Event, children: seq<Tree>)
    requires ChildrenAt(ts, pos, start, children) && IsOpening(start, true)
    ensures pos < |ts|
    ensures children == [] ==> ts[pos] == EndToken(start)
    ensures children != [] && Indicator(start, |children|) != [] ==> ts[pos] == Indicator(start, |children|)[0]
  {
    hide TokensOf;
    HoldsFirst(ts, pos, ChildTokens(start, children) + [EndToken(start)]);
  }

  lemma {:induction false} BlockItemsRead(start: Event, children: seq<Tree>, ts: Tokens, pos: nat, tags: Tags)
    requires start.SequenceStart? && start.style == BLOCK && IsOpening(start, true) && AllRead(children, true)
    requires ChildrenAt(ts, pos, start, children)
    ensures BlockItems(ts, pos, tags) == Behind(start, children, pos)
    decreases |children|
  {
    hide TokensOf, ChildTokens, NodeAt, Presentable, Reads, Holds;
    if children == [] {
      NoChildren(ts, pos, start);
    } else {
      var next := pos + 1 + |TokensOf(children[0])|;
      FirstChild(ts, pos, start, children, true);
      HoldsOne(ts, pos, BlockEntry);
      NextChild(ts, next, start, children[1..]);
      NodeRead(children[0], ts, pos + 1, tags, true, false);
      BlockItemsRead(start, children[1..], ts, next, tags);
    }
  }

  lemma NodeRead(t: Tree, ts: Tokens, pos: nat, tags: Tags, block: bool, indentless: bool)
    requires Reads(t, block) && (indentless ==> block) && Ready(t, ts, pos, indentless)
    ensures NodeAt(ts, pos, tags, block, indentless) == Some((t, pos + |TokensOf(t)|))
  {
    hide TokensOf, NodeAt, Holds;
    assert ReadAt(t, ts, pos, tags, block, indentless);
  }

  lemma {:induction false} BlockPairsRead(start: Event, children: seq<Tree>, ts: Tokens, pos: nat, tags: Tags)
    requires start.MappingStart? && start.style == BLOCK && IsOpening(start, true) && AllRead(children, true)
    requires ChildrenAt(ts, pos, start, children)
    ensures (if |children| % 2 == 0 then BlockPairs(ts, pos, tags) else BlockValue(ts, pos, tags)) == Behind(start, children, pos)
    decreases |children|
  {
    hide TokensOf, ChildTokens, NodeAt, Presentable, Reads, Holds;
    if children == [] {
      NoChildren(ts, pos, start);
    } else {
      var next := pos + 1 + |TokensOf(children[0])|;
      FirstChild(ts, pos, start, children, true);
      HoldsOne(ts, pos, Indicator(start, |children|)[0]);
      NextChild(ts, next, start, children[1..]);
      NodeRead(children[0], ts, pos + 1, tags, true, true);
      BlockPairsRead(start, children[1..], ts, next, tags);
    }
  }

  lemma {:induction false} FlowItemsRead(start: Event, children: seq<Tree>, ts: Tokens, pos: nat, tags: Tags)
    requires start.SequenceStart? && start.style == FLOW && IsOpening(start, true) && AllRead(children, false)
    requires ChildrenAt(ts, pos, start, children)
    ensures FlowItems(ts, pos, tags) == Behind(start, children, pos)
    decreases |children|
  {
    hide TokensOf, ChildTokens, NodeAt, Presentable, Reads, Holds;
    if children == [] {
      NoChildren(ts, pos, start);
    } else {
      var end := pos + |TokensOf(children[0])|;
      FirstChild(ts, pos, start, children, false);
      HoldsOne(ts, end, FlowEntry);
      NodeRead(children[0], ts, pos, tags, false, false);
      FlowItemsRead(start, children[1..], ts, end + 1, tags);
    }
  }

  lemma {:induction false} FlowPairsRead(start: Event, children: seq<Tree>, ts: Tokens, pos: nat, tags: Tags)
    requires start.MappingStart? && start.style == FLOW && IsOpening(start, true) && AllRead(children, false)
    requires ChildrenAt(ts, pos, start, children)
    ensures (if |children| % 2 == 0 then FlowPairs(ts, pos, tags) else FlowValue(ts, pos, tags)) == Behind(start, children, pos)
    decreases |children|
  {
    hide TokensOf, ChildTokens, NodeAt, Presentable, Reads, Holds, FlowPairs, FlowValue, EntryAt;
    if children == [] {
      NoChildren(ts, pos, start);
      NoFlowPairs(ts, pos, tags);
    } else {
      var end := pos + 1 + |TokensOf(children[0])|;
      var next := end + |Separator(start, |children|)|;
      FirstChild(ts, pos, start, children, false);
      HoldsOne(ts, pos, Indicator(start, |children|)[0]);
      if |children| % 2 == 0 {
        NextChild(ts, next, start, children[1..]);
        NodeRead(children[0], ts, pos + 1, tags, false, false);
        FlowPairsRead(start, children[1..], ts, next, tags);
        FlowKeyRead(ts, pos, tags, children[0], next);
      } else {
        HoldsOne(ts, end, FlowEntry);
        NodeRead(children[0], ts, pos + 1, tags, false, false);
        FlowPairsRead(start, children[1..], ts, next, tags);
        FlowValueRead(ts, pos, tags, children[0], end);
      }
    }
  }

  lemma NoFlowPairs(ts: Tokens, pos: nat, tags: Tags)
    requires pos < |ts| && ts[pos].FlowMappingEnd?
    ensures FlowPairs(ts, pos, tags) == Some(([], pos + 1))
  {
  }

  lemma FlowKeyRead(ts: Tokens, pos: nat, tags: Tags, t: Tree, next: nat)
    requires pos + 1 < |ts| && ts[pos].Key? && Starts(ts[pos + 1]) && NodeAt(ts, pos + 1, tags, false, false) == Some((t, next))
    ensures FlowPairs(ts, pos, tags) == Cons(t, FlowValue(ts, next, tags))
  {
    hide NodeAt, FlowValue;
  }

  lemma FlowValueRead(ts: Tokens, pos: nat, tags: Tags, t: Tree, end: nat)
    requires pos + 1 < |ts| && ts[pos].Value? && Starts(ts[pos + 1]) && NodeAt(ts, pos + 1, tags, false, false) == Some((t, end))
    requires end < |ts| && ts[end].FlowEntry?
    ensures FlowValue(ts, pos, tags) == Cons(t, FlowPairs(ts, end + 1, tags))
  {
    hide NodeAt, FlowPairs;
  }

  // ----- nodes

  lemma CollectionRead(start: Event, children: seq<Tree>, ts: Tokens, pos: nat, tags: Tags, block: bool, indentless: bool)
    requires IsOpening(start, block) && (start.MappingStart? ==> |children| % 2 == 0)
    requires AllRead(children, IsBlock(start)) && (indentless ==> block)
    requires Ready(Collection(start, children), ts, pos, indentless)
    ensures ReadAt(Collection(start, children), ts, pos, tags, block, indentless)
  {
    hide PropertyTokens, PropertiesAt, ChildTokens, Holds, AllRead, FlowItems, FlowPairs, BlockItems, BlockPairs, Follows, IsOpening;
    hide NodeAt, StartTokens;
    StartSplit(start, block);
    var tag := TagOf(start);
    var p, open := PropertyTokens(start.anchor, tag), OpenToken(start);
    var rest := ChildTokens(start, children) + [EndToken(start)];
    var at := pos + |p|;
    assert TokensOf(Collection(start, children)) == p + ([open] + rest);
    HoldsSplit(ts, pos, p, [open] + rest);
    HoldsSplit(ts, at, [open], rest);
    HoldsOne(ts, at, open);
    PropertiesRead(ts, pos, tags, start.anchor, tag);
    NotAlias(ts, pos, start.anchor, tag);
    ChildrenRead(start, children, ts, at + 1, tags, block);
    Opened(start, children, ts, pos, at, tags, block, indentless);
  }

  function TagOf(start: Event): Option<string>
    requires start.SequenceStart? || start.MappingStart?
  {
    if start.SequenceStart? then start.sequenceTag else start.mappingTag
  }

  function OpenToken(start: Event): Token
    requires start.SequenceStart? || start.MappingStart?
  {
    match (start.SequenceStart?, start.style == BLOCK)
    case (true, true) => BlockSequenceStart(false)
    case (true, false) => FlowSequenceStart(false)
    case (false, true) => BlockMappingStart(false)
    case (false, false) => FlowMappingStart(false)
  }

  lemma StartSplit(start: Event, block: bool)
    requires IsOpening(start, block)
    ensures start.SequenceStart? || start.MappingStart?
    ensures StartTokens(start) == PropertyTokens(start.anchor, TagOf(start)) + [OpenToken(start)]
  {
    hide PropertyTokens;
  }

  /** Behind its properties and its opening token, a collection is its children. */
  lemma Opened(start: Event, children: seq<Tree>, ts: Tokens, pos: nat, at: nat, tags: Tags, block: bool, indentless: bool)
    requires IsOpening(start, block) && pos <= at < |ts| && ts[at] == OpenToken(start) && !ts[pos].AliasToken?
    requires PropertiesAt(ts, pos, tags) == Some(Properties(start.anchor, TagOf(start), at))
    requires (match (start.SequenceStart?, IsBlock(start))
              case (true, true) => BlockItems(ts, at + 1, tags)
              case (true, false) => FlowItems(ts, at + 1, tags)
              case (false, true) => BlockPairs(ts, at + 1, tags)
              case (false, false) => FlowPairs(ts, at + 1, tags)) == Behind(start, children, at + 1)
    ensures NodeAt(ts, pos, tags, block, indentless) == Collect(start, Behind(start, children, at + 1))
  {
    hide PropertiesAt, ChildTokens, FlowItems, FlowPairs, BlockItems, BlockPairs;
  }

  lemma ChildrenRead(start: Event, children: seq<Tree>, ts: Tokens, pos: nat, tags: Tags, block: bool)
    requires IsOpening(start, block) && (start.MappingStart? ==> |children| % 2 == 0) && AllRead(children, IsBlock(start))
    requires ChildrenAt(ts, pos, start, children)
    ensures Behind(start, children, pos) ==
            match (start.SequenceStart?, IsBlock(start))
            case (true, true) => BlockItems(ts, pos, tags)
            case (true, false) => FlowItems(ts, pos, tags)
            case (false, true) => BlockPairs(ts, pos, tags)
            case (false, false) => FlowPairs(ts, pos, tags)
  {
    hide ChildTokens, Holds, AllRead, FlowItems, FlowPairs, BlockItems, BlockPairs, Behind;
    match (start.SequenceStart?, IsBlock(start))
    case (true, true) => BlockItemsRead(start, children, ts, pos, tags);
    case (true, false) => FlowItemsRead(start, children, ts, pos, tags);
    case (false, true) => BlockPairsRead(start, children, ts, pos, tags);
    case (false, false) => FlowPairsRead(start, children, ts, pos, tags);
  }

  /** The tokens of a presentable tree are read back as that tree, wherever it may stand. */
  lemma {:induction false} TreeReads(t: Tree, block: bool)
    requires Presentable(t, block)
    ensures Reads(t, block)
    decreases t
  {
    hide TokensOf, ReadAt, Ready;
    match t
    case Leaf(e) =>
      forall ts, pos: nat, tags, indentless | (indentless ==> block) && Ready(t, ts, pos, indentless)
        ensures ReadAt(t, ts, pos, tags, block, indentless)
      {
        LeafRead(e, ts, pos, tags, block, indentless);
      }
    case Collection(start, children) =>
      forall i | 0 <= i < |children|
        ensures Reads(children[i], IsBlock(start))
      {
        TreeReads(children[i], IsBlock(start));
      }
      forall ts, pos: nat, tags, indentless | (indentless ==> block) && Ready(t, ts, pos, indentless)
        ensures ReadAt(t, ts, pos, tags, block, indentless)
      {
        CollectionRead(start, children, ts, pos, tags, block, indentless);
      }
  }

  // ----- documents

  predicate DocumentsAt(docs: seq<Tree>, ts: Tokens, pos: nat) {
    Holds(ts, pos, DocumentTokens(docs) + [StreamEndToken])
  }

  lemma DocumentSplit(docs: seq<Tree>, ts: Tokens, pos: nat)
    requires docs != [] && DocumentsAt(docs, ts, pos)
    ensures var next := pos + 1 + |TokensOf(docs[0])|;
            && pos < |ts| && ts[pos] == DocumentStartToken && DocumentsAt(docs[1..], ts, next)
            && Ready(docs[0], ts, pos + 1, false) && (ts[next].DocumentStartToken? || ts[next].StreamEndToken?)
            && |DocumentTokens(docs)| == 1 + |TokensOf(docs[0])| + |DocumentTokens(docs[1..])|
  {
    hide TokensOf, Holds, DocumentTokens;
    var w := TokensOf(docs[0]);
    var rest := DocumentTokens(docs[1..]) + [StreamEndToken];
    MoreTokensOf(docs);
    assert DocumentTokens(docs) + [StreamEndToken] == [DocumentStartToken] + (w + rest);
    HoldsSplit(ts, pos, [DocumentStartToken], w + rest);
    HoldsSplit(ts, pos + 1, w, rest);
    HoldsOne(ts, pos, DocumentStartToken);
    NextDocument(docs[1..], ts, pos + 1 + |w|);
  }

  lemma {:induction false} DocumentsRead(docs: seq<Tree>, ts: Tokens, pos: nat, tags: Tags)
    requires AllPresentable(docs, true) && DocumentsAt(docs, ts, pos)
    ensures Documents(ts, pos, tags) == Some((docs, pos + |DocumentTokens(docs)| + 1))
    decreases |docs|
  {
    hide TokensOf, EntryAt, Presentable, DocumentTokens, AfterRoot, DocumentsAt, Ready, Directives, NoRoot;
    if docs == [] {
      NoTokensOf(ts, pos);
    } else {
      var next := pos + 1 + |TokensOf(docs[0])|;
      DocumentSplit(docs, ts, pos);
      NoDirectives(ts, pos, tags);
      RootRead(docs[0], ts, pos + 1, Defaults(tags));
      DocumentsRead(docs[1..], ts, next, []);
      RestRead(docs, ts, next);
    }
  }

  lemma NoTokensOf(ts: Tokens, pos: nat)
    requires DocumentsAt([], ts, pos)
    ensures DocumentTokens([]) == [] && pos < |ts| && ts[pos] == StreamEndToken
  {
    hide Holds;
    assert DocumentTokens([]) + [StreamEndToken] == [StreamEndToken];
    HoldsOne(ts, pos, StreamEndToken);
  }

  lemma MoreTokensOf(docs: seq<Tree>)
    requires docs != []
    ensures DocumentTokens(docs) == [DocumentStartToken] + TokensOf(docs[0]) + DocumentTokens(docs[1..])
  {
  }

  lemma NextDocument(docs: seq<Tree>, ts: Tokens, pos: nat)
    requires DocumentsAt(docs, ts, pos)
    ensures pos < |ts| && (ts[pos].DocumentStartToken? || ts[pos].StreamEndToken?)
  {
    hide TokensOf;
    HoldsFirst(ts, pos, DocumentTokens(docs) + [StreamEndToken]);
  }

  lemma NoDirectives(ts: Tokens, pos: nat, tags: Tags)
    requires pos < |ts| && !IsDirective(ts[pos])
    ensures Directives(ts, pos, tags) == Some((pos, Defaults(tags)))
  {
    hide Defaults;
    assert ts[pos..pos] == [] && tags + [] == tags;
  }

  lemma RootRead(t: Tree, ts: Tokens, pos: nat, tags: Tags)
    requires Presentable(t, true) && Ready(t, ts, pos, false)
    ensures EntryAt(ts, pos, tags, true, false, Is(ts, pos, NoRoot)) == Some((t, pos + |TokensOf(t)|))
  {
    hide TokensOf, NodeAt, Presentable, Reads;
    TreeReads(t, true);
    NodeRead(t, ts, pos, tags, true, false);
    FirstToken(t, true);
    HoldsFirst(ts, pos, TokensOf(t));
  }

  lemma RestRead(docs: seq<Tree>, ts: Tokens, next: nat)
    requires docs != [] && next < |ts| && !ts[next].DocumentEndToken?
    requires Documents(ts, next, []).Some? && Documents(ts, next, []).value.0 == docs[1..]
    ensures AfterRoot(ts, Some((docs[0], next))) == Some((docs, Documents(ts, next, []).value.1))
  {
    hide Documents;
    assert [docs[0]] + docs[1..] == docs;
  }

  /** The tokens of presentable documents are read back as these documents, to the last token. */
  lemma StreamRead(docs: seq<Tree>)
    requires AllPresentable(docs, true)
    ensures StreamAt(StreamTokens(docs)) == Some((docs, |StreamTokens(docs)|))
  {
    hide Documents, DocumentTokens, Presentable, Directives, AfterRoot;
    var ts := StreamTokens(docs);
    assert ts[1..1 + |DocumentTokens(docs) + [StreamEndToken]|] == DocumentTokens(docs) + [StreamEndToken];
    DocumentsRead(docs, ts, 1, []);
    NextDocument(docs, ts, 1);
  }

  /** The parser turns these tokens into the events of the documents. */
  method ParsePresented(docs: seq<Tree>) returns (parser: P.Parser)
    requires AllPresentable(docs, true)
    ensures fresh(parser) && parser.Valid() && parser.tokens == StreamTokens(docs)
    ensures !parser.error && parser.log == StreamWord(docs)
  {
    hide StreamAt, StreamTokens, Presentable, StreamWord;
    StreamRead(docs);
    parser := P.ParseAll(StreamTokens(docs));
  }

  /** There are tokens for a list of trees exactly if all of them are presentable. */
  lemma HasTokensIff(docs: seq<Tree>)
    ensures (exists ts :: StreamAt(ts).Some? && StreamAt(ts).value.0 == docs) <==> AllPresentable(docs, true)
  {
    hide Presentable, StreamAt, StreamTokens;
    if AllPresentable(docs, true) {
      StreamRead(docs);
    }
    if ts :| StreamAt(ts).Some? && StreamAt(ts).value.0 == docs {
      StreamFits(ts);
    }
  }

  // ----- a pair without a key

  /** KEY flow_node? (VALUE flow_node?)? behind its KEY, as the productions have it: an empty key takes no token. */
  function PairByProduction(ts: Tokens, pos: nat, tags: Tags): ParsedAll {
    if pos >= |ts| then None
    else if NoPairKey(ts[pos]) then Cons(Leaf(EMPTY), PairValue(ts, pos, tags))
    else PairKey(ts, pos, tags)
  }

  /**
   * The parser does as the production says exactly if no FLOW-ENTRY follows the KEY, and a VALUE that
   * follows it has no node, or if neither accepts the pair.
   */
  lemma PairMeetsProductionIff(ts: Tokens, pos: nat, tags: Tags)
    ensures PairKey(ts, pos, tags) == PairByProduction(ts, pos, tags)
       <==> || (PairKey(ts, pos, tags) == None && PairByProduction(ts, pos, tags) == None)
            || (pos < |ts| && !ts[pos].FlowEntry? && (ts[pos].Value? ==> Is(ts, pos + 1, NoPairValue)))
  {
    hide NodeAt, EntryAt;
    if pos < |ts| && ts[pos].FlowEntry? {
      var code := PairValue(ts, pos + 1, tags);
      assert PairByProduction(ts, pos, tags) == Some(([Leaf(EMPTY)] + [Leaf(EMPTY)], pos));
      assert code.Some? ==> PairKey(ts, pos, tags).value.1 == code.value.1 > pos;
    } else if pos + 1 < |ts| && ts[pos].Value? {
      NodeAtValue(ts, pos + 1, tags);
      PairValueIs(ts, pos, tags);
      assert !ts[pos + 1].Value? ==> PairKey(ts, pos, tags) == Cons(Leaf(EMPTY), Some(([Leaf(EMPTY)], pos + 1)));
    }
  }

  lemma PairValueIs(ts: Tokens, pos: nat, tags: Tags)
    requires pos + 1 < |ts| && ts[pos].Value?
    ensures PairValue(ts, pos, tags) ==
            if NoPairValue(ts[pos + 1]) then Some(([Leaf(EMPTY)], pos + 1))
            else
              match NodeAt(ts, pos + 1, tags, false, false)
              case None => None
              case Some((v, next)) => Some(([v], next))
  {
    hide NodeAt;
  }

  lemma NodeAtValue(ts: Tokens, pos: nat, tags: Tags)
    requires pos < |ts|
    ensures ts[pos].Value? ==> NodeAt(ts, pos, tags, false, false) == None
    ensures var node := NodeAt(ts, pos, tags, false, false); node.Some? ==> pos < node.value.1
  {
  }

  /**
   * In a flow sequence an empty key cannot have a value: the VALUE is skipped together with the missing
   * key, and then a separator is due where the value is. The same goes for a FLOW-ENTRY behind a KEY.
   */
  lemma EmptyKeyRefused(ts: Tokens, pos: nat, tags: Tags)
    requires pos + 2 < |ts| && ts[pos].Key? && (ts[pos + 1].Value? || ts[pos + 1].FlowEntry?) && Starts(ts[pos + 2])
    ensures FlowItems(ts, pos, tags) == None
  {
    assert PairValue(ts, pos + 2, tags) == Some(([Leaf(EMPTY)], pos + 2));
    assert MoreItems(ts, pos + 2, tags) == None;
  }

  /** [ ? : v ] */
  lemma EmptyKeyExample()
    ensures StreamAt([StreamStartToken, FlowSequenceStart(false), Key, Value, ScalarToken("v", PLAIN),
                      FlowSequenceEnd, StreamEndToken]) == None
  {
    hide FlowItems;
    var ts := [StreamStartToken, FlowSequenceStart(false), Key, Value, ScalarToken("v", PLAIN), FlowSequenceEnd, StreamEndToken];
    NoDirectives(ts, 1, []);
    EmptyKeyRefused(ts, 2, Defaults([]));
    assert PropertiesAt(ts, 1, Defaults([])) == Some(Properties(None, None, 1));
  }
}
