/** What parsing keeps of the tokens, and which trees there are tokens for. */
module YamlPresent {
  import opened Basics
  import opened YamlGraph
  import opened YamlNesting
  import opened YamlTrees
  import opened YamlGrammar
  import opened YamlFuture

  // ----- the trees that tokens stand for

  /** The event of a scalar token. */
  predicate IsScalar(e: Event) {
    e.ScalarEvent? && e == ScalarOf(e.anchor, e.scalarTag, e.value, e.style)
  }

  /** The event of an anchor or a tag, or both, with nothing behind. */
  predicate IsBare(e: Event) {
    && e.ScalarEvent? && (e.anchor.Some? || e.scalarTag.Some?)
    && e == ScalarEvent(e.anchor, e.scalarTag, "", IsImplicit(e.scalarTag), false, PLAIN)
  }

  predicate IsOpening(start: Event, block: bool) {
    match start
    case SequenceStart(_, tag, implicit, style) => implicit == IsImplicit(tag) && (style == FLOW || (block && style == BLOCK))
    case MappingStart(_, tag, implicit, style) => implicit == IsImplicit(tag) && (style == FLOW || (block && style == BLOCK))
    case _ => false
  }

  predicate IsBlock(start: Event) {
    (start.SequenceStart? || start.MappingStart?) && start.style == BLOCK
  }

  /** The flags follow from tag and style, every alias has a name, every key its value, and no block collection is inside a flow collection. */
  predicate Presentable(t: Tree, block: bool) {
    match t
    case Leaf(e) => (e.Alias? && e.aliased.Some?) || IsScalar(e) || IsBare(e)
    case Collection(start, children) =>
      && IsOpening(start, block) && (start.MappingStart? ==> |children| % 2 == 0)
      && forall i :: 0 <= i < |children| ==> Presentable(children[i], IsBlock(start))
  }

  predicate AllPresentable(ts: seq<Tree>, block: bool) {
    forall i :: 0 <= i < |ts| ==> Presentable(ts[i], block)
  }

  lemma {:induction false} PresentableSound(t: Tree, block: bool)
    requires Presentable(t, block)
    ensures Sound(t)
    decreases t
  {
    if t.Collection? {
      forall i | 0 <= i < |t.children|
        ensures Sound(t.children[i])
      {
        PresentableSound(t.children[i], IsBlock(t.start));
      }
    }
  }

  // ----- names and texts

  /** What tokens and events carry over from the input: names that are referred to or given, and texts. */
  datatype Cargo = Reference(name: string) | Name(name: string) | Text(text: string)

  function NameOf(anchor: Option<string>): seq<Cargo> {
    if anchor.Some? then [Name(anchor.value)] else []
  }

  /** An empty scalar may stand for nothing. */
  function TextOf(text: string): seq<Cargo> {
    if text == "" then [] else [Text(text)]
  }

  function OfToken(t: Token): seq<Cargo> {
    match t
    case AliasToken(name) => [Reference(name)]
    case AnchorToken(name) => [Name(name)]
    case ScalarToken(text, _) => TextOf(text)
    case _ => []
  }

  function OfEvent(e: StreamEvent): seq<Cargo> {
    match e
    case In(Alias(Some(name))) => [Reference(name)]
    case In(ScalarEvent(anchor, _, text, _, _, _)) => NameOf(anchor) + TextOf(text)
    case In(SequenceStart(anchor, _, _, _)) => NameOf(anchor)
    case In(MappingStart(anchor, _, _, _)) => NameOf(anchor)
    case _ => []
  }

  /** What the tokens from a to b carry. */
  function Borne(ts: Tokens, a: nat, b: nat): seq<Cargo>
    requires b <= |ts|
  {
    if b <= a then [] else Borne(ts, a, b - 1) + OfToken(ts[b - 1])
  }

  function Carried(w: Events): seq<Cargo> {
    if w == [] then [] else Carried(w[..|w| - 1]) + OfEvent(w[|w| - 1])
  }

  lemma {:induction false} BorneSplit(ts: Tokens, a: nat, b: nat, c: nat)
    requires a <= b <= c <= |ts|
    ensures Borne(ts, a, c) == Borne(ts, a, b) + Borne(ts, b, c)
  {
    hide OfToken;
    if b < c {
      BorneSplit(ts, a, b, c - 1);
    }
  }

  lemma {:induction false} CarriedConcat(v: Events, w: Events)
    ensures Carried(v + w) == Carried(v) + Carried(w)
  {
    hide OfEvent;
    if w == [] {
      assert v + w == v;
    } else {
      assert (v + w)[..|v + w| - 1] == v + w[..|w| - 1];
      CarriedConcat(v, w[..|w| - 1]);
    }
  }

  lemma CarriedOne(e: StreamEvent)
    ensures Carried([e]) == OfEvent(e)
  {
    hide OfEvent;
    assert [e][..0] == [] && Carried([]) == [];
  }

  lemma BorneOne(ts: Tokens, a: nat)
    requires a < |ts|
    ensures Borne(ts, a, a + 1) == OfToken(ts[a])
  {
    hide OfToken;
    assert Borne(ts, a, a) == [];
  }

  // ----- parsing loses nothing and makes nothing up

  /** The tokens from a to b, as a tree. */
  predicate Fits(ts: Tokens, a: nat, node: Parsed, block: bool) {
    node.Some? ==>
      var (t, b) := node.value;
      a <= b <= |ts| && Presentable(t, block) && Carried(Word(t)) == Borne(ts, a, b)
  }

  /** The tokens from a to b, as a list of trees. */
  predicate FitAll(ts: Tokens, a: nat, children: ParsedAll, block: bool) {
    children.Some? ==>
      var (kids, b) := children.value;
      a <= b <= |ts| && AllPresentable(kids, block) && Carried(Words(kids)) == Borne(ts, a, b)
  }

  lemma FitCons(ts: Tokens, a: nat, t: Tree, b: nat, rest: ParsedAll, block: bool)
    requires Fits(ts, a, Some((t, b)), block) && FitAll(ts, b, rest, block)
    ensures FitAll(ts, a, Cons(t, rest), block)
  {
    hide Presentable, Borne, Carried, Word, Words;
    if rest.Some? {
      WordsCons(t, rest.value.0);
      CarriedConcat(Word(t), Words(rest.value.0));
      BorneSplit(ts, a, b, rest.value.1);
    }
  }

  /** A token in front that carries nothing. */
  lemma FitBehind(ts: Tokens, a: nat, node: Parsed, children: ParsedAll, block: bool)
    requires a < |ts| && OfToken(ts[a]) == []
    ensures Fits(ts, a + 1, node, block) ==> Fits(ts, a, node, block)
    ensures FitAll(ts, a + 1, children, block) ==> FitAll(ts, a, children, block)
  {
    hide Presentable, Borne, Carried, Word, Words;
    BorneOne(ts, a);
    if node.Some? && a + 1 <= node.value.1 <= |ts| {
      BorneSplit(ts, a, a + 1, node.value.1);
    }
    if children.Some? && a + 1 <= children.value.1 <= |ts| {
      BorneSplit(ts, a, a + 1, children.value.1);
    }
  }

  /** No children, in front of a token that carries nothing or of no token. */
  lemma FitEnd(ts: Tokens, a: nat, b: nat, block: bool)
    requires a <= |ts| && (b == a || (b == a + 1 <= |ts| && OfToken(ts[a]) == []))
    ensures FitAll(ts, a, Some(([], b)), block)
  {
    hide OfToken;
    assert Borne(ts, a, a) == [] && Carried(Words([])) == [];
    if b == a + 1 {
      BorneOne(ts, a);
    }
  }

  lemma FitEmpty(ts: Tokens, a: nat, block: bool)
    requires a <= |ts|
    ensures Fits(ts, a, Some((Leaf(EMPTY), a)), block)
  {
    EmptyWord();
    CarriedOne(In(EMPTY));
  }

  lemma FitOne(ts: Tokens, a: nat, node: Parsed, block: bool)
    requires Fits(ts, a, node, block) && node.Some?
    ensures FitAll(ts, a, Some(([node.value.0], node.value.1)), block)
  {
    hide Presentable, Borne, Carried, Word;
    var (t, b) := node.value;
    assert [t][..0] == [] && Words([]) == [];
    assert Words([t]) == Word(t);
  }

  /** The anchor and the tag in front of a node. */
  lemma PropertiesFit(ts: Tokens, pos: nat, tags: Tags)
    requires PropertiesAt(ts, pos, tags).Some?
    ensures var p := PropertiesAt(ts, pos, tags).value;
            Borne(ts, pos, p.next) == NameOf(p.anchor)
  {
    hide Resolve, Borne;
    var p := PropertiesAt(ts, pos, tags).value;
    BorneOne(ts, pos);
    if p.next == pos + 2 {
      BorneOne(ts, pos + 1);
      BorneSplit(ts, pos, pos + 1, p.next);
    } else if p.next == pos {
      BorneNothing(ts, pos);
    }
  }

  lemma BorneNothing(ts: Tokens, a: nat)
    requires a <= |ts|
    ensures Borne(ts, a, a) == []
  {
  }

  lemma LeafFits(ts: Tokens, pos: nat, at: nat, e: Event, next: nat, block: bool)
    requires pos <= at <= next <= |ts| && next <= at + 1
    requires e.ScalarEvent? && (IsScalar(e) || IsBare(e)) && Borne(ts, pos, at) == NameOf(e.anchor)
    requires if next == at then e.value == "" else ts[at].ScalarToken? && ts[at].text == e.value
    ensures Fits(ts, pos, Some((Leaf(e), next)), block)
  {
    hide Borne, IsScalar, IsBare;
    CarriedOne(In(e));
    BorneSplit(ts, pos, at, next);
    if next == at {
      BorneNothing(ts, at);
    } else {
      BorneOne(ts, at);
    }
  }

  lemma CollectionFits(ts: Tokens, pos: nat, at: nat, start: Event, children: ParsedAll, block: bool)
    requires pos <= at <= |ts| && IsOpening(start, block) && Borne(ts, pos, at) == NameOf(start.anchor)
    requires children.Some? && start.MappingStart? ==> |children.value.0| % 2 == 0
    requires FitAll(ts, at, children, IsBlock(start))
    ensures Fits(ts, pos, Collect(start, children), block)
  {
    hide Borne, Carried, Words;
    if children.Some? {
      var (kids, next) := children.value;
      CarriedOne(In(start));
      CarriedOne(In(EndOf(start)));
      CarriedConcat([In(start)], Words(kids));
      CarriedConcat([In(start)] + Words(kids), [In(EndOf(start))]);
      BorneSplit(ts, pos, at, next);
    }
  }

  lemma {:induction false} NodeFits(ts: Tokens, pos: nat, tags: Tags, block: bool, indentless: bool)
    requires indentless ==> block
    ensures Fits(ts, pos, NodeAt(ts, pos, tags, block, indentless), block)
    decreases |ts| - pos, 2
  {
    hide Fits, FitAll, PropertiesAt, Borne, IndentlessItems, FlowItems, FlowPairs, BlockItems, BlockPairs;
    if pos >= |ts| {
      NoneFits(ts, pos, block);
    } else if ts[pos].AliasToken? {
      AliasFits(ts, pos, block);
    } else if PropertiesAt(ts, pos, tags).Some? {
      PropertiesFit(ts, pos, tags);
      ContentFits(ts, pos, tags, block, indentless, PropertiesAt(ts, pos, tags).value);
    } else {
      NoneFits(ts, pos, block);
    }
  }

  lemma NoneFits(ts: Tokens, pos: nat, block: bool)
    ensures Fits(ts, pos, None, block) && FitAll(ts, pos, None, block)
  {
  }

  lemma AliasFits(ts: Tokens, pos: nat, block: bool)
    requires pos < |ts| && ts[pos].AliasToken?
    ensures Fits(ts, pos, Some((Leaf(Alias(Some(ts[pos].name))), pos + 1)), block)
  {
    hide Borne, Carried;
    BorneOne(ts, pos);
    CarriedOne(In(Alias(Some(ts[pos].name))));
  }

  lemma {:induction false} ContentFits(ts: Tokens, pos: nat, tags: Tags, block: bool, indentless: bool, p: Properties)
    requires (indentless ==> block) && pos < |ts| && !ts[pos].AliasToken? && PropertiesAt(ts, pos, tags) == Some(p)
    requires Borne(ts, pos, p.next) == NameOf(p.anchor)
    ensures Fits(ts, pos, NodeAt(ts, pos, tags, block, indentless), block)
    decreases |ts| - pos, 1
  {
    hide Fits, FitAll, PropertiesAt, Borne, IndentlessItems, FlowItems, FlowPairs, BlockItems, BlockPairs;
    var t, at := ts[p.next], p.next;
    if indentless && t.BlockEntry? {
      IndentlessFit(ts, at, tags);
      CollectionFits(ts, pos, at, SequenceOf(p, BLOCK), IndentlessItems(ts, at, tags), block);
    } else if t.ScalarToken? {
      LeafFits(ts, pos, at, ScalarOf(p.anchor, p.tag, t.text, t.style), at + 1, block);
    } else if t.FlowSequenceStart? && !t.deep {
      FlowItemsFit(ts, at + 1, tags);
      FitBehind(ts, at, None, FlowItems(ts, at + 1, tags), false);
      CollectionFits(ts, pos, at, SequenceOf(p, FLOW), FlowItems(ts, at + 1, tags), block);
    } else if t.FlowMappingStart? && !t.deep {
      FlowPairsFit(ts, at + 1, tags);
      FitBehind(ts, at, None, FlowPairs(ts, at + 1, tags), false);
      CollectionFits(ts, pos, at, MappingOf(p, FLOW), FlowPairs(ts, at + 1, tags), block);
    } else if block && t.BlockSequenceStart? && !t.deep {
      BlockItemsFit(ts, at + 1, tags);
      FitBehind(ts, at, None, BlockItems(ts, at + 1, tags), true);
      CollectionFits(ts, pos, at, SequenceOf(p, BLOCK), BlockItems(ts, at + 1, tags), block);
    } else if block && t.BlockMappingStart? && !t.deep {
      BlockPairsFit(ts, at + 1, tags);
      FitBehind(ts, at, None, BlockPairs(ts, at + 1, tags), true);
      CollectionFits(ts, pos, at, MappingOf(p, BLOCK), BlockPairs(ts, at + 1, tags), block);
    } else if (p.anchor != None || p.tag != None) && !TooDeep(block, t) {
      LeafFits(ts, pos, at, ScalarEvent(p.anchor, p.tag, "", IsImplicit(p.tag), false, PLAIN), at, block);
    } else {
      NoneFits(ts, pos, block);
    }
  }

  lemma {:induction false} EntryFits(ts: Tokens, pos: nat, tags: Tags, block: bool, indentless: bool, missing: bool)
    requires indentless ==> block
    ensures Fits(ts, pos, EntryAt(ts, pos, tags, block, indentless, missing), block)
    decreases |ts| - pos, 3
  {
    hide Fits, NodeAt;
    if pos >= |ts| {
      NoneFits(ts, pos, block);
    } else if missing {
      FitEmpty(ts, pos, block);
    } else {
      NodeFits(ts, pos, tags, block, indentless);
    }
  }

  lemma {:induction false} BlockItemsFit(ts: Tokens, pos: nat, tags: Tags)
    ensures FitAll(ts, pos, BlockItems(ts, pos, tags), true)
    decreases |ts| - pos, 0
  {
    hide Fits, FitAll, EntryAt;
    if pos >= |ts| || !NoBlockItem(ts[pos]) {
      NoneFits(ts, pos, true);
    } else if ts[pos].BlockEnd? {
      FitEnd(ts, pos, pos + 1, true);
    } else {
      var entry := EntryAt(ts, pos + 1, tags, true, false, Is(ts, pos + 1, NoBlockItem));
      EntryFits(ts, pos + 1, tags, true, false, Is(ts, pos + 1, NoBlockItem));
      FitBehind(ts, pos, entry, None, true);
      NoneFits(ts, pos, true);
      if entry.Some? {
        BlockItemsFit(ts, entry.value.1, tags);
        FitCons(ts, pos, entry.value.0, entry.value.1, BlockItems(ts, entry.value.1, tags), true);
      }
    }
  }

  lemma {:induction false} IndentlessFit(ts: Tokens, pos: nat, tags: Tags)
    ensures FitAll(ts, pos, IndentlessItems(ts, pos, tags), true)
    decreases |ts| - pos, 0
  {
    hide Fits, FitAll, EntryAt;
    if pos >= |ts| {
      NoneFits(ts, pos, true);
    } else if !ts[pos].BlockEntry? {
      FitEnd(ts, pos, pos, true);
    } else {
      var entry := EntryAt(ts, pos + 1, tags, true, false, Is(ts, pos + 1, NoIndentlessItem));
      EntryFits(ts, pos + 1, tags, true, false, Is(ts, pos + 1, NoIndentlessItem));
      FitBehind(ts, pos, entry, None, true);
      NoneFits(ts, pos, true);
      if entry.Some? {
        IndentlessFit(ts, entry.value.1, tags);
        FitCons(ts, pos, entry.value.0, entry.value.1, IndentlessItems(ts, entry.value.1, tags), true);
      }
    }
  }

  predicate Even(children: ParsedAll) {
    children.Some? ==> |children.value.0| % 2 == 0
  }

  predicate Odd(children: ParsedAll) {
    children.Some? ==> |children.value.0| % 2 == 1
  }

  lemma {:induction false} BlockPairsFit(ts: Tokens, pos: nat, tags: Tags)
    ensures FitAll(ts, pos, BlockPairs(ts, pos, tags), true) && Even(BlockPairs(ts, pos, tags))
    decreases |ts| - pos, 0
  {
    hide Fits, FitAll, EntryAt, BlockValue;
    NoneFits(ts, pos, true);
    if pos < |ts| && ts[pos].BlockEnd? {
      FitEnd(ts, pos, pos + 1, true);
    } else if pos < |ts| && ts[pos].Key? {
      var entry := EntryAt(ts, pos + 1, tags, true, true, Is(ts, pos + 1, NoBlockKey));
      EntryFits(ts, pos + 1, tags, true, true, Is(ts, pos + 1, NoBlockKey));
      FitBehind(ts, pos, entry, None, true);
      if entry.Some? {
        BlockValueFits(ts, entry.value.1, tags);
        FitCons(ts, pos, entry.value.0, entry.value.1, BlockValue(ts, entry.value.1, tags), true);
      }
    }
  }

  lemma {:induction false} BlockValueFits(ts: Tokens, pos: nat, tags: Tags)
    ensures FitAll(ts, pos, BlockValue(ts, pos, tags), true) && Odd(BlockValue(ts, pos, tags))
    decreases |ts| - pos, 1
  {
    hide Fits, FitAll, EntryAt, BlockPairs;
    NoneFits(ts, pos, true);
    if pos < |ts| && !ts[pos].Value? {
      FitEmpty(ts, pos, true);
      BlockPairsFit(ts, pos, tags);
      FitCons(ts, pos, Leaf(EMPTY), pos, BlockPairs(ts, pos, tags), true);
    } else if pos < |ts| {
      var entry := EntryAt(ts, pos + 1, tags, true, true, Is(ts, pos + 1, NoBlockKey));
      EntryFits(ts, pos + 1, tags, true, true, Is(ts, pos + 1, NoBlockKey));
      FitBehind(ts, pos, entry, None, true);
      if entry.Some? {
        BlockPairsFit(ts, entry.value.1, tags);
        FitCons(ts, pos, entry.value.0, entry.value.1, BlockPairs(ts, entry.value.1, tags), true);
      }
    }
  }

  lemma {:induction false} FlowItemsFit(ts: Tokens, pos: nat, tags: Tags)
    ensures FitAll(ts, pos, FlowItems(ts, pos, tags), false)
    decreases |ts| - pos, 3
  {
    hide Fits, FitAll, NodeAt, PairKey, MoreItems;
    NoneFits(ts, pos, false);
    if pos < |ts| && ts[pos].FlowSequenceEnd? {
      FitEnd(ts, pos, pos + 1, false);
    } else if pos < |ts| {
      var item := if ts[pos].Key? then Collect(PAIR, PairKey(ts, pos + 1, tags)) else NodeAt(ts, pos, tags, false, false);
      if ts[pos].Key? {
        PairFits(ts, pos, tags);
      } else {
        NodeFits(ts, pos, tags, false, false);
      }
      if item.Some? {
        MoreItemsFit(ts, item.value.1, tags);
        FitCons(ts, pos, item.value.0, item.value.1, MoreItems(ts, item.value.1, tags), false);
      }
    }
  }

  lemma {:induction false} MoreItemsFit(ts: Tokens, pos: nat, tags: Tags)
    ensures FitAll(ts, pos, MoreItems(ts, pos, tags), false)
    decreases |ts| - pos, 0
  {
    hide Fits, FitAll, FlowItems;
    NoneFits(ts, pos, false);
    if pos < |ts| && ts[pos].FlowSequenceEnd? {
      FitEnd(ts, pos, pos + 1, false);
    } else if pos < |ts| && ts[pos].FlowEntry? {
      FlowItemsFit(ts, pos + 1, tags);
      FitBehind(ts, pos, None, FlowItems(ts, pos + 1, tags), false);
    }
  }

  lemma {:induction false} PairFits(ts: Tokens, pos: nat, tags: Tags)
    requires pos < |ts| && ts[pos].Key?
    ensures Fits(ts, pos, Collect(PAIR, PairKey(ts, pos + 1, tags)), false)
    decreases |ts| - pos, 1
  {
    hide Fits, FitAll, Borne;
    PairKeyFits(ts, pos + 1, tags);
    FitBehind(ts, pos, None, PairKey(ts, pos + 1, tags), false);
    BorneNothing(ts, pos);
    CollectionFits(ts, pos, pos, PAIR, PairKey(ts, pos + 1, tags), false);
  }

  lemma {:induction false} PairKeyFits(ts: Tokens, pos: nat, tags: Tags)
    ensures FitAll(ts, pos, PairKey(ts, pos, tags), false)
    decreases |ts| - pos, 4
  {
    hide Fits, FitAll, NodeAt, PairValue;
    NoneFits(ts, pos, false);
    if pos < |ts| && NoPairKey(ts[pos]) {
      var at := if ts[pos].FlowSequenceEnd? then pos else pos + 1;
      PairValueFits(ts, at, tags);
      FitBehind(ts, pos, None, PairValue(ts, at, tags), false);
      FitEmpty(ts, pos, false);
      FitCons(ts, pos, Leaf(EMPTY), pos, PairValue(ts, at, tags), false);
    } else if pos < |ts| {
      var key := NodeAt(ts, pos, tags, false, false);
      NodeFits(ts, pos, tags, false, false);
      if key.Some? {
        PairValueFits(ts, key.value.1, tags);
        FitCons(ts, pos, key.value.0, key.value.1, PairValue(ts, key.value.1, tags), false);
      }
    }
  }

  lemma {:induction false} PairValueFits(ts: Tokens, pos: nat, tags: Tags)
    ensures FitAll(ts, pos, PairValue(ts, pos, tags), false)
    decreases |ts| - pos, 0
  {
    hide Fits, FitAll, EntryAt;
    NoneFits(ts, pos, false);
    if pos < |ts| && !ts[pos].Value? {
      FitEmpty(ts, pos, false);
      FitOne(ts, pos, Some((Leaf(EMPTY), pos)), false);
    } else if pos < |ts| {
      var entry := EntryAt(ts, pos + 1, tags, false, false, Is(ts, pos + 1, NoPairValue));
      EntryFits(ts, pos + 1, tags, false, false, Is(ts, pos + 1, NoPairValue));
      FitBehind(ts, pos, entry, None, false);
      if entry.Some? {
        FitOne(ts, pos, entry, false);
      }
    }
  }

  lemma {:induction false} FlowPairsFit(ts: Tokens, pos: nat, tags: Tags)
    ensures FitAll(ts, pos, FlowPairs(ts, pos, tags), false) && Even(FlowPairs(ts, pos, tags))
    decreases |ts| - pos, 3
  {
    hide Fits, FitAll, NodeAt, EntryAt, FlowValue, MorePairs;
    NoneFits(ts, pos, false);
    if pos < |ts| && ts[pos].FlowMappingEnd? {
      FitEnd(ts, pos, pos + 1, false);
    } else if pos < |ts| && ts[pos].Key? {
      var entry := EntryAt(ts, pos + 1, tags, false, false, Is(ts, pos + 1, NoFlowKey));
      EntryFits(ts, pos + 1, tags, false, false, Is(ts, pos + 1, NoFlowKey));
      FitBehind(ts, pos, entry, None, false);
      if entry.Some? {
        FlowValueFits(ts, entry.value.1, tags);
        FitCons(ts, pos, entry.value.0, entry.value.1, FlowValue(ts, entry.value.1, tags), false);
      }
    } else if pos < |ts| {
      var key := NodeAt(ts, pos, tags, false, false);
      NodeFits(ts, pos, tags, false, false);
      if key.Some? {
        var (k, next) := key.value;
        MorePairsFit(ts, next, tags);
        FitEmpty(ts, next, false);
        FitCons(ts, next, Leaf(EMPTY), next, MorePairs(ts, next, tags), false);
        FitCons(ts, pos, k, next, Cons(Leaf(EMPTY), MorePairs(ts, next, tags)), false);
      }
    }
  }

  lemma {:induction false} FlowValueFits(ts: Tokens, pos: nat, tags: Tags)
    ensures FitAll(ts, pos, FlowValue(ts, pos, tags), false) && Odd(FlowValue(ts, pos, tags))
    decreases |ts| - pos, 1
  {
    hide Fits, FitAll, EntryAt, MorePairs;
    NoneFits(ts, pos, false);
    if pos < |ts| && !ts[pos].Value? {
      FitEmpty(ts, pos, false);
      MorePairsFit(ts, pos, tags);
      FitCons(ts, pos, Leaf(EMPTY), pos, MorePairs(ts, pos, tags), false);
    } else if pos < |ts| {
      var entry := EntryAt(ts, pos + 1, tags, false, false, Is(ts, pos + 1, NoFlowValue));
      EntryFits(ts, pos + 1, tags, false, false, Is(ts, pos + 1, NoFlowValue));
      FitBehind(ts, pos, entry, None, false);
      if entry.Some? {
        MorePairsFit(ts, entry.value.1, tags);
        FitCons(ts, pos, entry.value.0, entry.value.1, MorePairs(ts, entry.value.1, tags), false);
      }
    }
  }

  lemma {:induction false} MorePairsFit(ts: Tokens, pos: nat, tags: Tags)
    ensures FitAll(ts, pos, MorePairs(ts, pos, tags), false) && Even(MorePairs(ts, pos, tags))
    decreases |ts| - pos, 0
  {
    hide Fits, FitAll, FlowPairs;
    NoneFits(ts, pos, false);
    if pos < |ts| && ts[pos].FlowMappingEnd? {
      FitEnd(ts, pos, pos + 1, false);
    } else if pos < |ts| && ts[pos].FlowEntry? {
      FlowPairsFit(ts, pos + 1, tags);
      FitBehind(ts, pos, None, FlowPairs(ts, pos + 1, tags), false);
    }
  }

  // ----- documents

  predicate DocumentsFit(ts: Tokens, a: nat, docs: ParsedAll) {
    docs.Some? ==>
      var (trees, b) := docs.value;
      a <= b <= |ts| && AllPresentable(trees, true) && Carried(DocumentWords(trees)) == Borne(ts, a, b)
  }

  lemma {:induction false} BorneNone(ts: Tokens, a: nat, b: nat)
    requires a <= b <= |ts| && forall i :: a <= i < b ==> OfToken(ts[i]) == []
    ensures Borne(ts, a, b) == []
  {
    if a < b {
      BorneNone(ts, a, b - 1);
    }
  }

  /** Documents behind tokens that carry nothing. */
  lemma DocumentsBehind(ts: Tokens, a: nat, b: nat, docs: ParsedAll)
    requires a <= b <= |ts| && DocumentsFit(ts, b, docs) && forall i :: a <= i < b ==> OfToken(ts[i]) == []
    ensures DocumentsFit(ts, a, docs)
  {
    hide Borne, Carried, DocumentWords, Presentable, OfToken;
    if docs.Some? {
      BorneNone(ts, a, b);
      BorneSplit(ts, a, b, docs.value.1);
    }
  }

  lemma NoDocumentsFit(ts: Tokens, a: nat)
    ensures DocumentsFit(ts, a, None)
    ensures a < |ts| && OfToken(ts[a]) == [] ==> DocumentsFit(ts, a, Some(([], a + 1)))
  {
    hide OfToken;
    NoDocuments();
    if a < |ts| {
      BorneOne(ts, a);
    }
  }

  lemma DocumentsCons(ts: Tokens, a: nat, t: Tree, b: nat, docs: ParsedAll)
    requires Fits(ts, a, Some((t, b)), true) && DocumentsFit(ts, b, docs)
    ensures DocumentsFit(ts, a, Cons(t, docs))
  {
    hide Borne, Carried, DocumentWords, Presentable, Word;
    if docs.Some? {
      var rest := DocumentWords(docs.value.0);
      DocumentWordsCons(t, docs.value.0);
      CarriedOne(In(DocumentStart));
      CarriedOne(In(DocumentEnd));
      CarriedConcat([In(DocumentStart)], Word(t));
      CarriedConcat([In(DocumentStart)] + Word(t), [In(DocumentEnd)]);
      CarriedConcat([In(DocumentStart)] + Word(t) + [In(DocumentEnd)], rest);
      BorneSplit(ts, a, b, docs.value.1);
    }
  }

  lemma {:induction false} EndsCarryNothing(ts: Tokens, a: nat)
    requires a <= |ts|
    ensures forall i :: a <= i < PastEnds(ts, a) ==> OfToken(ts[i]) == []
    decreases |ts| - a
  {
    if a < |ts| && ts[a].DocumentEndToken? {
      EndsCarryNothing(ts, a + 1);
    }
  }

  lemma {:induction false} RestFits(ts: Tokens, a: nat, root: Parsed)
    requires root.Some? ==> root.value.1 <= |ts|
    requires Fits(ts, a, root, true)
    ensures DocumentsFit(ts, a, AfterRoot(ts, root))
    decreases |ts| - (if root.Some? then root.value.1 else |ts|), 2
  {
    hide Fits, DocumentsFit, Documents, PastEnds, Borne;
    NoDocumentsFit(ts, a);
    if root.Some? && root.value.1 < |ts| {
      var (t, next) := root.value;
      var at := if ts[next].DocumentEndToken? then next + 1 else next;
      var docs := Documents(ts, PastEnds(ts, at), []);
      ExplicitFit(ts, PastEnds(ts, at), []);
      EndsCarryNothing(ts, at);
      DocumentsBehind(ts, next, PastEnds(ts, at), docs);
      DocumentsCons(ts, a, t, next, docs);
    }
  }

  lemma DirectivesCarryNothing(ts: Tokens, pos: nat, tags: Tags)
    requires pos <= |ts| && Directives(ts, pos, tags).Some?
    ensures var (next, known) := Directives(ts, pos, tags).value;
            pos <= next < |ts| && forall i :: pos <= i < next ==> OfToken(ts[i]) == []
  {
    hide Permitted;
    assert forall t :: IsDirective(t) ==> OfToken(t) == [];
  }

  lemma {:induction false} ExplicitFit(ts: Tokens, pos: nat, tags: Tags)
    ensures DocumentsFit(ts, pos, Documents(ts, pos, tags))
    decreases |ts| - pos, 1
  {
    hide Fits, DocumentsFit, EntryAt, AfterRoot, Directives, Borne, NoRoot;
    NoDocumentsFit(ts, pos);
    if pos < |ts| && !ts[pos].StreamEndToken? && Directives(ts, pos, tags).Some? {
      var (next, known) := Directives(ts, pos, tags).value;
      DirectivesCarryNothing(ts, pos, tags);
      if ts[next].DocumentStartToken? {
        var root := EntryAt(ts, next + 1, known, true, false, Is(ts, next + 1, NoRoot));
        EntryFits(ts, next + 1, known, true, false, Is(ts, next + 1, NoRoot));
        RestFits(ts, next + 1, root);
        DocumentsBehind(ts, pos, next + 1, AfterRoot(ts, root));
      }
    }
  }

  lemma FirstFits(ts: Tokens, pos: nat, tags: Tags)
    ensures DocumentsFit(ts, pos, FirstDocument(ts, pos, tags))
  {
    hide Fits, DocumentsFit, NodeAt, AfterRoot, Directives, Borne, Documents;
    NoDocumentsFit(ts, pos);
    ExplicitFit(ts, pos, tags);
    if pos < |ts| && Directives(ts, pos, tags).Some? {
      var (next, known) := Directives(ts, pos, tags).value;
      DirectivesCarryNothing(ts, pos, tags);
      NodeFits(ts, next, known, true, false);
      RestFits(ts, next, NodeAt(ts, next, known, true, false));
      DocumentsBehind(ts, pos, next, AfterRoot(ts, NodeAt(ts, next, known, true, false)));
    }
  }

  /** Every stream is one of presentable trees, and its events carry the names and texts of its tokens, in order. */
  lemma StreamFits(ts: Tokens)
    requires StreamAt(ts).Some?
    ensures var (docs, next) := StreamAt(ts).value;
            next <= |ts| && AllPresentable(docs, true) && Carried(StreamWord(docs)) == Borne(ts, 0, next)
  {
    hide Carried, Borne, Presentable, FirstDocument;
    var (docs, next) := StreamAt(ts).value;
    FirstFits(ts, 1, []);
    BorneOne(ts, 0);
    BorneSplit(ts, 0, 1, next);
    CarriedOne(StreamStart);
    CarriedOne(StreamEnd);
    CarriedConcat([StreamStart], DocumentWords(docs));
    CarriedConcat([StreamStart] + DocumentWords(docs), [StreamEnd]);
  }
}
