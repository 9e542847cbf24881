/**
 The productions at the head of parser.c as syntax trees: how each of them is written in tokens, and what
 it means. A token stream is read exactly if it is written by such a tree, and as what the tree means.
 */
module YamlSyntax {
  import opened Basics
  import opened YamlGraph
  import opened YamlTrees
  import opened YamlGrammar
  import T = YamlTokens

  /** Anchor and tag of a node, and which of them stands first. */
  datatype Marks = Marks(anchor: Option<string>, tag: Option<(string, string)>, tagFirst: bool)

  datatype Syntax =
    /** A node that is left out. */
    | Omitted
    | Ref(name: string)
    | Text(marks: Marks, text: string, style: nat)
    /** Properties without content. */
    | Bare(marks: Marks)
    | BlockSeq(marks: Marks, items: seq<Syntax>)
    | IndentlessSeq(marks: Marks, items: seq<Syntax>)
    | BlockMap(marks: Marks, entries: seq<Entry>)
    | FlowSeq(marks: Marks, items: seq<Syntax>, comma: bool)
    | FlowMap(marks: Marks, entries: seq<Entry>, comma: bool)
    /** A pair without braces in a flow sequence. Behind an empty key a token is lost. */
    | Single(key: Syntax, lost: Tokens, valued: bool, value: Syntax)

  /** A key with its KEY token or, in flow style, without; and a value if there is a VALUE token. */
  datatype Entry = Entry(keyed: bool, key: Syntax, valued: bool, value: Syntax)

  // ----- in tokens

  function AnchorTokens(m: Marks): Tokens {
    if m.anchor.Some? then [AnchorToken(m.anchor.value)] else []
  }

  function TagTokens(m: Marks): Tokens {
    if m.tag.Some? then [TagToken(m.tag.value.0, m.tag.value.1)] else []
  }

  function MarkTokens(m: Marks): Tokens {
    if m.tagFirst then TagTokens(m) + AnchorTokens(m) else AnchorTokens(m) + TagTokens(m)
  }

  function Yield(s: Syntax): Tokens
    decreases s
  {
    match s
    case Omitted => []
    case Ref(name) => [AliasToken(name)]
    case Text(m, text, style) => MarkTokens(m) + [ScalarToken(text, style)]
    case Bare(m) => MarkTokens(m)
    case BlockSeq(m, items) => MarkTokens(m) + ([BlockSequenceStart(false)] + (BlockItemTokens(items) + [BlockEnd]))
    case IndentlessSeq(m, items) => MarkTokens(m) + BlockItemTokens(items)
    case BlockMap(m, entries) => MarkTokens(m) + ([BlockMappingStart(false)] + (EntryTokens(entries) + [BlockEnd]))
    case FlowSeq(m, items, comma) => MarkTokens(m) + ([FlowSequenceStart(false)] + (FlowItemTokens(items, comma) + [FlowSequenceEnd]))
    case FlowMap(m, entries, comma) => MarkTokens(m) + ([FlowMappingStart(false)] + (FlowEntryTokens(entries, comma) + [FlowMappingEnd]))
    case Single(key, lost, valued, value) => [Key] + (Yield(key) + (lost + if valued then [Value] + Yield(value) else []))
  }

  function BlockItemTokens(items: seq<Syntax>): Tokens
    decreases items
  {
    if items == [] then [] else [BlockEntry] + (Yield(items[0]) + BlockItemTokens(items[1..]))
  }

  function ValueTokens(e: Entry): Tokens
    decreases e, 0
  {
    if e.valued then [Value] + Yield(e.value) else []
  }

  function YieldEntry(e: Entry): Tokens
    decreases e, 1
  {
    (if e.keyed then [Key] else []) + (Yield(e.key) + ValueTokens(e))
  }

  function EntryTokens(entries: seq<Entry>): Tokens
    decreases entries
  {
    if entries == [] then [] else YieldEntry(entries[0]) + EntryTokens(entries[1..])
  }

  /** Items with separators between them, and one more behind the last one if comma. */
  function FlowItemTokens(items: seq<Syntax>, comma: bool): Tokens
    decreases items
  {
    if items == [] then []
    else Yield(items[0]) + ((if comma || |items| > 1 then [FlowEntry] else []) + FlowItemTokens(items[1..], comma))
  }

  function FlowEntryTokens(entries: seq<Entry>, comma: bool): Tokens
    decreases entries
  {
    if entries == [] then []
    else YieldEntry(entries[0]) + ((if comma || |entries| > 1 then [FlowEntry] else []) + FlowEntryTokens(entries[1..], comma))
  }

  // ----- meaning

  /** The tag a handle and a suffix stand for: with no handle the suffix, else the prefix of the handle and the suffix. */
  function TagOf(m: Marks, tags: Tags): Option<string> {
    match m.tag
    case None => None
    case Some((handle, suffix)) => Resolve(tags, handle, suffix)
  }

  function Means(s: Syntax, tags: Tags): Tree
    decreases s
  {
    match s
    case Omitted => Leaf(EMPTY)
    case Ref(name) => Leaf(Alias(Some(name)))
    case Text(m, text, style) => Leaf(ScalarOf(m.anchor, TagOf(m, tags), text, style))
    case Bare(m) => Leaf(ScalarEvent(m.anchor, TagOf(m, tags), "", IsImplicit(TagOf(m, tags)), false, PLAIN))
    case BlockSeq(m, items) => Collection(SequenceOf(Properties(m.anchor, TagOf(m, tags), 0), BLOCK), ItemTrees(items, tags))
    case IndentlessSeq(m, items) => Collection(SequenceOf(Properties(m.anchor, TagOf(m, tags), 0), BLOCK), ItemTrees(items, tags))
    case BlockMap(m, entries) => Collection(MappingOf(Properties(m.anchor, TagOf(m, tags), 0), BLOCK), EntryTrees(entries, tags))
    case FlowSeq(m, items, _) => Collection(SequenceOf(Properties(m.anchor, TagOf(m, tags), 0), FLOW), ItemTrees(items, tags))
    case FlowMap(m, entries, _) => Collection(MappingOf(Properties(m.anchor, TagOf(m, tags), 0), FLOW), EntryTrees(entries, tags))
    case Single(key, _, _, value) => Collection(PAIR, [Means(key, tags), Means(value, tags)])
  }

  function ItemTrees(items: seq<Syntax>, tags: Tags): seq<Tree>
    decreases items
  {
    if items == [] then [] else [Means(items[0], tags)] + ItemTrees(items[1..], tags)
  }

  function EntryTrees(entries: seq<Entry>, tags: Tags): seq<Tree>
    decreases entries
  {
    if entries == [] then [] else EntryTree(entries[0], tags) + EntryTrees(entries[1..], tags)
  }

  function EntryTree(e: Entry, tags: Tags): seq<Tree>
    decreases e
  {
    [Means(e.key, tags), Means(e.value, tags)]
  }

  // ----- what may be written where

  /** A node where block collections are allowed or not, indentless sequences too, and leaving it out. */
  predicate Allowed(s: Syntax, block: bool, indentless: bool, optional: bool)
    decreases s, 0
  {
    match s
    case Omitted => optional
    case Ref(_) => true
    case Text(_, _, _) => true
    case Bare(m) => m.anchor.Some? || m.tag.Some?
    case BlockSeq(_, items) => block && forall i :: 0 <= i < |items| ==> Allowed(items[i], true, false, true)
    case IndentlessSeq(_, items) =>
      block && indentless && items != [] && forall i :: 0 <= i < |items| ==> Allowed(items[i], true, false, true)
    case BlockMap(_, entries) =>
      block && forall i :: 0 <= i < |entries| ==> entries[i].keyed && AllowedEntry(entries[i], true)
    case FlowSeq(_, items, comma) =>
      && (comma ==> items != [])
      && forall i :: 0 <= i < |items| ==> AllowedItem(items[i], !comma && i == |items| - 1)
    case FlowMap(_, entries, comma) =>
      (comma ==> entries != []) && forall i :: 0 <= i < |entries| ==> AllowedEntry(entries[i], false)
    case Single(_, _, _, _) => false
  }

  predicate AllowedEntry(e: Entry, block: bool)
    decreases e, 0
  {
    && Allowed(e.key, block, block, e.keyed) && Allowed(e.value, block, block, true)
    && (!e.valued ==> e.value.Omitted?) && (!e.keyed ==> !e.valued)
  }

  /** An item of a flow sequence; behind a KEY alone only the end of the sequence may follow. */
  predicate AllowedItem(s: Syntax, last: bool)
    decreases s, 1
  {
    match s
    case Single(key, lost, valued, value) =>
      && Allowed(key, false, false, true) && Allowed(value, false, false, true) && (!valued ==> value.Omitted?)
      && (if key.Omitted? then lost == [Value] || lost == [FlowEntry] || (lost == [] && last && !valued) else lost == [])
    case _ => Allowed(s, false, false, false)
  }

  /** Every tag has a handle that is known. */
  predicate Known(s: Syntax, tags: Tags)
    decreases s
  {
    match s
    case Omitted => true
    case Ref(_) => true
    case Text(m, _, _) => KnownTag(m, tags)
    case Bare(m) => KnownTag(m, tags)
    case BlockSeq(m, items) => KnownTag(m, tags) && forall i :: 0 <= i < |items| ==> Known(items[i], tags)
    case IndentlessSeq(m, items) => KnownTag(m, tags) && forall i :: 0 <= i < |items| ==> Known(items[i], tags)
    case BlockMap(m, entries) => KnownTag(m, tags) && forall i :: 0 <= i < |entries| ==> KnownEntry(entries[i], tags)
    case FlowSeq(m, items, _) => KnownTag(m, tags) && forall i :: 0 <= i < |items| ==> Known(items[i], tags)
    case FlowMap(m, entries, _) => KnownTag(m, tags) && forall i :: 0 <= i < |entries| ==> KnownEntry(entries[i], tags)
    case Single(key, _, _, value) => Known(key, tags) && Known(value, tags)
  }

  predicate KnownEntry(e: Entry, tags: Tags)
    decreases e
  {
    Known(e.key, tags) && Known(e.value, tags)
  }

  predicate KnownTag(m: Marks, tags: Tags) {
    m.tag.Some? ==> TagOf(m, tags).Some?
  }

  // ----- reading what is written

  /** Tokens behind a node: in a block mapping, where a sequence may have no indentation of its own, fewer of them. */
  predicate Follows(t: Token, indentless: bool) {
    t.Key? || t.Value? || t.BlockEnd? ||
    (!indentless && (t.BlockEntry? || t.FlowEntry? || t.FlowSequenceEnd? || t.FlowMappingEnd? || NoRoot(t)))
  }

  predicate Begins(t: Token, indentless: bool) {
    T.Starts(t) || (indentless && t.BlockEntry?)
  }

  predicate Ready(s: Syntax, ts: Tokens, pos: nat, tags: Tags, indentless: bool) {
    var end := pos + |Yield(s)|;
    Known(s, tags) && T.Holds(ts, pos, Yield(s)) && end < |ts| && Follows(ts[end], indentless)
  }

  predicate ReadAt(s: Syntax, ts: Tokens, pos: nat, tags: Tags, block: bool, indentless: bool) {
    NodeAt(ts, pos, tags, block, indentless) == Some((Means(s, tags), pos + |Yield(s)|))
  }

  ghost predicate Reads(s: Syntax) {
    forall ts, pos: nat, tags, block, indentless |
      (indentless ==> block) && Allowed(s, block, indentless, false) && Ready(s, ts, pos, tags, indentless) ::
      ReadAt(s, ts, pos, tags, block, indentless)
  }

  /** An item may be a pair, whose nodes are read. */
  ghost predicate ItemReads(s: Syntax) {
    if s.Single? then Reads(s.key) && Reads(s.value) else Reads(s)
  }

  ghost predicate EntryReads(e: Entry) {
    Reads(e.key) && Reads(e.value)
  }

  lemma NodeRead(s: Syntax, ts: Tokens, pos: nat, tags: Tags, block: bool, indentless: bool)
    requires Reads(s) && (indentless ==> block) && Allowed(s, block, indentless, false) && Ready(s, ts, pos, tags, indentless)
    ensures NodeAt(ts, pos, tags, block, indentless) == Some((Means(s, tags), pos + |Yield(s)|))
  {
    hide NodeAt, Allowed, Ready, Yield, Means;
    assert ReadAt(s, ts, pos, tags, block, indentless);
  }

  lemma MarksBegin(m: Marks)
    ensures MarkTokens(m) != [] ==> MarkTokens(m)[0].AnchorToken? || MarkTokens(m)[0].TagToken?
    ensures MarkTokens(m) == [] <==> m.anchor.None? && m.tag.None?
  {
  }

  lemma FirstToken(s: Syntax, block: bool, indentless: bool)
    requires Allowed(s, block, indentless, false)
    ensures Yield(s) != [] && Begins(Yield(s)[0], indentless)
  {
    hide MarkTokens, BlockItemTokens, EntryTokens, FlowItemTokens, FlowEntryTokens;
    match s
    case Ref(_) =>
    case Text(m, _, _) => MarksBegin(m);
    case Bare(m) => MarksBegin(m);
    case BlockSeq(m, _) => MarksBegin(m);
    case BlockMap(m, _) => MarksBegin(m);
    case FlowSeq(m, _, _) => MarksBegin(m);
    case FlowMap(m, _, _) => MarksBegin(m);
    case IndentlessSeq(m, items) =>
      MarksBegin(m);
      SomeItems(items);
  }

  lemma SomeItems(items: seq<Syntax>)
    requires items != []
    ensures BlockItemTokens(items) != [] && BlockItemTokens(items)[0] == BlockEntry
  {
  }

  /** A node that may be left out; whether it is shows in the next token. */
  lemma OptionalRead(s: Syntax, ts: Tokens, pos: nat, tags: Tags, block: bool, indentless: bool)
    requires Reads(s) && (indentless ==> block) && Allowed(s, block, indentless, true) && Ready(s, ts, pos, tags, indentless)
    ensures pos < |ts| && (if s.Omitted? then Follows(ts[pos], indentless) else Begins(ts[pos], indentless))
    ensures s.Omitted? ==> Yield(s) == []
    ensures EntryAt(ts, pos, tags, block, indentless, s.Omitted?) == Some((Means(s, tags), pos + |Yield(s)|))
  {
    hide NodeAt, Means, Reads, Follows, Begins, Known;
    if s.Omitted? {
      OmittedIs(tags);
    } else {
      NotOmitted(s, block, indentless);
      NodeRead(s, ts, pos, tags, block, indentless);
      FirstToken(s, block, indentless);
      T.HoldsFirst(ts, pos, Yield(s));
    }
  }

  lemma OmittedIs(tags: Tags)
    ensures Means(Omitted, tags) == Leaf(EMPTY)
  {
  }

  lemma NotOmitted(s: Syntax, block: bool, indentless: bool)
    requires Allowed(s, block, indentless, true) && !s.Omitted?
    ensures Allowed(s, block, indentless, false)
  {
  }

  // ----- block collections

  ghost predicate ItemsReady(items: seq<Syntax>, tags: Tags) {
    forall i :: 0 <= i < |items| ==> Reads(items[i]) && Allowed(items[i], true, false, true) && Known(items[i], tags)
  }

  lemma ItemsSplit(items: seq<Syntax>, tags: Tags)
    requires items != []
    ensures BlockItemTokens(items) == [BlockEntry] + (Yield(items[0]) + BlockItemTokens(items[1..]))
    ensures ItemTrees(items, tags) == [Means(items[0], tags)] + ItemTrees(items[1..], tags)
    ensures |BlockItemTokens(items)| == 1 + |Yield(items[0])| + |BlockItemTokens(items[1..])|
  {
  }

  lemma NoItems(tags: Tags)
    ensures BlockItemTokens([]) == [] && ItemTrees([], tags) == [] && EntryTokens([]) == [] && EntryTrees([], tags) == []
    ensures forall comma :: FlowItemTokens([], comma) == [] && FlowEntryTokens([], comma) == []
  {
  }

  lemma {:induction false} BlockItemsRead(items: seq<Syntax>, ts: Tokens, pos: nat, tags: Tags)
    requires ItemsReady(items, tags) && T.Holds(ts, pos, BlockItemTokens(items) + [BlockEnd])
    ensures BlockItems(ts, pos, tags) == Some((ItemTrees(items, tags), pos + |BlockItemTokens(items)| + 1))
    decreases |items|
  {
    hide Yield, Means, Reads, Allowed, Known, T.Holds, EntryAt, BlockItemTokens, ItemTrees, BlockItems, IndentlessItems;
    NoItems(tags);
    if items == [] {
      assert BlockItemTokens(items) + [BlockEnd] == [BlockEnd];
      T.HoldsOne(ts, pos, BlockEnd);
      BlockDone(ts, pos, tags);
    } else {
      var s, rest := items[0], items[1..];
      ItemsSplit(items, tags);
      var tail := BlockItemTokens(rest) + [BlockEnd];
      var next := pos + 1 + |Yield(s)|;
      assert BlockItemTokens(items) + [BlockEnd] == [BlockEntry] + (Yield(s) + tail);
      T.HoldsSplit(ts, pos, [BlockEntry], Yield(s) + tail);
      T.HoldsOne(ts, pos, BlockEntry);
      T.HoldsSplit(ts, pos + 1, Yield(s), tail);
      BlockNext(rest, ts, next);
      OptionalRead(s, ts, pos + 1, tags, true, false);
      BlockItemsRead(rest, ts, next, tags);
      BlockItemStep(ts, pos, tags, Means(s, tags), next, s.Omitted?);
    }
  }

  lemma BlockItemStep(ts: Tokens, pos: nat, tags: Tags, t: Tree, next: nat, omitted: bool)
    requires pos + 1 < |ts| && ts[pos].BlockEntry? && (if omitted then NoBlockItem(ts[pos + 1]) else Begins(ts[pos + 1], false))
    requires EntryAt(ts, pos + 1, tags, true, false, omitted) == Some((t, next))
    ensures BlockItems(ts, pos, tags) == Cons(t, BlockItems(ts, next, tags))
  {
    hide EntryAt;
  }

  lemma IndentlessStep(ts: Tokens, pos: nat, tags: Tags, t: Tree, next: nat, omitted: bool)
    requires pos + 1 < |ts| && ts[pos].BlockEntry? && (if omitted then NoIndentlessItem(ts[pos + 1]) else Begins(ts[pos + 1], false))
    requires EntryAt(ts, pos + 1, tags, true, false, omitted) == Some((t, next))
    ensures IndentlessItems(ts, pos, tags) == Cons(t, IndentlessItems(ts, next, tags))
  {
    hide EntryAt;
  }

  lemma IndentlessDone(ts: Tokens, pos: nat, tags: Tags)
    requires pos < |ts| && Follows(ts[pos], true)
    ensures IndentlessItems(ts, pos, tags) == Some(([], pos))
  {
  }

  lemma BlockDone(ts: Tokens, pos: nat, tags: Tags)
    requires pos < |ts| && ts[pos].BlockEnd?
    ensures BlockItems(ts, pos, tags) == Some(([], pos + 1)) && BlockPairs(ts, pos, tags) == Some(([], pos + 1))
  {
  }

  lemma BlockNext(items: seq<Syntax>, ts: Tokens, pos: nat)
    requires T.Holds(ts, pos, BlockItemTokens(items) + [BlockEnd])
    ensures pos < |ts| && (ts[pos].BlockEntry? || ts[pos].BlockEnd?)
  {
    hide Yield;
    T.HoldsFirst(ts, pos, BlockItemTokens(items) + [BlockEnd]);
  }

  lemma {:induction false} IndentlessRead(items: seq<Syntax>, ts: Tokens, pos: nat, tags: Tags)
    requires ItemsReady(items, tags) && T.Holds(ts, pos, BlockItemTokens(items))
    requires var end := pos + |BlockItemTokens(items)|; end < |ts| && Follows(ts[end], true)
    ensures IndentlessItems(ts, pos, tags) == Some((ItemTrees(items, tags), pos + |BlockItemTokens(items)|))
    decreases |items|
  {
    hide Yield, Means, Reads, Allowed, Known, T.Holds, EntryAt, BlockItemTokens, ItemTrees, BlockItems, IndentlessItems;
    NoItems(tags);
    if items != [] {
      var s, rest := items[0], items[1..];
      ItemsSplit(items, tags);
      var next := pos + 1 + |Yield(s)|;
      T.HoldsSplit(ts, pos, [BlockEntry], Yield(s) + BlockItemTokens(rest));
      T.HoldsOne(ts, pos, BlockEntry);
      T.HoldsSplit(ts, pos + 1, Yield(s), BlockItemTokens(rest));
      if rest != [] {
        SomeItems(rest);
        T.HoldsFirst(ts, next, BlockItemTokens(rest));
      }
      OptionalRead(s, ts, pos + 1, tags, true, false);
      IndentlessRead(rest, ts, next, tags);
      IndentlessStep(ts, pos, tags, Means(s, tags), next, s.Omitted?);
    } else {
      IndentlessDone(ts, pos, tags);
    }
  }

  ghost predicate EntriesReady(entries: seq<Entry>, block: bool, tags: Tags) {
    forall i :: 0 <= i < |entries| ==> EntryReads(entries[i]) && AllowedEntry(entries[i], block) && KnownEntry(entries[i], tags)
  }

  lemma EntriesSplit(entries: seq<Entry>, tags: Tags)
    requires entries != []
    ensures EntryTokens(entries) == YieldEntry(entries[0]) + EntryTokens(entries[1..])
    ensures EntryTrees(entries, tags)
         == [Means(entries[0].key, tags)] + ([Means(entries[0].value, tags)] + EntryTrees(entries[1..], tags))
    ensures |EntryTokens(entries)| == |YieldEntry(entries[0])| + |EntryTokens(entries[1..])|
  {
  }

  /** A key, and its value behind it, at a position. */
  predicate EntryHolds(ts: Tokens, pos: nat, e: Entry) {
    var at := pos + if e.keyed then 1 else 0;
    var behind := at + |Yield(e.key)|;
    && (e.keyed ==> pos < |ts| && ts[pos].Key?) && T.Holds(ts, at, Yield(e.key))
    && (e.valued ==> behind < |ts| && ts[behind].Value? && T.Holds(ts, behind + 1, Yield(e.value)))
    && |YieldEntry(e)| == (if e.keyed then 1 else 0) + |Yield(e.key)| + (if e.valued then 1 + |Yield(e.value)| else 0)
  }

  lemma EntrySplit(ts: Tokens, pos: nat, e: Entry)
    requires T.Holds(ts, pos, YieldEntry(e))
    ensures EntryHolds(ts, pos, e)
  {
    hide Yield, T.Holds;
    var front := if e.keyed then [Key] else [];
    T.HoldsSplit(ts, pos, front, Yield(e.key) + ValueTokens(e));
    T.HoldsSplit(ts, pos + |front|, Yield(e.key), ValueTokens(e));
    if e.keyed {
      T.HoldsOne(ts, pos, Key);
    }
    if e.valued {
      T.HoldsSplit(ts, pos + |front| + |Yield(e.key)|, [Value], Yield(e.value));
      T.HoldsOne(ts, pos + |front| + |Yield(e.key)|, Value);
    }
  }

  lemma {:induction false} BlockPairsRead(entries: seq<Entry>, ts: Tokens, pos: nat, tags: Tags)
    requires EntriesReady(entries, true, tags) && forall i :: 0 <= i < |entries| ==> entries[i].keyed
    requires T.Holds(ts, pos, EntryTokens(entries) + [BlockEnd])
    ensures BlockPairs(ts, pos, tags) == Some((EntryTrees(entries, tags), pos + |EntryTokens(entries)| + 1))
    decreases |entries|
  {
    hide EntryReads, AllowedEntry, KnownEntry, T.Holds, EntryTokens, EntryTrees, BlockPairs, YieldEntry, EntryHolds, Means;
    NoItems(tags);
    if entries == [] {
      assert EntryTokens(entries) + [BlockEnd] == [BlockEnd];
      T.HoldsOne(ts, pos, BlockEnd);
      BlockDone(ts, pos, tags);
    } else {
      var e, rest := entries[0], entries[1..];
      EntriesSplit(entries, tags);
      var tail := EntryTokens(rest) + [BlockEnd];
      assert EntryTokens(entries) + [BlockEnd] == YieldEntry(e) + tail;
      T.HoldsSplit(ts, pos, YieldEntry(e), tail);
      EntrySplit(ts, pos, e);
      BlockPairNext(rest, ts, pos + |YieldEntry(e)|);
      BlockPairsRead(rest, ts, pos + |YieldEntry(e)|, tags);
      BlockEntryRead(e, ts, pos, tags);
    }
  }

  lemma BlockPairNext(entries: seq<Entry>, ts: Tokens, pos: nat)
    requires T.Holds(ts, pos, EntryTokens(entries) + [BlockEnd]) && forall i :: 0 <= i < |entries| ==> entries[i].keyed
    ensures pos < |ts| && (ts[pos].Key? || ts[pos].BlockEnd?)
  {
    hide Yield;
    T.HoldsFirst(ts, pos, EntryTokens(entries) + [BlockEnd]);
  }

  lemma BlockEntryRead(e: Entry, ts: Tokens, pos: nat, tags: Tags)
    requires EntryReads(e) && AllowedEntry(e, true) && KnownEntry(e, tags) && e.keyed && EntryHolds(ts, pos, e)
    requires var end := pos + |YieldEntry(e)|; end < |ts| && (ts[end].Key? || ts[end].BlockEnd?)
    ensures BlockPairs(ts, pos, tags) == Cons(Means(e.key, tags), Cons(Means(e.value, tags), BlockPairs(ts, pos + |YieldEntry(e)|, tags)))
  {
    hide Yield, Means, Reads, Allowed, Known, T.Holds, EntryAt, YieldEntry, BlockPairs;
    var behind, end := pos + 1 + |Yield(e.key)|, pos + |YieldEntry(e)|;
    OptionalRead(e.key, ts, pos + 1, tags, true, true);
    BlockKeyStep(ts, pos, tags, Means(e.key, tags), behind, e.key.Omitted?);
    if e.valued {
      OptionalRead(e.value, ts, behind + 1, tags, true, true);
      BlockValueStep(ts, behind, tags, Means(e.value, tags), end, e.value.Omitted?);
    } else {
      OmittedIs(tags);
      BlockNoValue(ts, behind, tags);
    }
  }

  lemma BlockKeyStep(ts: Tokens, pos: nat, tags: Tags, t: Tree, next: nat, omitted: bool)
    requires pos + 1 < |ts| && ts[pos].Key? && (if omitted then Follows(ts[pos + 1], true) else Begins(ts[pos + 1], true))
    requires EntryAt(ts, pos + 1, tags, true, true, omitted) == Some((t, next))
    ensures BlockPairs(ts, pos, tags) == Cons(t, BlockValue(ts, next, tags))
  {
    hide EntryAt, BlockValue;
  }

  lemma BlockValueStep(ts: Tokens, pos: nat, tags: Tags, t: Tree, next: nat, omitted: bool)
    requires pos + 1 < |ts| && ts[pos].Value? && (if omitted then Follows(ts[pos + 1], true) else Begins(ts[pos + 1], true))
    requires EntryAt(ts, pos + 1, tags, true, true, omitted) == Some((t, next))
    ensures BlockValue(ts, pos, tags) == Cons(t, BlockPairs(ts, next, tags))
  {
    hide EntryAt, BlockPairs;
  }

  lemma BlockNoValue(ts: Tokens, pos: nat, tags: Tags)
    requires pos < |ts| && !ts[pos].Value?
    ensures BlockValue(ts, pos, tags) == Cons(Leaf(EMPTY), BlockPairs(ts, pos, tags))
  {
    hide BlockPairs;
  }

  // ----- flow collections

  ghost predicate FlowItemsReady(items: seq<Syntax>, comma: bool, tags: Tags) {
    forall i :: 0 <= i < |items| ==>
      ItemReads(items[i]) && AllowedItem(items[i], !comma && i == |items| - 1) && Known(items[i], tags)
  }

  lemma FlowItemsSplit(items: seq<Syntax>, comma: bool, tags: Tags)
    requires items != []
    ensures var sep := if comma || |items| > 1 then [FlowEntry] else [];
            && FlowItemTokens(items, comma) == Yield(items[0]) + (sep + FlowItemTokens(items[1..], comma))
            && |FlowItemTokens(items, comma)| == |Yield(items[0])| + |sep| + |FlowItemTokens(items[1..], comma)|
    ensures ItemTrees(items, tags) == [Means(items[0], tags)] + ItemTrees(items[1..], tags)
  {
  }

  lemma {:induction false} FlowItemsRead(items: seq<Syntax>, comma: bool, ts: Tokens, pos: nat, tags: Tags)
    requires FlowItemsReady(items, comma, tags) && T.Holds(ts, pos, FlowItemTokens(items, comma) + [FlowSequenceEnd])
    ensures FlowItems(ts, pos, tags) == Some((ItemTrees(items, tags), pos + |FlowItemTokens(items, comma)| + 1))
    decreases |items|
  {
    hide Yield, Means, ItemReads, AllowedItem, Known, T.Holds, FlowItemTokens, ItemTrees, FlowItems, MoreItems;
    NoItems(tags);
    if items == [] {
      assert FlowItemTokens(items, comma) + [FlowSequenceEnd] == [FlowSequenceEnd];
      T.HoldsOne(ts, pos, FlowSequenceEnd);
      FlowDone(ts, pos, tags);
    } else {
      var s, rest := items[0], items[1..];
      var sep := if comma || |items| > 1 then [FlowEntry] else [];
      FlowItemsSplit(items, comma, tags);
      var tail := FlowItemTokens(rest, comma) + [FlowSequenceEnd];
      var end := pos + |Yield(s)|;
      assert FlowItemTokens(items, comma) + [FlowSequenceEnd] == Yield(s) + (sep + tail);
      T.HoldsSplit(ts, pos, Yield(s), sep + tail);
      T.HoldsSplit(ts, end, sep, tail);
      FlowItemsRead(rest, comma, ts, end + |sep|, tags);
      if sep == [] {
        assert tail == [FlowSequenceEnd];
        T.HoldsOne(ts, end, FlowSequenceEnd);
      } else {
        T.HoldsOne(ts, end, FlowEntry);
      }
      FlowItemRead(s, !comma && |items| == 1, ts, pos, tags);
      MoreItemsAre(ts, end, tags);
    }
  }

  lemma FlowDone(ts: Tokens, pos: nat, tags: Tags)
    requires pos < |ts|
    ensures ts[pos].FlowSequenceEnd? ==> FlowItems(ts, pos, tags) == Some(([], pos + 1))
    ensures ts[pos].FlowMappingEnd? ==> FlowPairs(ts, pos, tags) == Some(([], pos + 1))
  {
  }

  lemma MoreItemsAre(ts: Tokens, pos: nat, tags: Tags)
    requires pos < |ts|
    ensures ts[pos].FlowSequenceEnd? ==> MoreItems(ts, pos, tags) == FlowItems(ts, pos, tags)
    ensures ts[pos].FlowEntry? ==> MoreItems(ts, pos, tags) == FlowItems(ts, pos + 1, tags)
    ensures ts[pos].FlowMappingEnd? ==> MorePairs(ts, pos, tags) == FlowPairs(ts, pos, tags)
    ensures ts[pos].FlowEntry? ==> MorePairs(ts, pos, tags) == FlowPairs(ts, pos + 1, tags)
  {
  }

  lemma FlowItemRead(s: Syntax, last: bool, ts: Tokens, pos: nat, tags: Tags)
    requires ItemReads(s) && AllowedItem(s, last) && Known(s, tags) && T.Holds(ts, pos, Yield(s))
    requires var end := pos + |Yield(s)|;
             end < |ts| && (ts[end].FlowSequenceEnd? || ts[end].FlowEntry?) && (last ==> ts[end].FlowSequenceEnd?)
    ensures FlowItems(ts, pos, tags) == Cons(Means(s, tags), MoreItems(ts, pos + |Yield(s)|, tags))
  {
    hide Yield, Means, Reads, Allowed, T.Holds, NodeAt, FlowItems, MoreItems, AllowedItem, Known;
    if s.Single? {
      SingleParts(s, last, ts, pos, tags);
      SingleRead(s, last, ts, pos, tags);
      SingleMeans(s, tags);
      PairStep(ts, pos, tags, [Means(s.key, tags), Means(s.value, tags)], pos + |Yield(s)|);
    } else {
      NodeItem(s, last);
      FirstToken(s, false, false);
      T.HoldsFirst(ts, pos, Yield(s));
      NodeRead(s, ts, pos, tags, false, false);
      ItemStep(ts, pos, tags, Means(s, tags), pos + |Yield(s)|);
    }
  }

  lemma NodeItem(s: Syntax, last: bool)
    requires AllowedItem(s, last) && !s.Single?
    ensures Allowed(s, false, false, false)
  {
  }

  lemma ItemStep(ts: Tokens, pos: nat, tags: Tags, t: Tree, next: nat)
    requires pos < |ts| && T.Starts(ts[pos]) && NodeAt(ts, pos, tags, false, false) == Some((t, next))
    ensures FlowItems(ts, pos, tags) == Cons(t, MoreItems(ts, next, tags))
  {
    hide NodeAt, MoreItems;
  }

  lemma PairStep(ts: Tokens, pos: nat, tags: Tags, kids: seq<Tree>, next: nat)
    requires pos < |ts| && ts[pos].Key? && PairKey(ts, pos + 1, tags) == Some((kids, next))
    ensures FlowItems(ts, pos, tags) == Cons(Collection(PAIR, kids), MoreItems(ts, next, tags))
  {
    hide PairKey, MoreItems;
  }

  lemma SingleMeans(s: Syntax, tags: Tags)
    requires s.Single?
    ensures Means(s, tags) == Collection(PAIR, [Means(s.key, tags), Means(s.value, tags)])
  {
  }

  /** The parts of a single pair, one behind the other. */
  predicate SingleHolds(s: Syntax, ts: Tokens, pos: nat)
    requires s.Single?
  {
    var lost := pos + 1 + |Yield(s.key)|;
    var at := lost + |s.lost|;
    && pos < |ts| && ts[pos].Key? && T.Holds(ts, pos + 1, Yield(s.key)) && T.Holds(ts, lost, s.lost)
    && (s.valued ==> at < |ts| && ts[at].Value? && T.Holds(ts, at + 1, Yield(s.value)))
    && |Yield(s)| == 1 + |Yield(s.key)| + |s.lost| + (if s.valued then 1 + |Yield(s.value)| else 0)
  }

  lemma SingleParts(s: Syntax, last: bool, ts: Tokens, pos: nat, tags: Tags)
    requires s.Single? && T.Holds(ts, pos, Yield(s)) && AllowedItem(s, last) && Known(s, tags)
    ensures SingleHolds(s, ts, pos) && Known(s.key, tags) && Known(s.value, tags)
    ensures Allowed(s.key, false, false, true) && Allowed(s.value, false, false, true) && (!s.valued ==> s.value.Omitted?)
    ensures if s.key.Omitted? then s.lost == [Value] || s.lost == [FlowEntry] || (s.lost == [] && last && !s.valued) else s.lost == []
  {
    hide T.Holds, Allowed, Yield, AllowedItem, Known;
    SingleAllowed(s, last, tags);
    SingleYield(s);
    SingleSplit(ts, pos, Yield(s.key), s.lost, s.valued, Yield(s.value));
  }

  lemma SingleSplit(ts: Tokens, pos: nat, k: Tokens, lost: Tokens, valued: bool, v: Tokens)
    requires T.Holds(ts, pos, [Key] + (k + (lost + if valued then [Value] + v else [])))
    ensures var at := pos + 1 + |k| + |lost|;
            && pos < |ts| && ts[pos].Key? && T.Holds(ts, pos + 1, k) && T.Holds(ts, pos + 1 + |k|, lost)
            && (valued ==> at < |ts| && ts[at].Value? && T.Holds(ts, at + 1, v))
  {
    hide T.Holds;
    var w := if valued then [Value] + v else [];
    var at := pos + 1 + |k| + |lost|;
    T.HoldsSplit(ts, pos, [Key], k + (lost + w));
    T.HoldsOne(ts, pos, Key);
    T.HoldsSplit(ts, pos + 1, k, lost + w);
    T.HoldsSplit(ts, pos + 1 + |k|, lost, w);
    if valued {
      T.HoldsSplit(ts, at, [Value], v);
      T.HoldsOne(ts, at, Value);
    }
  }

  lemma SingleYield(s: Syntax)
    requires s.Single?
    ensures Yield(s) == [Key] + (Yield(s.key) + (s.lost + if s.valued then [Value] + Yield(s.value) else []))
    ensures |Yield(s)| == 1 + |Yield(s.key)| + |s.lost| + (if s.valued then 1 + |Yield(s.value)| else 0)
  {
  }

  lemma SingleAllowed(s: Syntax, last: bool, tags: Tags)
    requires s.Single? && AllowedItem(s, last) && Known(s, tags)
    ensures Known(s.key, tags) && Known(s.value, tags)
    ensures Allowed(s.key, false, false, true) && Allowed(s.value, false, false, true) && (!s.valued ==> s.value.Omitted?)
    ensures if s.key.Omitted? then s.lost == [Value] || s.lost == [FlowEntry] || (s.lost == [] && last && !s.valued) else s.lost == []
  {
    hide Allowed;
  }

  lemma SingleRead(s: Syntax, last: bool, ts: Tokens, pos: nat, tags: Tags)
    requires s.Single? && SingleHolds(s, ts, pos) && Known(s.key, tags) && Known(s.value, tags) && Reads(s.key) && Reads(s.value)
    requires Allowed(s.key, false, false, true) && Allowed(s.value, false, false, true) && (!s.valued ==> s.value.Omitted?)
    requires if s.key.Omitted? then s.lost == [Value] || s.lost == [FlowEntry] || (s.lost == [] && last && !s.valued) else s.lost == []
    requires var end := pos + |Yield(s)|;
             end < |ts| && (ts[end].FlowSequenceEnd? || ts[end].FlowEntry?) && (last ==> ts[end].FlowSequenceEnd?)
    ensures PairKey(ts, pos + 1, tags) == Some(([Means(s.key, tags), Means(s.value, tags)], pos + |Yield(s)|))
  {
    hide Yield, Means, Reads, Allowed, Known, T.Holds, PairKey, PairValue, EntryAt;
    var at, end := pos + 1 + |Yield(s.key)| + |s.lost|, pos + |Yield(s)|;
    if s.valued {
      OptionalRead(s.value, ts, at + 1, tags, false, false);
      PairValueStep(ts, at, tags, Means(s.value, tags), end, s.value.Omitted?);
    } else {
      OmittedIs(tags);
      PairNoValue(ts, at, tags);
    }
    if s.key.Omitted? {
      OmittedIs(tags);
      NothingYielded();
      if s.lost != [] {
        T.HoldsFirst(ts, pos + 1, s.lost);
      }
      PairEmptyKey(ts, pos + 1, tags, Means(s.value, tags), end);
    } else {
      NotOmitted(s.key, false, false);
      FirstToken(s.key, false, false);
      T.HoldsFirst(ts, pos + 1, Yield(s.key));
      NodeRead(s.key, ts, pos + 1, tags, false, false);
      PairKeyStep(ts, pos + 1, tags, Means(s.key, tags), at, Means(s.value, tags), end);
    }
  }

  lemma NothingYielded()
    ensures Yield(Omitted) == []
  {
  }

  lemma PairValueStep(ts: Tokens, pos: nat, tags: Tags, t: Tree, next: nat, omitted: bool)
    requires pos + 1 < |ts| && ts[pos].Value? && (if omitted then next == pos + 1 && NoPairValue(ts[next]) else Begins(ts[pos + 1], false))
    requires EntryAt(ts, pos + 1, tags, false, false, omitted) == Some((t, next))
    ensures PairValue(ts, pos, tags) == Some(([t], next))
  {
    hide EntryAt;
  }

  lemma PairNoValue(ts: Tokens, pos: nat, tags: Tags)
    requires pos < |ts| && !ts[pos].Value?
    ensures PairValue(ts, pos, tags) == Some(([Leaf(EMPTY)], pos))
  {
  }

  lemma PairEmptyKey(ts: Tokens, pos: nat, tags: Tags, v: Tree, next: nat)
    requires pos < |ts| && NoPairKey(ts[pos])
    requires PairValue(ts, if ts[pos].FlowSequenceEnd? then pos else pos + 1, tags) == Some(([v], next))
    ensures PairKey(ts, pos, tags) == Some(([Leaf(EMPTY), v], next))
  {
    hide PairValue;
    assert [Leaf(EMPTY)] + [v] == [Leaf(EMPTY), v];
  }

  lemma PairKeyStep(ts: Tokens, pos: nat, tags: Tags, k: Tree, at: nat, v: Tree, next: nat)
    requires pos < |ts| && T.Starts(ts[pos]) && NodeAt(ts, pos, tags, false, false) == Some((k, at))
    requires PairValue(ts, at, tags) == Some(([v], next))
    ensures PairKey(ts, pos, tags) == Some(([k, v], next))
  {
    hide PairValue, NodeAt;
    assert [k] + [v] == [k, v];
  }

  lemma FlowEntriesSplit(entries: seq<Entry>, comma: bool, tags: Tags)
    requires entries != []
    ensures var sep := if comma || |entries| > 1 then [FlowEntry] else [];
            && FlowEntryTokens(entries, comma) == YieldEntry(entries[0]) + (sep + FlowEntryTokens(entries[1..], comma))
            && |FlowEntryTokens(entries, comma)| == |YieldEntry(entries[0])| + |sep| + |FlowEntryTokens(entries[1..], comma)|
  {
  }

  lemma {:induction false} FlowPairsRead(entries: seq<Entry>, comma: bool, ts: Tokens, pos: nat, tags: Tags)
    requires EntriesReady(entries, false, tags) && T.Holds(ts, pos, FlowEntryTokens(entries, comma) + [FlowMappingEnd])
    ensures FlowPairs(ts, pos, tags) == Some((EntryTrees(entries, tags), pos + |FlowEntryTokens(entries, comma)| + 1))
    decreases |entries|
  {
    hide EntryReads, AllowedEntry, KnownEntry, T.Holds, FlowEntryTokens, EntryTrees, YieldEntry, EntryHolds, Means, FlowPairs, MorePairs;
    NoItems(tags);
    if entries == [] {
      assert FlowEntryTokens(entries, comma) + [FlowMappingEnd] == [FlowMappingEnd];
      T.HoldsOne(ts, pos, FlowMappingEnd);
      FlowDone(ts, pos, tags);
    } else {
      var e, rest := entries[0], entries[1..];
      var sep := if comma || |entries| > 1 then [FlowEntry] else [];
      FlowEntriesSplit(entries, comma, tags);
      EntriesSplit(entries, tags);
      var tail := FlowEntryTokens(rest, comma) + [FlowMappingEnd];
      var end := pos + |YieldEntry(e)|;
      assert FlowEntryTokens(entries, comma) + [FlowMappingEnd] == YieldEntry(e) + (sep + tail);
      T.HoldsSplit(ts, pos, YieldEntry(e), sep + tail);
      T.HoldsSplit(ts, end, sep, tail);
      FlowPairsRead(rest, comma, ts, end + |sep|, tags);
      if sep == [] {
        assert tail == [FlowMappingEnd];
        T.HoldsOne(ts, end, FlowMappingEnd);
      } else {
        T.HoldsOne(ts, end, FlowEntry);
      }
      EntrySplit(ts, pos, e);
      FlowEntryRead(e, ts, pos, tags);
      MoreItemsAre(ts, end, tags);
    }
  }

  lemma FlowEntryRead(e: Entry, ts: Tokens, pos: nat, tags: Tags)
    requires EntryReads(e) && AllowedEntry(e, false) && KnownEntry(e, tags) && EntryHolds(ts, pos, e)
    requires var end := pos + |YieldEntry(e)|; end < |ts| && (ts[end].FlowMappingEnd? || ts[end].FlowEntry?)
    ensures FlowPairs(ts, pos, tags) == Cons(Means(e.key, tags), Cons(Means(e.value, tags), MorePairs(ts, pos + |YieldEntry(e)|, tags)))
  {
    hide Yield, Means, Reads, Allowed, Known, T.Holds, EntryAt, NodeAt, YieldEntry, FlowPairs, MorePairs;
    var end := pos + |YieldEntry(e)|;
    if e.keyed {
      var behind := pos + 1 + |Yield(e.key)|;
      OptionalRead(e.key, ts, pos + 1, tags, false, false);
      FlowKeyStep(ts, pos, tags, Means(e.key, tags), behind, e.key.Omitted?);
      if e.valued {
        OptionalRead(e.value, ts, behind + 1, tags, false, false);
        FlowValueStep(ts, behind, tags, Means(e.value, tags), end, e.value.Omitted?);
      } else {
        OmittedIs(tags);
        FlowNoValue(ts, behind, tags);
      }
    } else {
      FirstToken(e.key, false, false);
      T.HoldsFirst(ts, pos, Yield(e.key));
      NodeRead(e.key, ts, pos, tags, false, false);
      OmittedIs(tags);
      FlowBareKey(ts, pos, tags, Means(e.key, tags), end);
    }
  }

  lemma FlowKeyStep(ts: Tokens, pos: nat, tags: Tags, t: Tree, next: nat, omitted: bool)
    requires pos + 1 < |ts| && ts[pos].Key? && (if omitted then NoFlowKey(ts[pos + 1]) else Begins(ts[pos + 1], false))
    requires EntryAt(ts, pos + 1, tags, false, false, omitted) == Some((t, next))
    ensures FlowPairs(ts, pos, tags) == Cons(t, FlowValue(ts, next, tags))
  {
    hide EntryAt, FlowValue;
  }

  lemma FlowValueStep(ts: Tokens, pos: nat, tags: Tags, t: Tree, next: nat, omitted: bool)
    requires pos + 1 < |ts| && ts[pos].Value? && (if omitted then NoFlowValue(ts[pos + 1]) else Begins(ts[pos + 1], false))
    requires EntryAt(ts, pos + 1, tags, false, false, omitted) == Some((t, next))
    ensures FlowValue(ts, pos, tags) == Cons(t, MorePairs(ts, next, tags))
  {
    hide EntryAt, MorePairs;
  }

  lemma FlowNoValue(ts: Tokens, pos: nat, tags: Tags)
    requires pos < |ts| && !ts[pos].Value?
    ensures FlowValue(ts, pos, tags) == Cons(Leaf(EMPTY), MorePairs(ts, pos, tags))
  {
    hide MorePairs;
  }

  lemma FlowBareKey(ts: Tokens, pos: nat, tags: Tags, t: Tree, next: nat)
    requires pos < |ts| && T.Starts(ts[pos]) && NodeAt(ts, pos, tags, false, false) == Some((t, next))
    ensures FlowPairs(ts, pos, tags) == Cons(t, Cons(Leaf(EMPTY), MorePairs(ts, next, tags)))
  {
    hide NodeAt, MorePairs;
  }

  // ----- nodes

  lemma MarksSplit(m: Marks, ts: Tokens, pos: nat)
    requires T.Holds(ts, pos, MarkTokens(m))
    ensures MarkTokens(m) != [] ==> pos < |ts| && ts[pos] == MarkTokens(m)[0]
    ensures |MarkTokens(m)| == 2 ==> pos + 1 < |ts| && ts[pos + 1] == MarkTokens(m)[1]
  {
    var w := MarkTokens(m);
    if w != [] {
      T.HoldsFirst(ts, pos, w);
      if |w| == 2 {
        assert ts[pos + 1] == ts[pos..pos + 2][1];
      }
    }
  }

  /** Anchor and tag in front of a node, in either order. */
  lemma MarksRead(m: Marks, ts: Tokens, pos: nat, tags: Tags)
    requires var at := pos + |MarkTokens(m)|;
             T.Holds(ts, pos, MarkTokens(m)) && KnownTag(m, tags) && at < |ts| && !ts[at].AnchorToken? && !ts[at].TagToken?
    ensures PropertiesAt(ts, pos, tags) == Some(Properties(m.anchor, TagOf(m, tags), pos + |MarkTokens(m)|))
    ensures !ts[pos + |MarkTokens(m)|].AliasToken? ==> !ts[pos].AliasToken?
  {
    hide Resolve;
    MarksSplit(m, ts, pos);
  }

  lemma LeafReads(s: Syntax)
    requires s.Ref? || s.Text? || s.Bare? || s.Omitted? || s.Single?
    ensures Reads(s)
  {
    forall ts, pos: nat, tags, block, indentless |
      (indentless ==> block) && Allowed(s, block, indentless, false) && Ready(s, ts, pos, tags, indentless)
      ensures ReadAt(s, ts, pos, tags, block, indentless)
    {
      LeafRead(s, ts, pos, tags, block, indentless);
    }
  }

  lemma LeafRead(s: Syntax, ts: Tokens, pos: nat, tags: Tags, block: bool, indentless: bool)
    requires s.Ref? || s.Text? || s.Bare? || s.Omitted? || s.Single?
    requires Allowed(s, block, indentless, false) && Ready(s, ts, pos, tags, indentless)
    ensures ReadAt(s, ts, pos, tags, block, indentless)
  {
    hide MarkTokens, PropertiesAt, Resolve, T.Holds, TagOf;
    match s
    case Ref(name) => T.HoldsOne(ts, pos, AliasToken(name));
    case Text(m, text, style) =>
      T.HoldsSplit(ts, pos, MarkTokens(m), [ScalarToken(text, style)]);
      T.HoldsOne(ts, pos + |MarkTokens(m)|, ScalarToken(text, style));
      MarksRead(m, ts, pos, tags);
    case Bare(m) =>
      MarksRead(m, ts, pos, tags);
      BareTag(m, tags);
  }

  lemma BareTag(m: Marks, tags: Tags)
    requires KnownTag(m, tags) && (m.anchor.Some? || m.tag.Some?)
    ensures m.anchor.Some? || TagOf(m, tags).Some?
  {
  }

  /** A node behind its properties and its opening token is what its children are read as. */
  lemma OpenRead(m: Marks, open: Token, start: Event, ts: Tokens, pos: nat, tags: Tags, block: bool, indentless: bool, kids: ParsedAll)
    requires var at := pos + |MarkTokens(m)|;
             at < |ts| && ts[at] == open && PropertiesAt(ts, pos, tags) == Some(Properties(m.anchor, TagOf(m, tags), at)) && !ts[pos].AliasToken?
    requires var at, p := pos + |MarkTokens(m)|, Properties(m.anchor, TagOf(m, tags), 0);
             || (open == BlockSequenceStart(false) && block && start == SequenceOf(p, BLOCK) && kids == BlockItems(ts, at + 1, tags))
             || (open == BlockMappingStart(false) && block && start == MappingOf(p, BLOCK) && kids == BlockPairs(ts, at + 1, tags))
             || (open == FlowSequenceStart(false) && start == SequenceOf(p, FLOW) && kids == FlowItems(ts, at + 1, tags))
             || (open == FlowMappingStart(false) && start == MappingOf(p, FLOW) && kids == FlowPairs(ts, at + 1, tags))
             || (open == BlockEntry && indentless && start == SequenceOf(p, BLOCK) && kids == IndentlessItems(ts, at, tags))
    ensures NodeAt(ts, pos, tags, block, indentless) == Collect(start, kids)
  {
    hide PropertiesAt, MarkTokens, BlockItems, BlockPairs, FlowItems, FlowPairs, IndentlessItems, TagOf;
  }

  /** Marks, an opening token, and the rest. */
  lemma OpenSplit(m: Marks, open: Token, rest: Tokens, ts: Tokens, pos: nat, tags: Tags)
    requires T.Holds(ts, pos, MarkTokens(m) + ([open] + rest)) && KnownTag(m, tags)
    requires !open.AnchorToken? && !open.TagToken? && !open.AliasToken?
    ensures var at := pos + |MarkTokens(m)|;
            && at < |ts| && ts[at] == open && T.Holds(ts, at + 1, rest) && !ts[pos].AliasToken?
            && PropertiesAt(ts, pos, tags) == Some(Properties(m.anchor, TagOf(m, tags), at))
  {
    hide MarkTokens, PropertiesAt, TagOf, T.Holds;
    T.HoldsSplit(ts, pos, MarkTokens(m), [open] + rest);
    T.HoldsSplit(ts, pos + |MarkTokens(m)|, [open], rest);
    T.HoldsOne(ts, pos + |MarkTokens(m)|, open);
    MarksRead(m, ts, pos, tags);
  }

  lemma BlockSeqRead(m: Marks, items: seq<Syntax>, ts: Tokens, pos: nat, tags: Tags, block: bool, indentless: bool)
    requires var s := BlockSeq(m, items); Allowed(s, block, indentless, false) && Ready(s, ts, pos, tags, indentless)
    requires forall i :: 0 <= i < |items| ==> Reads(items[i])
    ensures ReadAt(BlockSeq(m, items), ts, pos, tags, block, indentless)
  {
    hide MarkTokens, PropertiesAt, NodeAt, BlockItems, Reads, T.Holds, BlockItemTokens, ItemTrees;
    var rest := BlockItemTokens(items) + [BlockEnd];
    OpenSplit(m, BlockSequenceStart(false), rest, ts, pos, tags);
    var at := pos + |MarkTokens(m)|;
    BlockItemsRead(items, ts, at + 1, tags);
    OpenRead(m, BlockSequenceStart(false), SequenceOf(Properties(m.anchor, TagOf(m, tags), 0), BLOCK), ts, pos, tags, block, indentless,
             BlockItems(ts, at + 1, tags));
  }

  lemma IndentlessSeqRead(m: Marks, items: seq<Syntax>, ts: Tokens, pos: nat, tags: Tags, block: bool, indentless: bool)
    requires var s := IndentlessSeq(m, items); Allowed(s, block, indentless, false) && Ready(s, ts, pos, tags, indentless)
    requires forall i :: 0 <= i < |items| ==> Reads(items[i])
    ensures ReadAt(IndentlessSeq(m, items), ts, pos, tags, block, indentless)
  {
    hide MarkTokens, PropertiesAt, NodeAt, IndentlessItems, Reads, T.Holds, BlockItemTokens, ItemTrees;
    SomeItems(items);
    var w := BlockItemTokens(items);
    assert w == [BlockEntry] + w[1..];
    OpenSplit(m, BlockEntry, w[1..], ts, pos, tags);
    var at := pos + |MarkTokens(m)|;
    T.HoldsSplit(ts, pos, MarkTokens(m), w);
    IndentlessRead(items, ts, at, tags);
    OpenRead(m, BlockEntry, SequenceOf(Properties(m.anchor, TagOf(m, tags), 0), BLOCK), ts, pos, tags, block, indentless,
             IndentlessItems(ts, at, tags));
  }

  lemma BlockMapRead(m: Marks, entries: seq<Entry>, ts: Tokens, pos: nat, tags: Tags, block: bool, indentless: bool)
    requires var s := BlockMap(m, entries); Allowed(s, block, indentless, false) && Ready(s, ts, pos, tags, indentless)
    requires forall i :: 0 <= i < |entries| ==> EntryReads(entries[i])
    ensures ReadAt(BlockMap(m, entries), ts, pos, tags, block, indentless)
  {
    hide MarkTokens, PropertiesAt, NodeAt, BlockPairs, EntryReads, T.Holds, EntryTokens, EntryTrees, AllowedEntry, KnownEntry;
    var rest := EntryTokens(entries) + [BlockEnd];
    OpenSplit(m, BlockMappingStart(false), rest, ts, pos, tags);
    var at := pos + |MarkTokens(m)|;
    BlockPairsRead(entries, ts, at + 1, tags);
    OpenRead(m, BlockMappingStart(false), MappingOf(Properties(m.anchor, TagOf(m, tags), 0), BLOCK), ts, pos, tags, block, indentless,
             BlockPairs(ts, at + 1, tags));
  }

  lemma FlowSeqRead(m: Marks, items: seq<Syntax>, comma: bool, ts: Tokens, pos: nat, tags: Tags, block: bool, indentless: bool)
    requires var s := FlowSeq(m, items, comma); Allowed(s, block, indentless, false) && Ready(s, ts, pos, tags, indentless)
    requires forall i :: 0 <= i < |items| ==> ItemReads(items[i])
    ensures ReadAt(FlowSeq(m, items, comma), ts, pos, tags, block, indentless)
  {
    hide MarkTokens, PropertiesAt, NodeAt, FlowItems, ItemReads, T.Holds, FlowItemTokens, ItemTrees, AllowedItem;
    var rest := FlowItemTokens(items, comma) + [FlowSequenceEnd];
    OpenSplit(m, FlowSequenceStart(false), rest, ts, pos, tags);
    var at := pos + |MarkTokens(m)|;
    FlowItemsRead(items, comma, ts, at + 1, tags);
    OpenRead(m, FlowSequenceStart(false), SequenceOf(Properties(m.anchor, TagOf(m, tags), 0), FLOW), ts, pos, tags, block, indentless,
             FlowItems(ts, at + 1, tags));
  }

  lemma FlowMapRead(m: Marks, entries: seq<Entry>, comma: bool, ts: Tokens, pos: nat, tags: Tags, block: bool, indentless: bool)
    requires var s := FlowMap(m, entries, comma); Allowed(s, block, indentless, false) && Ready(s, ts, pos, tags, indentless)
    requires forall i :: 0 <= i < |entries| ==> EntryReads(entries[i])
    ensures ReadAt(FlowMap(m, entries, comma), ts, pos, tags, block, indentless)
  {
    hide MarkTokens, PropertiesAt, NodeAt, FlowPairs, EntryReads, T.Holds, FlowEntryTokens, EntryTrees, AllowedEntry, KnownEntry;
    var rest := FlowEntryTokens(entries, comma) + [FlowMappingEnd];
    OpenSplit(m, FlowMappingStart(false), rest, ts, pos, tags);
    var at := pos + |MarkTokens(m)|;
    FlowPairsRead(entries, comma, ts, at + 1, tags);
    OpenRead(m, FlowMappingStart(false), MappingOf(Properties(m.anchor, TagOf(m, tags), 0), FLOW), ts, pos, tags, block, indentless,
             FlowPairs(ts, at + 1, tags));
  }

  lemma CollectionRead(s: Syntax, ts: Tokens, pos: nat, tags: Tags, block: bool, indentless: bool)
    requires Allowed(s, block, indentless, false) && Ready(s, ts, pos, tags, indentless)
    requires s.BlockSeq? || s.IndentlessSeq? ==> forall i :: 0 <= i < |s.items| ==> Reads(s.items[i])
    requires s.FlowSeq? ==> forall i :: 0 <= i < |s.items| ==> ItemReads(s.items[i])
    requires s.BlockMap? || s.FlowMap? ==> forall i :: 0 <= i < |s.entries| ==> EntryReads(s.entries[i])
    requires s.BlockSeq? || s.IndentlessSeq? || s.FlowSeq? || s.BlockMap? || s.FlowMap?
    ensures ReadAt(s, ts, pos, tags, block, indentless)
  {
    hide Allowed, Ready, Reads, ItemReads, EntryReads, ReadAt;
    match s
    case BlockSeq(m, items) => BlockSeqRead(m, items, ts, pos, tags, block, indentless);
    case IndentlessSeq(m, items) => IndentlessSeqRead(m, items, ts, pos, tags, block, indentless);
    case FlowSeq(m, items, comma) => FlowSeqRead(m, items, comma, ts, pos, tags, block, indentless);
    case BlockMap(m, entries) => BlockMapRead(m, entries, ts, pos, tags, block, indentless);
    case FlowMap(m, entries, comma) => FlowMapRead(m, entries, comma, ts, pos, tags, block, indentless);
  }

  /** Whatever is written by the productions is read as what it means, wherever it may stand. */
  lemma {:induction false} SyntaxReads(s: Syntax)
    ensures Reads(s)
    decreases s, 0
  {
    hide Allowed, Ready, ReadAt;
    match s {
      case BlockSeq(_, items) => AllRead(items);
      case IndentlessSeq(_, items) => AllRead(items);
      case FlowSeq(_, items, _) => AllItemsRead(items);
      case BlockMap(_, entries) => AllEntriesRead(entries);
      case FlowMap(_, entries, _) => AllEntriesRead(entries);
      case _ =>
        LeafReads(s);
        return;
    }
    forall ts, pos: nat, tags, block, indentless |
      (indentless ==> block) && Allowed(s, block, indentless, false) && Ready(s, ts, pos, tags, indentless)
      ensures ReadAt(s, ts, pos, tags, block, indentless)
    {
      CollectionRead(s, ts, pos, tags, block, indentless);
    }
  }

  lemma {:induction false} ItemRead(s: Syntax)
    ensures ItemReads(s)
    decreases s, 1
  {
    hide Reads;
    if s.Single? {
      SyntaxReads(s.key);
      SyntaxReads(s.value);
    } else {
      SyntaxReads(s);
    }
  }

  lemma {:induction false} AllItemsRead(items: seq<Syntax>)
    ensures forall i :: 0 <= i < |items| ==> ItemReads(items[i])
    decreases items
  {
    hide ItemReads;
    forall i | 0 <= i < |items|
      ensures ItemReads(items[i])
    {
      ItemRead(items[i]);
    }
  }

  lemma {:induction false} AllRead(items: seq<Syntax>)
    ensures forall i :: 0 <= i < |items| ==> Reads(items[i])
    decreases items
  {
    hide Reads;
    forall i | 0 <= i < |items|
      ensures Reads(items[i])
    {
      SyntaxReads(items[i]);
    }
  }

  lemma {:induction false} EntryRead(e: Entry)
    ensures EntryReads(e)
    decreases e
  {
    hide Reads;
    SyntaxReads(e.key);
    SyntaxReads(e.value);
  }

  lemma {:induction false} AllEntriesRead(entries: seq<Entry>)
    ensures forall i :: 0 <= i < |entries| ==> EntryReads(entries[i])
    decreases entries
  {
    hide EntryReads;
    forall i | 0 <= i < |entries|
      ensures EntryReads(entries[i])
    {
      EntryRead(entries[i]);
    }
  }

  // ----- documents

  /** A document: explicit with directives and DOCUMENT-START, or a root alone; and the DOCUMENT-END tokens behind it. */
  datatype Document = Document(explicit: bool, directives: Tokens, root: Syntax, ends: nat)

  function EndTokens(n: nat): (r: Tokens)
    ensures |r| == n && forall k :: 0 <= k < n ==> r[k] == DocumentEndToken
  {
    if n == 0 then [] else [DocumentEndToken] + EndTokens(n - 1)
  }

  function YieldDocument(d: Document): Tokens {
    (if d.explicit then d.directives + [DocumentStartToken] else []) + (Yield(d.root) + EndTokens(d.ends))
  }

  function YieldDocuments(ds: seq<Document>): Tokens {
    if ds == [] then [] else YieldDocument(ds[0]) + YieldDocuments(ds[1..])
  }

  /** The documents between the two ends of the stream. */
  function YieldStream(ds: seq<Document>): Tokens {
    [StreamStartToken] + (YieldDocuments(ds) + [StreamEndToken])
  }

  /** The handles known in a document: those its own directives declare, and the default ones. */
  function DocumentTags(d: Document): Tags {
    Defaults(Declared(d.directives))
  }

  function DocumentTrees(ds: seq<Document>): seq<Tree> {
    if ds == [] then [] else [Means(ds[0].root, DocumentTags(ds[0]))] + DocumentTrees(ds[1..])
  }

  ghost predicate AllowedDocument(d: Document, first: bool) {
    && (if d.explicit then Permitted(d.directives, []) && forall k :: 0 <= k < |d.directives| ==> IsDirective(d.directives[k])
        else first && d.directives == [])
    && Allowed(d.root, true, false, d.explicit) && Known(d.root, DocumentTags(d))
  }

  ghost predicate AllowedStream(ds: seq<Document>) {
    forall i :: 0 <= i < |ds| ==> AllowedDocument(ds[i], i == 0)
  }

  lemma {:induction false} EndsRead(ts: Tokens, pos: nat, n: nat)
    requires T.Holds(ts, pos, EndTokens(n)) && pos + n < |ts| && !ts[pos + n].DocumentEndToken?
    ensures PastEnds(ts, pos) == pos + n
    decreases n
  {
    if n > 0 {
      T.HoldsSplit(ts, pos, [DocumentEndToken], EndTokens(n - 1));
      T.HoldsOne(ts, pos, DocumentEndToken);
      EndsRead(ts, pos + 1, n - 1);
    }
  }

  lemma EndsTaken(ts: Tokens, pos: nat, n: nat)
    requires T.Holds(ts, pos, EndTokens(n)) && pos + n < |ts| && !ts[pos + n].DocumentEndToken?
    ensures pos < |ts| && PastEnds(ts, if ts[pos].DocumentEndToken? then pos + 1 else pos) == pos + n
    ensures n > 0 ==> ts[pos].DocumentEndToken?
  {
    if n > 0 {
      T.HoldsSplit(ts, pos, [DocumentEndToken], EndTokens(n - 1));
      T.HoldsOne(ts, pos, DocumentEndToken);
      EndsRead(ts, pos + 1, n - 1);
    } else {
      EndsRead(ts, pos, 0);
    }
  }

  lemma {:induction false} RunRead(ts: Tokens, pos: nat, run: Tokens)
    requires T.Holds(ts, pos, run) && forall k :: 0 <= k < |run| ==> IsDirective(run[k])
    requires pos + |run| < |ts| && !IsDirective(ts[pos + |run|])
    ensures DirectiveRun(ts, pos) == |run|
    decreases |run|
  {
    if run != [] {
      assert run == [run[0]] + run[1..];
      T.HoldsSplit(ts, pos, [run[0]], run[1..]);
      T.HoldsOne(ts, pos, run[0]);
      RunRead(ts, pos + 1, run[1..]);
    }
  }

  lemma DirectivesRead(ts: Tokens, pos: nat, run: Tokens)
    requires T.Holds(ts, pos, run) && (forall k :: 0 <= k < |run| ==> IsDirective(run[k])) && Permitted(run, [])
    requires pos + |run| < |ts| && !IsDirective(ts[pos + |run|])
    ensures Directives(ts, pos, []) == Some((pos + |run|, Defaults(Declared(run))))
  {
    hide Permitted, Defaults, Declared;
    RunRead(ts, pos, run);
    assert [] + Declared(run) == Declared(run);
  }

  /** Behind a root: the ends of its document, and the other documents. */
  lemma BehindRoot(ts: Tokens, t: Tree, next: nat, n: nat, rest: ParsedAll)
    requires T.Holds(ts, next, EndTokens(n)) && next + n < |ts| && !ts[next + n].DocumentEndToken?
    requires Documents(ts, next + n, []) == rest
    ensures AfterRoot(ts, Some((t, next))) == Cons(t, rest)
  {
    hide Documents;
    EndsTaken(ts, next, n);
  }

  lemma DocumentsSplit(ds: seq<Document>)
    requires ds != []
    ensures YieldDocuments(ds) == YieldDocument(ds[0]) + YieldDocuments(ds[1..])
    ensures |YieldDocuments(ds)| == |YieldDocument(ds[0])| + |YieldDocuments(ds[1..])|
    ensures DocumentTrees(ds) == [Means(ds[0].root, DocumentTags(ds[0]))] + DocumentTrees(ds[1..])
  {
  }

  lemma NoDocumentTokens()
    ensures YieldDocuments([]) == [] && DocumentTrees([]) == []
  {
  }

  /** Documents begin with a directive or with DOCUMENT-START. */
  lemma {:induction false} ExplicitNext(ds: seq<Document>, ts: Tokens, pos: nat)
    requires T.Holds(ts, pos, YieldDocuments(ds) + [StreamEndToken]) && forall i :: 0 <= i < |ds| ==> AllowedDocument(ds[i], false)
    ensures pos < |ts| && (StartsExplicit(ts[pos]) || ts[pos].StreamEndToken?)
  {
    hide Yield, Allowed, Known, Permitted;
    T.HoldsFirst(ts, pos, YieldDocuments(ds) + [StreamEndToken]);
  }

  /** The parts of a document in front of others. */
  lemma DocumentParts(d: Document, first: bool, ts: Tokens, pos: nat)
    requires T.Holds(ts, pos, YieldDocument(d)) && AllowedDocument(d, first)
    ensures var at := pos + |d.directives| + if d.explicit then 1 else 0;
            && T.Holds(ts, pos, d.directives) && (d.explicit ==> pos + |d.directives| < |ts| && ts[pos + |d.directives|] == DocumentStartToken)
            && T.Holds(ts, at, Yield(d.root)) && T.Holds(ts, at + |Yield(d.root)|, EndTokens(d.ends))
            && pos + |YieldDocument(d)| == at + |Yield(d.root)| + d.ends
  {
    hide Yield, Allowed, Known, Permitted, T.Holds;
    var front := if d.explicit then d.directives + [DocumentStartToken] else [];
    T.HoldsSplit(ts, pos, front, Yield(d.root) + EndTokens(d.ends));
    T.HoldsSplit(ts, pos + |front|, Yield(d.root), EndTokens(d.ends));
    if d.explicit {
      T.HoldsSplit(ts, pos, d.directives, [DocumentStartToken]);
      T.HoldsOne(ts, pos + |d.directives|, DocumentStartToken);
    }
  }

  lemma RootFollows(ts: Tokens, at: nat, n: nat)
    requires T.Holds(ts, at, EndTokens(n)) && at + n < |ts| && (StartsExplicit(ts[at + n]) || ts[at + n].StreamEndToken?)
    ensures at < |ts| && Follows(ts[at], false) && NoRoot(ts[at])
  {
    EndsTaken(ts, at, n);
  }

  lemma ExplicitRead(d: Document, first: bool, ts: Tokens, pos: nat, rest: ParsedAll)
    requires T.Holds(ts, pos, YieldDocument(d)) && AllowedDocument(d, first) && d.explicit
    requires var end := pos + |YieldDocument(d)|;
             end < |ts| && (StartsExplicit(ts[end]) || ts[end].StreamEndToken?) && Documents(ts, end, []) == rest
    ensures Documents(ts, pos, []) == Cons(Means(d.root, DocumentTags(d)), rest)
    ensures pos < |ts| && StartsExplicit(ts[pos])
  {
    hide Yield, Allowed, Known, Permitted, T.Holds, Documents, EntryAt, Directives, AfterRoot, Means, YieldDocument, DocumentTags;
    DocumentParts(d, first, ts, pos);
    var at := pos + |d.directives| + 1;
    var next := at + |Yield(d.root)|;
    RootFollows(ts, next, d.ends);
    SyntaxReads(d.root);
    OptionalRead(d.root, ts, at, DocumentTags(d), true, false);
    TagsAre(d);
    DirectivesRead(ts, pos, d.directives);
    BehindRoot(ts, Means(d.root, DocumentTags(d)), next, d.ends, rest);
    StartsDirective(d, ts, pos);
    DocumentsStep(ts, pos, at, DocumentTags(d), d.root.Omitted?, Means(d.root, DocumentTags(d)), next);
  }

  lemma TagsAre(d: Document)
    ensures DocumentTags(d) == Defaults(Declared(d.directives))
  {
  }

  lemma StartsDirective(d: Document, ts: Tokens, pos: nat)
    requires T.Holds(ts, pos, d.directives) && pos + |d.directives| < |ts| && ts[pos + |d.directives|] == DocumentStartToken
    requires forall k :: 0 <= k < |d.directives| ==> IsDirective(d.directives[k])
    ensures pos < |ts| && StartsExplicit(ts[pos])
  {
    if d.directives != [] {
      T.HoldsFirst(ts, pos, d.directives);
    }
  }

  lemma DocumentsStep(ts: Tokens, pos: nat, at: nat, known: Tags, omitted: bool, t: Tree, next: nat)
    requires 0 < at && pos < |ts| && StartsExplicit(ts[pos]) && at - 1 < |ts| && ts[at - 1].DocumentStartToken?
    requires Directives(ts, pos, []) == Some((at - 1, known))
    requires at < |ts| && (if omitted then NoRoot(ts[at]) else Begins(ts[at], false))
    requires EntryAt(ts, at, known, true, false, omitted) == Some((t, next)) && next <= |ts|
    ensures Documents(ts, pos, []) == AfterRoot(ts, Some((t, next)))
  {
    hide EntryAt, AfterRoot, Directives;
  }

  lemma {:induction false} DocumentsRead(ds: seq<Document>, ts: Tokens, pos: nat)
    requires T.Holds(ts, pos, YieldDocuments(ds) + [StreamEndToken]) && forall i :: 0 <= i < |ds| ==> AllowedDocument(ds[i], false)
    ensures Documents(ts, pos, []) == Some((DocumentTrees(ds), pos + |YieldDocuments(ds)| + 1))
    decreases |ds|
  {
    hide T.Holds, Documents, YieldDocuments, DocumentTrees, YieldDocument, AllowedDocument;
    NoDocumentTokens();
    if ds == [] {
      assert YieldDocuments(ds) + [StreamEndToken] == [StreamEndToken];
      T.HoldsOne(ts, pos, StreamEndToken);
      StreamDone(ts, pos);
    } else {
      var d, rest := ds[0], ds[1..];
      var tail := YieldDocuments(rest) + [StreamEndToken];
      DocumentsSplit(ds);
      assert YieldDocuments(ds) + [StreamEndToken] == YieldDocument(d) + tail;
      T.HoldsSplit(ts, pos, YieldDocument(d), tail);
      ExplicitNext(rest, ts, pos + |YieldDocument(d)|);
      DocumentsRead(rest, ts, pos + |YieldDocument(d)|);
      OnlyFirst(d);
      ExplicitRead(d, false, ts, pos, Documents(ts, pos + |YieldDocument(d)|, []));
    }
  }

  lemma OnlyFirst(d: Document)
    requires AllowedDocument(d, false)
    ensures d.explicit
  {
  }

  lemma StreamDone(ts: Tokens, pos: nat)
    requires pos < |ts| && ts[pos].StreamEndToken?
    ensures Documents(ts, pos, []) == Some(([], pos + 1))
  {
  }

  /** A stream that is written by the productions is read as what they mean. */
  lemma StreamReads(ds: seq<Document>, ts: Tokens)
    requires AllowedStream(ds) && T.Holds(ts, 0, YieldStream(ds))
    ensures StreamAt(ts) == Some((DocumentTrees(ds), |YieldStream(ds)|))
  {
    hide T.Holds, Documents, FirstDocument, YieldDocuments, DocumentTrees, YieldDocument, AllowedDocument;
    T.HoldsSplit(ts, 0, [StreamStartToken], YieldDocuments(ds) + [StreamEndToken]);
    T.HoldsOne(ts, 0, StreamStartToken);
    if ds != [] && !ds[0].explicit {
      var d, rest := ds[0], ds[1..];
      var tail := YieldDocuments(rest) + [StreamEndToken];
      DocumentsSplit(ds);
      assert YieldDocuments(ds) + [StreamEndToken] == YieldDocument(d) + tail;
      T.HoldsSplit(ts, 1, YieldDocument(d), tail);
      ExplicitNext(rest, ts, 1 + |YieldDocument(d)|);
      DocumentsRead(rest, ts, 1 + |YieldDocument(d)|);
      ImplicitRead(d, ts, Documents(ts, 1 + |YieldDocument(d)|, []));
    } else {
      AllExplicit(ds);
      DocumentsRead(ds, ts, 1);
      ExplicitNext(ds, ts, 1);
      FirstIsExplicit(ts);
    }
  }

  lemma AllExplicit(ds: seq<Document>)
    requires AllowedStream(ds) && (ds == [] || ds[0].explicit)
    ensures forall i :: 0 <= i < |ds| ==> AllowedDocument(ds[i], false)
  {
    hide Allowed, Known, Permitted;
  }

  lemma FirstIsExplicit(ts: Tokens)
    requires 1 < |ts| && (StartsExplicit(ts[1]) || ts[1].StreamEndToken?)
    ensures FirstDocument(ts, 1, []) == Documents(ts, 1, [])
  {
    hide Documents;
  }

  lemma ImplicitRead(d: Document, ts: Tokens, rest: ParsedAll)
    requires T.Holds(ts, 1, YieldDocument(d)) && AllowedDocument(d, true) && !d.explicit
    requires var end := 1 + |YieldDocument(d)|;
             end < |ts| && (StartsExplicit(ts[end]) || ts[end].StreamEndToken?) && Documents(ts, end, []) == rest
    ensures FirstDocument(ts, 1, []) == Cons(Means(d.root, DocumentTags(d)), rest)
  {
    hide Yield, Allowed, Known, Permitted, T.Holds, Documents, NodeAt, Directives, AfterRoot, Means, YieldDocument, DocumentTags;
    DocumentParts(d, true, ts, 1);
    var next := 1 + |Yield(d.root)|;
    RootFollows(ts, next, d.ends);
    SyntaxReads(d.root);
    NodeRead(d.root, ts, 1, DocumentTags(d), true, false);
    FirstToken(d.root, true, false);
    T.HoldsFirst(ts, 1, Yield(d.root));
    TagsAre(d);
    NothingPermittedHere();
    DirectivesRead(ts, 1, []);
    BehindRoot(ts, Means(d.root, DocumentTags(d)), next, d.ends, rest);
    FirstStep(ts, DocumentTags(d), Means(d.root, DocumentTags(d)), next);
  }

  lemma NothingPermittedHere()
    ensures Permitted([], []) && Declared([]) == []
  {
  }

  lemma FirstStep(ts: Tokens, known: Tags, t: Tree, next: nat)
    requires 1 < |ts| && T.Starts(ts[1]) && Directives(ts, 1, []) == Some((1, known))
    requires NodeAt(ts, 1, known, true, false) == Some((t, next)) && next <= |ts|
    ensures FirstDocument(ts, 1, []) == AfterRoot(ts, Some((t, next)))
  {
    hide NodeAt, AfterRoot, Directives;
  }
}
