/**
 What is read has been written by the productions: for every token stream that is read there are syntax trees
 that are written with these tokens and mean what was read.
 */
module YamlWritten {
  import opened Basics
  import opened YamlGraph
  import opened YamlTrees
  import opened YamlGrammar
  import opened YamlSyntax
  import P = YamlParser
  import T = YamlTokens

  /** A syntax tree stands at a position and means what was read there. */
  predicate Written(s: Syntax, ts: Tokens, pos: nat, tags: Tags, read: (Tree, nat)) {
    Known(s, tags) && T.Holds(ts, pos, Yield(s)) && read == (Means(s, tags), pos + |Yield(s)|)
  }

  lemma HoldsJoin(ts: Tokens, pos: nat, v: Tokens, w: Tokens)
    requires T.Holds(ts, pos, v) && T.Holds(ts, pos + |v|, w)
    ensures T.Holds(ts, pos, v + w)
  {
    assert ts[pos..pos + |v| + |w|] == ts[pos..pos + |v|] + ts[pos + |v|..pos + |v| + |w|];
  }

  lemma HoldsNothing(ts: Tokens, pos: nat)
    requires pos <= |ts|
    ensures T.Holds(ts, pos, [])
  {
  }

  lemma HoldsToken(ts: Tokens, pos: nat, t: Token)
    requires pos < |ts| && ts[pos] == t
    ensures T.Holds(ts, pos, [t])
  {
    assert ts[pos..pos + 1] == [t];
  }

  // ----- nodes

  lemma MarksAre(anchor: Option<string>, tag: Option<(string, string)>, tagFirst: bool)
    ensures var m := Marks(anchor, tag, tagFirst);
            && (anchor.None? && tag.None? ==> MarkTokens(m) == [])
            && (anchor.Some? && tag.None? ==> MarkTokens(m) == [AnchorToken(anchor.value)])
            && (anchor.None? && tag.Some? ==> MarkTokens(m) == [TagToken(tag.value.0, tag.value.1)])
            && (anchor.Some? && tag.Some? ==>
                  MarkTokens(m) == if tagFirst then [TagToken(tag.value.0, tag.value.1), AnchorToken(anchor.value)]
                                   else [AnchorToken(anchor.value), TagToken(tag.value.0, tag.value.1)])
    ensures tag.None? ==> forall tags :: TagOf(Marks(anchor, tag, tagFirst), tags) == None
    ensures tag.Some? ==> forall tags :: TagOf(Marks(anchor, tag, tagFirst), tags) == Resolve(tags, tag.value.0, tag.value.1)
  {
    hide Resolve;
  }

  lemma HoldsTwo(ts: Tokens, pos: nat)
    requires pos + 1 < |ts|
    ensures T.Holds(ts, pos, [ts[pos], ts[pos + 1]])
  {
    assert ts[pos..pos + 2] == [ts[pos], ts[pos + 1]];
  }

  lemma MarksWritten(ts: Tokens, pos: nat, tags: Tags) returns (m: Marks)
    requires PropertiesAt(ts, pos, tags).Some?
    ensures KnownTag(m, tags) && T.Holds(ts, pos, MarkTokens(m))
    ensures PropertiesAt(ts, pos, tags) == Some(Properties(m.anchor, TagOf(m, tags), pos + |MarkTokens(m)|))
  {
    hide Resolve, MarkTokens, TagOf, T.Holds;
    HoldsToken(ts, pos, ts[pos]);
    HoldsNothing(ts, pos);
    if pos + 1 < |ts| {
      HoldsTwo(ts, pos);
    }
    var next := if pos + 1 < |ts| then ts[pos + 1] else StreamEndToken;
    var tagFirst := ts[pos].TagToken?;
    var anchor := if ts[pos].AnchorToken? then Some(ts[pos].name)
                  else if tagFirst && next.AnchorToken? then Some(next.name) else None;
    var tag := if tagFirst then Some((ts[pos].handle, ts[pos].suffix))
               else if ts[pos].AnchorToken? && next.TagToken? then Some((next.handle, next.suffix)) else None;
    MarksAre(anchor, tag, tagFirst);
    m := Marks(anchor, tag, tagFirst);
  }

  /** Marks, an opening token and the tokens behind it. */
  lemma OpenWritten(m: Marks, open: Token, rest: Tokens, ts: Tokens, pos: nat)
    requires var at := pos + |MarkTokens(m)|;
             T.Holds(ts, pos, MarkTokens(m)) && at < |ts| && ts[at] == open && T.Holds(ts, at + 1, rest)
    ensures T.Holds(ts, pos, MarkTokens(m) + ([open] + rest))
  {
    hide MarkTokens, T.Holds;
    HoldsToken(ts, pos + |MarkTokens(m)|, open);
    HoldsJoin(ts, pos + |MarkTokens(m)|, [open], rest);
    HoldsJoin(ts, pos, MarkTokens(m), [open] + rest);
  }

  lemma {:induction false} NodeWritten(ts: Tokens, pos: nat, tags: Tags, block: bool, indentless: bool) returns (s: Syntax)
    requires NodeAt(ts, pos, tags, block, indentless).Some? && (indentless ==> block)
    ensures Allowed(s, block, indentless, false) && Written(s, ts, pos, tags, NodeAt(ts, pos, tags, block, indentless).value)
    decreases |ts| - pos, 1
  {
    hide T.Holds, Allowed, Written, PropertiesAt, MarkTokens, TagOf, NodeAt;
    if ts[pos].AliasToken? {
      s := Ref(ts[pos].name);
      RefWritten(ts, pos, tags, block, indentless);
    } else {
      NodeHasMarks(ts, pos, tags, block, indentless);
      var m := MarksWritten(ts, pos, tags);
      var at := pos + |MarkTokens(m)|;
      MarksInside(ts, pos, tags);
      if indentless && ts[at].BlockEntry? {
        IndentlessNode(ts, pos, tags, block, m);
        var items := IndentlessWritten(ts, at, tags);
        s := IndentlessSeq(m, items);
        IndentlessDoneWritten(m, items, ts, pos, tags, block);
      } else if ts[at].FlowSequenceStart? && !ts[at].deep {
        FlowSeqNode(ts, pos, tags, block, indentless, m);
        var items, comma := FlowItemsWritten(ts, at + 1, tags);
        s := FlowSeq(m, items, comma);
        FlowSeqWritten(m, items, comma, ts, pos, tags, block, indentless);
      } else if ts[at].FlowMappingStart? && !ts[at].deep {
        FlowMapNode(ts, pos, tags, block, indentless, m);
        var entries, comma := FlowPairsWritten(ts, at + 1, tags);
        s := FlowMap(m, entries, comma);
        FlowMapWritten(m, entries, comma, ts, pos, tags, block, indentless);
      } else if block && ts[at].BlockSequenceStart? && !ts[at].deep {
        BlockSeqNode(ts, pos, tags, block, indentless, m);
        var items := BlockItemsWritten(ts, at + 1, tags);
        s := BlockSeq(m, items);
        BlockSeqWritten(m, items, ts, pos, tags, block, indentless);
      } else if block && ts[at].BlockMappingStart? && !ts[at].deep {
        BlockMapNode(ts, pos, tags, block, indentless, m);
        var entries := BlockPairsWritten(ts, at + 1, tags);
        s := BlockMap(m, entries);
        BlockMapWritten(m, entries, ts, pos, tags, block, indentless);
      } else {
        s := if ts[at].ScalarToken? then Text(m, ts[at].text, ts[at].style) else Bare(m);
        LeafWritten(m, ts, pos, tags, block, indentless);
      }
    }
  }

  lemma RefWritten(ts: Tokens, pos: nat, tags: Tags, block: bool, indentless: bool)
    requires pos < |ts| && ts[pos].AliasToken?
    ensures NodeAt(ts, pos, tags, block, indentless).Some?
    ensures var s := Ref(ts[pos].name);
            Allowed(s, block, indentless, false) && Written(s, ts, pos, tags, NodeAt(ts, pos, tags, block, indentless).value)
  {
    HoldsToken(ts, pos, ts[pos]);
  }

  lemma NodeHasMarks(ts: Tokens, pos: nat, tags: Tags, block: bool, indentless: bool)
    requires NodeAt(ts, pos, tags, block, indentless).Some? && pos < |ts| && !ts[pos].AliasToken?
    ensures PropertiesAt(ts, pos, tags).Some?
  {
    hide PropertiesAt;
  }

  lemma MarksInside(ts: Tokens, pos: nat, tags: Tags)
    requires PropertiesAt(ts, pos, tags).Some?
    ensures PropertiesAt(ts, pos, tags).value.next < |ts|
  {
  }

  /** What stands behind the marks of a node that was read. */
  ghost predicate Marked(m: Marks, ts: Tokens, pos: nat, tags: Tags) {
    var at := pos + |MarkTokens(m)|;
    && pos < |ts| && !ts[pos].AliasToken? && at < |ts| && KnownTag(m, tags) && T.Holds(ts, pos, MarkTokens(m))
    && PropertiesAt(ts, pos, tags) == Some(Properties(m.anchor, TagOf(m, tags), at))
  }

  lemma IndentlessNode(ts: Tokens, pos: nat, tags: Tags, block: bool, m: Marks)
    requires Marked(m, ts, pos, tags) && ts[pos + |MarkTokens(m)|].BlockEntry?
    ensures NodeAt(ts, pos, tags, block, true) == Collect(SequenceOf(Properties(m.anchor, TagOf(m, tags), 0), BLOCK),
                                                          IndentlessItems(ts, pos + |MarkTokens(m)|, tags))
  {
    hide T.Holds, IndentlessItems, PropertiesAt, MarkTokens, TagOf;
  }

  lemma FlowSeqNode(ts: Tokens, pos: nat, tags: Tags, block: bool, indentless: bool, m: Marks)
    requires Marked(m, ts, pos, tags) && ts[pos + |MarkTokens(m)|] == FlowSequenceStart(false)
    ensures NodeAt(ts, pos, tags, block, indentless) == Collect(SequenceOf(Properties(m.anchor, TagOf(m, tags), 0), FLOW),
                                                                FlowItems(ts, pos + |MarkTokens(m)| + 1, tags))
  {
    hide T.Holds, FlowItems, PropertiesAt, MarkTokens, TagOf;
  }

  lemma FlowMapNode(ts: Tokens, pos: nat, tags: Tags, block: bool, indentless: bool, m: Marks)
    requires Marked(m, ts, pos, tags) && ts[pos + |MarkTokens(m)|] == FlowMappingStart(false)
    ensures NodeAt(ts, pos, tags, block, indentless) == Collect(MappingOf(Properties(m.anchor, TagOf(m, tags), 0), FLOW),
                                                                FlowPairs(ts, pos + |MarkTokens(m)| + 1, tags))
  {
    hide T.Holds, FlowPairs, PropertiesAt, MarkTokens, TagOf;
  }

  lemma BlockSeqNode(ts: Tokens, pos: nat, tags: Tags, block: bool, indentless: bool, m: Marks)
    requires Marked(m, ts, pos, tags) && ts[pos + |MarkTokens(m)|] == BlockSequenceStart(false) && block
    ensures NodeAt(ts, pos, tags, block, indentless) == Collect(SequenceOf(Properties(m.anchor, TagOf(m, tags), 0), BLOCK),
                                                                BlockItems(ts, pos + |MarkTokens(m)| + 1, tags))
  {
    hide T.Holds, BlockItems, PropertiesAt, MarkTokens, TagOf;
  }

  lemma BlockMapNode(ts: Tokens, pos: nat, tags: Tags, block: bool, indentless: bool, m: Marks)
    requires Marked(m, ts, pos, tags) && ts[pos + |MarkTokens(m)|] == BlockMappingStart(false) && block
    ensures NodeAt(ts, pos, tags, block, indentless) == Collect(MappingOf(Properties(m.anchor, TagOf(m, tags), 0), BLOCK),
                                                                BlockPairs(ts, pos + |MarkTokens(m)| + 1, tags))
  {
    hide T.Holds, BlockPairs, PropertiesAt, MarkTokens, TagOf;
  }

  /** A scalar, or marks alone. */
  lemma LeafWritten(m: Marks, ts: Tokens, pos: nat, tags: Tags, block: bool, indentless: bool)
    requires Marked(m, ts, pos, tags) && NodeAt(ts, pos, tags, block, indentless).Some?
    requires var t := ts[pos + |MarkTokens(m)|];
             && !(indentless && t.BlockEntry?) && !(t.FlowSequenceStart? && !t.deep) && !(t.FlowMappingStart? && !t.deep)
             && !(block && t.BlockSequenceStart? && !t.deep) && !(block && t.BlockMappingStart? && !t.deep)
    ensures var t := ts[pos + |MarkTokens(m)|];
            var s := if t.ScalarToken? then Text(m, t.text, t.style) else Bare(m);
            Allowed(s, block, indentless, false) && Written(s, ts, pos, tags, NodeAt(ts, pos, tags, block, indentless).value)
  {
    hide T.Holds, PropertiesAt, MarkTokens, Resolve;
    var at := pos + |MarkTokens(m)|;
    if ts[at].ScalarToken? {
      HoldsToken(ts, at, ts[at]);
      HoldsJoin(ts, pos, MarkTokens(m), [ts[at]]);
    }
  }

  // ----- block collections

  /** Items of a block sequence, as they are written. */
  ghost predicate ItemsWritten(items: seq<Syntax>, tags: Tags) {
    forall i :: 0 <= i < |items| ==> Allowed(items[i], true, false, true) && Known(items[i], tags)
  }

  lemma {:induction false} EntryWritten(ts: Tokens, pos: nat, tags: Tags, block: bool, indentless: bool, missing: bool) returns (s: Syntax)
    requires EntryAt(ts, pos, tags, block, indentless, missing).Some? && (indentless ==> block)
    ensures Allowed(s, block, indentless, true) && Written(s, ts, pos, tags, EntryAt(ts, pos, tags, block, indentless, missing).value)
    ensures s.Omitted? <==> missing
    decreases |ts| - pos, 2
  {
    hide NodeAt, T.Holds;
    if missing {
      s := Omitted;
      HoldsNothing(ts, pos);
    } else {
      s := NodeWritten(ts, pos, tags, block, indentless);
      AllowedOptional(s, block, indentless);
    }
  }

  lemma AllowedOptional(s: Syntax, block: bool, indentless: bool)
    requires Allowed(s, block, indentless, false)
    ensures Allowed(s, block, indentless, true) && !s.Omitted?
  {
  }

  lemma ItemJoin(s: Syntax, rest: seq<Syntax>, tags: Tags, ts: Tokens, pos: nat, read: (Tree, nat), tail: Tokens)
    requires pos < |ts| && ts[pos].BlockEntry? && Allowed(s, true, false, true) && Written(s, ts, pos + 1, tags, read)
    requires ItemsWritten(rest, tags) && T.Holds(ts, read.1, BlockItemTokens(rest) + tail)
    ensures ItemsWritten([s] + rest, tags) && T.Holds(ts, pos, BlockItemTokens([s] + rest) + tail)
    ensures ItemTrees([s] + rest, tags) == [read.0] + ItemTrees(rest, tags)
    ensures pos + |BlockItemTokens([s] + rest)| == read.1 + |BlockItemTokens(rest)|
  {
    hide T.Holds, Allowed, Known, Yield, Means, BlockItemTokens, ItemTrees;
    ItemsSplit([s] + rest, tags);
    assert ([s] + rest)[1..] == rest;
    var w := BlockItemTokens(rest) + tail;
    HoldsJoin(ts, pos + 1, Yield(s), w);
    HoldsToken(ts, pos, BlockEntry);
    HoldsJoin(ts, pos, [BlockEntry], Yield(s) + w);
    assert BlockItemTokens([s] + rest) + tail == [BlockEntry] + (Yield(s) + w);
  }

  lemma {:induction false} BlockItemsWritten(ts: Tokens, pos: nat, tags: Tags) returns (items: seq<Syntax>)
    requires BlockItems(ts, pos, tags).Some?
    ensures ItemsWritten(items, tags) && T.Holds(ts, pos, BlockItemTokens(items) + [BlockEnd])
    ensures BlockItems(ts, pos, tags) == Some((ItemTrees(items, tags), pos + |BlockItemTokens(items)| + 1))
    decreases |ts| - pos, 0
  {
    hide T.Holds, EntryAt, Allowed, Written, Known, BlockItemTokens, ItemTrees, Yield, Means;
    NoItems(tags);
    if ts[pos].BlockEnd? {
      items := [];
      HoldsToken(ts, pos, BlockEnd);
      assert BlockItemTokens(items) + [BlockEnd] == [BlockEnd];
    } else {
      var missing := Is(ts, pos + 1, NoBlockItem);
      var read := EntryAt(ts, pos + 1, tags, true, false, missing).value;
      EntryBehind(ts, pos + 1, tags, true, false, missing);
      var s := EntryWritten(ts, pos + 1, tags, true, false, missing);
      var rest := BlockItemsWritten(ts, read.1, tags);
      items := [s] + rest;
      ItemJoin(s, rest, tags, ts, pos, read, [BlockEnd]);
    }
  }

  lemma EntryBehind(ts: Tokens, pos: nat, tags: Tags, block: bool, indentless: bool, missing: bool)
    requires EntryAt(ts, pos, tags, block, indentless, missing).Some?
    ensures pos <= EntryAt(ts, pos, tags, block, indentless, missing).value.1 <= |ts|
  {
  }

  lemma {:induction false} IndentlessWritten(ts: Tokens, pos: nat, tags: Tags) returns (items: seq<Syntax>)
    requires IndentlessItems(ts, pos, tags).Some?
    ensures ItemsWritten(items, tags) && T.Holds(ts, pos, BlockItemTokens(items)) && (pos < |ts| && ts[pos].BlockEntry? ==> items != [])
    ensures IndentlessItems(ts, pos, tags) == Some((ItemTrees(items, tags), pos + |BlockItemTokens(items)|))
    decreases |ts| - pos, 0
  {
    hide T.Holds, EntryAt, Allowed, Written, Known, BlockItemTokens, ItemTrees, Yield, Means;
    NoItems(tags);
    if !ts[pos].BlockEntry? {
      items := [];
      HoldsNothing(ts, pos);
    } else {
      var missing := Is(ts, pos + 1, NoIndentlessItem);
      var read := EntryAt(ts, pos + 1, tags, true, false, missing).value;
      EntryBehind(ts, pos + 1, tags, true, false, missing);
      var s := EntryWritten(ts, pos + 1, tags, true, false, missing);
      var rest := IndentlessWritten(ts, read.1, tags);
      items := [s] + rest;
      assert BlockItemTokens(rest) + [] == BlockItemTokens(rest);
      ItemJoin(s, rest, tags, ts, pos, read, []);
      assert BlockItemTokens(items) + [] == BlockItemTokens(items);
    }
  }

  lemma BlockSeqWritten(m: Marks, items: seq<Syntax>, ts: Tokens, pos: nat, tags: Tags, block: bool, indentless: bool)
    requires Marked(m, ts, pos, tags) && ts[pos + |MarkTokens(m)|] == BlockSequenceStart(false) && block && ItemsWritten(items, tags)
    requires T.Holds(ts, pos + |MarkTokens(m)| + 1, BlockItemTokens(items) + [BlockEnd])
    ensures var s := BlockSeq(m, items);
            && Allowed(s, block, indentless, false)
            && Written(s, ts, pos, tags, (Collection(SequenceOf(Properties(m.anchor, TagOf(m, tags), 0), BLOCK), ItemTrees(items, tags)),
                                          pos + |MarkTokens(m)| + 1 + |BlockItemTokens(items)| + 1))
  {
    hide T.Holds, PropertiesAt, MarkTokens, BlockItemTokens, ItemTrees;
    OpenWritten(m, BlockSequenceStart(false), BlockItemTokens(items) + [BlockEnd], ts, pos);
  }

  lemma IndentlessDoneWritten(m: Marks, items: seq<Syntax>, ts: Tokens, pos: nat, tags: Tags, block: bool)
    requires Marked(m, ts, pos, tags) && block && items != [] && ItemsWritten(items, tags)
    requires T.Holds(ts, pos + |MarkTokens(m)|, BlockItemTokens(items))
    ensures var s := IndentlessSeq(m, items);
            && Allowed(s, block, true, false)
            && Written(s, ts, pos, tags, (Collection(SequenceOf(Properties(m.anchor, TagOf(m, tags), 0), BLOCK), ItemTrees(items, tags)),
                                          pos + |MarkTokens(m)| + |BlockItemTokens(items)|))
  {
    hide T.Holds, PropertiesAt, MarkTokens, BlockItemTokens, ItemTrees;
    HoldsJoin(ts, pos, MarkTokens(m), BlockItemTokens(items));
  }

  /** Entries of a mapping, as they are written. */
  ghost predicate EntriesWritten(entries: seq<Entry>, block: bool, tags: Tags) {
    forall i :: 0 <= i < |entries| ==> AllowedEntry(entries[i], block) && KnownEntry(entries[i], tags) && (block ==> entries[i].keyed)
  }

  /** A key with its value behind it: what was read and where it ends. */
  ghost predicate PairWritten(e: Entry, block: bool, ts: Tokens, pos: nat, tags: Tags, k: Tree, v: Tree, next: nat) {
    && AllowedEntry(e, block) && KnownEntry(e, tags) && T.Holds(ts, pos, YieldEntry(e)) && next == pos + |YieldEntry(e)|
    && k == Means(e.key, tags) && v == Means(e.value, tags)
  }

  lemma EntryJoin(e: Entry, rest: seq<Entry>, block: bool, tags: Tags, ts: Tokens, pos: nat, k: Tree, v: Tree, next: nat, tail: Tokens)
    requires PairWritten(e, block, ts, pos, tags, k, v, next) && (block ==> e.keyed)
    requires EntriesWritten(rest, block, tags) && T.Holds(ts, next, EntryTokens(rest) + tail)
    ensures EntriesWritten([e] + rest, block, tags) && T.Holds(ts, pos, EntryTokens([e] + rest) + tail)
    ensures EntryTrees([e] + rest, tags) == [k] + ([v] + EntryTrees(rest, tags))
    ensures pos + |EntryTokens([e] + rest)| == next + |EntryTokens(rest)|
  {
    hide T.Holds, AllowedEntry, KnownEntry, YieldEntry, Means, EntryTokens, EntryTrees;
    EntriesSplit([e] + rest, tags);
    assert ([e] + rest)[1..] == rest;
    HoldsJoin(ts, pos, YieldEntry(e), EntryTokens(rest) + tail);
    assert EntryTokens([e] + rest) + tail == YieldEntry(e) + (EntryTokens(rest) + tail);
  }

  /** KEY and what is behind it, or a key of its own; VALUE and what is behind it, or nothing. */
  lemma PairJoin(keyed: bool, k: Syntax, valued: bool, v: Syntax, block: bool, ts: Tokens, pos: nat, tags: Tags, key: (Tree, nat), value: (Tree, nat))
    requires (keyed ==> pos < |ts| && ts[pos].Key?) && Allowed(k, block, block, keyed) && Written(k, ts, if keyed then pos + 1 else pos, tags, key)
    requires Allowed(v, block, block, true) && (!keyed ==> !valued)
    requires if valued then key.1 < |ts| && ts[key.1].Value? && Written(v, ts, key.1 + 1, tags, value)
             else v.Omitted? && value == (Leaf(EMPTY), key.1) && key.1 <= |ts|
    ensures PairWritten(Entry(keyed, k, valued, v), block, ts, pos, tags, key.0, value.0, value.1)
  {
    hide T.Holds, Allowed, Known, Yield, Means;
    OmittedIs(tags);
    OmittedKnown(tags);
    var e := Entry(keyed, k, valued, v);
    var front := if keyed then [Key] else [];
    AllowedParts(e, block);
    if valued {
      HoldsToken(ts, key.1, Value);
      HoldsJoin(ts, key.1, [Value], Yield(v));
    } else {
      HoldsNothing(ts, key.1);
    }
    HoldsJoin(ts, pos + |front|, Yield(k), ValueTokens(e));
    if keyed {
      HoldsToken(ts, pos, Key);
      HoldsJoin(ts, pos, front, Yield(k) + ValueTokens(e));
    } else {
      assert YieldEntry(e) == Yield(k) + ValueTokens(e);
    }
  }

  lemma OmittedKnown(tags: Tags)
    ensures Known(Omitted, tags)
  {
  }

  lemma AllowedParts(e: Entry, block: bool)
    requires Allowed(e.key, block, block, e.keyed) && Allowed(e.value, block, block, true)
    requires (!e.valued ==> e.value.Omitted?) && (!e.keyed ==> !e.valued)
    ensures AllowedEntry(e, block)
  {
    hide Allowed;
  }

  lemma {:induction false} BlockPairsWritten(ts: Tokens, pos: nat, tags: Tags) returns (entries: seq<Entry>)
    requires BlockPairs(ts, pos, tags).Some?
    ensures EntriesWritten(entries, true, tags) && T.Holds(ts, pos, EntryTokens(entries) + [BlockEnd])
    ensures BlockPairs(ts, pos, tags) == Some((EntryTrees(entries, tags), pos + |EntryTokens(entries)| + 1))
    decreases |ts| - pos, 0
  {
    hide T.Holds, EntryAt, Allowed, Written, Known, EntryTokens, EntryTrees, Yield, Means, BlockValue, PairWritten;
    NoItems(tags);
    if ts[pos].BlockEnd? {
      entries := [];
      HoldsToken(ts, pos, BlockEnd);
      assert EntryTokens(entries) + [BlockEnd] == [BlockEnd];
    } else {
      var missing := Is(ts, pos + 1, NoBlockKey);
      var key := EntryAt(ts, pos + 1, tags, true, true, missing).value;
      EntryBehind(ts, pos + 1, tags, true, true, missing);
      var k := EntryWritten(ts, pos + 1, tags, true, true, missing);
      var valued, v, value := BlockValueWritten(ts, key.1, tags);
      var rest := BlockPairsWritten(ts, value.1, tags);
      var e := Entry(true, k, valued, v);
      PairJoin(true, k, valued, v, true, ts, pos, tags, key, value);
      entries := [e] + rest;
      EntryJoin(e, rest, true, tags, ts, pos, key.0, value.0, value.1, [BlockEnd]);
    }
  }

  lemma {:induction false} BlockValueWritten(ts: Tokens, pos: nat, tags: Tags) returns (valued: bool, v: Syntax, value: (Tree, nat))
    requires BlockValue(ts, pos, tags).Some?
    ensures Allowed(v, true, true, true) && pos <= value.1 <= |ts| && pos <= |ts|
    ensures if valued then pos < |ts| && ts[pos].Value? && Written(v, ts, pos + 1, tags, value)
            else v.Omitted? && value == (Leaf(EMPTY), pos)
    ensures BlockValue(ts, pos, tags) == Cons(value.0, BlockPairs(ts, value.1, tags))
    ensures BlockPairs(ts, value.1, tags).Some?
    decreases |ts| - pos, 1
  {
    hide T.Holds, EntryAt, Written, Yield, Means, BlockPairs;
    valued := ts[pos].Value?;
    if valued {
      var missing := Is(ts, pos + 1, NoBlockKey);
      value := EntryAt(ts, pos + 1, tags, true, true, missing).value;
      EntryBehind(ts, pos + 1, tags, true, true, missing);
      v := EntryWritten(ts, pos + 1, tags, true, true, missing);
    } else {
      v, value := Omitted, (Leaf(EMPTY), pos);
    }
  }

  lemma BlockMapWritten(m: Marks, entries: seq<Entry>, ts: Tokens, pos: nat, tags: Tags, block: bool, indentless: bool)
    requires Marked(m, ts, pos, tags) && ts[pos + |MarkTokens(m)|] == BlockMappingStart(false) && block && EntriesWritten(entries, true, tags)
    requires T.Holds(ts, pos + |MarkTokens(m)| + 1, EntryTokens(entries) + [BlockEnd])
    ensures var s := BlockMap(m, entries);
            && Allowed(s, block, indentless, false)
            && Written(s, ts, pos, tags, (Collection(MappingOf(Properties(m.anchor, TagOf(m, tags), 0), BLOCK), EntryTrees(entries, tags)),
                                          pos + |MarkTokens(m)| + 1 + |EntryTokens(entries)| + 1))
  {
    hide T.Holds, PropertiesAt, MarkTokens, EntryTokens, EntryTrees, AllowedEntry, KnownEntry;
    OpenWritten(m, BlockMappingStart(false), EntryTokens(entries) + [BlockEnd], ts, pos);
  }

  // ----- flow collections

  ghost predicate FlowItemsKnown(items: seq<Syntax>, comma: bool, tags: Tags) {
    && (comma ==> items != [])
    && forall i :: 0 <= i < |items| ==> AllowedItem(items[i], !comma && i == |items| - 1) && Known(items[i], tags)
  }

  /** An item, and a separator if there is one. */
  lemma FlowItemJoin(s: Syntax, rest: seq<Syntax>, sep: bool, comma: bool, tags: Tags, ts: Tokens, pos: nat, read: (Tree, nat))
    requires Written(s, ts, pos, tags, read) && AllowedItem(s, !sep) && FlowItemsKnown(rest, comma, tags)
    requires (rest != [] ==> sep) && (sep ==> read.1 < |ts| && ts[read.1].FlowEntry?)
    requires T.Holds(ts, if sep then read.1 + 1 else read.1, FlowItemTokens(rest, comma) + [FlowSequenceEnd])
    ensures var items, last := [s] + rest, if rest == [] then sep else comma;
            && FlowItemsKnown(items, last, tags)
            && T.Holds(ts, pos, FlowItemTokens(items, last) + [FlowSequenceEnd])
            && ItemTrees(items, tags) == [read.0] + ItemTrees(rest, tags)
            && pos + |FlowItemTokens(items, last)| == (if sep then read.1 + 1 else read.1) + |FlowItemTokens(rest, comma)|
  {
    hide T.Holds, AllowedItem, Known, Yield, Means, FlowItemTokens, ItemTrees;
    var items, last := [s] + rest, if rest == [] then sep else comma;
    FlowItemsSplit(items, last, tags);
    assert items[1..] == rest;
    NoItems(tags);
    assert FlowItemTokens(rest, last) == FlowItemTokens(rest, comma);
    var w := FlowItemTokens(rest, comma) + [FlowSequenceEnd];
    var v := if sep then [FlowEntry] else [];
    if sep {
      HoldsToken(ts, read.1, FlowEntry);
      HoldsJoin(ts, read.1, [FlowEntry], w);
    } else {
      assert v + w == w;
    }
    HoldsJoin(ts, pos, Yield(s), v + w);
    assert FlowItemTokens(items, last) + [FlowSequenceEnd] == Yield(s) + (v + w);
  }

  lemma {:induction false} FlowItemsWritten(ts: Tokens, pos: nat, tags: Tags) returns (items: seq<Syntax>, comma: bool)
    requires FlowItems(ts, pos, tags).Some?
    ensures FlowItemsKnown(items, comma, tags) && T.Holds(ts, pos, FlowItemTokens(items, comma) + [FlowSequenceEnd])
    ensures FlowItems(ts, pos, tags) == Some((ItemTrees(items, tags), pos + |FlowItemTokens(items, comma)| + 1))
    decreases |ts| - pos, 4
  {
    hide T.Holds, NodeAt, AllowedItem, Written, Known, FlowItemTokens, ItemTrees, Yield, Means, PairKey;
    NoItems(tags);
    if ts[pos].FlowSequenceEnd? {
      items, comma := [], false;
      HoldsToken(ts, pos, FlowSequenceEnd);
      assert FlowItemTokens(items, comma) + [FlowSequenceEnd] == [FlowSequenceEnd];
    } else {
      var s, read := FlowItemWritten(ts, pos, tags);
      var sep := ts[read.1].FlowEntry?;
      var rest, more := [], false;
      if sep {
        rest, more := FlowItemsWritten(ts, read.1 + 1, tags);
      } else {
        HoldsToken(ts, read.1, FlowSequenceEnd);
        assert FlowItemTokens(rest, more) + [FlowSequenceEnd] == [FlowSequenceEnd];
      }
      items, comma := [s] + rest, if rest == [] then sep else more;
      FlowItemJoin(s, rest, sep, more, tags, ts, pos, read);
    }
  }

  lemma {:induction false} FlowItemWritten(ts: Tokens, pos: nat, tags: Tags) returns (s: Syntax, read: (Tree, nat))
    requires FlowItems(ts, pos, tags).Some? && !ts[pos].FlowSequenceEnd?
    ensures Written(s, ts, pos, tags, read) && pos <= read.1 < |ts| && AllowedItem(s, ts[read.1].FlowSequenceEnd?)
    ensures ts[read.1].FlowSequenceEnd? || ts[read.1].FlowEntry?
    ensures FlowItems(ts, pos, tags) == Cons(read.0, MoreItems(ts, read.1, tags)) && MoreItems(ts, read.1, tags).Some?
    decreases |ts| - pos, 3
  {
    hide T.Holds, NodeAt, Allowed, Written, Known, Yield, Means, PairKey;
    if ts[pos].Key? {
      var kids := PairKey(ts, pos + 1, tags).value;
      PairBehind(ts, pos + 1, tags);
      read := (Collection(PAIR, kids.0), kids.1);
      s := SingleWritten(ts, pos, tags);
    } else {
      read := NodeAt(ts, pos, tags, false, false).value;
      NodeBehind(ts, pos, tags, false, false);
      s := NodeWritten(ts, pos, tags, false, false);
      NodeIsItem(s, ts[read.1].FlowSequenceEnd?);
    }
  }

  lemma NodeBehind(ts: Tokens, pos: nat, tags: Tags, block: bool, indentless: bool)
    requires NodeAt(ts, pos, tags, block, indentless).Some?
    ensures pos < NodeAt(ts, pos, tags, block, indentless).value.1 <= |ts|
  {
  }

  lemma PairBehind(ts: Tokens, pos: nat, tags: Tags)
    requires PairKey(ts, pos, tags).Some?
    ensures pos <= PairKey(ts, pos, tags).value.1 <= |ts|
  {
  }

  lemma NodeIsItem(s: Syntax, last: bool)
    requires Allowed(s, false, false, false)
    ensures AllowedItem(s, last)
  {
  }

  /** A pair without braces: KEY, a key or what is lost behind an empty one, and a value. */
  lemma {:induction false} SingleWritten(ts: Tokens, pos: nat, tags: Tags) returns (s: Syntax)
    requires pos < |ts| && ts[pos].Key? && PairKey(ts, pos + 1, tags).Some?
    requires var next := PairKey(ts, pos + 1, tags).value.1; next < |ts| && (ts[next].FlowSequenceEnd? || ts[next].FlowEntry?)
    ensures var kids := PairKey(ts, pos + 1, tags).value;
            Written(s, ts, pos, tags, (Collection(PAIR, kids.0), kids.1)) && AllowedItem(s, ts[kids.1].FlowSequenceEnd?)
    decreases |ts| - pos, 2
  {
    hide T.Holds, NodeAt, Allowed, Written, Known, Yield, Means, PairValue;
    if NoPairKey(ts[pos + 1]) {
      var end := ts[pos + 1].FlowSequenceEnd?;
      var lost := if end then [] else [ts[pos + 1]];
      HoldsNothing(ts, pos + 1);
      if !end {
        HoldsToken(ts, pos + 1, ts[pos + 1]);
      }
      var valued, v, value := PairValueWritten(ts, pos + 1 + |lost|, tags);
      OmittedWritten(ts, pos + 1, tags);
      s := Single(Omitted, lost, valued, v);
      SingleJoin(s, ts, pos, tags, (Leaf(EMPTY), pos + 1), value);
      assert [Leaf(EMPTY)] + [value.0] == [Leaf(EMPTY), value.0];
    } else {
      var key := NodeAt(ts, pos + 1, tags, false, false).value;
      NodeBehind(ts, pos + 1, tags, false, false);
      var k := NodeWritten(ts, pos + 1, tags, false, false);
      AllowedOptional(k, false, false);
      var valued, v, value := PairValueWritten(ts, key.1, tags);
      HoldsNothing(ts, key.1);
      s := Single(k, [], valued, v);
      SingleJoin(s, ts, pos, tags, key, value);
      assert [key.0] + [value.0] == [key.0, value.0];
    }
  }

  lemma OmittedWritten(ts: Tokens, pos: nat, tags: Tags)
    requires pos <= |ts|
    ensures Allowed(Omitted, false, false, true) && Written(Omitted, ts, pos, tags, (Leaf(EMPTY), pos))
  {
  }

  lemma {:induction false} PairValueWritten(ts: Tokens, pos: nat, tags: Tags) returns (valued: bool, v: Syntax, value: (Tree, nat))
    requires PairValue(ts, pos, tags).Some?
    ensures Allowed(v, false, false, true) && pos < |ts| && pos <= value.1 <= |ts| && valued == ts[pos].Value?
    ensures if valued then Written(v, ts, pos + 1, tags, value) else v.Omitted? && value == (Leaf(EMPTY), pos)
    ensures PairValue(ts, pos, tags) == Some(([value.0], value.1))
    decreases |ts| - pos, 0
  {
    hide T.Holds, EntryAt, Written, Yield, Means;
    valued := ts[pos].Value?;
    if valued {
      var missing := Is(ts, pos + 1, NoPairValue);
      value := EntryAt(ts, pos + 1, tags, false, false, missing).value;
      EntryBehind(ts, pos + 1, tags, false, false, missing);
      v := EntryWritten(ts, pos + 1, tags, false, false, missing);
    } else {
      v, value := Omitted, (Leaf(EMPTY), pos);
    }
  }

  lemma SingleTokens(ts: Tokens, pos: nat, k: Tokens, lost: Tokens, valued: bool, v: Tokens)
    requires var at := pos + 1 + |k| + |lost|;
             && pos < |ts| && ts[pos].Key? && T.Holds(ts, pos + 1, k) && T.Holds(ts, pos + 1 + |k|, lost) && at <= |ts|
             && (valued ==> at < |ts| && ts[at].Value? && T.Holds(ts, at + 1, v))
    ensures T.Holds(ts, pos, [Key] + (k + (lost + if valued then [Value] + v else [])))
  {
    hide T.Holds;
    var w := if valued then [Value] + v else [];
    var at := pos + 1 + |k| + |lost|;
    if valued {
      HoldsToken(ts, at, Value);
      HoldsJoin(ts, at, [Value], v);
    } else {
      HoldsNothing(ts, at);
    }
    HoldsJoin(ts, pos + 1 + |k|, lost, w);
    HoldsJoin(ts, pos + 1, k, lost + w);
    HoldsToken(ts, pos, Key);
    HoldsJoin(ts, pos, [Key], k + (lost + w));
  }

  lemma SingleJoin(s: Syntax, ts: Tokens, pos: nat, tags: Tags, key: (Tree, nat), value: (Tree, nat))
    requires s.Single? && pos < |ts| && ts[pos].Key? && Allowed(s.key, false, false, true) && Written(s.key, ts, pos + 1, tags, key)
    requires T.Holds(ts, key.1, s.lost) && Allowed(s.value, false, false, true)
    requires if s.valued then key.1 + |s.lost| < |ts| && ts[key.1 + |s.lost|].Value? && Written(s.value, ts, key.1 + |s.lost| + 1, tags, value)
             else s.value.Omitted? && value == (Leaf(EMPTY), key.1 + |s.lost|)
    requires value.1 < |ts| && (s.key.Omitted? && s.lost == [] ==> !s.valued && ts[value.1].FlowSequenceEnd?)
    requires if s.key.Omitted? then s.lost == [] || s.lost == [Value] || s.lost == [FlowEntry] else s.lost == []
    ensures Written(s, ts, pos, tags, (Collection(PAIR, [key.0, value.0]), value.1)) && AllowedItem(s, ts[value.1].FlowSequenceEnd?)
  {
    hide T.Holds, Allowed, Known, Yield, Means, AllowedItem;
    OmittedIs(tags);
    OmittedKnown(tags);
    SingleKnown(s, tags, ts[value.1].FlowSequenceEnd?);
    SingleYield(s);
    SingleMeans(s, tags);
    SingleTokens(ts, pos, Yield(s.key), s.lost, s.valued, Yield(s.value));
  }

  lemma SingleKnown(s: Syntax, tags: Tags, last: bool)
    requires s.Single? && Known(s.key, tags) && Known(s.value, tags)
    requires Allowed(s.key, false, false, true) && Allowed(s.value, false, false, true) && (!s.valued ==> s.value.Omitted?)
    requires if s.key.Omitted? then s.lost == [Value] || s.lost == [FlowEntry] || (s.lost == [] && last && !s.valued) else s.lost == []
    ensures Known(s, tags) && AllowedItem(s, last)
  {
    hide Allowed;
  }

  lemma FlowSeqWritten(m: Marks, items: seq<Syntax>, comma: bool, ts: Tokens, pos: nat, tags: Tags, block: bool, indentless: bool)
    requires Marked(m, ts, pos, tags) && ts[pos + |MarkTokens(m)|] == FlowSequenceStart(false) && FlowItemsKnown(items, comma, tags)
    requires T.Holds(ts, pos + |MarkTokens(m)| + 1, FlowItemTokens(items, comma) + [FlowSequenceEnd])
    ensures var s := FlowSeq(m, items, comma);
            && Allowed(s, block, indentless, false)
            && Written(s, ts, pos, tags, (Collection(SequenceOf(Properties(m.anchor, TagOf(m, tags), 0), FLOW), ItemTrees(items, tags)),
                                          pos + |MarkTokens(m)| + 1 + |FlowItemTokens(items, comma)| + 1))
  {
    hide T.Holds, PropertiesAt, MarkTokens, FlowItemTokens, ItemTrees, AllowedItem;
    OpenWritten(m, FlowSequenceStart(false), FlowItemTokens(items, comma) + [FlowSequenceEnd], ts, pos);
  }

  ghost predicate FlowEntriesKnown(entries: seq<Entry>, comma: bool, tags: Tags) {
    (comma ==> entries != []) && EntriesWritten(entries, false, tags)
  }

  lemma FlowEntryJoin(e: Entry, rest: seq<Entry>, sep: bool, comma: bool, tags: Tags, ts: Tokens, pos: nat, k: Tree, v: Tree, next: nat)
    requires PairWritten(e, false, ts, pos, tags, k, v, next) && FlowEntriesKnown(rest, comma, tags)
    requires (rest != [] ==> sep) && (sep ==> next < |ts| && ts[next].FlowEntry?)
    requires T.Holds(ts, if sep then next + 1 else next, FlowEntryTokens(rest, comma) + [FlowMappingEnd])
    ensures var entries, last := [e] + rest, if rest == [] then sep else comma;
            && FlowEntriesKnown(entries, last, tags)
            && T.Holds(ts, pos, FlowEntryTokens(entries, last) + [FlowMappingEnd])
            && EntryTrees(entries, tags) == [k] + ([v] + EntryTrees(rest, tags))
            && pos + |FlowEntryTokens(entries, last)| == (if sep then next + 1 else next) + |FlowEntryTokens(rest, comma)|
  {
    hide T.Holds, AllowedEntry, KnownEntry, YieldEntry, Means, FlowEntryTokens, EntryTrees;
    var entries, last := [e] + rest, if rest == [] then sep else comma;
    FlowEntriesSplit(entries, last, tags);
    EntriesSplit(entries, tags);
    assert entries[1..] == rest;
    NoItems(tags);
    assert FlowEntryTokens(rest, last) == FlowEntryTokens(rest, comma);
    var w := FlowEntryTokens(rest, comma) + [FlowMappingEnd];
    var c := if sep then [FlowEntry] else [];
    if sep {
      HoldsToken(ts, next, FlowEntry);
      HoldsJoin(ts, next, [FlowEntry], w);
    } else {
      assert c + w == w;
    }
    HoldsJoin(ts, pos, YieldEntry(e), c + w);
    assert FlowEntryTokens(entries, last) + [FlowMappingEnd] == YieldEntry(e) + (c + w);
  }

  lemma {:induction false} FlowPairsWritten(ts: Tokens, pos: nat, tags: Tags) returns (entries: seq<Entry>, comma: bool)
    requires FlowPairs(ts, pos, tags).Some?
    ensures FlowEntriesKnown(entries, comma, tags) && T.Holds(ts, pos, FlowEntryTokens(entries, comma) + [FlowMappingEnd])
    ensures FlowPairs(ts, pos, tags) == Some((EntryTrees(entries, tags), pos + |FlowEntryTokens(entries, comma)| + 1))
    decreases |ts| - pos, 4
  {
    hide T.Holds, NodeAt, EntryAt, FlowValue, PairWritten, Known, FlowEntryTokens, EntryTrees, Yield, Means;
    NoItems(tags);
    if ts[pos].FlowMappingEnd? {
      entries, comma := [], false;
      HoldsToken(ts, pos, FlowMappingEnd);
      assert FlowEntryTokens(entries, comma) + [FlowMappingEnd] == [FlowMappingEnd];
    } else {
      var e, k, v, next := FlowPairWritten(ts, pos, tags);
      var sep := ts[next].FlowEntry?;
      var rest, more := [], false;
      if sep {
        rest, more := FlowPairsWritten(ts, next + 1, tags);
      } else {
        HoldsToken(ts, next, FlowMappingEnd);
        assert FlowEntryTokens(rest, more) + [FlowMappingEnd] == [FlowMappingEnd];
      }
      entries, comma := [e] + rest, if rest == [] then sep else more;
      FlowEntryJoin(e, rest, sep, more, tags, ts, pos, k, v, next);
    }
  }

  lemma {:induction false} FlowPairWritten(ts: Tokens, pos: nat, tags: Tags) returns (e: Entry, k: Tree, v: Tree, next: nat)
    requires FlowPairs(ts, pos, tags).Some? && !ts[pos].FlowMappingEnd?
    ensures PairWritten(e, false, ts, pos, tags, k, v, next) && pos <= next < |ts| && (ts[next].FlowMappingEnd? || ts[next].FlowEntry?)
    ensures FlowPairs(ts, pos, tags) == Cons(k, Cons(v, MorePairs(ts, next, tags))) && MorePairs(ts, next, tags).Some?
    decreases |ts| - pos, 3
  {
    hide T.Holds, NodeAt, EntryAt, Allowed, Written, Known, Yield, Means, PairWritten, FlowValue;
    if ts[pos].Key? {
      var missing := Is(ts, pos + 1, NoFlowKey);
      var key := EntryAt(ts, pos + 1, tags, false, false, missing).value;
      EntryBehind(ts, pos + 1, tags, false, false, missing);
      var s := EntryWritten(ts, pos + 1, tags, false, false, missing);
      var valued, w, value := FlowValueWritten(ts, key.1, tags);
      e, k, v, next := Entry(true, s, valued, w), key.0, value.0, value.1;
      PairJoin(true, s, valued, w, false, ts, pos, tags, key, value);
    } else {
      var key := NodeAt(ts, pos, tags, false, false).value;
      NodeBehind(ts, pos, tags, false, false);
      var s := NodeWritten(ts, pos, tags, false, false);
      e, k, v, next := Entry(false, s, false, Omitted), key.0, Leaf(EMPTY), key.1;
      OmittedWritten(ts, next, tags);
      PairJoin(false, s, false, Omitted, false, ts, pos, tags, key, (v, next));
    }
  }

  lemma {:induction false} FlowValueWritten(ts: Tokens, pos: nat, tags: Tags) returns (valued: bool, v: Syntax, value: (Tree, nat))
    requires FlowValue(ts, pos, tags).Some?
    ensures Allowed(v, false, false, true) && pos <= value.1 <= |ts| && pos <= |ts|
    ensures if valued then pos < |ts| && ts[pos].Value? && Written(v, ts, pos + 1, tags, value)
            else v.Omitted? && value == (Leaf(EMPTY), pos)
    ensures FlowValue(ts, pos, tags) == Cons(value.0, MorePairs(ts, value.1, tags))
    ensures MorePairs(ts, value.1, tags).Some?
    decreases |ts| - pos, 1
  {
    hide T.Holds, EntryAt, Written, Yield, Means, MorePairs;
    valued := ts[pos].Value?;
    if valued {
      var missing := Is(ts, pos + 1, NoFlowValue);
      value := EntryAt(ts, pos + 1, tags, false, false, missing).value;
      EntryBehind(ts, pos + 1, tags, false, false, missing);
      v := EntryWritten(ts, pos + 1, tags, false, false, missing);
    } else {
      v, value := Omitted, (Leaf(EMPTY), pos);
    }
  }

  lemma FlowMapWritten(m: Marks, entries: seq<Entry>, comma: bool, ts: Tokens, pos: nat, tags: Tags, block: bool, indentless: bool)
    requires Marked(m, ts, pos, tags) && ts[pos + |MarkTokens(m)|] == FlowMappingStart(false) && FlowEntriesKnown(entries, comma, tags)
    requires T.Holds(ts, pos + |MarkTokens(m)| + 1, FlowEntryTokens(entries, comma) + [FlowMappingEnd])
    ensures var s := FlowMap(m, entries, comma);
            && Allowed(s, block, indentless, false)
            && Written(s, ts, pos, tags, (Collection(MappingOf(Properties(m.anchor, TagOf(m, tags), 0), FLOW), EntryTrees(entries, tags)),
                                          pos + |MarkTokens(m)| + 1 + |FlowEntryTokens(entries, comma)| + 1))
  {
    hide T.Holds, PropertiesAt, MarkTokens, FlowEntryTokens, EntryTrees, AllowedEntry, KnownEntry;
    OpenWritten(m, FlowMappingStart(false), FlowEntryTokens(entries, comma) + [FlowMappingEnd], ts, pos);
  }

  // ----- documents

  lemma {:induction false} EndsWritten(ts: Tokens, pos: nat)
    requires pos <= |ts|
    ensures T.Holds(ts, pos, EndTokens(PastEnds(ts, pos) - pos))
    decreases |ts| - pos
  {
    if pos < |ts| && ts[pos].DocumentEndToken? {
      EndsWritten(ts, pos + 1);
      HoldsToken(ts, pos, DocumentEndToken);
      HoldsJoin(ts, pos, [DocumentEndToken], EndTokens(PastEnds(ts, pos + 1) - (pos + 1)));
    } else {
      HoldsNothing(ts, pos);
    }
  }

  /** What is read behind a root: the ends of its document, and the other documents. */
  lemma AfterRootIs(ts: Tokens, t: Tree, next: nat)
    requires next <= |ts| && AfterRoot(ts, Some((t, next))).Some?
    ensures next < |ts| && next <= PastEnds(ts, next) <= |ts| && Documents(ts, PastEnds(ts, next), []).Some?
    ensures AfterRoot(ts, Some((t, next))) == Cons(t, Documents(ts, PastEnds(ts, next), []))
  {
    hide Documents;
  }

  lemma DirectivesWritten(ts: Tokens, pos: nat) returns (run: Tokens)
    requires pos <= |ts| && Directives(ts, pos, []).Some?
    ensures Permitted(run, []) && (forall k :: 0 <= k < |run| ==> IsDirective(run[k])) && T.Holds(ts, pos, run)
    ensures Directives(ts, pos, []) == Some((pos + |run|, Defaults(Declared(run)))) && pos + |run| < |ts|
    ensures pos < |ts| && !IsDirective(ts[pos]) ==> run == []
  {
    hide Permitted, Defaults, Declared;
    run := ts[pos..pos + DirectiveRun(ts, pos)];
    assert [] + Declared(run) == Declared(run);
  }

  /** The parts of a document are its tokens. */
  lemma DocumentJoin(d: Document, ts: Tokens, pos: nat)
    requires d.explicit || d.directives == []
    requires T.Holds(ts, pos, d.directives) && (d.explicit ==> pos + |d.directives| < |ts| && ts[pos + |d.directives|] == DocumentStartToken)
    requires var at := pos + |d.directives| + if d.explicit then 1 else 0;
             T.Holds(ts, at, Yield(d.root)) && T.Holds(ts, at + |Yield(d.root)|, EndTokens(d.ends))
    ensures T.Holds(ts, pos, YieldDocument(d))
    ensures |YieldDocument(d)| == |d.directives| + (if d.explicit then 1 else 0) + |Yield(d.root)| + d.ends
  {
    hide T.Holds, Yield;
    var front := if d.explicit then d.directives + [DocumentStartToken] else [];
    if d.explicit {
      HoldsToken(ts, pos + |d.directives|, DocumentStartToken);
      HoldsJoin(ts, pos, d.directives, [DocumentStartToken]);
    }
    HoldsJoin(ts, pos + |front|, Yield(d.root), EndTokens(d.ends));
    if d.explicit {
      HoldsJoin(ts, pos, front, Yield(d.root) + EndTokens(d.ends));
    } else {
      assert YieldDocument(d) == Yield(d.root) + EndTokens(d.ends);
    }
  }

  lemma DocumentsJoin(d: Document, rest: seq<Document>, ts: Tokens, pos: nat)
    requires T.Holds(ts, pos, YieldDocument(d)) && T.Holds(ts, pos + |YieldDocument(d)|, YieldDocuments(rest) + [StreamEndToken])
    ensures T.Holds(ts, pos, YieldDocuments([d] + rest) + [StreamEndToken])
    ensures |YieldDocuments([d] + rest)| == |YieldDocument(d)| + |YieldDocuments(rest)|
    ensures DocumentTrees([d] + rest) == [Means(d.root, DocumentTags(d))] + DocumentTrees(rest)
  {
    hide T.Holds, YieldDocument, YieldDocuments, DocumentTrees, DocumentTags, Means;
    DocumentsSplit([d] + rest);
    assert ([d] + rest)[1..] == rest;
    HoldsJoin(ts, pos, YieldDocument(d), YieldDocuments(rest) + [StreamEndToken]);
    assert YieldDocuments([d] + rest) + [StreamEndToken] == YieldDocument(d) + (YieldDocuments(rest) + [StreamEndToken]);
  }

  lemma AllowedIs(d: Document, first: bool)
    requires d.explicit ==> Permitted(d.directives, []) && forall k :: 0 <= k < |d.directives| ==> IsDirective(d.directives[k])
    requires !d.explicit ==> first && d.directives == []
    requires Allowed(d.root, true, false, d.explicit) && Known(d.root, DocumentTags(d))
    ensures AllowedDocument(d, first)
  {
  }

  lemma {:induction false} DocumentsWritten(ts: Tokens, pos: nat) returns (ds: seq<Document>)
    requires Documents(ts, pos, []).Some?
    ensures forall i :: 0 <= i < |ds| ==> AllowedDocument(ds[i], false)
    ensures T.Holds(ts, pos, YieldDocuments(ds) + [StreamEndToken])
    ensures Documents(ts, pos, []) == Some((DocumentTrees(ds), pos + |YieldDocuments(ds)| + 1))
    decreases |ts| - pos
  {
    hide T.Holds, Allowed, AllowedDocument, Permitted, YieldDocuments, YieldDocument, DocumentTrees, Written, EntryAt, AfterRoot,
         Directives, Declared, Defaults, DocumentTags, Means, Known, Yield, PastEnds;
    NoDocumentTokens();
    if ts[pos].StreamEndToken? {
      ds := [];
      HoldsToken(ts, pos, StreamEndToken);
      assert YieldDocuments(ds) + [StreamEndToken] == [StreamEndToken];
    } else {
      var run := DirectivesWritten(ts, pos);
      var at, known := pos + |run| + 1, Defaults(Declared(run));
      var missing := Is(ts, at, NoRoot);
      SomeRoot(ts, EntryAt(ts, at, known, true, false, missing));
      var read := EntryAt(ts, at, known, true, false, missing).value;
      EntryBehind(ts, at, known, true, false, missing);
      var root := EntryWritten(ts, at, known, true, false, missing);
      AfterRootIs(ts, read.0, read.1);
      var end := PastEnds(ts, read.1);
      EndsWritten(ts, read.1);
      var rest := DocumentsWritten(ts, end);
      var d := Document(true, run, root, end - read.1);
      WrittenIs(root, ts, at, known, read);
      TagsAre(d);
      AllowedIs(d, false);
      DocumentJoin(d, ts, pos);
      DocumentsJoin(d, rest, ts, pos);
      ds := [d] + rest;
    }
  }

  lemma SomeRoot(ts: Tokens, root: Parsed)
    requires root.Some? ==> root.value.1 <= |ts|
    requires AfterRoot(ts, root).Some?
    ensures root.Some?
  {
  }

  lemma WrittenIs(s: Syntax, ts: Tokens, pos: nat, tags: Tags, read: (Tree, nat))
    requires Written(s, ts, pos, tags, read)
    ensures Known(s, tags) && T.Holds(ts, pos, Yield(s)) && read == (Means(s, tags), pos + |Yield(s)|)
  {
  }

  /** The first document when it has neither directives nor DOCUMENT-START, and the documents behind it. */
  lemma ImplicitWritten(ts: Tokens) returns (ds: seq<Document>)
    requires FirstDocument(ts, 1, []).Some? && 1 < |ts| && !StartsExplicit(ts[1]) && !ts[1].StreamEndToken?
    ensures AllowedStream(ds) && T.Holds(ts, 1, YieldDocuments(ds) + [StreamEndToken])
    ensures FirstDocument(ts, 1, []) == Some((DocumentTrees(ds), 1 + |YieldDocuments(ds)| + 1))
  {
    hide T.Holds, Allowed, AllowedDocument, Permitted, YieldDocuments, YieldDocument, DocumentTrees, Written, NodeAt, AfterRoot,
         Directives, Declared, Defaults, DocumentTags, Means, Known, Yield, PastEnds, Documents;
    var run := DirectivesWritten(ts, 1);
    var known := Defaults(Declared([]));
    SomeRoot(ts, NodeAt(ts, 1, known, true, false));
    var read := NodeAt(ts, 1, known, true, false).value;
    NodeBehind(ts, 1, known, true, false);
    var root := NodeWritten(ts, 1, known, true, false);
    AfterRootIs(ts, read.0, read.1);
    var end := PastEnds(ts, read.1);
    EndsWritten(ts, read.1);
    var rest := DocumentsWritten(ts, end);
    var d := Document(false, [], root, end - read.1);
    WrittenIs(root, ts, 1, known, read);
    TagsAre(d);
    AllowedIs(d, true);
    DocumentJoin(d, ts, 1);
    DocumentsJoin(d, rest, ts, 1);
    ds := [d] + rest;
    AllowedFirst(d, rest);
  }

  lemma AllowedFirst(d: Document, rest: seq<Document>)
    requires AllowedDocument(d, true) && forall i :: 0 <= i < |rest| ==> AllowedDocument(rest[i], false)
    ensures AllowedStream([d] + rest)
  {
    hide Allowed, Known, Permitted;
  }

  lemma AllowedRest(ds: seq<Document>)
    requires forall i :: 0 <= i < |ds| ==> AllowedDocument(ds[i], false)
    ensures AllowedStream(ds)
  {
    hide Allowed, Known, Permitted;
  }

  lemma StreamWritten(ts: Tokens) returns (ds: seq<Document>)
    requires StreamAt(ts).Some?
    ensures AllowedStream(ds) && T.Holds(ts, 0, YieldStream(ds))
    ensures StreamAt(ts) == Some((DocumentTrees(ds), |YieldStream(ds)|))
  {
    hide T.Holds, AllowedDocument, AllowedStream, YieldDocuments, DocumentTrees, Documents, NodeAt, AfterRoot, Directives;
    if StartsExplicit(ts[1]) || ts[1].StreamEndToken? {
      ds := DocumentsWritten(ts, 1);
      AllowedRest(ds);
    } else {
      ds := ImplicitWritten(ts);
    }
    HoldsToken(ts, 0, StreamStartToken);
    HoldsJoin(ts, 0, [StreamStartToken], YieldDocuments(ds) + [StreamEndToken]);
  }

  /** Documents written by the productions stand at the head of the tokens. */
  ghost predicate Writes(ds: seq<Document>, ts: Tokens) {
    AllowedStream(ds) && T.Holds(ts, 0, YieldStream(ds))
  }

  /** Tokens are read as these documents, up to there, exactly if the productions write them and mean these documents. */
  lemma StreamReadIff(ts: Tokens, docs: seq<Tree>, next: nat)
    ensures StreamAt(ts) == Some((docs, next)) <==> exists ds :: Writes(ds, ts) && DocumentTrees(ds) == docs && |YieldStream(ds)| == next
    ensures StreamAt(ts) == None <==> !exists ds :: Writes(ds, ts)
  {
    hide T.Holds, AllowedStream, YieldStream, DocumentTrees, StreamAt;
    if StreamAt(ts).Some? {
      var ds := StreamWritten(ts);
      assert Writes(ds, ts);
    }
    forall ds | Writes(ds, ts)
      ensures StreamAt(ts) == Some((DocumentTrees(ds), |YieldStream(ds)|))
    {
      StreamReads(ds, ts);
    }
  }

  /** The parser fails exactly if no documents write these tokens, and else its events are those of the documents that do. */
  method ParseTokens(ts: Tokens) returns (parser: P.Parser)
    ensures fresh(parser) && parser.Valid() && parser.tokens == ts
    ensures parser.error <==> !exists ds :: Writes(ds, ts)
    ensures !parser.error ==> forall ds | Writes(ds, ts) :: parser.log == StreamWord(DocumentTrees(ds))
  {
    hide T.Holds, AllowedStream, YieldStream, DocumentTrees, StreamAt, StreamWord, Writes;
    parser := P.ParseAll(ts);
    StreamReadIff(ts, [], 0);
    forall ds | !parser.error && Writes(ds, ts)
      ensures parser.log == StreamWord(DocumentTrees(ds))
    {
      StreamReadIff(ts, DocumentTrees(ds), |YieldStream(ds)|);
    }
  }
}
