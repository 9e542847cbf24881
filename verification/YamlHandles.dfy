/** Tag handles: what a tag stands for in a document, where its handle is known, and what nodes mean. */
module YamlHandles {
  import opened Basics
  import opened YamlGraph
  import opened YamlTrees
  import opened YamlGrammar
  import opened YamlSyntax
  import opened YamlWritten
  import T = YamlTokens

  // ----- what a handle stands for

  lemma FirstHandle(tags: Tags, i: nat)
    requires i < |tags| && forall k :: 0 <= k < i ==> tags[k].0 != tags[i].0
    ensures HandleIndex(tags, tags[i].0) == i
  {
  }

  lemma NoHandle(tags: Tags, handle: string)
    requires forall k :: 0 <= k < |tags| ==> tags[k].0 != handle
    ensures HandleIndex(tags, handle) == |tags|
  {
  }

  /** The handles known are the declared ones, in order. */
  lemma {:induction false} DeclaredHandles(run: Tokens)
    ensures forall k :: 0 <= k < |Declared(run)| ==> Declares(run, Declared(run)[k].0)
    ensures forall k | 0 <= k < |run| && run[k].TagDirective? :: (run[k].handle, run[k].prefix) in Declared(run)
    decreases |run|
  {
    if run != [] {
      var n := |run| - 1;
      var front := run[..n];
      DeclaredHandles(front);
      assert forall h :: Declares(front, h) ==> Declares(run, h);
      if run[n].TagDirective? {
        assert Declares(run, run[n].handle);
      }
      forall k | 0 <= k < |run| && run[k].TagDirective?
        ensures (run[k].handle, run[k].prefix) in Declared(run)
      {
        if k < n {
          assert front[k] == run[k];
        }
      }
    }
  }

  /** No handle is declared twice. */
  lemma {:induction false} DeclaredOnce(run: Tokens)
    requires Permitted(run, [])
    ensures forall i, k :: 0 <= i < k < |Declared(run)| ==> Declared(run)[i].0 != Declared(run)[k].0
    decreases |run|
  {
    if run != [] {
      var n := |run| - 1;
      var front := run[..n];
      PermittedFront(run);
      DeclaredOnce(front);
      DeclaredHandles(front);
    }
  }

  lemma PermittedFront(run: Tokens)
    requires Permitted(run, []) && run != []
    ensures Permitted(run[..|run| - 1], [])
    ensures var t := run[|run| - 1]; t.TagDirective? ==> !Declares(run[..|run| - 1], t.handle)
  {
    var front := run[..|run| - 1];
    forall i | 0 <= i < |front|
      ensures front[..i] == run[..i] && front[i] == run[i]
    {
    }
  }

  lemma DeclaredIndex(run: Tokens, k: nat)
    requires Permitted(run, []) && k < |run| && run[k].TagDirective?
    ensures var i := HandleIndex(Declared(run), run[k].handle);
            i < |Declared(run)| && Declared(run)[i] == (run[k].handle, run[k].prefix)
  {
    hide Permitted, Declared, Declares;
    DeclaredHandles(run);
    DeclaredOnce(run);
    var i :| 0 <= i < |Declared(run)| && Declared(run)[i] == (run[k].handle, run[k].prefix);
    FirstHandle(Declared(run), i);
  }

  lemma WithDefaultKeeps(tags: Tags, handle: string, prefix: string, asked: string)
    ensures var all, i := WithDefault(tags, handle, prefix), HandleIndex(WithDefault(tags, handle, prefix), asked);
            && (HandleIndex(tags, asked) < |tags| ==> i == HandleIndex(tags, asked) && i < |all| && all[i] == tags[i])
            && (HandleIndex(tags, asked) == |tags| && asked == handle ==> i < |all| && all[i] == (handle, prefix))
            && (HandleIndex(tags, asked) == |tags| && asked != handle ==> i == |all|)
  {
    var all := WithDefault(tags, handle, prefix);
    var j := HandleIndex(tags, asked);
    if j < |tags| {
      FirstHandle(all, j);
    } else if asked == handle {
      FirstHandle(all, |tags|);
    } else {
      NoHandle(all, asked);
    }
  }

  /**
   * What a tag stands for in a document: without a handle its suffix; with a handle that the document declares the
   * prefix of that declaration and the suffix; with "!" and "!!", unless they are declared, "!" and the YAML prefix
   * and the suffix; with any other handle nothing.
   */
  lemma TagStandsFor(run: Tokens, m: Marks, handle: string, suffix: string)
    requires Permitted(run, []) && m.tag == Some((handle, suffix))
    ensures handle == "" ==> TagOf(m, Defaults(Declared(run))) == Some(suffix)
    ensures forall k :: 0 <= k < |run| && run[k].TagDirective? && run[k].handle == handle && handle != "" ==>
              TagOf(m, Defaults(Declared(run))) == Some(run[k].prefix + suffix)
    ensures handle == "!" && !Declares(run, handle) ==> TagOf(m, Defaults(Declared(run))) == Some("!" + suffix)
    ensures handle == "!!" && !Declares(run, handle) ==> TagOf(m, Defaults(Declared(run))) == Some("tag:yaml.org,2002:" + suffix)
    ensures handle != "" && handle != "!" && handle != "!!" && !Declares(run, handle) ==> TagOf(m, Defaults(Declared(run))) == None
  {
    hide Permitted, Declared, WithDefault;
    var tags := Declared(run);
    var first := WithDefault(tags, "!", "!");
    WithDefaultKeeps(tags, "!", "!", handle);
    WithDefaultKeeps(first, "!!", "tag:yaml.org,2002:", handle);
    forall k | 0 <= k < |run| && run[k].TagDirective? && run[k].handle == handle && handle != ""
      ensures TagOf(m, Defaults(tags)) == Some(run[k].prefix + suffix)
    {
      DeclaredIndex(run, k);
    }
    DeclaredHandles(run);
    if !Declares(run, handle) {
      NoHandle(tags, handle);
    }
  }

  // ----- where a handle is known

  /** Tokens of nodes: none that ends a document or starts one, and every tag has a handle that is known. */
  predicate NodeTokens(w: Tokens, tags: Tags) {
    forall i :: 0 <= i < |w| ==> !NoRoot(w[i]) && (w[i].TagToken? ==> Resolve(tags, w[i].handle, w[i].suffix).Some?)
  }

  lemma NodeTokensJoin(v: Tokens, w: Tokens, tags: Tags)
    requires NodeTokens(v, tags) && NodeTokens(w, tags)
    ensures NodeTokens(v + w, tags)
  {
    hide NoRoot, Resolve;
  }

  lemma OneToken(t: Token, tags: Tags)
    requires !NoRoot(t) && !t.TagToken?
    ensures NodeTokens([t], tags) && NodeTokens([], tags)
  {
    hide NoRoot;
  }

  lemma MarksTokens(m: Marks, tags: Tags)
    requires KnownTag(m, tags)
    ensures NodeTokens(MarkTokens(m), tags)
  {
    hide Resolve;
  }

  lemma Wrapped(m: Marks, open: Token, w: Tokens, close: Token, tags: Tags)
    requires KnownTag(m, tags) && NodeTokens(w, tags) && !NoRoot(open) && !NoRoot(close) && !open.TagToken? && !close.TagToken?
    ensures NodeTokens(MarkTokens(m) + ([open] + (w + [close])), tags)
  {
    hide NodeTokens, MarkTokens, KnownTag;
    MarksTokens(m, tags);
    OneToken(open, tags);
    OneToken(close, tags);
    NodeTokensJoin(w, [close], tags);
    NodeTokensJoin([open], w + [close], tags);
    NodeTokensJoin(MarkTokens(m), [open] + (w + [close]), tags);
  }

  lemma {:induction false} SyntaxTokens(s: Syntax, tags: Tags, block: bool, indentless: bool, optional: bool)
    requires Allowed(s, block, indentless, optional) && Known(s, tags)
    ensures NodeTokens(Yield(s), tags)
    decreases s, 0
  {
    hide NodeTokens, MarkTokens, KnownTag, BlockItemTokens, EntryTokens, FlowItemTokens, FlowEntryTokens, AllowedItem, AllowedEntry, KnownEntry;
    match s
    case Omitted => OneToken(Key, tags);
    case Ref(name) => OneToken(AliasToken(name), tags);
    case Text(m, text, style) =>
      MarksTokens(m, tags);
      OneToken(ScalarToken(text, style), tags);
      NodeTokensJoin(MarkTokens(m), [ScalarToken(text, style)], tags);
    case Bare(m) => MarksTokens(m, tags);
    case BlockSeq(m, items) =>
      ItemsTokens(items, tags);
      Wrapped(m, BlockSequenceStart(false), BlockItemTokens(items), BlockEnd, tags);
    case IndentlessSeq(m, items) =>
      ItemsTokens(items, tags);
      MarksTokens(m, tags);
      NodeTokensJoin(MarkTokens(m), BlockItemTokens(items), tags);
    case BlockMap(m, entries) =>
      EntriesTokens(entries, tags, true);
      Wrapped(m, BlockMappingStart(false), EntryTokens(entries), BlockEnd, tags);
    case FlowSeq(m, items, comma) =>
      AnyLast(items, !comma);
      FlowItemsTokens(items, comma, tags);
      Wrapped(m, FlowSequenceStart(false), FlowItemTokens(items, comma), FlowSequenceEnd, tags);
    case FlowMap(m, entries, comma) =>
      FlowEntriesTokens(entries, comma, tags);
      Wrapped(m, FlowMappingStart(false), FlowEntryTokens(entries, comma), FlowMappingEnd, tags);
  }

  lemma AnyLast(items: seq<Syntax>, ends: bool)
    requires forall i :: 0 <= i < |items| ==> AllowedItem(items[i], ends && i == |items| - 1)
    ensures forall i :: 0 <= i < |items| ==> AllowedItem(items[i], true)
  {
    hide Allowed;
  }

  lemma {:induction false} ItemsTokens(items: seq<Syntax>, tags: Tags)
    requires forall i :: 0 <= i < |items| ==> Allowed(items[i], true, false, true) && Known(items[i], tags)
    ensures NodeTokens(BlockItemTokens(items), tags)
    decreases items
  {
    hide NodeTokens, Allowed, Known, Yield;
    OneToken(BlockEntry, tags);
    if items != [] {
      SyntaxTokens(items[0], tags, true, false, true);
      ItemsTokens(items[1..], tags);
      NodeTokensJoin(Yield(items[0]), BlockItemTokens(items[1..]), tags);
      NodeTokensJoin([BlockEntry], Yield(items[0]) + BlockItemTokens(items[1..]), tags);
    }
  }

  lemma {:induction false} EntryOfTokens(e: Entry, tags: Tags, block: bool)
    requires AllowedEntry(e, block) && KnownEntry(e, tags)
    ensures NodeTokens(YieldEntry(e), tags)
    decreases e
  {
    hide NodeTokens, Allowed, Known, Yield;
    SyntaxTokens(e.key, tags, block, block, e.keyed);
    SyntaxTokens(e.value, tags, block, block, true);
    OneToken(Key, tags);
    OneToken(Value, tags);
    NodeTokensJoin([Value], Yield(e.value), tags);
    NodeTokensJoin(Yield(e.key), ValueTokens(e), tags);
    NodeTokensJoin(if e.keyed then [Key] else [], Yield(e.key) + ValueTokens(e), tags);
  }

  lemma {:induction false} EntriesTokens(entries: seq<Entry>, tags: Tags, block: bool)
    requires forall i :: 0 <= i < |entries| ==> AllowedEntry(entries[i], block) && KnownEntry(entries[i], tags)
    ensures NodeTokens(EntryTokens(entries), tags)
    decreases entries
  {
    hide NodeTokens, AllowedEntry, KnownEntry, YieldEntry;
    if entries == [] {
      OneToken(Key, tags);
    } else {
      EntryOfTokens(entries[0], tags, block);
      EntriesTokens(entries[1..], tags, block);
      NodeTokensJoin(YieldEntry(entries[0]), EntryTokens(entries[1..]), tags);
    }
  }

  lemma {:induction false} ItemTokens(s: Syntax, tags: Tags)
    requires AllowedItem(s, true) && Known(s, tags)
    ensures NodeTokens(Yield(s), tags)
    decreases s, 1
  {
    hide NodeTokens, Allowed;
    if s.Single? {
      SingleAllowed(s, true, tags);
      SyntaxTokens(s.key, tags, false, false, true);
      SyntaxTokens(s.value, tags, false, false, true);
      OneToken(Key, tags);
      OneToken(Value, tags);
      OneToken(FlowEntry, tags);
      NodeTokensJoin([Value], Yield(s.value), tags);
      var w := if s.valued then [Value] + Yield(s.value) else [];
      NodeTokensJoin(s.lost, w, tags);
      NodeTokensJoin(Yield(s.key), s.lost + w, tags);
      NodeTokensJoin([Key], Yield(s.key) + (s.lost + w), tags);
      SingleYield(s);
    } else {
      NodeItem(s, true);
      SyntaxTokens(s, tags, false, false, false);
    }
  }

  lemma {:induction false} FlowItemsTokens(items: seq<Syntax>, comma: bool, tags: Tags)
    requires forall i :: 0 <= i < |items| ==> AllowedItem(items[i], true) && Known(items[i], tags)
    ensures NodeTokens(FlowItemTokens(items, comma), tags)
    decreases items
  {
    hide NodeTokens, AllowedItem, Known, Yield;
    OneToken(FlowEntry, tags);
    if items != [] {
      ItemTokens(items[0], tags);
      FlowItemsTokens(items[1..], comma, tags);
      var sep := if comma || |items| > 1 then [FlowEntry] else [];
      NodeTokensJoin(sep, FlowItemTokens(items[1..], comma), tags);
      NodeTokensJoin(Yield(items[0]), sep + FlowItemTokens(items[1..], comma), tags);
    }
  }

  lemma {:induction false} FlowEntriesTokens(entries: seq<Entry>, comma: bool, tags: Tags)
    requires forall i :: 0 <= i < |entries| ==> AllowedEntry(entries[i], false) && KnownEntry(entries[i], tags)
    ensures NodeTokens(FlowEntryTokens(entries, comma), tags)
    decreases entries
  {
    hide NodeTokens, AllowedEntry, KnownEntry, YieldEntry;
    OneToken(FlowEntry, tags);
    if entries != [] {
      EntryOfTokens(entries[0], tags, false);
      FlowEntriesTokens(entries[1..], comma, tags);
      var sep := if comma || |entries| > 1 then [FlowEntry] else [];
      NodeTokensJoin(sep, FlowEntryTokens(entries[1..], comma), tags);
      NodeTokensJoin(YieldEntry(entries[0]), sep + FlowEntryTokens(entries[1..], comma), tags);
    }
  }

  /** A directive at j declares the handle, and the document it belongs to starts at k and is still open at i. */
  predicate DeclaredAt(ts: Tokens, handle: string, j: nat, k: nat, i: nat) {
    && j < k < i <= |ts| && ts[j].TagDirective? && ts[j].handle == handle && ts[k].DocumentStartToken?
    && (forall n :: j < n < k ==> ts[n].VersionDirective? || ts[n].TagDirective?)
    && (forall n :: k < n < i ==> !ts[n].DocumentStartToken? && !ts[n].DocumentEndToken?)
  }

  lemma DeclaredMeans(ts: Tokens, handle: string, i: nat)
    requires exists j, k :: DeclaredAt(ts, handle, j, k, i)
    ensures exists j: nat, k: nat ::
              && j < k < i <= |ts| && ts[j].TagDirective? && ts[j].handle == handle && ts[k].DocumentStartToken?
              && (forall n :: j < n < k ==> ts[n].VersionDirective? || ts[n].TagDirective?)
              && (forall n :: k < n < i ==> !ts[n].DocumentStartToken? && !ts[n].DocumentEndToken?)
  {
    var j: nat, k: nat :| DeclaredAt(ts, handle, j, k, i);
    assert ts[j].TagDirective? && ts[k].DocumentStartToken?;
  }

  /** The tag at position i is one of the document's root. */
  lemma TagInDocument(d: Document, first: bool, ts: Tokens, pos: nat, i: nat)
    requires T.Holds(ts, pos, YieldDocument(d)) && AllowedDocument(d, first) && pos <= i < pos + |YieldDocument(d)| <= |ts| && ts[i].TagToken?
    requires ts[i].handle != "" && ts[i].handle != "!" && ts[i].handle != "!!"
    ensures exists j, k :: DeclaredAt(ts, ts[i].handle, j, k, i)
  {
    hide Allowed, Known, Permitted, T.Holds, Yield, Resolve, Declared, Defaults, YieldDocument, AllowedDocument;
    DocumentParts(d, first, ts, pos);
    DocumentAllowed(d, first);
    var at := pos + |d.directives| + if d.explicit then 1 else 0;
    var w, handle := Yield(d.root), ts[i].handle;
    HoldsAt(ts, pos, d.directives);
    HoldsAt(ts, at, w);
    HoldsAt(ts, at + |w|, EndTokens(d.ends));
    assert at <= i < at + |w| && ts[i] == w[i - at];
    SyntaxTokens(d.root, DocumentTags(d), true, false, d.explicit);
    TagResolved(w, i - at, DocumentTags(d));
    var m := Marks(None, Some((handle, ts[i].suffix)), true);
    TagStandsFor(d.directives, m, handle, ts[i].suffix);
    ResolvedTag(m, DocumentTags(d));
    var j :| 0 <= j < |d.directives| && d.directives[j].TagDirective? && d.directives[j].handle == handle;
    var k := pos + |d.directives|;
    assert d.explicit;
    forall n | k < n < i
      ensures !ts[n].DocumentStartToken? && !ts[n].DocumentEndToken?
    {
      NoEnd(w, n - at, DocumentTags(d));
    }
    assert DeclaredAt(ts, handle, pos + j, k, i);
  }

  lemma DocumentAllowed(d: Document, first: bool)
    requires AllowedDocument(d, first)
    ensures Allowed(d.root, true, false, d.explicit) && Known(d.root, DocumentTags(d)) && Permitted(d.directives, [])
    ensures (forall k :: 0 <= k < |d.directives| ==> IsDirective(d.directives[k])) && (!d.explicit ==> d.directives == [])
  {
    hide Allowed, Known;
  }

  lemma TagResolved(w: Tokens, i: nat, tags: Tags)
    requires NodeTokens(w, tags) && i < |w| && w[i].TagToken?
    ensures Resolve(tags, w[i].handle, w[i].suffix).Some?
  {
  }

  lemma NoEnd(w: Tokens, i: nat, tags: Tags)
    requires NodeTokens(w, tags) && i < |w|
    ensures !w[i].DocumentStartToken? && !w[i].DocumentEndToken?
  {
  }

  lemma ResolvedTag(m: Marks, tags: Tags)
    requires m.tag.Some?
    ensures TagOf(m, tags) == Resolve(tags, m.tag.value.0, m.tag.value.1)
  {
  }

  lemma HoldsAt(ts: Tokens, pos: nat, w: Tokens)
    requires T.Holds(ts, pos, w)
    ensures pos + |w| <= |ts| && forall i :: pos <= i < pos + |w| ==> ts[i] == w[i - pos]
  {
  }

  lemma {:induction false} TagInDocuments(ds: seq<Document>, first: bool, ts: Tokens, pos: nat, i: nat)
    requires T.Holds(ts, pos, YieldDocuments(ds)) && pos <= i < pos + |YieldDocuments(ds)| <= |ts| && ts[i].TagToken?
    requires forall n :: 0 <= n < |ds| ==> AllowedDocument(ds[n], first && n == 0)
    requires ts[i].handle != "" && ts[i].handle != "!" && ts[i].handle != "!!"
    ensures exists j, k :: DeclaredAt(ts, ts[i].handle, j, k, i)
    decreases |ds|
  {
    hide T.Holds, AllowedDocument, YieldDocuments, YieldDocument, DeclaredAt;
    if ds == [] {
      NoDocumentTokens();
      return;
    }
    DocumentsSplit(ds);
    T.HoldsSplit(ts, pos, YieldDocument(ds[0]), YieldDocuments(ds[1..]));
    if i < pos + |YieldDocument(ds[0])| {
      TagInDocument(ds[0], first, ts, pos, i);
    } else {
      TagInDocuments(ds[1..], false, ts, pos + |YieldDocument(ds[0])|, i);
    }
  }

  /**
   * In tokens that are read, a handle that is not a default one is declared by a directive of the same document:
   * an undeclared handle is refused, and a declaration does not outlive its document.
   */
  lemma TagsDeclared(ts: Tokens, i: nat)
    requires StreamAt(ts).Some? && i < StreamAt(ts).value.1 && ts[i].TagToken?
    requires ts[i].handle != "" && ts[i].handle != "!" && ts[i].handle != "!!"
    ensures exists j: nat, k: nat ::
              && j < k < i && ts[j].TagDirective? && ts[j].handle == ts[i].handle && ts[k].DocumentStartToken?
              && (forall n :: j < n < k ==> ts[n].VersionDirective? || ts[n].TagDirective?)
              && (forall n :: k < n < i ==> !ts[n].DocumentStartToken? && !ts[n].DocumentEndToken?)
  {
    hide T.Holds, AllowedDocument, YieldDocuments, DeclaredAt, DocumentTrees, StreamAt;
    var ds := StreamWritten(ts);
    var w := YieldDocuments(ds);
    T.HoldsSplit(ts, 0, [StreamStartToken], w + [StreamEndToken]);
    T.HoldsSplit(ts, 1, w, [StreamEndToken]);
    T.HoldsOne(ts, 0, StreamStartToken);
    T.HoldsOne(ts, 1 + |w|, StreamEndToken);
    TagInDocuments(ds, true, ts, 1, i);
    DeclaredMeans(ts, ts[i].handle, i);
  }

  // ----- the productions, one by one

  /** How each of them is written. */
  lemma Productions(m: Marks, name: string, text: string, style: nat, items: seq<Syntax>, entries: seq<Entry>, comma: bool)
    ensures Yield(Omitted) == [] && Yield(Ref(name)) == [AliasToken(name)] && Yield(Bare(m)) == MarkTokens(m)
    ensures Yield(Text(m, text, style)) == MarkTokens(m) + [ScalarToken(text, style)]
    ensures Yield(BlockSeq(m, items)) == MarkTokens(m) + [BlockSequenceStart(false)] + BlockItemTokens(items) + [BlockEnd]
    ensures Yield(IndentlessSeq(m, items)) == MarkTokens(m) + BlockItemTokens(items)
    ensures Yield(BlockMap(m, entries)) == MarkTokens(m) + [BlockMappingStart(false)] + EntryTokens(entries) + [BlockEnd]
    ensures Yield(FlowSeq(m, items, comma)) == MarkTokens(m) + [FlowSequenceStart(false)] + FlowItemTokens(items, comma) + [FlowSequenceEnd]
    ensures Yield(FlowMap(m, entries, comma)) == MarkTokens(m) + [FlowMappingStart(false)] + FlowEntryTokens(entries, comma) + [FlowMappingEnd]
  {
    hide MarkTokens, BlockItemTokens, EntryTokens, FlowItemTokens, FlowEntryTokens;
  }

  /** Anchor and tag, in either order. */
  lemma MarkProductions(a: string, h: string, s: string, first: bool)
    ensures MarkTokens(Marks(None, None, first)) == [] && MarkTokens(Marks(Some(a), None, first)) == [AnchorToken(a)]
    ensures MarkTokens(Marks(None, Some((h, s)), first)) == [TagToken(h, s)]
    ensures MarkTokens(Marks(Some(a), Some((h, s)), true)) == [TagToken(h, s), AnchorToken(a)]
    ensures MarkTokens(Marks(Some(a), Some((h, s)), false)) == [AnchorToken(a), TagToken(h, s)]
  {
  }

  /** Items of block collections, and pairs. */
  lemma BlockProductions(s: Syntax, items: seq<Syntax>, e: Entry, entries: seq<Entry>)
    ensures BlockItemTokens([]) == [] && BlockItemTokens([s] + items) == [BlockEntry] + Yield(s) + BlockItemTokens(items)
    ensures EntryTokens([]) == [] && EntryTokens([e] + entries) == YieldEntry(e) + EntryTokens(entries)
    ensures YieldEntry(e) == (if e.keyed then [Key] else []) + Yield(e.key) + (if e.valued then [Value] + Yield(e.value) else [])
  {
    hide Yield;
    assert ([s] + items)[1..] == items && ([e] + entries)[1..] == entries;
  }

  /** Items of flow sequences with their separators. */
  lemma FlowProductions(s: Syntax, items: seq<Syntax>, comma: bool)
    ensures FlowItemTokens([], comma) == [] && FlowItemTokens([s], false) == Yield(s) && FlowItemTokens([s], true) == Yield(s) + [FlowEntry]
    ensures items != [] ==> FlowItemTokens([s] + items, comma) == Yield(s) + [FlowEntry] + FlowItemTokens(items, comma)
    ensures s.Single? ==> Yield(s) == [Key] + Yield(s.key) + s.lost + (if s.valued then [Value] + Yield(s.value) else [])
  {
    hide Yield;
    assert ([s] + items)[1..] == items && [s][1..] == [];
    if s.Single? {
      SingleYield(s);
    }
  }

  /** Pairs of flow mappings with their separators. */
  lemma FlowPairProductions(e: Entry, entries: seq<Entry>, comma: bool)
    ensures FlowEntryTokens([], comma) == [] && FlowEntryTokens([e], false) == YieldEntry(e)
    ensures FlowEntryTokens([e], true) == YieldEntry(e) + [FlowEntry]
    ensures entries != [] ==> FlowEntryTokens([e] + entries, comma) == YieldEntry(e) + [FlowEntry] + FlowEntryTokens(entries, comma)
  {
    hide YieldEntry;
    assert ([e] + entries)[1..] == entries && [e][1..] == [];
  }

  /** What each of them means: the event with its anchor, tag, flags and style, and the children in order. */
  lemma Meanings(m: Marks, name: string, text: string, style: nat, items: seq<Syntax>, entries: seq<Entry>, comma: bool, tags: Tags)
    ensures Means(Omitted, tags) == Leaf(ScalarEvent(None, None, "", true, false, 1)) && Means(Ref(name), tags) == Leaf(Alias(Some(name)))
    ensures var tag := TagOf(m, tags);
            && Means(Text(m, text, style), tags) ==
                 Leaf(ScalarEvent(m.anchor, tag, text, (style == 1 && tag == None) || tag == Some("!"), style != 1 && tag == None, style))
            && Means(Bare(m), tags) == Leaf(ScalarEvent(m.anchor, tag, "", tag == None || tag == Some(""), false, 1))
    ensures var tag, kids := TagOf(m, tags), ItemTrees(items, tags);
            var open := tag == None || tag == Some("");
            && Means(BlockSeq(m, items), tags) == Collection(SequenceStart(m.anchor, tag, open, 1), kids)
            && Means(IndentlessSeq(m, items), tags) == Collection(SequenceStart(m.anchor, tag, open, 1), kids)
            && Means(FlowSeq(m, items, comma), tags) == Collection(SequenceStart(m.anchor, tag, open, 2), kids)
    ensures var tag, kids := TagOf(m, tags), EntryTrees(entries, tags);
            var open := tag == None || tag == Some("");
            && Means(BlockMap(m, entries), tags) == Collection(MappingStart(m.anchor, tag, open, 1), kids)
            && Means(FlowMap(m, entries, comma), tags) == Collection(MappingStart(m.anchor, tag, open, 2), kids)
    ensures forall k, lost, valued, v ::
              Means(Single(k, lost, valued, v), tags) == Collection(MappingStart(None, None, true, 2), [Means(k, tags), Means(v, tags)])
  {
    hide TagOf, ItemTrees, EntryTrees;
  }

  /** The children are the items in order, and keys and values in turn. */
  lemma {:induction false} Children(items: seq<Syntax>, entries: seq<Entry>, tags: Tags)
    ensures |ItemTrees(items, tags)| == |items| && forall i :: 0 <= i < |items| ==> ItemTrees(items, tags)[i] == Means(items[i], tags)
    ensures |EntryTrees(entries, tags)| == 2 * |entries|
    ensures forall i :: 0 <= i < |entries| ==>
              EntryTrees(entries, tags)[2 * i] == Means(entries[i].key, tags) && EntryTrees(entries, tags)[2 * i + 1] == Means(entries[i].value, tags)
    decreases |items| + |entries|
  {
    hide Means;
    if items != [] {
      Children(items[1..], [], tags);
    }
    if entries != [] {
      Children([], entries[1..], tags);
      var all, rest := EntryTrees(entries, tags), EntryTrees(entries[1..], tags);
      forall i | 0 <= i < |entries|
        ensures all[2 * i] == Means(entries[i].key, tags) && all[2 * i + 1] == Means(entries[i].value, tags)
      {
        if i > 0 {
          assert all[2 * i] == rest[2 * (i - 1)] && all[2 * i + 1] == rest[2 * (i - 1) + 1];
        }
      }
    }
  }

  /** Where each of them may stand. */
  lemma Places(m: Marks, items: seq<Syntax>, entries: seq<Entry>, block: bool, indentless: bool, optional: bool)
    ensures Allowed(Omitted, block, indentless, optional) <==> optional
    ensures Allowed(Bare(m), block, indentless, optional) <==> m.anchor.Some? || m.tag.Some?
    ensures Allowed(BlockSeq(m, items), block, indentless, optional) <==>
              block && forall i :: 0 <= i < |items| ==> Allowed(items[i], true, false, true)
    ensures Allowed(IndentlessSeq(m, items), block, indentless, optional) <==>
              block && indentless && items != [] && forall i :: 0 <= i < |items| ==> Allowed(items[i], true, false, true)
    ensures Allowed(BlockMap(m, entries), block, indentless, optional) <==>
              block && forall i :: 0 <= i < |entries| ==> entries[i].keyed && AllowedEntry(entries[i], true)
  {
    hide AllowedEntry;
  }

  lemma FlowPlaces(m: Marks, items: seq<Syntax>, entries: seq<Entry>, comma: bool, block: bool, indentless: bool, optional: bool, e: Entry)
    ensures Allowed(FlowMap(m, entries, comma), block, indentless, optional) <==>
              (comma ==> entries != []) && forall i :: 0 <= i < |entries| ==> AllowedEntry(entries[i], false)
    ensures Allowed(FlowSeq(m, items, comma), block, indentless, optional) <==>
              (comma ==> items != []) && forall i :: 0 <= i < |items| ==> AllowedItem(items[i], !comma && i == |items| - 1)
    ensures AllowedEntry(e, block) <==>
              && Allowed(e.key, block, block, e.keyed) && Allowed(e.value, block, block, true)
              && (!e.valued ==> e.value.Omitted?) && (!e.keyed ==> !e.valued)
  {
    hide AllowedItem;
  }

  /** Documents and streams; the root of a document is read with the handles of its own directives. */
  lemma DocumentProductions(d: Document, ds: seq<Document>)
    ensures d.explicit ==> YieldDocument(d) == d.directives + [DocumentStartToken] + Yield(d.root) + EndTokens(d.ends)
    ensures !d.explicit ==> YieldDocument(d) == Yield(d.root) + EndTokens(d.ends)
    ensures YieldDocuments([]) == [] && YieldDocuments([d] + ds) == YieldDocument(d) + YieldDocuments(ds)
    ensures YieldStream(ds) == [StreamStartToken] + YieldDocuments(ds) + [StreamEndToken]
    ensures DocumentTrees([]) == [] && DocumentTrees([d] + ds) == [Means(d.root, Defaults(Declared(d.directives)))] + DocumentTrees(ds)
    ensures forall first :: AllowedDocument(d, first) <==>
              && Allowed(d.root, true, false, d.explicit) && Known(d.root, Defaults(Declared(d.directives)))
              && (if d.explicit then Permitted(d.directives, []) && forall k :: 0 <= k < |d.directives| ==> IsDirective(d.directives[k])
                  else first && d.directives == [])
  {
    hide Yield, Means, Allowed, Known, Permitted, Defaults, Declared;
    assert ([d] + ds)[1..] == ds;
  }

  /** Directives are permitted exactly if at most one is %YAML, for version 1.1 or 1.2, and no two are %TAG for one handle. */
  lemma PermittedIff(run: Tokens)
    ensures Permitted(run, []) <==>
              && (forall i :: 0 <= i < |run| && run[i].VersionDirective? ==> run[i].major == 1 && (run[i].minor == 1 || run[i].minor == 2))
              && (forall i, j :: 0 <= i < j < |run| && run[i].VersionDirective? ==> !run[j].VersionDirective?)
              && (forall i, j :: 0 <= i < j < |run| && run[i].TagDirective? && run[j].TagDirective? ==> run[i].handle != run[j].handle)
  {
    forall j | 0 <= j < |run|
      ensures HasVersion(run[..j]) <==> exists i :: 0 <= i < j && run[i].VersionDirective?
      ensures run[j].TagDirective? ==> (Declares(run[..j], run[j].handle) <==> exists i :: 0 <= i < j && run[i].TagDirective? && run[i].handle == run[j].handle)
    {
      assert forall i :: 0 <= i < j ==> run[..j][i] == run[i];
    }
    forall handle
      ensures HandleIndex([], handle) == 0
    {
    }
  }
}
