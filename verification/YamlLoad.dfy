/** yaml_parser_load: the loader on top of the parser. Its assertions hold, and what it loads is a whole graph. */
module YamlLoad {
  import opened Basics
  import opened YamlGraph
  import opened YamlNesting
  import opened YamlLoader
  import P = YamlParser
  import F = YamlFuture

  /** The last pair still waits for its value. */
  predicate Halved(pairs: seq<Pair>) {
    pairs != [] && pairs[|pairs| - 1].key != 0 && pairs[|pairs| - 1].value == 0
  }

  /** What is due in a node whose children are being added. */
  function KindOf(n: Node): Frame {
    match n
    case Scalar(_, _, _) => DocumentDone
    case Sequence(_, _, _) => InSequence
    case Mapping(_, pairs, _) => if Halved(pairs) then MappingValue else MappingKey
  }

  /** All children are among the first size nodes; a value may be missing from the last pair of an open mapping. */
  predicate Within(n: Node, size: nat, open: bool) {
    match n
    case Scalar(_, _, _) => true
    case Sequence(_, items, _) => forall k :: 0 <= k < |items| ==> 1 <= items[k] <= size
    case Mapping(_, pairs, _) =>
      forall k :: 0 <= k < |pairs| ==> 1 <= pairs[k].key <= size
                                       && (1 <= pairs[k].value <= size || (open && k == |pairs| - 1 && pairs[k].value == 0))
  }

  predicate Sane(s: LoadState) {
    && (forall i :: 0 <= i < |s.ctx| ==> 1 <= s.ctx[i] <= |s.nodes| && !s.nodes[s.ctx[i] - 1].Scalar?)
    && (forall i, j :: 0 <= i < j < |s.ctx| ==> s.ctx[i] < s.ctx[j])
    && (forall i :: 0 <= i < |s.aliases| ==> 1 <= s.aliases[i].index <= |s.nodes|)
    && (forall n :: 0 <= n < |s.nodes| ==> Within(s.nodes[n], |s.nodes|, n + 1 in s.ctx))
  }

  /** The open collections of the loader are those the events have opened; each one but the innermost has its open child already. */
  predicate Open(s: LoadState, f: seq<Frame>) {
    && Sane(s) && |f| == |s.ctx| + 2 && f[..2] == [InStream, DocumentRoot] && (s.ctx == [] ==> s.nodes == [])
    && forall i :: 0 <= i < |s.ctx| ==>
         KindOf(s.nodes[s.ctx[i] - 1]) == if i == |s.ctx| - 1 then f[i + 2] else Advance(f[i + 2])
  }

  /** The same, or the document is complete. */
  predicate Composed(s: LoadState, f: seq<Frame>) {
    Open(s, f) || (Sane(s) && s.ctx == [] && s.nodes != [] && f == [InStream, DocumentDone])
  }

  /** The child of the innermost open collection is in it already. */
  predicate Attached(s: LoadState, f: seq<Frame>) {
    && Sane(s) && s.nodes != [] && |f| == |s.ctx| + 2 && f[..2] == [InStream, DocumentRoot]
    && forall i :: 0 <= i < |s.ctx| ==> KindOf(s.nodes[s.ctx[i] - 1]) == Advance(f[i + 2])
  }

  /** Errors that are about the document. */
  predicate IsRegular(e: LoadError) {
    e == DuplicateAnchor || e == UndefinedAlias || e == StackLimit
  }

  lemma AddWithin(n: Node, index: nat, size: nat)
    requires Within(n, size, true) && 1 <= index <= size && !n.Scalar?
    ensures Within(AddChild(n, index), size, true) && KindOf(AddChild(n, index)) == Advance(KindOf(n))
    ensures AddChild(n, index).Sequence? <==> n.Sequence?
    ensures !AddChild(n, index).Scalar?
  {
  }

  lemma MoreNodes(n: Node, size: nat, more: nat, open: bool)
    requires Within(n, size, open) && size <= more
    ensures Within(n, more, open)
  {
  }

  /** The open collections are in step, and there are nodes to add. */
  predicate Due(s: LoadState, f: seq<Frame>) {
    && Sane(s) && s.nodes != [] && |f| == |s.ctx| + 2 && f[..2] == [InStream, DocumentRoot]
    && forall i :: 0 <= i < |s.ctx| ==>
         KindOf(s.nodes[s.ctx[i] - 1]) == if i == |s.ctx| - 1 then f[i + 2] else Advance(f[i + 2])
  }

  /** Adding a node to the innermost open collection. */
  lemma AddAttaches(s: LoadState, f: seq<Frame>, index: nat)
    requires Due(s, f) && 1 <= index <= |s.nodes|
    ensures match NodeAdd(s, index)
            case Failed(e) => e == StackLimit
            case Loaded(r) => Attached(r, f) && r.ctx == s.ctx && |r.nodes| == |s.nodes|
  {
    hide Within, KindOf, AddChild, HasRoom;
    if s.ctx != [] {
      var p := s.ctx[|s.ctx| - 1] - 1;
      AddWithin(s.nodes[p], index, |s.nodes|);
    }
  }

  lemma MoreSane(s: LoadState, node: Node, aliases: seq<AliasData>)
    requires Sane(s) && Within(node, 0, false)
    requires forall i :: 0 <= i < |aliases| ==> 1 <= aliases[i].index <= |s.nodes| + 1
    ensures Sane(LoadState(s.nodes + [node], aliases, s.ctx))
  {
    hide Within;
    var r := LoadState(s.nodes + [node], aliases, s.ctx);
    forall n | 0 <= n < |r.nodes|
      ensures Within(r.nodes[n], |r.nodes|, n + 1 in r.ctx)
    {
      if n < |s.nodes| {
        MoreNodes(s.nodes[n], |s.nodes|, |r.nodes|, n + 1 in s.ctx);
      } else {
        MoreNodes(node, 0, |r.nodes|, false);
      }
    }
  }

  lemma PushedDue(s: LoadState, f: seq<Frame>, node: Node, aliases: seq<AliasData>)
    requires Open(s, f) && Within(node, 0, false)
    requires forall i :: 0 <= i < |aliases| ==> 1 <= aliases[i].index <= |s.nodes| + 1
    ensures var r := LoadState(s.nodes + [node], aliases, s.ctx);
            Due(r, f) && forall i :: 0 <= i < |r.ctx| ==> r.ctx[i] < |r.nodes|
  {
    hide Within, KindOf;
    MoreSane(s, node, aliases);
  }

  lemma Registered(s: LoadState, node: Node, anchor: Option<string>)
    requires Sane(s)
    ensures var index := |s.nodes| + 1;
            match RegisterAnchor(s.(nodes := s.nodes + [node]), index, anchor)
            case Failed(e) => e == DuplicateAnchor
            case Loaded(r) => r == LoadState(s.nodes + [node], r.aliases, s.ctx)
                              && forall i :: 0 <= i < |r.aliases| ==> 1 <= r.aliases[i].index <= |s.nodes| + 1
  {
    hide Within, HasAnchor;
  }

  /** A new node without children is the last one, and attached. */
  lemma NewAttaches(s: LoadState, f: seq<Frame>, node: Node, anchor: Option<string>)
    requires Open(s, f) && Within(node, 0, false)
    ensures match NewNode(s, node, anchor)
            case Failed(e) => IsRegular(e)
            case Loaded(r) => Attached(r, f) && r.ctx == s.ctx && |r.nodes| == |s.nodes| + 1 && r.nodes[|s.nodes|] == node
  {
    hide Within, Sane, Due, Attached, NodeAdd, RegisterAnchor;
    var index := |s.nodes| + 1;
    Registered(s, node, anchor);
    match RegisterAnchor(s.(nodes := s.nodes + [node]), index, anchor)
    case Failed(_) =>
    case Loaded(r) =>
      PushedDue(s, f, node, r.aliases);
      AddAttaches(r, f, index);
      KeepsLast(r, index);
  }

  lemma KeepsLast(s: LoadState, index: nat)
    requires s.nodes != [] && forall i :: 0 <= i < |s.ctx| ==> s.ctx[i] < |s.nodes|
    ensures match NodeAdd(s, index)
            case Failed(_) => true
            case Loaded(r) => |r.nodes| == |s.nodes| && r.nodes[|s.nodes| - 1] == s.nodes[|s.nodes| - 1]
  {
    hide Within, AddChild, HasRoom;
  }

  /** Behind a leaf or a closed collection. */
  lemma NodeDone(s: LoadState, f: seq<Frame>)
    requires Attached(s, f)
    ensures Composed(s, AdvanceTop(f))
  {
    hide Within, KindOf;
    var g := AdvanceTop(f);
    assert forall i :: 0 <= i < |f| - 1 ==> g[i] == f[i];
    if s.ctx == [] {
      assert g == [InStream, DocumentDone];
    } else {
      assert g[..2] == f[..2];
    }
  }

  /** Inside of a collection that has just been added. */
  lemma NodeOpened(s: LoadState, f: seq<Frame>)
    requires Attached(s, f) && KindOf(s.nodes[|s.nodes| - 1]) in {InSequence, MappingKey}
    requires forall i :: 0 <= i < |s.ctx| ==> s.ctx[i] < |s.nodes|
    ensures Open(s.(ctx := s.ctx + [|s.nodes|]), f + [KindOf(s.nodes[|s.nodes| - 1])])
  {
    hide Within, KindOf;
    var r, g := s.(ctx := s.ctx + [|s.nodes|]), f + [KindOf(s.nodes[|s.nodes| - 1])];
    NotScalar(s.nodes[|s.nodes| - 1]);
    forall n | 0 <= n < |r.nodes|
      ensures Within(r.nodes[n], |r.nodes|, n + 1 in r.ctx)
    {
      if n + 1 == |s.nodes| {
        OpenWithin(s.nodes[n], |s.nodes|);
      }
    }
    assert g[..2] == f[..2];
  }

  lemma NotScalar(n: Node)
    requires KindOf(n) in {InSequence, MappingKey}
    ensures !n.Scalar?
  {
  }

  lemma OpenWithin(n: Node, size: nat)
    requires Within(n, size, false)
    ensures Within(n, size, true)
  {
  }

  /** A node whose children are complete may be closed. */
  lemma ClosedWithin(n: Node, size: nat)
    requires Within(n, size, true) && KindOf(n) != MappingValue
    ensures Within(n, size, false)
  {
  }

  /** Forgetting the innermost open collection. */
  lemma PopSane(s: LoadState)
    requires Sane(s) && s.ctx != [] && KindOf(s.nodes[s.ctx[|s.ctx| - 1] - 1]) != MappingValue
    ensures Sane(s.(ctx := s.ctx[..|s.ctx| - 1])) && s.nodes != [] && 1 <= s.ctx[|s.ctx| - 1] <= |s.nodes|
  {
    hide Within, KindOf;
    var n := |s.ctx| - 1;
    var r := s.(ctx := s.ctx[..n]);
    ClosedWithin(s.nodes[s.ctx[n] - 1], |s.nodes|);
    forall k | 0 <= k < |r.nodes|
      ensures Within(r.nodes[k], |r.nodes|, k + 1 in r.ctx)
    {
      if k + 1 != s.ctx[n] {
        assert k + 1 in s.ctx <==> k + 1 in r.ctx;
      }
    }
  }

  lemma EndComposes(s: LoadState, f: seq<Frame>, e: Event)
    requires Open(s, f) && (e.SequenceEnd? || e.MappingEnd?) && Accept(f, In(e)).Some?
    ensures Step(s, e).Loaded? && Composed(Step(s, e).s, Accept(f, In(e)).value)
  {
    hide Within, Sane, Composed;
    assert f[1] == f[..2][1];
    if s.ctx != [] {
      InnermostKind(s, f);
      PopSane(s);
      assert f[..|f| - 1][..2] == f[..2];
      NodeDone(s.(ctx := s.ctx[..|s.ctx| - 1]), f[..|f| - 1]);
    }
  }

  lemma InnermostKind(s: LoadState, f: seq<Frame>)
    requires Open(s, f) && s.ctx != []
    ensures KindOf(s.nodes[s.ctx[|s.ctx| - 1] - 1]) == Top(f)
  {
    hide Within, KindOf;
  }

  lemma StartComposes(s: LoadState, f: seq<Frame>, e: Event)
    requires Open(s, f) && (e.SequenceStart? || e.MappingStart?) && Accept(f, In(e)).Some?
    ensures match Step(s, e)
            case Failed(err) => IsRegular(err)
            case Loaded(r) => Composed(r, Accept(f, In(e)).value)
  {
    hide NewNode, Attached, Sane;
    var node := if e.SequenceStart? then Sequence(TagOr(e.sequenceTag, DEFAULT_SEQUENCE_TAG), [], e.style)
                else Mapping(TagOr(e.mappingTag, DEFAULT_MAPPING_TAG), [], e.style);
    NewAttaches(s, f, node, e.anchor);
    if NewNode(s, node, e.anchor).Loaded? {
      var r := NewNode(s, node, e.anchor).s;
      BelowLast(s);
      NodeOpened(r, f);
    }
  }

  lemma BelowLast(s: LoadState)
    requires Sane(s)
    ensures forall i :: 0 <= i < |s.ctx| ==> s.ctx[i] < |s.nodes| + 1
  {
    hide Within;
  }

  lemma LeafComposes(s: LoadState, f: seq<Frame>, e: Event)
    requires Open(s, f) && ((e.Alias? && e.aliased.Some?) || e.ScalarEvent?) && Accept(f, In(e)).Some?
    ensures match Step(s, e)
            case Failed(err) => IsRegular(err)
            case Loaded(r) => Composed(r, Accept(f, In(e)).value)
  {
    hide NewNode, NodeAdd, Attached, Within, KindOf, AdvanceTop;
    if e.ScalarEvent? {
      var node := Scalar(TagOr(e.scalarTag, DEFAULT_SCALAR_TAG), e.value, e.style);
      assert Within(node, 0, false) by { ScalarWithin(node); }
      NewAttaches(s, f, node, e.anchor);
      if NewNode(s, node, e.anchor).Loaded? {
        NodeDone(NewNode(s, node, e.anchor).s, f);
      }
    } else if HasAnchor(s.aliases, e.aliased.value) {
      FoundAlias(s.aliases, e.aliased.value);
      AliasDue(s, f);
      AddAttaches(s, f, FindAlias(s.aliases, e.aliased.value));
      if NodeAdd(s, FindAlias(s.aliases, e.aliased.value)).Loaded? {
        NodeDone(NodeAdd(s, FindAlias(s.aliases, e.aliased.value)).s, f);
      }
    }
  }

  lemma AliasDue(s: LoadState, f: seq<Frame>)
    requires Open(s, f) && s.aliases != []
    ensures Due(s, f) && forall i :: 0 <= i < |s.aliases| ==> 1 <= s.aliases[i].index <= |s.nodes|
  {
    hide Within, KindOf;
    assert 1 <= s.aliases[0].index <= |s.nodes|;
  }

  lemma ScalarWithin(n: Node)
    requires n.Scalar?
    ensures Within(n, 0, false)
  {
  }

  lemma {:induction false} FoundAlias(aliases: seq<AliasData>, name: string)
    requires HasAnchor(aliases, name)
    ensures exists i :: 0 <= i < |aliases| && FindAlias(aliases, name) == aliases[i].index
  {
    if aliases[0].anchor != name {
      FoundAlias(aliases[1..], name);
      var i :| 0 <= i < |aliases[1..]| && FindAlias(aliases[1..], name) == aliases[1..][i].index;
      assert FindAlias(aliases, name) == aliases[i + 1].index;
    }
  }

  /** No event that the parser may produce makes an assertion of the loader fail. */
  lemma StepComposes(s: LoadState, f: seq<Frame>, e: Event)
    requires Composed(s, f) && Accept(f, In(e)).Some? && !e.DocumentEnd? && P.Named(In(e))
    ensures match Step(s, e)
            case Failed(err) => IsRegular(err)
            case Loaded(r) => Composed(r, Accept(f, In(e)).value)
  {
    hide Open, Step, Sane;
    InDocument(s, f, e);
    if e.SequenceEnd? || e.MappingEnd? {
      EndComposes(s, f, e);
    } else if e.SequenceStart? || e.MappingStart? {
      StartComposes(s, f, e);
    } else {
      LeafComposes(s, f, e);
    }
  }

  lemma InDocument(s: LoadState, f: seq<Frame>, e: Event)
    requires Composed(s, f) && Accept(f, In(e)).Some? && !e.DocumentEnd?
    ensures Open(s, f) && !e.DocumentStart?
  {
    hide Sane, Within;
    if Open(s, f) {
      assert f[0] == f[..2][0] && f[1] == f[..2][1];
    }
  }

  lemma {:induction false} PairsInRange(doc: seq<Node>, pairs: seq<Pair>)
    requires forall k :: 0 <= k < |pairs| ==> 1 <= pairs[k].key <= |doc| && 1 <= pairs[k].value <= |doc|
    ensures InRange(doc, Flatten(pairs))
  {
    if pairs != [] {
      PairsInRange(doc, pairs[..|pairs| - 1]);
    }
  }

  /** When the document ends, its nodes are a graph: there is a root, and every child is a node. */
  lemma DocumentComposed(s: LoadState, f: seq<Frame>)
    requires Composed(s, f) && Accept(f, In(DocumentEnd)).Some?
    ensures s.ctx == [] && s.nodes != [] && WellFormed(s.nodes)
  {
    hide Within;
    assert !Open(s, f) by {
      if Open(s, f) {
        RootDue(f);
      }
    }
    forall n | 0 <= n < |s.nodes|
      ensures InRange(s.nodes, Children(s.nodes[n]))
    {
      ChildrenInRange(s.nodes, s.nodes[n]);
    }
  }

  lemma RootDue(f: seq<Frame>)
    requires |f| >= 2 && f[..2] == [InStream, DocumentRoot]
    ensures f != [InStream, DocumentDone]
  {
    assert f[1] == f[..2][1];
  }

  lemma ChildrenInRange(doc: seq<Node>, n: Node)
    requires Within(n, |doc|, false)
    ensures InRange(doc, Children(n))
  {
    if n.Mapping? {
      PairsInRange(doc, n.pairs);
    }
  }

  // ----- one document

  const NOTHING := LoadState([], [], [])

  function Inside(w: seq<Event>): (r: seq<StreamEvent>)
    ensures |r| == |w|
  {
    seq(|w|, i requires 0 <= i < |w| => In(w[i]))
  }

  /** The events in front of the next document. */
  function Opened(log: seq<StreamEvent>): seq<StreamEvent> {
    if log == [] then [StreamStart] else log
  }

  /** No document is open. */
  predicate Outside(f: Option<seq<Frame>>) {
    f == Some([]) || f == Some([InStream]) || f == Some([StreamDone])
  }

  datatype Outcome = NoMore | Document | Failure

  lemma RunNothing()
    ensures Run(NOTHING, []) == Loaded(NOTHING) && Composed(NOTHING, [InStream, DocumentRoot])
  {
  }

  lemma RunMore(w: seq<Event>, e: Event)
    ensures Run(NOTHING, w + [e]) == match Run(NOTHING, w) { case Failed(err) => Failed(err) case Loaded(s) => Step(s, e) }
    ensures Inside(w + [e]) == Inside(w) + [In(e)]
  {
    hide Step;
    RunConcat(NOTHING, w, [e]);
    if Run(NOTHING, w).Loaded? {
      RunOne(Run(NOTHING, w).s, e);
    }
  }

  lemma RunOne(s: LoadState, e: Event)
    ensures Run(s, [e]) == Step(s, e)
  {
    hide Step;
    if Step(s, e).Loaded? {
      assert [e][1..] == [];
    }
  }

  lemma {:induction false} NoneAccepted(w: seq<StreamEvent>)
    requires AcceptAll(w) == Some([])
    ensures w == []
  {
    if w != [] {
      AcceptNever(AcceptAll(w[..|w| - 1]).value, w[|w| - 1]);
    }
  }

  lemma AcceptNever(f: seq<Frame>, e: StreamEvent)
    ensures Accept(f, e) != Some([])
  {
  }

  /** The next event between documents. */
  lemma BetweenDocuments(log: seq<StreamEvent>, e: StreamEvent)
    requires AcceptAll(log + [e]).Some? && Outside(AcceptAll(log))
    ensures if log == [] then e == StreamStart && AcceptAll(log + [e]) == Some([InStream])
            else (e == In(DocumentStart) && AcceptAll(log + [e]) == Some([InStream, DocumentRoot]))
                 || (e == StreamEnd && AcceptAll(log + [e]) == Some([StreamDone]))
  {
    assert (log + [e])[..|log|] == log;
    if AcceptAll(log) == Some([]) {
      NoneAccepted(log);
    }
  }

  lemma NextFrames(log: seq<StreamEvent>, e: StreamEvent)
    requires AcceptAll(log).Some? && AcceptAll(log + [e]).Some?
    ensures Accept(AcceptAll(log).value, e) == AcceptAll(log + [e]) && e != NoEvent
  {
    assert (log + [e])[..|log|] == log;
  }

  /** What yaml_parser_load does in front of a document: the first event of the stream, unless it was there before, and one more. */
  method Begin(parser: P.Parser) returns (e: StreamEvent)
    requires parser.Valid() && !parser.error && Outside(AcceptAll(parser.log))
    modifies parser
    ensures parser.Valid()
    ensures !parser.error && e == In(DocumentStart) ==>
              parser.log == Opened(old(parser.log)) + [e] && AcceptAll(parser.log) == Some([InStream, DocumentRoot])
    ensures !parser.error && e != In(DocumentStart) ==> AcceptAll(parser.log) == Some([StreamDone])
  {
    hide P.Shape, P.Balanced, P.StackMarks, P.Marked, Accept, AcceptAll;
    e := NoEvent;
    parser.NotStarted();
    if parser.state == F.StreamStartState {
      NoneAccepted(parser.log);
      e := parser.Parse();
      if parser.error || e == NoEvent {
        return;
      }
      BetweenDocuments([], e);
      assert [] + [e] == [e];
    } else {
      assert parser.log != [] by { StartAccepted(); }
    }
    ghost var log := parser.log;
    e := parser.Parse();
    if !parser.error && e != NoEvent {
      BetweenDocuments(log, e);
    }
  }

  lemma StartAccepted()
    ensures AcceptAll([]) == Some([])
  {
  }

  /** The outcome fits the events since the document began. */
  ghost predicate Loads(r: Outcome, w: seq<Event>, s: LoadState, error: Option<LoadError>, f: Option<seq<Frame>>) {
    match r
    case NoMore => f == Some([StreamDone]) && s == NOTHING && error == None
    case Document =>
      && f == Some([InStream]) && error == None && Run(NOTHING, w) == Loaded(s)
      && s.ctx == [] && s.nodes != [] && WellFormed(s.nodes)
    case Failure => error.Some? && IsRegular(error.value) && Run(NOTHING, w) == Failed(error.value)
  }

  /**
   * yaml_parser_load: one more document. Unless the parser or the loader fails, its nodes
   * are what the loader makes of its events, and they are a whole graph. The loader fails only for a
   * reason in the document; none of its assertions fails, whatever the tokens are.
   */
  method LoadNext(parser: P.Parser, composer: Composer) returns (r: Outcome, ghost w: seq<Event>)
    requires parser.Valid() && !parser.error && Outside(AcceptAll(parser.log))
    requires composer.error.None? && composer.State() == NOTHING
    modifies parser, composer
    ensures parser.Valid() && (parser.error ==> r == Failure)
    ensures !parser.error ==> Loads(r, w, composer.State(), composer.error, AcceptAll(parser.log))
    ensures !parser.error && r != NoMore ==>
              parser.log == Opened(old(parser.log)) + [In(DocumentStart)] + Inside(w) + if r == Document then [In(DocumentEnd)] else []
  {
    hide P.Shape, P.Balanced, P.StackMarks, P.Marked, Accept, AcceptAll, Run, Step, Composed, IsRegular;
    w := [];
    ghost var start := Opened(parser.log) + [In(DocumentStart)];
    var e := Begin(parser);
    if parser.error {
      return Failure, w;
    }
    if e != In(DocumentStart) {
      return NoMore, w;
    }
    RunNothing();
    while true
      invariant parser.Valid() && !parser.error && composer.error.None?
      invariant AcceptAll(parser.log).Some? && Composed(composer.State(), AcceptAll(parser.log).value)
      invariant Run(NOTHING, w) == Loaded(composer.State()) && parser.log == start + Inside(w)
      decreases |parser.tokens| - parser.pos, P.Height(parser.state, |parser.states|), P.Rank(parser.state)
    {
      ghost var log, f := parser.log, AcceptAll(parser.log).value;
      NotInside(composer.State(), f);
      e := parser.Parse();
      if parser.error {
        return Failure, w;
      }
      NextFrames(log, e);
      if e == In(DocumentEnd) {
        DocumentComposed(composer.State(), f);
        Ended(f);
        return Document, w;
      }
      OnlyEvents(composer.State(), f, e);
      RunMore(w, e.event);
      StepComposes(composer.State(), f, e.event);
      var ok := composer.LoadEvent(e.event);
      w := w + [e.event];
      if !ok {
        return Failure, w;
      }
    }
  }

  lemma NotInside(s: LoadState, f: seq<Frame>)
    requires Composed(s, f)
    ensures f != [StreamDone]
  {
    hide Sane, Within, KindOf;
  }

  lemma Ended(f: seq<Frame>)
    requires Accept(f, In(DocumentEnd)).Some?
    ensures Accept(f, In(DocumentEnd)) == Some([InStream])
  {
  }

  lemma OnlyEvents(s: LoadState, f: seq<Frame>, e: StreamEvent)
    requires Composed(s, f) && Accept(f, e).Some?
    ensures e.In?
  {
    hide Sane, Within, KindOf;
  }
}
