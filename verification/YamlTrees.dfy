/** Complete event words are the words of lists of trees. */
module YamlTrees {
  import opened Basics
  import opened YamlGraph
  import opened YamlNesting

  /** A node: an alias or a scalar, or a collection with its start event. */
  datatype Tree = Leaf(event: Event) | Collection(start: Event, children: seq<Tree>)

  predicate IsLeaf(e: Event) {
    e.Alias? || e.ScalarEvent?
  }

  predicate IsStart(e: Event) {
    e.SequenceStart? || e.MappingStart?
  }

  /** Leaves are aliases and scalars, and a mapping has as many values as keys. */
  predicate Sound(t: Tree) {
    match t
    case Leaf(e) => IsLeaf(e)
    case Collection(start, children) =>
      && IsStart(start) && (start.MappingStart? ==> |children| % 2 == 0)
      && forall i :: 0 <= i < |children| ==> Sound(children[i])
  }

  predicate AllSound(ts: seq<Tree>) {
    forall i :: 0 <= i < |ts| ==> Sound(ts[i])
  }

  function EndOf(start: Event): Event {
    if start.MappingStart? then MappingEnd else SequenceEnd
  }

  function Word(t: Tree): seq<StreamEvent> {
    match t
    case Leaf(e) => [In(e)]
    case Collection(start, children) => [In(start)] + Words(children) + [In(EndOf(start))]
  }

  function Words(ts: seq<Tree>): seq<StreamEvent> {
    if ts == [] then [] else Words(ts[..|ts| - 1]) + Word(ts[|ts| - 1])
  }

  function DocumentWords(ts: seq<Tree>): seq<StreamEvent> {
    if ts == [] then []
    else DocumentWords(ts[..|ts| - 1]) + [In(DocumentStart)] + Word(ts[|ts| - 1]) + [In(DocumentEnd)]
  }

  /** The events of a stream with one document for each tree. */
  function StreamWord(ts: seq<Tree>): seq<StreamEvent> {
    [StreamStart] + DocumentWords(ts) + [StreamEnd]
  }

  lemma {:induction false} WordsCons(t: Tree, ts: seq<Tree>)
    ensures Words([t] + ts) == Word(t) + Words(ts)
  {
    hide Word;
    var all := [t] + ts;
    if ts == [] {
      assert all[..0] == [] && Words(all) == Words([]) + Word(t);
    } else {
      WordsCons(t, ts[..|ts| - 1]);
      assert all[..|ts|] == [t] + ts[..|ts| - 1];
    }
  }

  /** The events of a tree, and of a stream: starts and ends in pairs around what is inside. */
  lemma WordsAre(e: Event, start: Event, t: Tree, ts: seq<Tree>)
    ensures Word(Leaf(e)) == [In(e)] && Words([]) == [] && Words([t] + ts) == Word(t) + Words(ts)
    ensures start.SequenceStart? ==> Word(Collection(start, ts)) == [In(start)] + Words(ts) + [In(SequenceEnd)]
    ensures start.MappingStart? ==> Word(Collection(start, ts)) == [In(start)] + Words(ts) + [In(MappingEnd)]
    ensures DocumentWords([]) == []
    ensures DocumentWords([t] + ts) == [In(DocumentStart)] + Word(t) + [In(DocumentEnd)] + DocumentWords(ts)
    ensures StreamWord(ts) == [StreamStart] + DocumentWords(ts) + [StreamEnd]
  {
    hide Words, DocumentWords;
    WordsCons(t, ts);
    DocumentWordsCons(t, ts);
    EmptyWords();
  }

  lemma EmptyWords()
    ensures Words([]) == [] && DocumentWords([]) == []
  {
  }

  lemma {:induction false} DocumentWordsCons(t: Tree, ts: seq<Tree>)
    ensures DocumentWords([t] + ts) == [In(DocumentStart)] + Word(t) + [In(DocumentEnd)] + DocumentWords(ts)
  {
    hide Word;
    var all := [t] + ts;
    if ts == [] {
      assert all[..0] == [] && DocumentWords(all) == DocumentWords([]) + [In(DocumentStart)] + Word(t) + [In(DocumentEnd)];
    } else {
      DocumentWordsCons(t, ts[..|ts| - 1]);
      assert all[..|ts|] == [t] + ts[..|ts| - 1];
    }
  }

  // ----- words that are not complete yet

  /** An open collection with the children it has so far. */
  datatype Open = Open(start: Event, children: seq<Tree>)

  datatype Partial =
    | NotStarted
    | Between(docs: seq<Tree>)
    | Rootless(docs: seq<Tree>, stack: seq<Open>)
    | Rooted(docs: seq<Tree>, root: Tree)
    | Ended(docs: seq<Tree>)

  function StackWord(stack: seq<Open>): seq<StreamEvent> {
    if stack == [] then []
    else
      var top := stack[|stack| - 1];
      StackWord(stack[..|stack| - 1]) + [In(top.start)] + Words(top.children)
  }

  function Spell(p: Partial): seq<StreamEvent> {
    match p
    case NotStarted => []
    case Between(docs) => [StreamStart] + DocumentWords(docs)
    case Rootless(docs, stack) => [StreamStart] + DocumentWords(docs) + [In(DocumentStart)] + StackWord(stack)
    case Rooted(docs, root) => [StreamStart] + DocumentWords(docs) + [In(DocumentStart)] + Word(root)
    case Ended(docs) => StreamWord(docs)
  }

  function FrameOf(o: Open): Frame {
    if o.start.SequenceStart? then InSequence else if |o.children| % 2 == 0 then MappingKey else MappingValue
  }

  function FramesOf(stack: seq<Open>): (r: seq<Frame>)
    ensures |r| == |stack|
  {
    if stack == [] then [] else FramesOf(stack[..|stack| - 1]) + [FrameOf(stack[|stack| - 1])]
  }

  function Frames(p: Partial): seq<Frame> {
    match p
    case NotStarted => []
    case Between(_) => [InStream]
    case Rootless(_, stack) => [InStream, DocumentRoot] + FramesOf(stack)
    case Rooted(_, _) => [InStream, DocumentDone]
    case Ended(_) => [StreamDone]
  }

  predicate Proper(p: Partial) {
    match p
    case NotStarted => true
    case Rootless(docs, stack) =>
      && AllSound(docs)
      && forall i :: 0 <= i < |stack| ==> IsStart(stack[i].start) && AllSound(stack[i].children)
    case Rooted(docs, root) => AllSound(docs) && Sound(root)
    case _ => AllSound(p.docs)
  }

  // ----- one more event

  function AddNode(docs: seq<Tree>, stack: seq<Open>, t: Tree): Partial {
    if stack == [] then Rooted(docs, t)
    else
      var n := |stack| - 1;
      Rootless(docs, stack[n := stack[n].(children := stack[n].children + [t])])
  }

  function Extend(p: Partial, e: StreamEvent): Partial {
    match (p, e)
    case (NotStarted, StreamStart) => Between([])
    case (Between(docs), StreamEnd) => Ended(docs)
    case (Between(docs), In(DocumentStart)) => Rootless(docs, [])
    case (Rooted(docs, root), In(DocumentEnd)) => Between(docs + [root])
    case (Rootless(docs, stack), In(e)) =>
      if IsLeaf(e) then AddNode(docs, stack, Leaf(e))
      else if IsStart(e) then Rootless(docs, stack + [Open(e, [])])
      else if stack != [] then
        var top := stack[|stack| - 1];
        AddNode(docs, stack[..|stack| - 1], Collection(top.start, top.children))
      else p
    case _ => p
  }

  lemma AddNodeFrames(docs: seq<Tree>, stack: seq<Open>, t: Tree)
    requires Proper(Rootless(docs, stack)) && Sound(t)
    ensures Proper(AddNode(docs, stack, t))
    ensures TakesNode(Top(Frames(Rootless(docs, stack))))
    ensures Frames(AddNode(docs, stack, t)) == AdvanceTop(Frames(Rootless(docs, stack)))
  {
    hide Sound;
    if stack != [] {
      var n := |stack| - 1;
      var next := stack[n := stack[n].(children := stack[n].children + [t])];
      assert next[..n] == stack[..n];
      assert FramesOf(next) == FramesOf(stack[..n]) + [Advance(FrameOf(stack[n]))];
    }
  }

  lemma AddNodeSpells(docs: seq<Tree>, stack: seq<Open>, t: Tree)
    ensures Spell(AddNode(docs, stack, t)) == Spell(Rootless(docs, stack)) + Word(t)
  {
    hide Word, DocumentWords;
    if stack != [] {
      var n := |stack| - 1;
      var top := stack[n].(children := stack[n].children + [t]);
      var next := stack[n := top];
      assert next[..n] == stack[..n];
      assert top.children[..|top.children| - 1] == stack[n].children;
      assert Words(top.children) == Words(stack[n].children) + Word(t);
      assert StackWord(next) == StackWord(stack) + Word(t);
    }
  }

  lemma AddNodeStep(docs: seq<Tree>, stack: seq<Open>, t: Tree)
    requires Proper(Rootless(docs, stack)) && Sound(t)
    ensures Proper(AddNode(docs, stack, t))
    ensures TakesNode(Top(Frames(Rootless(docs, stack))))
    ensures Frames(AddNode(docs, stack, t)) == AdvanceTop(Frames(Rootless(docs, stack)))
    ensures Spell(AddNode(docs, stack, t)) == Spell(Rootless(docs, stack)) + Word(t)
  {
    hide Frames, Spell, AddNode, Proper, AdvanceTop, Sound;
    AddNodeFrames(docs, stack, t);
    AddNodeSpells(docs, stack, t);
  }

  lemma LastOpen(docs: seq<Tree>, stack: seq<Open>)
    requires stack != []
    ensures var n := |stack| - 1;
      var w := [In(stack[n].start)] + Words(stack[n].children);
      && Frames(Rootless(docs, stack)) == Frames(Rootless(docs, stack[..n])) + [FrameOf(stack[n])]
      && Spell(Rootless(docs, stack)) == Spell(Rootless(docs, stack[..n])) + w
  {
    hide Words, DocumentWords;
  }

  lemma LeafStep(docs: seq<Tree>, stack: seq<Open>, e: Event)
    requires var p := Rootless(docs, stack); Proper(p) && IsLeaf(e) && Accept(Frames(p), In(e)).Some?
    ensures var p, q := Rootless(docs, stack), AddNode(docs, stack, Leaf(e));
      Proper(q) && Accept(Frames(p), In(e)) == Some(Frames(q)) && Spell(q) == Spell(p) + [In(e)]
  {
    hide Proper, Frames, Spell, AddNode, AdvanceTop;
    AddNodeStep(docs, stack, Leaf(e));
  }

  lemma StartStep(docs: seq<Tree>, stack: seq<Open>, e: Event)
    requires var p := Rootless(docs, stack); Proper(p) && IsStart(e) && Accept(Frames(p), In(e)).Some?
    ensures var p, q := Rootless(docs, stack), Rootless(docs, stack + [Open(e, [])]);
      Proper(q) && Accept(Frames(p), In(e)) == Some(Frames(q)) && Spell(q) == Spell(p) + [In(e)]
  {
    hide DocumentWords, FramesOf, Frames, Spell;
    var next := stack + [Open(e, [])];
    assert next[..|stack|] == stack;
    LastOpen(docs, next);
    assert Words([]) == [];
  }

  lemma CloseStep(docs: seq<Tree>, stack: seq<Open>, e: Event)
    requires Proper(Rootless(docs, stack)) && stack != [] && (e.SequenceEnd? || e.MappingEnd?)
    requires Accept(Frames(Rootless(docs, stack)), In(e)).Some?
    ensures var p, q := Rootless(docs, stack), Extend(Rootless(docs, stack), In(e));
      Proper(q) && Accept(Frames(p), In(e)) == Some(Frames(q)) && Spell(q) == Spell(p) + [In(e)]
  {
    hide DocumentWords, FramesOf, Frames, Spell, AddNode, AdvanceTop, Words;
    var n := |stack| - 1;
    var top := stack[n];
    var t := Collection(top.start, top.children);
    var below := Frames(Rootless(docs, stack[..n]));
    LastOpen(docs, stack);
    assert Frames(Rootless(docs, stack))[..|below|] == below;
    assert e == EndOf(top.start);
    AddNodeStep(docs, stack[..n], t);
    var w := [In(top.start)] + Words(top.children);
    assert Spell(Rootless(docs, stack[..n])) + (w + [In(e)]) == Spell(Rootless(docs, stack)) + [In(e)];
  }

  lemma NoFrameOpen(docs: seq<Tree>)
    ensures Frames(Rootless(docs, [])) == [InStream, DocumentRoot]
  {
  }

  lemma RootlessStep(docs: seq<Tree>, stack: seq<Open>, e: Event)
    requires var p := Rootless(docs, stack); Proper(p) && Accept(Frames(p), In(e)).Some?
    ensures var p, q := Rootless(docs, stack), Extend(Rootless(docs, stack), In(e));
      Proper(q) && Accept(Frames(p), In(e)) == Some(Frames(q)) && Spell(q) == Spell(p) + [In(e)]
  {
    hide Proper, Spell, AddNode, AdvanceTop, FramesOf;
    if IsLeaf(e) {
      LeafStep(docs, stack, e);
    } else if IsStart(e) {
      StartStep(docs, stack, e);
    } else {
      NoFrameOpen(docs);
      CloseStep(docs, stack, e);
    }
  }

  lemma RootedStep(docs: seq<Tree>, root: Tree, e: StreamEvent)
    requires Proper(Rooted(docs, root)) && Accept([InStream, DocumentDone], e).Some?
    ensures e == In(DocumentEnd) && Proper(Between(docs + [root])) && Accept([InStream, DocumentDone], e) == Some([InStream])
    ensures Spell(Between(docs + [root])) == Spell(Rooted(docs, root)) + [e]
  {
    hide Word, Sound;
    assert (docs + [root])[..|docs|] == docs;
  }

  lemma NoDocuments()
    ensures DocumentWords([]) == [] && StackWord([]) == [] && FramesOf([]) == []
  {
  }

  lemma OtherStep(p: Partial, e: StreamEvent)
    requires Proper(p) && !p.Rooted? && !(p.Rootless? && e.In?) && Accept(Frames(p), e).Some?
    ensures Proper(Extend(p, e)) && Accept(Frames(p), e) == Some(Frames(Extend(p, e)))
    ensures Spell(Extend(p, e)) == Spell(p) + [e]
  {
    hide Word, Words, Sound, FramesOf, DocumentWords, StackWord;
    NoDocuments();
    if p.Between? {
      NoFrameOpen(p.docs);
    }
  }

  /** Every allowed event extends the partial trees, the word they spell and the frames that are open. */
  lemma ExtendStep(p: Partial, e: StreamEvent)
    requires Proper(p) && Accept(Frames(p), e).Some?
    ensures Proper(Extend(p, e)) && Accept(Frames(p), e) == Some(Frames(Extend(p, e)))
    ensures Spell(Extend(p, e)) == Spell(p) + [e]
  {
    hide Spell, Proper, Accept;
    if p.Rootless? && e.In? {
      RootlessStep(p.docs, p.stack, e.event);
    } else if p.Rooted? {
      RootedStep(p.docs, p.root, e);
    } else {
      OtherStep(p, e);
    }
  }

  /** The partial trees of a word. */
  function Build(w: seq<StreamEvent>): Partial {
    if w == [] then NotStarted else Extend(Build(w[..|w| - 1]), w[|w| - 1])
  }

  lemma {:induction false} BuildSpells(w: seq<StreamEvent>)
    requires AcceptAll(w).Some?
    ensures Proper(Build(w)) && Spell(Build(w)) == w && AcceptAll(w) == Some(Frames(Build(w)))
  {
    hide Proper, Spell, Extend, Accept;
    if w == [] {
      NothingBuilt();
    } else {
      BuildSpells(w[..|w| - 1]);
      ExtendStep(Build(w[..|w| - 1]), w[|w| - 1]);
    }
  }

  lemma NothingBuilt()
    ensures Proper(NotStarted) && Spell(NotStarted) == [] && Frames(NotStarted) == []
  {
  }

  /** Every accepted complete word is the word of a list of sound trees. */
  lemma CompleteWord(w: seq<StreamEvent>) returns (docs: seq<Tree>)
    requires AcceptAll(w) == Some([StreamDone])
    ensures AllSound(docs) && w == StreamWord(docs)
  {
    BuildSpells(w);
    var p := Build(w);
    EndedOnly(p);
    docs := p.docs;
  }

  lemma EndedOnly(p: Partial)
    requires Frames(p) == [StreamDone]
    ensures p.Ended?
  {
  }

  // ----- and words of trees are accepted

  function ChildFrame(start: Event, n: nat): Frame {
    FrameOf(Open(start, seq(n, i => Leaf(start))))
  }

  lemma {:induction false} TreeAccepted(s: seq<Frame>, t: Tree)
    requires Sound(t) && s != [] && TakesNode(Top(s))
    ensures AcceptFrom(s, Word(t)) == Some(AdvanceTop(s))
    decreases t
  {
    match t
    case Leaf(e) => AcceptOne(s, In(e));
    case Collection(start, children) =>
      forall i, u: seq<Frame> | 0 <= i < |children| && u != [] && TakesNode(Top(u))
        ensures AcceptFrom(u, Word(children[i])) == Some(AdvanceTop(u))
      {
        TreeAccepted(u, children[i]);
      }
      CloseAccepted(s, start, children);
  }

  ghost predicate EachAccepted(ts: seq<Tree>) {
    forall i, u: seq<Frame> :: 0 <= i < |ts| && u != [] && TakesNode(Top(u))
      ==> AcceptFrom(u, Word(ts[i])) == Some(AdvanceTop(u))
  }

  lemma {:induction false} ChildrenAccepted(s: seq<Frame>, start: Event, ts: seq<Tree>)
    requires EachAccepted(ts) && IsStart(start)
    ensures AcceptFrom(s + [ChildFrame(start, 0)], Words(ts)) == Some(s + [ChildFrame(start, |ts|)])
  {
    hide Word, AcceptFrom;
    var f := s + [ChildFrame(start, 0)];
    if ts == [] {
      assert AcceptFrom(f, []) == Some(f) by { AcceptNothing(f); }
    } else {
      var n := |ts| - 1;
      ChildrenAccepted(s, start, ts[..n]);
      AcceptConcat(f, Words(ts[..n]), Word(ts[n]));
      ChildAdvances(s, start, n);
    }
  }

  lemma AcceptNothing(s: seq<Frame>)
    ensures AcceptFrom(s, []) == Some(s)
  {
  }

  lemma ChildAdvances(s: seq<Frame>, start: Event, n: nat)
    requires IsStart(start)
    ensures TakesNode(Top(s + [ChildFrame(start, n)]))
    ensures AdvanceTop(s + [ChildFrame(start, n)]) == s + [ChildFrame(start, n + 1)]
  {
  }

  lemma CloseAccepted(s: seq<Frame>, start: Event, ts: seq<Tree>)
    requires IsStart(start) && (start.MappingStart? ==> |ts| % 2 == 0)
    requires s != [] && TakesNode(Top(s)) && EachAccepted(ts)
    ensures AcceptFrom(s, Word(Collection(start, ts))) == Some(AdvanceTop(s))
  {
    hide AcceptFrom, AdvanceTop, Words, EachAccepted;
    var f, g := s + [ChildFrame(start, 0)], s + [ChildFrame(start, |ts|)];
    AcceptOne(s, In(start));
    ChildrenAccepted(s, start, ts);
    AcceptOne(g, In(EndOf(start)));
    assert g[..|s|] == s;
    AcceptConcat(s, [In(start)], Words(ts));
    AcceptConcat(s, [In(start)] + Words(ts), [In(EndOf(start))]);
  }

  lemma {:induction false} DocumentsAccepted(ts: seq<Tree>)
    requires AllSound(ts)
    ensures AcceptFrom([InStream], DocumentWords(ts)) == Some([InStream])
  {
    hide Word, Sound, AdvanceTop, AcceptFrom;
    if ts == [] {
      AcceptNothing([InStream]);
    } else {
      var n := |ts| - 1;
      var open, done := [InStream, DocumentRoot], [InStream, DocumentDone];
      var v := DocumentWords(ts[..n]);
      DocumentsAccepted(ts[..n]);
      AcceptOne([InStream], In(DocumentStart));
      TreeAccepted(open, ts[n]);
      RootAdvances();
      AcceptOne(done, In(DocumentEnd));
      AcceptConcat([InStream], v, [In(DocumentStart)]);
      AcceptConcat([InStream], v + [In(DocumentStart)], Word(ts[n]));
      AcceptConcat([InStream], v + [In(DocumentStart)] + Word(ts[n]), [In(DocumentEnd)]);
    }
  }

  lemma RootAdvances()
    ensures AdvanceTop([InStream, DocumentRoot]) == [InStream, DocumentDone]
  {
    assert [InStream, DocumentRoot][..1] == [InStream];
  }

  /** A word is complete exactly when it is that of a list of sound trees. */
  lemma CompleteIffTrees(w: seq<StreamEvent>)
    ensures AcceptAll(w) == Some([StreamDone]) <==> exists docs :: AllSound(docs) && w == StreamWord(docs)
  {
    hide DocumentWords, AcceptFrom, Accept, Sound;
    if AcceptAll(w) == Some([StreamDone]) {
      var docs := CompleteWord(w);
    }
    if docs :| AllSound(docs) && w == StreamWord(docs) {
      DocumentsAccepted(docs);
      AcceptOne([], StreamStart);
      AcceptOne([InStream], StreamEnd);
      StreamEnds();
      AcceptConcat([], [StreamStart], DocumentWords(docs));
      AcceptConcat([], [StreamStart] + DocumentWords(docs), [StreamEnd]);
    }
  }

  lemma StreamEnds()
    ensures Accept([], StreamStart) == Some([InStream]) && Accept([InStream], StreamEnd) == Some([StreamDone])
  {
  }
}
