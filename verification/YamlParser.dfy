/** The pushdown machine that turns tokens into events. */
module YamlParser {
  import opened Basics
  import opened YamlGraph
  import opened YamlNesting
  import opened YamlTrees
  import opened YamlGrammar
  import opened YamlFuture

  // ----- the open frames as a function of state and states

  /** What a state on the stack adds to the frames of the states below it, before the node it waits for. */
  function Waiting(s: State): seq<Frame> {
    match s
    case BlockSequenceEntry | IndentlessSequenceEntry | FlowSequenceEntry => [InSequence]
    case BlockMappingValue | FlowMappingValue | FlowMappingEmptyValue => [MappingKey]
    case BlockMappingKey | FlowMappingKey => [MappingValue]
    case FlowSequenceEntryMappingValue => [InSequence, MappingKey]
    case FlowSequenceEntryMappingEnd => [InSequence, MappingValue]
    case _ => []
  }

  /** What it adds as the current state: the same after that node, if it waits for one. */
  function Own(s: State): seq<Frame> {
    if Waiting(s) != [] then AdvanceTop(Waiting(s))
    else
      match s
      case BlockSequenceFirstEntry | FlowSequenceFirstEntry => [InSequence]
      case BlockMappingFirstKey | FlowMappingFirstKey => [MappingKey]
      case FlowSequenceEntryMappingKey => [InSequence, MappingKey]
      case _ => []
  }

  /** The marks a state owns. */
  function Marked(s: State): nat {
    match s
    case BlockSequenceEntry | BlockMappingKey | BlockMappingValue | FlowSequenceEntry => 1
    case FlowSequenceEntryMappingKey | FlowSequenceEntryMappingValue | FlowSequenceEntryMappingEnd => 1
    case FlowMappingKey | FlowMappingValue | FlowMappingEmptyValue => 1
    case _ => 0
  }

  /** A stack of states: a document end below states that wait for a node. */
  predicate Stacked(states: seq<State>) {
    && states != [] && states[0] == DocumentEndState
    && forall i :: 0 < i < |states| ==> Waiting(states[i]) != []
  }

  function Before(states: seq<State>): seq<Frame>
    requires Stacked(states)
  {
    if |states| == 1 then [InStream, DocumentRoot]
    else
      var n := |states| - 1;
      Before(states[..n]) + Waiting(states[n])
  }

  function StackMarks(states: seq<State>): nat {
    if states == [] then 0 else StackMarks(states[..|states| - 1]) + Marked(states[|states| - 1])
  }

  predicate AtNode(s: State) {
    s == DocumentContent || s == BlockNode || s == BlockNodeOrIndentlessSequence || s == FlowNode
  }

  predicate Balanced(state: State, states: seq<State>) {
    if AtNode(state) || Own(state) != [] then Stacked(states) else states == []
  }

  function Shape(state: State, states: seq<State>): seq<Frame>
    requires Balanced(state, states)
  {
    if AtNode(state) || Own(state) != [] then Before(states) + Own(state)
    else
      match state
      case StreamStartState => []
      case End => [StreamDone]
      case DocumentEndState => [InStream, DocumentDone]
      case _ => [InStream]
  }

  lemma OwnIsNext(s: State)
    requires Waiting(s) != []
    ensures Own(s) == AdvanceTop(Waiting(s)) && !AtNode(s) && TakesNode(Top(Waiting(s)))
  {
  }

  lemma AdvanceBelow(below: seq<Frame>, w: seq<Frame>)
    requires w != []
    ensures AdvanceTop(below + w) == below + AdvanceTop(w) && Top(below + w) == Top(w)
  {
  }

  /** Popping a state: its frames are those before the node, advanced. */
  lemma {:induction false} PopShape(states: seq<State>)
    requires Stacked(states)
    ensures var n := |states| - 1;
      && Balanced(states[n], states[..n]) && Before(states) != [] && TakesNode(Top(Before(states)))
      && Shape(states[n], states[..n]) == AdvanceTop(Before(states))
      && StackMarks(states) == StackMarks(states[..n]) + Marked(states[n])
      && !IsFirst(states[n]) && states[n] != End && states[n] != ImplicitDocumentStart
  {
    var n := |states| - 1;
    if n > 0 {
      hide Waiting, Own, AdvanceTop, Top, Advance, AtNode;
      OwnIsNext(states[n]);
      AdvanceBelow(Before(states[..n]), Waiting(states[n]));
      NotFirst(states[n]);
    } else {
      PopRoot(states);
    }
  }

  lemma PopRoot(states: seq<State>)
    requires states == [DocumentEndState]
    ensures Stacked(states) && Before(states) == [InStream, DocumentRoot] && states[..0] == []
    ensures Balanced(DocumentEndState, []) && Shape(DocumentEndState, []) == [InStream, DocumentDone]
  {
  }

  lemma NotFirst(s: State)
    requires Waiting(s) != []
    ensures !IsFirst(s) && s != End && s != ImplicitDocumentStart
  {
  }

  /** Pushing a state that waits for a node. */
  lemma PushBefore(states: seq<State>, s: State)
    requires Stacked(states) && Waiting(s) != []
    ensures Stacked(states + [s]) && Before(states + [s]) == Before(states) + Waiting(s)
    ensures StackMarks(states + [s]) == StackMarks(states) + Marked(s)
  {
    assert (states + [s])[..|states|] == states;
  }

  predicate StartsFirst(state: State, t: Token) {
    match state
    case BlockSequenceFirstEntry => t.BlockSequenceStart?
    case BlockMappingFirstKey => t.BlockMappingStart?
    case FlowSequenceFirstEntry => t.FlowSequenceStart?
    case FlowMappingFirstKey => t.FlowMappingStart?
    case _ => false
  }

  predicate IsFirst(state: State) {
    state in {BlockSequenceFirstEntry, BlockMappingFirstKey, FlowSequenceFirstEntry, FlowMappingFirstKey}
  }

  // ----- progress

  /** States in which the next event is bound to consume a token come first. */
  function Height(s: State, depth: nat): nat {
    if IsFirst(s) then 0 else if s == ImplicitDocumentStart then 3 else depth + 1
  }

  function Rank(s: State): nat {
    match s
    case FlowSequenceEntryMappingKey => 3
    case FlowSequenceEntryMappingValue => 2
    case FlowSequenceEntryMappingEnd | BlockMappingValue | FlowMappingValue | FlowMappingEmptyValue => 1
    case DocumentEndState | BlockNodeOrIndentlessSequence => 1
    case _ => 0
  }

  /** An event consumes a token, or lowers the height, or keeps it and lowers the rank. */
  predicate Progress(pos: nat, s: State, depth: nat, pos': nat, s': State, depth': nat) {
    || pos < pos'
    || (pos == pos' && Height(s', depth') < Height(s, depth))
    || (pos == pos' && Height(s', depth') == Height(s, depth) && Rank(s') < Rank(s))
  }

  // ----- the kinds of steps, on frames

  /** A scalar or an alias in state x leads to state y with the same states below. */
  lemma NodeStep(x: State, y: State, states: seq<State>, e: Event)
    requires Stacked(states) && Own(x) != [] && TakesNode(Top(Own(x))) && Own(y) == AdvanceTop(Own(x))
    requires e.Alias? || e.ScalarEvent?
    ensures Accept(Before(states) + Own(x), In(e)) == Some(Before(states) + Own(y))
  {
    hide Before, Own, Waiting, AdvanceTop, Top;
    AdvanceBelow(Before(states), Own(x));
  }

  /** The end of a collection in state x leads to the state on top of the states. */
  lemma EndStep(f: Frame, states: seq<State>, e: Event)
    requires Stacked(states)
    requires (f == InSequence && e.SequenceEnd?) || (f == MappingKey && e.MappingEnd?)
    ensures Before(states) != [] && Accept(Before(states) + [f], In(e)) == Some(AdvanceTop(Before(states)))
  {
    hide Before, Waiting, AdvanceTop;
    PopShape(states);
    assert (Before(states) + [f])[..|Before(states)|] == Before(states);
  }

  lemma AdvanceOne(f: Frame)
    ensures AdvanceTop([f]) == [Advance(f)]
  {
    assert [f][..0] == [];
  }

  lemma AdvanceTwo(f: Frame, g: Frame)
    ensures AdvanceTop([f, g]) == [f, Advance(g)]
  {
    assert [f, g][..1] == [f];
  }

  lemma Advances()
    ensures AdvanceTop([InSequence]) == [InSequence]
    ensures AdvanceTop([MappingKey]) == [MappingValue] && AdvanceTop([MappingValue]) == [MappingKey]
    ensures AdvanceTop([InSequence, MappingKey]) == [InSequence, MappingValue]
    ensures AdvanceTop([InSequence, MappingValue]) == [InSequence, MappingKey]
  {
    hide AdvanceTop;
    AdvanceOne(InSequence);
    AdvanceOne(MappingKey);
    AdvanceOne(MappingValue);
    AdvanceTwo(InSequence, MappingKey);
    AdvanceTwo(InSequence, MappingValue);
  }

  lemma SequenceStates()
    ensures Own(BlockSequenceFirstEntry) == Own(FlowSequenceFirstEntry) == [InSequence]
    ensures Own(BlockSequenceEntry) == Own(FlowSequenceEntry) == Own(IndentlessSequenceEntry) == [InSequence]
    ensures Waiting(BlockSequenceEntry) == Waiting(FlowSequenceEntry) == Waiting(IndentlessSequenceEntry) == [InSequence]
    ensures Marked(BlockSequenceFirstEntry) == Marked(FlowSequenceFirstEntry) == Marked(IndentlessSequenceEntry) == 0
    ensures Marked(BlockSequenceEntry) == Marked(FlowSequenceEntry) == 1
    ensures AdvanceTop([InSequence]) == [InSequence]
  {
    hide AdvanceTop;
    Advances();
  }

  lemma MappingStates()
    ensures Own(BlockMappingFirstKey) == Own(FlowMappingFirstKey) == [MappingKey]
    ensures Waiting(BlockMappingKey) == Waiting(FlowMappingKey) == [MappingValue]
    ensures Waiting(BlockMappingValue) == Waiting(FlowMappingValue) == Waiting(FlowMappingEmptyValue) == [MappingKey]
    ensures Marked(BlockMappingFirstKey) == Marked(FlowMappingFirstKey) == 0
    ensures Marked(BlockMappingKey) == Marked(FlowMappingKey) == Marked(BlockMappingValue) == 1
    ensures Marked(FlowMappingValue) == Marked(FlowMappingEmptyValue) == 1
  {
    hide AdvanceTop;
  }

  lemma MappingOwn()
    ensures Own(BlockMappingKey) == Own(FlowMappingKey) == [MappingKey]
    ensures Own(BlockMappingValue) == Own(FlowMappingValue) == Own(FlowMappingEmptyValue) == [MappingValue]
    ensures AdvanceTop([MappingKey]) == [MappingValue] && AdvanceTop([MappingValue]) == [MappingKey]
  {
    hide AdvanceTop, Waiting;
    Advances();
    MappingStates();
  }

  lemma EntryMappingStates()
    ensures Own(FlowSequenceEntryMappingKey) == Own(FlowSequenceEntryMappingEnd) == [InSequence, MappingKey]
    ensures Own(FlowSequenceEntryMappingValue) == [InSequence, MappingValue]
    ensures Waiting(FlowSequenceEntryMappingValue) == [InSequence, MappingKey]
    ensures Waiting(FlowSequenceEntryMappingEnd) == [InSequence, MappingValue]
    ensures Marked(FlowSequenceEntryMappingKey) == Marked(FlowSequenceEntryMappingValue) == 1
    ensures Marked(FlowSequenceEntryMappingEnd) == 1
    ensures AdvanceTop([InSequence, MappingKey]) == [InSequence, MappingValue]
    ensures AdvanceTop([InSequence, MappingValue]) == [InSequence, MappingKey]
  {
    hide AdvanceTop;
    Advances();
  }

  predicate IsOutside(s: State) {
    s in {StreamStartState, ImplicitDocumentStart, DocumentStartState, DocumentEndState, End}
  }

  lemma OtherStates(s: State)
    ensures Own(s) == [] <==> IsOutside(s) || AtNode(s)
    ensures Own(s) == [] ==> Marked(s) == 0
    ensures IsOutside(s) ==> !AtNode(s) && !IsFirst(s)
    ensures AtNode(s) ==> !IsFirst(s) && s != End
  {
    hide AdvanceTop;
  }

  /** Outside of a document nothing is on the stacks. */
  lemma OutsideShape(s: State)
    requires IsOutside(s)
    ensures Balanced(s, []) && Marked(s) == 0 == StackMarks([]) && !IsFirst(s)
    ensures Shape(s, []) == (match s
            case StreamStartState => []
            case End => [StreamDone]
            case DocumentEndState => [InStream, DocumentDone]
            case _ => [InStream])
    ensures forall states :: Balanced(s, states) <==> states == []
  {
    hide Own, Waiting, AdvanceTop;
    OtherStates(s);
  }

  // ----- the parser

  class Parser {
    const tokens: seq<Token>
    /** The token at the head of the queue. Beyond the last token the scanner fails. */
    var pos: nat
    var state: State
    var states: seq<State>
    var marks: seq<nat>
    var tagDirectives: seq<(string, string)>
    var streamEndProduced: bool
    var error: bool
    /** The events so far. */
    ghost var log: seq<StreamEvent>

    ghost predicate Good()
      reads this
    {
      && pos <= |tokens| && (streamEndProduced <==> state == End) && Balanced(state, states) && |marks| == StackMarks(states) + Marked(state)
      && (IsFirst(state) ==> pos < |tokens| && StartsFirst(state, tokens[pos]))
    }

    ghost predicate Valid()
      reads this
    {
      && (!error ==> Good() && AcceptAll(log) == Some(Shape(state, states)))
      && ToStream(StreamAt(tokens)) == if error then None else First(log, Ahead())
    }

    /** The events still to come. */
    ghost function Ahead(): Outlook
      reads this
    {
      Future(tokens, state, states, pos, tagDirectives)
    }

    constructor (tokens: seq<Token>)
      ensures Valid() && this.tokens == tokens && log == [] && !error
    {
      this.tokens := tokens;
      pos, state, states, marks, tagDirectives := 0, StreamStartState, [], [], [];
      streamEndProduced, error := false, false;
      log := [];
      AllAhead(tokens);
    }

    method Skip()
      requires pos < |tokens|
      modifies this`pos, this`streamEndProduced
      ensures pos == old(pos) + 1 && streamEndProduced == (tokens[old(pos)] == StreamEndToken)
    {
      streamEndProduced := tokens[pos] == StreamEndToken;
      pos := pos + 1;
    }

    /** state = POP(states), where a node is finished or a collection ends. */
    method PopState()
      requires Stacked(states) && |marks| == StackMarks(states) && pos <= |tokens| && !streamEndProduced
      modifies this`state, this`states
      ensures Good() && !IsFirst(state) && state != ImplicitDocumentStart && |states| == |old(states)| - 1
      ensures Before(old(states)) != [] && Shape(state, states) == AdvanceTop(Before(old(states)))
      ensures forall q: nat :: Popped(tokens, old(states), q, tagDirectives) == Future(tokens, state, states, q, tagDirectives)
    {
      hide Before, Own, Waiting, AdvanceTop, Marked;
      PopShape(states);
      state, states := states[|states| - 1], states[..|states| - 1];
    }

    /** The anchor and the tag in front of a node, in either order. */
    method ParseProperties() returns (anchor: Option<string>, tag: Option<string>, ok: bool)
      requires pos < |tokens|
      modifies this`pos, this`streamEndProduced
      requires !streamEndProduced
      ensures old(pos) <= pos <= |tokens| && !streamEndProduced && (ok ==> pos < |tokens|)
      ensures anchor.Some? || tag.Some? ==> old(pos) < pos
      ensures PropertiesAt(tokens, old(pos), tagDirectives) == if ok then Some(Properties(anchor, tag, pos)) else None
    {
      hide Resolve;
      anchor, tag, ok := None, None, false;
      var handle, suffix := None, "";
      if tokens[pos].AnchorToken? {
        anchor := Some(tokens[pos].name);
        Skip();
        if pos < |tokens| && tokens[pos].TagToken? {
          handle, suffix := Some(tokens[pos].handle), tokens[pos].suffix;
          Skip();
        }
      } else if tokens[pos].TagToken? {
        handle, suffix := Some(tokens[pos].handle), tokens[pos].suffix;
        Skip();
        if pos < |tokens| && tokens[pos].AnchorToken? {
          anchor := Some(tokens[pos].name);
          Skip();
        }
      }
      if pos == |tokens| {
        return;
      }
      if handle != None {
        tag := Resolve(tagDirectives, handle.value, suffix);
        if tag == None {
          return;
        }
      }
      ok := true;
    }

    /** yaml_parser_parse_node. */
    method ParseNode(block: bool, indentless: bool) returns (e: StreamEvent)
      requires Stacked(states) && |marks| == StackMarks(states) && pos <= |tokens| && !error && !streamEndProduced
      modifies this`pos, this`state, this`states, this`streamEndProduced, this`error
      ensures !error ==> Good() && Accept(Before(old(states)), e) == Some(Shape(state, states))
      ensures !error ==> (|| old(pos) < pos
                          || (old(pos) == pos && IsFirst(state))
                          || (old(pos) == pos && indentless && state == IndentlessSequenceEntry && states == old(states)))
      ensures Tells(old(NodeFuture(tokens, states, pos, tagDirectives, block, indentless)), error, e, Ahead())
      ensures Named(e)
    {
      hide NodeFuture, Future, Popped, First, PropertiesAt, ContentFuture;
      hide Before, Waiting, AdvanceTop, StackMarks, Balanced, Marked, Shape, Accept;
      NodeFutureIs(tokens, states, pos, tagDirectives, block, indentless);
      e := NoEvent;
      if pos == |tokens| {
        error := true;
        return;
      }
      if tokens[pos].AliasToken? {
        e := EndNode(Alias(Some(tokens[pos].name)), true);
        return;
      }
      var anchor, tag, ok := ParseProperties();
      if !ok {
        error := true;
        return;
      }
      e := ParseContent(anchor, tag, block, indentless);
    }

    /** A node behind its properties. */
    method ParseContent(anchor: Option<string>, tag: Option<string>, block: bool, indentless: bool) returns (e: StreamEvent)
      requires Stacked(states) && |marks| == StackMarks(states) && pos < |tokens| && !error && !streamEndProduced
      modifies this`pos, this`state, this`states, this`streamEndProduced, this`error
      ensures !error ==> Good() && Accept(Before(old(states)), e) == Some(Shape(state, states))
      ensures !error ==> (|| old(pos) < pos
                          || (old(pos) == pos && (anchor.Some? || tag.Some? || IsFirst(state)))
                          || (old(pos) == pos && indentless && state == IndentlessSequenceEntry && states == old(states)))
      ensures Tells(old(ContentFuture(tokens, states, Properties(anchor, tag, pos), tagDirectives, block, indentless)), error, e, Ahead())
      ensures Named(e)
    {
      hide Good, Future, Popped, First, Before, Waiting, AdvanceTop, StackMarks, Balanced, Marked, Shape, Accept, Own;
      PopShape(states);
      e := NoEvent;
      var implicit := tag == None || tag == Some("");
      var token := tokens[pos];
      if indentless && token.BlockEntry? {
        e := StartSequence(IndentlessSequenceEntry, SequenceStart(anchor, tag, implicit, BLOCK));
      } else if token.ScalarToken? {
        var plain := (token.style == PLAIN && tag == None) || tag == Some("!");
        e := EndNode(ScalarEvent(anchor, tag, token.text, plain, !plain && tag == None, token.style), true);
      } else if Opens(block, token) {
        e := ParseStart(anchor, tag, block, indentless);
      } else if (anchor != None || tag != None) && !TooDeep(block, token) {
        e := EndNode(ScalarEvent(anchor, tag, "", implicit, false, PLAIN), false);
      } else {
        error := true;
      }
    }

    /** The start of a collection with brackets or an indentation of its own. */
    method ParseStart(anchor: Option<string>, tag: Option<string>, block: bool, ghost indentless: bool) returns (e: StreamEvent)
      requires Stacked(states) && |marks| == StackMarks(states) && pos < |tokens| && !error && !streamEndProduced
      requires Opens(block, tokens[pos])
      modifies this`state
      ensures Good() && Accept(Before(states), e) == Some(Shape(state, states)) && IsFirst(state)
      ensures Tells(old(ContentFuture(tokens, states, Properties(anchor, tag, pos), tagDirectives, block, indentless)), false, e, Ahead())
      ensures Named(e)
    {
      hide Good, Future, Popped, First, Before, Waiting, AdvanceTop, StackMarks, Balanced, Marked, Shape, Accept, Own;
      PopShape(states);
      var implicit := tag == None || tag == Some("");
      match tokens[pos]
      case FlowSequenceStart(_) => e := StartSequence(FlowSequenceFirstEntry, SequenceStart(anchor, tag, implicit, FLOW));
      case FlowMappingStart(_) => e := StartMapping(FlowMappingFirstKey, MappingStart(anchor, tag, implicit, FLOW));
      case BlockSequenceStart(_) => e := StartSequence(BlockSequenceFirstEntry, SequenceStart(anchor, tag, implicit, BLOCK));
      case BlockMappingStart(_) => e := StartMapping(BlockMappingFirstKey, MappingStart(anchor, tag, implicit, BLOCK));
    }

    /** An alias or a scalar ends the node; it may leave its token to what follows. */
    method EndNode(event: Event, skip: bool) returns (e: StreamEvent)
      requires Stacked(states) && |marks| == StackMarks(states) && pos < |tokens| && !streamEndProduced
      requires (event.Alias? || event.ScalarEvent?) && (skip ==> tokens[pos] != StreamEndToken)
      modifies this`pos, this`state, this`states, this`streamEndProduced
      ensures Good() && e == In(event) && Accept(Before(old(states)), e) == Some(Shape(state, states))
      ensures pos == old(pos) + (if skip then 1 else 0) && Ahead() == Popped(tokens, old(states), pos, tagDirectives)
    {
      hide Future, Popped, Before, Waiting, AdvanceTop, StackMarks, Balanced, Marked, Shape, Own, Accept;
      PopShape(states);
      AcceptNode(Before(states), event);
      e := In(event);
      PopState();
      if skip {
        Skip();
      }
    }

    /** Enter a sequence; its first token stays at the head of the queue. */
    method StartSequence(s: State, event: Event) returns (e: StreamEvent)
      requires Stacked(states) && |marks| == StackMarks(states) && pos < |tokens| && !streamEndProduced
      requires Before(states) != [] && TakesNode(Top(Before(states)))
      requires s == IndentlessSequenceEntry || ((s == FlowSequenceFirstEntry || s == BlockSequenceFirstEntry) && StartsFirst(s, tokens[pos]))
      requires event.SequenceStart?
      modifies this`state
      ensures Good() && Accept(Before(states), e) == Some(Shape(state, states)) && state == s && e == In(event)
    {
      hide Before, Own, Waiting, Marked, AdvanceTop, StackMarks;
      SequenceStates();
      state := s;
      e := In(event);
    }

    method StartMapping(s: State, event: Event) returns (e: StreamEvent)
      requires Stacked(states) && |marks| == StackMarks(states) && pos < |tokens| && !streamEndProduced
      requires Before(states) != [] && TakesNode(Top(Before(states)))
      requires (s == FlowMappingFirstKey || s == BlockMappingFirstKey) && StartsFirst(s, tokens[pos])
      requires event.MappingStart?
      modifies this`state
      ensures Good() && Accept(Before(states), e) == Some(Shape(state, states)) && state == s && e == In(event)
    {
      hide Before, Own, Waiting, Marked, AdvanceTop, StackMarks;
      MappingStates();
      state := s;
      e := In(event);
    }

    // ----- what the state functions share

    /** PUSH(states, s) and parse a node. */
    method NodeFor(s: State, block: bool, indentless: bool) returns (e: StreamEvent)
      requires Stacked(states) && Waiting(s) != [] && |marks| == StackMarks(states) + Marked(s)
      requires pos <= |tokens| && !error && !streamEndProduced
      modifies this`pos, this`state, this`states, this`streamEndProduced, this`error
      ensures !error ==> Good() && Accept(Before(old(states)) + Waiting(s), e) == Some(Shape(state, states))
      ensures !error ==> old(pos) < pos || (old(pos) == pos && (IsFirst(state) || indentless))
      ensures Tells(old(NodeFuture(tokens, states + [s], pos, tagDirectives, block, indentless)), error, e, Ahead())
      ensures Named(e)
    {
      hide NodeFuture, Future, First, Before, Waiting, Marked, StackMarks, Shape, Balanced;
      PushBefore(states, s);
      states := states + [s];
      e := ParseNode(block, indentless);
    }

    /** Continue in state y after an empty scalar in state x. */
    method EmptyScalar(ghost x: State, y: State) returns (e: StreamEvent)
      requires Stacked(states) && Own(x) != [] && TakesNode(Top(Own(x))) && Own(y) == AdvanceTop(Own(x))
      requires !IsFirst(y) && y != End
      requires |marks| == StackMarks(states) + Marked(y) && pos <= |tokens| && !streamEndProduced
      modifies this`state
      ensures Good() && Accept(Before(states) + Own(x), e) == Some(Shape(state, states)) && state == y && e == In(EMPTY)
    {
      hide Before, Marked, StackMarks, Waiting, AdvanceTop, Own;
      e := In(EMPTY);
      NodeStep(x, y, states, e.event);
      state := y;
    }

    /** The end of a collection with a mark. */
    method Finish(ghost f: Frame, event: Event) returns (e: StreamEvent)
      requires Stacked(states) && |marks| == StackMarks(states) + 1 && pos < |tokens| && !streamEndProduced
      requires tokens[pos] != StreamEndToken
      requires (f == InSequence && event.SequenceEnd?) || (f == MappingKey && event.MappingEnd?)
      modifies this`pos, this`state, this`states, this`marks, this`streamEndProduced
      ensures Good() && Accept(Before(old(states)) + [f], e) == Some(Shape(state, states)) && old(pos) < pos
      ensures e == In(event) && Ahead() == old(Popped(tokens, states, pos + 1, tagDirectives))
    {
      hide Before, Marked, StackMarks, Waiting, AdvanceTop, Own, Shape, Balanced, Accept;
      EndStep(f, states, event);
      marks := marks[..|marks| - 1];
      PopState();
      e := In(event);
      Skip();
    }

    /** In a collection. */
    lemma Inside()
      requires Good() && Own(state) != []
      ensures pos <= |tokens| && !streamEndProduced && Stacked(states) && |marks| == StackMarks(states) + Marked(state)
      ensures Balanced(state, states) && Shape(state, states) == Before(states) + Own(state)
      ensures IsFirst(state) ==> pos < |tokens| && StartsFirst(state, tokens[pos])
    {
      hide Before, StackMarks, Waiting, Marked, AdvanceTop;
      OtherStates(state);
    }

    // ----- the state functions of nodes and collections

    method ParseBlockSequenceEntry(first: bool) returns (e: StreamEvent)
      requires Good() && !error && state == if first then BlockSequenceFirstEntry else BlockSequenceEntry
      modifies this`pos, this`state, this`states, this`marks, this`streamEndProduced, this`error
      ensures !error ==> Good() && Accept(old(Shape(state, states)), e) == Some(Shape(state, states))
      ensures !error ==> Progress(old(pos), old(state), old(|states|), pos, state, |states|)
      ensures Tells(old(Ahead()), error, e, Ahead())
      ensures Named(e)
    {
      hide Good, Balanced, Shape, Future, NodeFuture, First, Popped, Before, StackMarks, Accept, Own, Waiting, Marked, AdvanceTop;
      SequenceStates();
      Inside();
      e := NoEvent;
      FirstStates(tokens, states, pos, tagDirectives);
      if first {
        marks := marks + [pos];
        Skip();
      }
      BlockSequenceFuture(tokens, states, pos, tagDirectives);
      if pos == |tokens| {
        error := true;
      } else if tokens[pos].BlockEntry? {
        Skip();
        if pos == |tokens| {
          error := true;
        } else if !tokens[pos].BlockEntry? && !tokens[pos].BlockEnd? {
          e := NodeFor(BlockSequenceEntry, true, false);
        } else {
          e := EmptyScalar(BlockSequenceEntry, BlockSequenceEntry);
        }
      } else if tokens[pos].BlockEnd? {
        e := Finish(InSequence, SequenceEnd);
      } else {
        marks := marks[..|marks| - 1];
        error := true;
      }
    }

    method ParseIndentlessSequenceEntry() returns (e: StreamEvent)
      requires Good() && !error && state == IndentlessSequenceEntry
      modifies this`pos, this`state, this`states, this`marks, this`streamEndProduced, this`error
      ensures !error ==> Good() && Accept(old(Shape(state, states)), e) == Some(Shape(state, states))
      ensures !error ==> Progress(old(pos), old(state), old(|states|), pos, state, |states|)
      ensures Tells(old(Ahead()), error, e, Ahead())
      ensures Named(e)
    {
      hide Good, Balanced, Shape, Future, NodeFuture, First, Popped, Before, StackMarks, Accept, Own, Waiting, Marked, AdvanceTop;
      SequenceStates();
      Inside();
      IndentlessFuture(tokens, states, pos, tagDirectives);
      e := NoEvent;
      if pos == |tokens| {
        error := true;
      } else if tokens[pos].BlockEntry? {
        Skip();
        if pos == |tokens| {
          error := true;
        } else if (!tokens[pos].BlockEntry? && !tokens[pos].Key? && !tokens[pos].Value? && !tokens[pos].BlockEnd?) {
          e := NodeFor(IndentlessSequenceEntry, true, false);
        } else {
          e := EmptyScalar(IndentlessSequenceEntry, IndentlessSequenceEntry);
        }
      } else {
        EndStep(InSequence, states, SequenceEnd);
        PopState();
        e := In(SequenceEnd);
      }
    }

    method ParseBlockMappingKey(first: bool) returns (e: StreamEvent)
      requires Good() && !error && state == if first then BlockMappingFirstKey else BlockMappingKey
      modifies this`pos, this`state, this`states, this`marks, this`streamEndProduced, this`error
      ensures !error ==> Good() && Accept(old(Shape(state, states)), e) == Some(Shape(state, states))
      ensures !error ==> Progress(old(pos), old(state), old(|states|), pos, state, |states|)
      ensures Tells(old(Ahead()), error, e, Ahead())
      ensures Named(e)
    {
      hide Good, Balanced, Shape, Future, NodeFuture, First, Popped, Before, StackMarks, Accept, Own, Waiting, Marked, AdvanceTop;
      MappingStates();
      MappingOwn();
      Inside();
      e := NoEvent;
      FirstStates(tokens, states, pos, tagDirectives);
      if first {
        marks := marks + [pos];
        Skip();
      }
      BlockKeyFuture(tokens, states, pos, tagDirectives);
      if pos == |tokens| {
        error := true;
      } else if tokens[pos].Key? {
        Skip();
        if pos == |tokens| {
          error := true;
        } else if !tokens[pos].Key? && !tokens[pos].Value? && !tokens[pos].BlockEnd? {
          e := NodeFor(BlockMappingValue, true, true);
        } else {
          e := EmptyScalar(BlockMappingKey, BlockMappingValue);
        }
      } else if tokens[pos].BlockEnd? {
        e := Finish(MappingKey, MappingEnd);
      } else {
        marks := marks[..|marks| - 1];
        error := true;
      }
    }

    method ParseBlockMappingValue() returns (e: StreamEvent)
      requires Good() && !error && state == BlockMappingValue
      modifies this`pos, this`state, this`states, this`marks, this`streamEndProduced, this`error
      ensures !error ==> Good() && Accept(old(Shape(state, states)), e) == Some(Shape(state, states))
      ensures !error ==> Progress(old(pos), old(state), old(|states|), pos, state, |states|)
      ensures Tells(old(Ahead()), error, e, Ahead())
      ensures Named(e)
    {
      hide Good, Balanced, Shape, Future, NodeFuture, First, Popped, Before, StackMarks, Accept, Own, Waiting, Marked, AdvanceTop;
      MappingStates();
      MappingOwn();
      Inside();
      BlockValueFuture(tokens, states, pos, tagDirectives);
      e := NoEvent;
      if pos == |tokens| {
        error := true;
      } else if tokens[pos].Value? {
        Skip();
        if pos == |tokens| {
          error := true;
        } else if !tokens[pos].Key? && !tokens[pos].Value? && !tokens[pos].BlockEnd? {
          e := NodeFor(BlockMappingKey, true, true);
        } else {
          e := EmptyScalar(BlockMappingValue, BlockMappingKey);
        }
      } else {
        e := EmptyScalar(BlockMappingValue, BlockMappingKey);
      }
    }

    method ParseFlowSequenceEntry(first: bool) returns (e: StreamEvent)
      requires Good() && !error && state == if first then FlowSequenceFirstEntry else FlowSequenceEntry
      modifies this`pos, this`state, this`states, this`marks, this`streamEndProduced, this`error
      ensures !error ==> Good() && Accept(old(Shape(state, states)), e) == Some(Shape(state, states))
      ensures !error ==> Progress(old(pos), old(state), old(|states|), pos, state, |states|)
      ensures Tells(old(Ahead()), error, e, Ahead())
      ensures Named(e)
    {
      hide Good, Balanced, Shape, Future, ItemFuture, First, Popped, Before, StackMarks, Own, Waiting, Marked, AdvanceTop, Accept;
      SequenceStates();
      Inside();
      FlowItemFuture(tokens, states, pos, tagDirectives);
      FlowMoreFuture(tokens, states, pos, tagDirectives);
      e := NoEvent;
      if first {
        marks := marks + [pos];
        Skip();
        e := ParseFlowItem();
      } else if pos == |tokens| {
        error := true;
      } else if tokens[pos].FlowSequenceEnd? {
        e := Finish(InSequence, SequenceEnd);
      } else if tokens[pos].FlowEntry? {
        Skip();
        e := ParseFlowItem();
      } else {
        marks := marks[..|marks| - 1];
        error := true;
      }
    }

    /** Where an item of a flow sequence may start. */
    method ParseFlowItem() returns (e: StreamEvent)
      requires Stacked(states) && |marks| == StackMarks(states) + 1 && pos <= |tokens| && !streamEndProduced && !error
      modifies this`pos, this`state, this`states, this`marks, this`streamEndProduced, this`error
      ensures !error ==> Good() && Accept(Before(old(states)) + [InSequence], e) == Some(Shape(state, states))
      ensures !error ==> old(pos) < pos || (old(pos) == pos && IsFirst(state))
      ensures Tells(old(ItemFuture(tokens, states, pos, tagDirectives)), error, e, Ahead())
      ensures Named(e)
    {
      hide Future, NodeFuture, First, Popped, Before, StackMarks, Own, Waiting, Marked, AdvanceTop;
      SequenceStates();
      EntryMappingStates();
      ghost var below := Before(states);
      e := NoEvent;
      if pos == |tokens| {
        error := true;
      } else if tokens[pos].Key? {
        state := FlowSequenceEntryMappingKey;
        e := In(MappingStart(None, None, true, FLOW));
        assert below + [InSequence] + [MappingKey] == below + [InSequence, MappingKey];
        Skip();
      } else if !tokens[pos].FlowSequenceEnd? {
        e := NodeFor(FlowSequenceEntry, false, false);
      } else {
        e := Finish(InSequence, SequenceEnd);
      }
    }

    method ParseFlowSequenceEntryMappingKey() returns (e: StreamEvent)
      requires Good() && !error && state == FlowSequenceEntryMappingKey
      modifies this`pos, this`state, this`states, this`marks, this`streamEndProduced, this`error
      ensures !error ==> Good() && Accept(old(Shape(state, states)), e) == Some(Shape(state, states))
      ensures !error ==> Progress(old(pos), old(state), old(|states|), pos, state, |states|)
      ensures Tells(old(Ahead()), error, e, Ahead())
      ensures Named(e)
    {
      hide Good, Balanced, Shape, Future, NodeFuture, First, Popped, Before, StackMarks, Accept, Own, Waiting, Marked, AdvanceTop;
      EntryMappingStates();
      SequenceStates();
      Inside();
      PairKeyFuture(tokens, states, pos, tagDirectives);
      e := NoEvent;
      if pos == |tokens| {
        error := true;
      } else if !tokens[pos].Value? && !tokens[pos].FlowEntry? && !tokens[pos].FlowSequenceEnd? {
        e := NodeFor(FlowSequenceEntryMappingValue, false, false);
      } else {
        if !tokens[pos].FlowSequenceEnd? {
          Skip();
        }
        e := EmptyScalar(FlowSequenceEntryMappingKey, FlowSequenceEntryMappingValue);
      }
    }

    method ParseFlowSequenceEntryMappingValue() returns (e: StreamEvent)
      requires Good() && !error && state == FlowSequenceEntryMappingValue
      modifies this`pos, this`state, this`states, this`marks, this`streamEndProduced, this`error
      ensures !error ==> Good() && Accept(old(Shape(state, states)), e) == Some(Shape(state, states))
      ensures !error ==> Progress(old(pos), old(state), old(|states|), pos, state, |states|)
      ensures Tells(old(Ahead()), error, e, Ahead())
      ensures Named(e)
    {
      hide Good, Balanced, Shape, Future, NodeFuture, First, Popped, Before, StackMarks, Accept, Own, Waiting, Marked, AdvanceTop;
      EntryMappingStates();
      SequenceStates();
      Inside();
      PairValueFuture(tokens, states, pos, tagDirectives);
      e := NoEvent;
      if pos == |tokens| {
        error := true;
        return;
      }
      if tokens[pos].Value? {
        Skip();
        if pos == |tokens| {
          error := true;
          return;
        }
        if !tokens[pos].FlowEntry? && !tokens[pos].FlowSequenceEnd? {
          e := NodeFor(FlowSequenceEntryMappingEnd, false, false);
          return;
        }
      }
      e := EmptyScalar(FlowSequenceEntryMappingValue, FlowSequenceEntryMappingEnd);
    }

    method ParseFlowSequenceEntryMappingEnd() returns (e: StreamEvent)
      requires Good() && !error && state == FlowSequenceEntryMappingEnd
      modifies this`pos, this`state, this`states, this`marks, this`streamEndProduced, this`error
      ensures !error ==> Good() && Accept(old(Shape(state, states)), e) == Some(Shape(state, states))
      ensures !error ==> Progress(old(pos), old(state), old(|states|), pos, state, |states|)
      ensures Tells(old(Ahead()), error, e, Ahead())
      ensures Named(e)
    {
      hide Future, NodeFuture, First, Popped, Before, StackMarks, Own, Waiting, Marked, AdvanceTop;
      EntryMappingStates();
      SequenceStates();
      Inside();
      ghost var below := Before(states);
      AdvanceBelow(below, [InSequence]);
      assert (below + [InSequence, MappingKey])[..|below| + 1] == below + [InSequence];
      PairEndFuture(tokens, states, pos, tagDirectives);
      e := NoEvent;
      if pos == |tokens| {
        error := true;
      } else {
        state := FlowSequenceEntry;
        e := In(MappingEnd);
      }
    }

    method ParseFlowMappingKey(first: bool) returns (e: StreamEvent)
      requires Good() && !error && state == if first then FlowMappingFirstKey else FlowMappingKey
      modifies this`pos, this`state, this`states, this`marks, this`streamEndProduced, this`error
      ensures !error ==> Good() && Accept(old(Shape(state, states)), e) == Some(Shape(state, states))
      ensures !error ==> Progress(old(pos), old(state), old(|states|), pos, state, |states|)
      ensures Tells(old(Ahead()), error, e, Ahead())
      ensures Named(e)
    {
      hide Good, Balanced, Shape, Future, PairFuture, First, Popped, Before, StackMarks, Accept, Own, Waiting, Marked, AdvanceTop;
      MappingStates();
      MappingOwn();
      Inside();
      FlowPairFuture(tokens, states, pos, tagDirectives);
      FlowKeyFuture(tokens, states, pos, tagDirectives);
      e := NoEvent;
      if first {
        marks := marks + [pos];
        Skip();
        e := ParseFlowPair();
      } else if pos == |tokens| {
        error := true;
      } else if tokens[pos].FlowMappingEnd? {
        e := Finish(MappingKey, MappingEnd);
      } else if tokens[pos].FlowEntry? {
        Skip();
        e := ParseFlowPair();
      } else {
        marks := marks[..|marks| - 1];
        error := true;
      }
    }

    /** Where a pair of a flow mapping may start. */
    method ParseFlowPair() returns (e: StreamEvent)
      requires Stacked(states) && |marks| == StackMarks(states) + 1 && pos <= |tokens| && !streamEndProduced && !error
      modifies this`pos, this`state, this`states, this`marks, this`streamEndProduced, this`error
      ensures !error ==> Good() && Accept(Before(old(states)) + [MappingKey], e) == Some(Shape(state, states))
      ensures !error ==> old(pos) < pos || (old(pos) == pos && IsFirst(state))
      ensures Tells(old(PairFuture(tokens, states, pos, tagDirectives)), error, e, Ahead())
      ensures Named(e)
    {
      hide Future, NodeFuture, First, Popped, Before, StackMarks, Accept, Own, Waiting, Marked, AdvanceTop;
      MappingStates();
      MappingOwn();
      e := NoEvent;
      if pos == |tokens| {
        error := true;
      } else if tokens[pos].Key? {
        Skip();
        if pos == |tokens| {
          error := true;
        } else if !tokens[pos].Value? && !tokens[pos].FlowEntry? && !tokens[pos].FlowMappingEnd? {
          e := NodeFor(FlowMappingValue, false, false);
        } else {
          e := EmptyScalar(FlowMappingKey, FlowMappingValue);
        }
      } else if !tokens[pos].FlowMappingEnd? {
        e := NodeFor(FlowMappingEmptyValue, false, false);
      } else {
        e := Finish(MappingKey, MappingEnd);
      }
    }

    method ParseFlowMappingValue(empty: bool) returns (e: StreamEvent)
      requires Good() && !error && state == if empty then FlowMappingEmptyValue else FlowMappingValue
      modifies this`pos, this`state, this`states, this`marks, this`streamEndProduced, this`error
      ensures !error ==> Good() && Accept(old(Shape(state, states)), e) == Some(Shape(state, states))
      ensures !error ==> Progress(old(pos), old(state), old(|states|), pos, state, |states|)
      ensures Tells(old(Ahead()), error, e, Ahead())
      ensures Named(e)
    {
      hide Good, Balanced, Shape, Future, NodeFuture, First, Popped, Before, StackMarks, Accept, Own, Waiting, Marked, AdvanceTop;
      MappingStates();
      MappingOwn();
      Inside();
      FlowValueFuture(tokens, states, pos, tagDirectives);
      EmptyValueFuture(tokens, states, pos, tagDirectives);
      e := NoEvent;
      if pos == |tokens| {
        error := true;
        return;
      }
      if !empty && tokens[pos].Value? {
        Skip();
        if pos == |tokens| {
          error := true;
          return;
        }
        if !tokens[pos].FlowEntry? && !tokens[pos].FlowMappingEnd? {
          e := NodeFor(FlowMappingKey, false, false);
          return;
        }
      }
      e := EmptyScalar(FlowMappingValue, FlowMappingKey);
    }

    // ----- the state functions of the stream and of documents

    method ParseStreamStart() returns (e: StreamEvent)
      requires Good() && !error && state == StreamStartState
      modifies this`pos, this`state, this`streamEndProduced, this`error
      ensures !error ==> Good() && Accept(old(Shape(state, states)), e) == Some(Shape(state, states))
      ensures !error ==> Progress(old(pos), old(state), old(|states|), pos, state, |states|)
      ensures Tells(old(Ahead()), error, e, Ahead())
      ensures Named(e)
    {
      hide Future, NodeFuture, First, Popped, Before, Own, Waiting, AdvanceTop, Marked, StackMarks, Balanced, Shape;
      OutsideShape(state);
      OutsideShape(ImplicitDocumentStart);
      StreamStartFuture(tokens, pos, tagDirectives);
      e := NoEvent;
      if pos == |tokens| || tokens[pos] != StreamStartToken {
        error := true;
      } else {
        state := ImplicitDocumentStart;
        e := StreamStart;
        Skip();
      }
    }

    /**
     * yaml_parser_process_directives: at most one %YAML directive, of version 1.1 or 1.2, and no tag
     * handle twice. The handles declared, and the default ones unless declared, are known afterwards.
     */
    method ProcessDirectives() returns (ok: bool)
      requires pos < |tokens| && !streamEndProduced
      modifies this`pos, this`tagDirectives, this`streamEndProduced
      ensures old(pos) <= pos <= |tokens| && !streamEndProduced && (ok ==> pos < |tokens|)
      ensures ok <==> Directives(tokens, old(pos), old(tagDirectives)).Some?
      ensures ok ==> Directives(tokens, old(pos), old(tagDirectives)) == Some((pos, tagDirectives))
    {
      hide Directives, Permitted, Declared, HandleIndex, HasVersion;
      ok := false;
      var version := false;
      ghost var n, start := DirectiveRun(tokens, pos), pos;
      ghost var run := tokens[start..start + n];
      NothingPermitted(tagDirectives);
      while pos < |tokens| && IsDirective(tokens[pos])
        invariant start <= pos <= start + n && !streamEndProduced
        invariant Permitted(run[..pos - start], old(tagDirectives)) && (version <==> HasVersion(run[..pos - start]))
        invariant tagDirectives == old(tagDirectives) + Declared(run[..pos - start])
        decreases |tokens| - pos
      {
        ghost var i := pos - start;
        assert i < n && tokens[pos] == run[i];
        PermittedNext(run, i, old(tagDirectives));
        RunRefused(tokens, start, i, old(tagDirectives));
        if tokens[pos].VersionDirective? {
          if version || tokens[pos].major != 1 || (tokens[pos].minor != 1 && tokens[pos].minor != 2) {
            return;
          }
          version := true;
        } else {
          if HandleIndex(tagDirectives, tokens[pos].handle) < |tagDirectives| {
            return;
          }
          tagDirectives := tagDirectives + [(tokens[pos].handle, tokens[pos].prefix)];
        }
        Skip();
      }
      assert pos == start + n && run[..n] == run;
      RunAccepted(tokens, start, old(tagDirectives));
      if pos == |tokens| {
        return;
      }
      AddDefault("!", "!");
      AddDefault("!!", "tag:yaml.org,2002:");
      ok := true;
    }

    method AddDefault(handle: string, prefix: string)
      modifies this`tagDirectives
      ensures tagDirectives == WithDefault(old(tagDirectives), handle, prefix)
    {
      if HandleIndex(tagDirectives, handle) == |tagDirectives| {
        tagDirectives := tagDirectives + [(handle, prefix)];
      }
    }

    method SkipDocumentEnds()
      requires pos <= |tokens| && !streamEndProduced
      modifies this`pos, this`streamEndProduced
      ensures old(pos) <= pos <= |tokens| && !streamEndProduced && pos == PastEnds(tokens, old(pos))
    {
      while pos < |tokens| && tokens[pos] == DocumentEndToken
        invariant old(pos) <= pos <= |tokens| && !streamEndProduced && PastEnds(tokens, pos) == PastEnds(tokens, old(pos))
        decreases |tokens| - pos
      {
        Skip();
      }
    }

    method ParseDocumentStart(implicit: bool) returns (e: StreamEvent)
      requires Good() && !error && state == if implicit then ImplicitDocumentStart else DocumentStartState
      modifies this`pos, this`state, this`states, this`tagDirectives, this`streamEndProduced, this`error
      ensures !error ==> Good() && Accept(old(Shape(state, states)), e) == Some(Shape(state, states))
      ensures !error ==> Progress(old(pos), old(state), old(|states|), pos, state, |states|)
      ensures Tells(old(Ahead()), error, e, Ahead())
      ensures Named(e)
    {
      hide Future, ExplicitFuture, ImplicitFuture, Before, Own, Waiting, AdvanceTop, Marked, StackMarks, Balanced, Shape;
      OutsideShape(state);
      DocumentStartFuture(tokens, pos, tagDirectives);
      FirstDocumentFuture(tokens, pos, tagDirectives);
      e := NoEvent;
      if !implicit {
        SkipDocumentEnds();
      }
      if implicit && pos < |tokens| && !StartsExplicit(tokens[pos]) && tokens[pos] != StreamEndToken {
        e := StartImplicit();
      } else {
        e := StartExplicit();
      }
    }

    method StartImplicit() returns (e: StreamEvent)
      requires states == [] && marks == [] && pos < |tokens| && !streamEndProduced && !error
      modifies this`pos, this`state, this`states, this`tagDirectives, this`streamEndProduced, this`error
      ensures !error ==> Good() && Accept([InStream], e) == Some(Shape(state, states))
      ensures !error ==> old(pos) <= pos && state == BlockNode && |states| == 1
      ensures Tells(old(ImplicitFuture(tokens, pos, tagDirectives)), error, e, Ahead())
      ensures Named(e)
    {
      hide Future, First, Directives, Before, Own, Waiting, AdvanceTop, Marked, StackMarks, Balanced, Shape;
      e := NoEvent;
      var ok := ProcessDirectives();
      if !ok {
        error := true;
        return;
      }
      EnterDocument(BlockNode);
      e := In(DocumentStart);
    }

    /** An explicit document, or the end of the stream. */
    method StartExplicit() returns (e: StreamEvent)
      requires states == [] && marks == [] && pos <= |tokens| && !streamEndProduced && !error
      modifies this`pos, this`state, this`states, this`tagDirectives, this`streamEndProduced, this`error
      ensures !error ==> Good() && Accept([InStream], e) == Some(Shape(state, states)) && old(pos) < pos
      ensures Tells(old(ExplicitFuture(tokens, pos, tagDirectives)), error, e, Ahead())
      ensures Named(e)
    {
      hide Future, First, Directives, Before, Own, Waiting, AdvanceTop, Marked, StackMarks, Balanced, Shape;
      OutsideShape(End);
      e := NoEvent;
      if pos == |tokens| {
        error := true;
      } else if tokens[pos] != StreamEndToken {
        var ok := ProcessDirectives();
        if !ok || tokens[pos] != DocumentStartToken {
          error := true;
          return;
        }
        EnterDocument(DocumentContent);
        e := In(DocumentStart);
        Skip();
      } else {
        state := End;
        e := StreamEnd;
        Skip();
      }
    }

    /** PUSH(states, document end) and go on in a state that is at the root node. */
    method EnterDocument(s: State)
      requires states == [] && marks == [] && pos <= |tokens| && !streamEndProduced && AtNode(s)
      modifies this`state, this`states
      ensures Good() && Shape(state, states) == [InStream, DocumentRoot] && state == s && states == [DocumentEndState]
    {
      hide Own, Waiting, AdvanceTop, Marked, Before;
      OtherStates(s);
      NoMarks();
      states := states + [DocumentEndState];
      state := s;
      assert states == [DocumentEndState];
      PopRoot(states);
      assert Before(states) + [] == Before(states);
      assert StackMarks(states[..0]) == 0;
      assert StackMarks(states) == 0;
    }

    method ParseDocumentContent() returns (e: StreamEvent)
      requires Good() && !error && state == DocumentContent
      modifies this`pos, this`state, this`states, this`streamEndProduced, this`error
      ensures !error ==> Good() && Accept(old(Shape(state, states)), e) == Some(Shape(state, states))
      ensures !error ==> Progress(old(pos), old(state), old(|states|), pos, state, |states|)
      ensures Tells(old(Ahead()), error, e, Ahead())
      ensures Named(e)
    {
      hide Future, NodeFuture, First, Popped, Before, Own, StackMarks, Waiting, AdvanceTop, Marked, Accept;
      OtherStates(state);
      assert Before(states) + [] == Before(states);
      PopShape(states);
      AcceptNode(Before(states), EMPTY);
      ContentStateFuture(tokens, states, pos, tagDirectives);
      e := NoEvent;
      if pos == |tokens| {
        error := true;
      } else if StartsExplicit(tokens[pos]) || tokens[pos] == DocumentEndToken || tokens[pos] == StreamEndToken {
        PopState();
        e := In(EMPTY);
      } else {
        e := ParseNode(true, false);
      }
    }

    method ParseDocumentEnd() returns (e: StreamEvent)
      requires Good() && !error && state == DocumentEndState
      modifies this`pos, this`state, this`tagDirectives, this`streamEndProduced, this`error
      ensures !error ==> Good() && Accept(old(Shape(state, states)), e) == Some(Shape(state, states))
      ensures !error ==> Progress(old(pos), old(state), old(|states|), pos, state, |states|)
      ensures Tells(old(Ahead()), error, e, Ahead())
      ensures Named(e)
    {
      hide Future, NodeFuture, First, Popped, Before, Own, Waiting, AdvanceTop, Marked, StackMarks, Balanced, Shape;
      OutsideShape(state);
      OutsideShape(DocumentStartState);
      DocumentEndFuture(tokens, pos, tagDirectives);
      e := NoEvent;
      if pos == |tokens| {
        error := true;
      } else {
        if tokens[pos] == DocumentEndToken {
          Skip();
        }
        tagDirectives := [];
        state := DocumentStartState;
        e := In(DocumentEnd);
      }
    }

    // ----- the machine

    method ParseCollection() returns (e: StreamEvent)
      requires Good() && !error && Own(state) != []
      modifies this
      ensures log == old(log)
      ensures !error ==> Good() && Accept(old(Shape(state, states)), e) == Some(Shape(state, states))
      ensures !error ==> Progress(old(pos), old(state), old(|states|), pos, state, |states|)
      ensures Tells(old(Ahead()), error, e, Ahead())
      ensures Named(e)
    {
      hide Future, NodeFuture, First, Popped, Before, StackMarks, Accept, AdvanceTop, Marked, Shape, Balanced, Own, Waiting;
      OtherStates(state);
      match state
      case BlockSequenceFirstEntry => e := ParseBlockSequenceEntry(true);
      case BlockSequenceEntry => e := ParseBlockSequenceEntry(false);
      case IndentlessSequenceEntry => e := ParseIndentlessSequenceEntry();
      case BlockMappingFirstKey => e := ParseBlockMappingKey(true);
      case BlockMappingKey => e := ParseBlockMappingKey(false);
      case BlockMappingValue => e := ParseBlockMappingValue();
      case FlowSequenceFirstEntry => e := ParseFlowSequenceEntry(true);
      case FlowSequenceEntry => e := ParseFlowSequenceEntry(false);
      case FlowSequenceEntryMappingKey => e := ParseFlowSequenceEntryMappingKey();
      case FlowSequenceEntryMappingValue => e := ParseFlowSequenceEntryMappingValue();
      case FlowSequenceEntryMappingEnd => e := ParseFlowSequenceEntryMappingEnd();
      case FlowMappingFirstKey => e := ParseFlowMappingKey(true);
      case FlowMappingKey => e := ParseFlowMappingKey(false);
      case FlowMappingValue => e := ParseFlowMappingValue(false);
      case FlowMappingEmptyValue => e := ParseFlowMappingValue(true);
    }

    /** yaml_parser_state_machine. */
    method StateMachine() returns (e: StreamEvent)
      requires Good() && !error
      modifies this
      ensures log == old(log)
      ensures !error ==> Good() && Accept(old(Shape(state, states)), e) == Some(Shape(state, states))
      ensures !error ==> Progress(old(pos), old(state), old(|states|), pos, state, |states|)
      ensures old(state) != End ==> Tells(old(Ahead()), error, e, Ahead())
      ensures Named(e)
    {
      hide Future, NodeFuture, First, Popped, Before, StackMarks, Accept, AdvanceTop, Marked, Waiting, Own, Shape, Balanced;
      OtherStates(state);
      match state
      case StreamStartState => e := ParseStreamStart();
      case ImplicitDocumentStart => e := ParseDocumentStart(true);
      case DocumentStartState => e := ParseDocumentStart(false);
      case DocumentContent => e := ParseDocumentContent();
      case DocumentEndState => e := ParseDocumentEnd();
      case BlockNode => e := ParseAtNode(true, false);
      case BlockNodeOrIndentlessSequence => e := ParseAtNode(true, true);
      case FlowNode => e := ParseAtNode(false, false);
      case End => e, error := NoEvent, true;
      case _ => e := ParseCollection();
    }

    method ParseAtNode(block: bool, indentless: bool) returns (e: StreamEvent)
      requires Good() && !error && AtNode(state) && state != DocumentContent
      requires block == (state != FlowNode) && indentless == (state == BlockNodeOrIndentlessSequence)
      modifies this
      ensures log == old(log)
      ensures !error ==> Good() && Accept(old(Shape(state, states)), e) == Some(Shape(state, states))
      ensures !error ==> Progress(old(pos), old(state), old(|states|), pos, state, |states|)
      ensures Tells(old(Ahead()), error, e, Ahead())
      ensures Named(e)
    {
      hide Future, NodeFuture, First, Popped, Before, Own, Waiting, Marked, StackMarks, Accept, AdvanceTop;
      OtherStates(state);
      assert Before(states) + [] == Before(states);
      AtNodeFuture(tokens, states, pos, tagDirectives);
      e := ParseNode(block, indentless);
    }

    /**
     * yaml_parser_parse: one event, which the events so far allow. There is none after an error, and
     * otherwise none only after the end of the stream.
     */
    method Parse() returns (e: StreamEvent)
      requires Valid()
      modifies this
      ensures Valid()
      ensures old(error) ==> error
      ensures e == NoEvent || error ==> log == old(log)
      ensures e != NoEvent && !error ==> log == old(log) + [e]
      ensures e != NoEvent && !error ==> Progress(old(pos), old(state), old(|states|), pos, state, |states|)
      ensures e == NoEvent ==> error || AcceptAll(log) == Some([StreamDone])
      ensures error ==> StreamAt(tokens) == None
      ensures e == NoEvent && !error ==> ToStream(StreamAt(tokens)) == Some(log)
      ensures Named(e)
    {
      hide Balanced, Shape, Accept, StackMarks, Marked, Future, First, StreamAt, Tells;
      e := NoEvent;
      if streamEndProduced || error || state == End {
        EndShape();
        return;
      }
      ghost var before := Ahead();
      e := StateMachine();
      OneTold(log, before, error, e, Ahead());
      if !error {
        NoEventRejected(old(Shape(state, states)));
        assert (log + [e])[..|log|] == log;
        log := log + [e];
      }
    }

    /** No event so far means that the stream has not been started. */
    lemma NotStarted()
      requires Valid() && !error
      ensures AcceptAll(log) == Some([]) <==> state == StreamStartState
    {
      hide StreamAt, ToStream, AcceptAll, StackMarks;
      DoneIsEnd(state, states);
      OtherStates(state);
    }

    /** Nothing is to come any more once the events are complete. */
    lemma AllTold()
      requires Valid() && !error && AcceptAll(log) == Some([StreamDone])
      ensures ToStream(StreamAt(tokens)) == Some(log)
    {
      hide StreamAt, ToStream, AcceptAll, StackMarks;
      DoneIsEnd(state, states);
      NothingAhead(tokens, log, pos, tagDirectives);
    }

    lemma EndShape()
      requires Valid()
      ensures !error && state == End ==> AcceptAll(log) == Some([StreamDone])
      ensures !error && streamEndProduced ==> state == End
      ensures !error && state == End ==> ToStream(StreamAt(tokens)) == Some(log)
    {
      hide StreamAt, ToStream, Own, Waiting, AdvanceTop, Marked, StackMarks, Before;
      OtherStates(state);
      NothingAhead(tokens, log, pos, tagDirectives);
    }
  }

  lemma DoneIsEnd(state: State, states: seq<State>)
    requires Balanced(state, states)
    ensures Shape(state, states) == [StreamDone] ==> state == End && states == []
    ensures Shape(state, states) == [] ==> state == StreamStartState
  {
    hide Own, Waiting, AdvanceTop;
    OtherStates(state);
    if AtNode(state) || Own(state) != [] {
      BeforeLong(states);
    }
  }

  lemma {:induction false} BeforeLong(states: seq<State>)
    requires Stacked(states)
    ensures |Before(states)| >= 2
  {
    hide Waiting;
    if |states| > 1 {
      BeforeLong(states[..|states| - 1]);
    }
  }

  /** An alias refers to a name. */
  predicate Named(e: StreamEvent) {
    e.In? && e.event.Alias? ==> e.event.aliased.Some?
  }

  /** A collection starts here, and the nesting limit is not reached. */
  predicate Opens(block: bool, t: Token) {
    match t
    case FlowSequenceStart(deep) => !deep
    case FlowMappingStart(deep) => !deep
    case BlockSequenceStart(deep) => block && !deep
    case BlockMappingStart(deep) => block && !deep
    case _ => false
  }

  /**
   * Calling the parser until there are no more events: it fails exactly if the tokens are no stream of
   * documents, and otherwise the events are those of the documents.
   */
  method ParseAll(tokens: seq<Token>) returns (parser: Parser)
    ensures fresh(parser) && parser.Valid() && parser.tokens == tokens
    ensures parser.error <==> StreamAt(tokens) == None
    ensures !parser.error ==> Some(parser.log) == ToStream(StreamAt(tokens))
  {
    hide StreamAt, Shape, Balanced, StackMarks, Marked, Accept, Future, First;
    parser := new Parser(tokens);
    var e := parser.Parse();
    while e != NoEvent && !parser.error
      invariant fresh(parser) && parser.Valid() && parser.tokens == tokens
      invariant parser.error ==> StreamAt(tokens) == None
      invariant e == NoEvent && !parser.error ==> ToStream(StreamAt(tokens)) == Some(parser.log)
      decreases e != NoEvent && !parser.error, |tokens| - parser.pos, Height(parser.state, |parser.states|), Rank(parser.state)
    {
      e := parser.Parse();
    }
  }

  lemma NoEventRejected(s: seq<Frame>)
    ensures Accept(s, NoEvent) == None
  {
  }

  lemma NoMarks()
    ensures Marked(DocumentEndState) == 0 && Waiting(DocumentEndState) == []
  {
  }

  lemma AcceptNode(s: seq<Frame>, e: Event)
    requires s != [] && TakesNode(Top(s)) && (e.Alias? || e.ScalarEvent?)
    ensures Accept(s, In(e)) == Some(AdvanceTop(s))
  {
  }

  lemma RunRefused(tokens: seq<Token>, pos: nat, i: nat, known: seq<(string, string)>)
    requires pos <= |tokens| && i < DirectiveRun(tokens, pos)
    ensures var n := DirectiveRun(tokens, pos);
            !Permitted(tokens[pos..pos + n][..i + 1], known) ==> Directives(tokens, pos, known).None?
  {
    hide Declares, HasVersion, HandleIndex;
    var run := tokens[pos..pos + DirectiveRun(tokens, pos)];
    assert forall j :: 0 <= j <= i ==> run[..i + 1][..j] == run[..j];
  }

  lemma RunAccepted(tokens: seq<Token>, pos: nat, known: seq<(string, string)>)
    requires pos <= |tokens| && Permitted(tokens[pos..pos + DirectiveRun(tokens, pos)], known)
    ensures var n := DirectiveRun(tokens, pos);
            Directives(tokens, pos, known)
            == if pos + n < |tokens| then Some((pos + n, Defaults(known + Declared(tokens[pos..pos + n])))) else None
  {
    hide Permitted, Declared, Defaults, DirectiveRun;
  }

  lemma NothingPermitted(known: seq<(string, string)>)
    ensures Permitted([], known) && Declared([]) == [] && !HasVersion([])
  {
  }

  /** What one more directive changes. */
  lemma PermittedNext(run: seq<Token>, i: nat, known: seq<(string, string)>)
    requires i < |run| && IsDirective(run[i]) && Permitted(run[..i], known)
    ensures var t, d := run[i], known + Declared(run[..i]);
            if t.VersionDirective?
            then && (Permitted(run[..i + 1], known) <==> t.major == 1 && (t.minor == 1 || t.minor == 2) && !HasVersion(run[..i]))
                 && HasVersion(run[..i + 1]) && Declared(run[..i + 1]) == Declared(run[..i])
            else && (Permitted(run[..i + 1], known) <==> HandleIndex(d, t.handle) == |d|)
                 && (HasVersion(run[..i + 1]) <==> HasVersion(run[..i]))
                 && Declared(run[..i + 1]) == Declared(run[..i]) + [(t.handle, t.prefix)]
    ensures Permitted(run, known) ==> Permitted(run[..i + 1], known)
  {
    hide Declares, HandleIndex;
    var front := run[..i + 1];
    assert front[..i] == run[..i];
    forall j | 0 <= j <= i
      ensures front[..j] == run[..j] && (j < i ==> run[..i][..j] == run[..j])
    {
    }
    if run[i].TagDirective? {
      DeclaredIs(known, run[..i], run[i].handle);
    }
  }

  lemma {:induction false} DeclaredIs(known: seq<(string, string)>, run: seq<Token>, handle: string)
    ensures var d := known + Declared(run);
            HandleIndex(d, handle) == |d| <==> HandleIndex(known, handle) == |known| && !Declares(run, handle)
  {
    if run == [] {
      assert known + [] == known;
    } else {
      var n := |run| - 1;
      DeclaredIs(known, run[..n], handle);
      HandleSplit(known + Declared(run[..n]), Declared(run)[|Declared(run[..n])|..], handle);
      assert known + Declared(run) == known + Declared(run[..n]) + Declared(run)[|Declared(run[..n])|..];
      assert Declares(run, handle) <==> Declares(run[..n], handle) || (run[n].TagDirective? && run[n].handle == handle);
    }
  }

  lemma HandleSplit(a: seq<(string, string)>, b: seq<(string, string)>, handle: string)
    requires |b| <= 1
    ensures HandleIndex(a + b, handle) == |a + b| <==>
            HandleIndex(a, handle) == |a| && (b == [] || b[0].0 != handle)
  {
    var i := HandleIndex(a + b, handle);
    assert b != [] ==> (a + b)[|a|] == b[0];
    assert forall k :: 0 <= k < |a| ==> (a + b)[k] == a[k];
  }
}
