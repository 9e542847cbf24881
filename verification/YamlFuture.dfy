/** The states of the parser, and the events still to come in each of them, as the grammar tells. */
module YamlFuture {
  import opened Basics
  import opened YamlGraph
  import opened YamlNesting
  import opened YamlTrees
  import opened YamlGrammar

  datatype State =
    | StreamStartState
    | ImplicitDocumentStart
    | DocumentStartState
    | DocumentContent
    | DocumentEndState
    | BlockNode
    | BlockNodeOrIndentlessSequence
    | FlowNode
    | BlockSequenceFirstEntry
    | BlockSequenceEntry
    | IndentlessSequenceEntry
    | BlockMappingFirstKey
    | BlockMappingKey
    | BlockMappingValue
    | FlowSequenceFirstEntry
    | FlowSequenceEntry
    | FlowSequenceEntryMappingKey
    | FlowSequenceEntryMappingValue
    | FlowSequenceEntryMappingEnd
    | FlowMappingFirstKey
    | FlowMappingKey
    | FlowMappingValue
    | FlowMappingEmptyValue
    | End

  type Events = seq<StreamEvent>
  /** Events up to the end of a node or collection, and the position behind it. */
  type Stretch = Option<(Events, nat)>
  /** All events up to the end of the stream, if it is well-formed. */
  type Outlook = Option<Events>

  function InFront(w: Events, s: Stretch): Stretch {
    match s
    case None => None
    case Some((v, next)) => Some((w + v, next))
  }

  function First(w: Events, f: Outlook): Outlook {
    match f
    case None => None
    case Some(v) => Some(w + v)
  }

  function Alone(node: Parsed): Stretch {
    match node
    case None => None
    case Some((t, next)) => Some((Word(t), next))
  }

  /** A pair inside a flow sequence, and then the rest of the sequence. */
  function Followed(pair: Stretch, ts: Tokens, tags: Tags): Stretch {
    match pair
    case None => None
    case Some((w, next)) => InFront(w, Closed(MoreItems(ts, next, tags), SequenceEnd))
  }

  function Closed(children: ParsedAll, end: Event): Stretch {
    match children
    case None => None
    case Some((ts, next)) => Some((Words(ts) + [In(end)], next))
  }

  /** The events of a node, and then those of state s behind it. */
  function NodeThen(node: Parsed, s: State, ts: Tokens, tags: Tags): Stretch {
    match node
    case None => None
    case Some((t, next)) => InFront(Word(t), Rest(s, ts, next, tags))
  }

  /** The events from a state to the end of the node or collection it is in. */
  function Rest(s: State, ts: Tokens, pos: nat, tags: Tags): Stretch {
    match s
    case DocumentContent => Alone(EntryAt(ts, pos, tags, true, false, Is(ts, pos, NoRoot)))
    case BlockNode => Alone(NodeAt(ts, pos, tags, true, false))
    case BlockNodeOrIndentlessSequence => Alone(NodeAt(ts, pos, tags, true, true))
    case FlowNode => Alone(NodeAt(ts, pos, tags, false, false))
    case BlockSequenceFirstEntry => Closed(BlockItems(ts, pos + 1, tags), SequenceEnd)
    case BlockSequenceEntry => Closed(BlockItems(ts, pos, tags), SequenceEnd)
    case IndentlessSequenceEntry => Closed(IndentlessItems(ts, pos, tags), SequenceEnd)
    case BlockMappingFirstKey => Closed(BlockPairs(ts, pos + 1, tags), MappingEnd)
    case BlockMappingKey => Closed(BlockPairs(ts, pos, tags), MappingEnd)
    case BlockMappingValue => Closed(BlockValue(ts, pos, tags), MappingEnd)
    case FlowSequenceFirstEntry => Closed(FlowItems(ts, pos + 1, tags), SequenceEnd)
    case FlowSequenceEntry => Closed(MoreItems(ts, pos, tags), SequenceEnd)
    case FlowSequenceEntryMappingKey => Followed(Closed(PairKey(ts, pos, tags), MappingEnd), ts, tags)
    case FlowSequenceEntryMappingValue => Followed(Closed(PairValue(ts, pos, tags), MappingEnd), ts, tags)
    case FlowSequenceEntryMappingEnd => Followed(Some(([In(MappingEnd)], pos)), ts, tags)
    case FlowMappingFirstKey => Closed(FlowPairs(ts, pos + 1, tags), MappingEnd)
    case FlowMappingKey => Closed(MorePairs(ts, pos, tags), MappingEnd)
    case FlowMappingValue => Closed(FlowValue(ts, pos, tags), MappingEnd)
    case FlowMappingEmptyValue => Closed(Cons(Leaf(EMPTY), MorePairs(ts, pos, tags)), MappingEnd)
    case _ => None
  }

  ghost function ToEnd(docs: ParsedAll): Outlook {
    match docs
    case None => None
    case Some((ts, _)) => Some(DocumentWords(ts) + [StreamEnd])
  }

  /** Outside of a document. */
  ghost function Outside(s: State, ts: Tokens, pos: nat, tags: Tags): Outlook {
    match s
    case StreamStartState =>
      if pos < |ts| && ts[pos].StreamStartToken? then First([StreamStart], ToEnd(FirstDocument(ts, pos + 1, tags))) else None
    case ImplicitDocumentStart => ToEnd(FirstDocument(ts, pos, tags))
    case DocumentStartState => ToEnd(Documents(ts, PastEnds(ts, pos), tags))
    case DocumentEndState =>
      if pos >= |ts| then None
      else
        var next := if ts[pos].DocumentEndToken? then pos + 1 else pos;
        First([In(DocumentEnd)], ToEnd(Documents(ts, PastEnds(ts, next), [])))
    case End => Some([])
    case _ => None
  }

  /** The events still to come: those of the current state, and then those of the states on the stack. */
  ghost function Future(ts: Tokens, s: State, states: seq<State>, pos: nat, tags: Tags): Outlook
    decreases |states|, 2
  {
    if states == [] then Outside(s, ts, pos, tags) else Onward(Rest(s, ts, pos, tags), ts, states, tags)
  }

  ghost function Onward(r: Stretch, ts: Tokens, states: seq<State>, tags: Tags): Outlook
    requires states != []
    decreases |states|, 1
  {
    match r
    case None => None
    case Some((w, next)) => First(w, Popped(ts, states, next, tags))
  }

  /** Those of the states on the stack only. */
  ghost function Popped(ts: Tokens, states: seq<State>, pos: nat, tags: Tags): Outlook
    requires states != []
    decreases |states|, 0
  {
    var n := |states| - 1;
    Future(ts, states[n], states[..n], pos, tags)
  }

  /** A node, and then those of the states on the stack. */
  ghost function NodeFuture(ts: Tokens, states: seq<State>, pos: nat, tags: Tags, block: bool, indentless: bool): Outlook
    requires states != []
  {
    match NodeAt(ts, pos, tags, block, indentless)
    case None => None
    case Some((t, next)) => First(Word(t), Popped(ts, states, next, tags))
  }

  /** One event comes true, or the parser has failed on what is not well-formed. */
  predicate Tells(before: Outlook, error: bool, e: StreamEvent, after: Outlook) {
    before == if error then None else First([e], after)
  }

  lemma FirstFirst(v: Events, w: Events, f: Outlook)
    ensures First(v, First(w, f)) == First(v + w, f)
  {
    if f.Some? {
      assert v + (w + f.value) == v + w + f.value;
    }
  }

  lemma ClosedCons(t: Tree, rest: ParsedAll, end: Event)
    ensures Closed(Cons(t, rest), end) == InFront(Word(t), Closed(rest, end))
  {
    hide Word;
    if rest.Some? {
      WordsCons(t, rest.value.0);
      assert Word(t) + Words(rest.value.0) + [In(end)] == Word(t) + (Words(rest.value.0) + [In(end)]);
    }
  }

  // ----- how the outlook changes from state to state

  lemma OnwardFrom(w: Events, r: Stretch, ts: Tokens, states: seq<State>, tags: Tags)
    requires states != []
    ensures Onward(InFront(w, r), ts, states, tags) == First(w, Onward(r, ts, states, tags))
  {
    hide Popped, First;
    FirstNone(w);
    if r.Some? {
      FirstFirst(w, r.value.0, Popped(ts, states, r.value.1, tags));
    }
  }

  /** Events, and then another state of the same node or collection. */
  lemma Moves(ts: Tokens, s: State, w: Events, s': State, states: seq<State>, pos: nat, at: nat, tags: Tags)
    requires states != [] && Rest(s, ts, pos, tags) == InFront(w, Rest(s', ts, at, tags))
    ensures Future(ts, s, states, pos, tags) == First(w, Future(ts, s', states, at, tags))
  {
    hide Rest, First, Onward, InFront;
    OnwardFrom(w, Rest(s', ts, at, tags), ts, states, tags);
  }

  lemma FirstNothing(f: Outlook)
    ensures First([], f) == f
  {
    if f.Some? {
      assert [] + f.value == f.value;
    }
  }

  lemma FirstNone(w: Events)
    ensures First(w, None) == None
  {
  }

  /** The end of a node or collection. */
  lemma Closes(ts: Tokens, s: State, w: Events, states: seq<State>, pos: nat, at: nat, tags: Tags)
    requires states != [] && Rest(s, ts, pos, tags) == Some((w, at))
    ensures Future(ts, s, states, pos, tags) == First(w, Popped(ts, states, at, tags))
  {
  }

  lemma Fails(ts: Tokens, s: State, states: seq<State>, pos: nat, tags: Tags)
    requires states != [] && Rest(s, ts, pos, tags) == None
    ensures Future(ts, s, states, pos, tags) == None
  {
  }

  /** A node, with the state behind it pushed on the stack. */
  lemma Pushes(ts: Tokens, s: State, s': State, states: seq<State>, pos: nat, at: nat, tags: Tags, block: bool, indentless: bool)
    requires states != [] && Rest(s, ts, pos, tags) == NodeThen(NodeAt(ts, at, tags, block, indentless), s', ts, tags)
    ensures Future(ts, s, states, pos, tags) == NodeFuture(ts, states + [s'], at, tags, block, indentless)
  {
    hide Rest, First, NodeAt, Word, Onward, InFront;
    var node := NodeAt(ts, at, tags, block, indentless);
    if node.Some? {
      var (t, next) := node.value;
      assert (states + [s'])[..|states|] == states;
      assert Popped(ts, states + [s'], next, tags) == Future(ts, s', states, next, tags);
      OnwardFrom(Word(t), Rest(s', ts, next, tags), ts, states, tags);
    } else {
      NothingOnward(ts, states, tags);
    }
  }

  lemma NothingOnward(ts: Tokens, states: seq<State>, tags: Tags)
    requires states != []
    ensures Onward(None, ts, states, tags) == None
  {
  }

  /** An entry that may be missing. */
  lemma Enters(ts: Tokens, s: State, s': State, states: seq<State>, pos: nat, at: nat, tags: Tags, block: bool, indentless: bool, missing: bool)
    requires states != []
    requires Rest(s, ts, pos, tags) == NodeThen(EntryAt(ts, at, tags, block, indentless, missing), s', ts, tags)
    ensures Future(ts, s, states, pos, tags) ==
            if at >= |ts| then None
            else if missing then First([In(EMPTY)], Future(ts, s', states, at, tags))
            else NodeFuture(ts, states + [s'], at, tags, block, indentless)
  {
    hide Rest, NodeAt, Future, NodeFuture;
    if at >= |ts| {
      Fails(ts, s, states, pos, tags);
    } else if missing {
      Moves(ts, s, [In(EMPTY)], s', states, pos, at, tags);
    } else {
      Pushes(ts, s, s', states, pos, at, tags, block, indentless);
    }
  }

  // ----- collections, state by state

  lemma FirstStates(ts: Tokens, states: seq<State>, pos: nat, tags: Tags)
    requires states != []
    ensures Future(ts, BlockSequenceFirstEntry, states, pos, tags) == Future(ts, BlockSequenceEntry, states, pos + 1, tags)
    ensures Future(ts, BlockMappingFirstKey, states, pos, tags) == Future(ts, BlockMappingKey, states, pos + 1, tags)
  {
    hide BlockItems, BlockPairs, Popped;
  }

  lemma BlockSequenceFuture(ts: Tokens, states: seq<State>, pos: nat, tags: Tags)
    requires states != []
    ensures Future(ts, BlockSequenceEntry, states, pos, tags) ==
            if pos >= |ts| then None
            else if ts[pos].BlockEnd? then First([In(SequenceEnd)], Popped(ts, states, pos + 1, tags))
            else if !ts[pos].BlockEntry? || pos + 1 >= |ts| then None
            else if NoBlockItem(ts[pos + 1]) then First([In(EMPTY)], Future(ts, BlockSequenceEntry, states, pos + 1, tags))
            else NodeFuture(ts, states + [BlockSequenceEntry], pos + 1, tags, true, false)
  {
    hide Future, NodeFuture, Popped, NodeAt, EntryAt, First, Words, Word;
    var s := BlockSequenceEntry;
    if pos >= |ts| || !NoBlockItem(ts[pos]) {
      Fails(ts, s, states, pos, tags);
    } else if ts[pos].BlockEnd? {
      NoWords(SequenceEnd);
      Closes(ts, s, [In(SequenceEnd)], states, pos, pos + 1, tags);
    } else {
      var missing := Is(ts, pos + 1, NoBlockItem);
      var entry := EntryAt(ts, pos + 1, tags, true, false, missing);
      if entry.Some? {
        ClosedCons(entry.value.0, BlockItems(ts, entry.value.1, tags), SequenceEnd);
      }
      Enters(ts, s, s, states, pos, pos + 1, tags, true, false, missing);
    }
  }

  lemma NoWords(end: Event)
    ensures Words([]) + [In(end)] == [In(end)]
  {
  }

  lemma IndentlessFuture(ts: Tokens, states: seq<State>, pos: nat, tags: Tags)
    requires states != []
    ensures Future(ts, IndentlessSequenceEntry, states, pos, tags) ==
            if pos >= |ts| then None
            else if !ts[pos].BlockEntry? then First([In(SequenceEnd)], Popped(ts, states, pos, tags))
            else if pos + 1 >= |ts| then None
            else if NoIndentlessItem(ts[pos + 1]) then
              First([In(EMPTY)], Future(ts, IndentlessSequenceEntry, states, pos + 1, tags))
            else NodeFuture(ts, states + [IndentlessSequenceEntry], pos + 1, tags, true, false)
  {
    hide Future, NodeFuture, Popped, NodeAt, EntryAt, First, Words, Word;
    var s := IndentlessSequenceEntry;
    if pos >= |ts| {
      Fails(ts, s, states, pos, tags);
    } else if !ts[pos].BlockEntry? {
      NoWords(SequenceEnd);
      Closes(ts, s, [In(SequenceEnd)], states, pos, pos, tags);
    } else {
      var missing := Is(ts, pos + 1, NoIndentlessItem);
      var entry := EntryAt(ts, pos + 1, tags, true, false, missing);
      if entry.Some? {
        ClosedCons(entry.value.0, IndentlessItems(ts, entry.value.1, tags), SequenceEnd);
      }
      Enters(ts, s, s, states, pos, pos + 1, tags, true, false, missing);
    }
  }

  lemma BlockKeyFuture(ts: Tokens, states: seq<State>, pos: nat, tags: Tags)
    requires states != []
    ensures Future(ts, BlockMappingKey, states, pos, tags) ==
            if pos >= |ts| then None
            else if ts[pos].BlockEnd? then First([In(MappingEnd)], Popped(ts, states, pos + 1, tags))
            else if !ts[pos].Key? || pos + 1 >= |ts| then None
            else if NoBlockKey(ts[pos + 1]) then First([In(EMPTY)], Future(ts, BlockMappingValue, states, pos + 1, tags))
            else NodeFuture(ts, states + [BlockMappingValue], pos + 1, tags, true, true)
  {
    hide Future, NodeFuture, Popped, NodeAt, EntryAt, First, Words, Word;
    var s := BlockMappingKey;
    if pos >= |ts| || (!ts[pos].BlockEnd? && !ts[pos].Key?) {
      Fails(ts, s, states, pos, tags);
    } else if ts[pos].BlockEnd? {
      NoWords(MappingEnd);
      Closes(ts, s, [In(MappingEnd)], states, pos, pos + 1, tags);
    } else {
      var missing := Is(ts, pos + 1, NoBlockKey);
      var entry := EntryAt(ts, pos + 1, tags, true, true, missing);
      if entry.Some? {
        ClosedCons(entry.value.0, BlockValue(ts, entry.value.1, tags), MappingEnd);
      }
      Enters(ts, s, BlockMappingValue, states, pos, pos + 1, tags, true, true, missing);
    }
  }

  lemma BlockValueFuture(ts: Tokens, states: seq<State>, pos: nat, tags: Tags)
    requires states != []
    ensures Future(ts, BlockMappingValue, states, pos, tags) ==
            if pos >= |ts| then None
            else if !ts[pos].Value? then First([In(EMPTY)], Future(ts, BlockMappingKey, states, pos, tags))
            else if pos + 1 >= |ts| then None
            else if NoBlockKey(ts[pos + 1]) then First([In(EMPTY)], Future(ts, BlockMappingKey, states, pos + 1, tags))
            else NodeFuture(ts, states + [BlockMappingKey], pos + 1, tags, true, true)
  {
    hide Future, NodeFuture, Popped, NodeAt, EntryAt, First, Words, BlockPairs;
    var s := BlockMappingValue;
    if pos >= |ts| {
      Fails(ts, s, states, pos, tags);
    } else if !ts[pos].Value? {
      ClosedCons(Leaf(EMPTY), BlockPairs(ts, pos, tags), MappingEnd);
      Moves(ts, s, [In(EMPTY)], BlockMappingKey, states, pos, pos, tags);
    } else {
      var missing := Is(ts, pos + 1, NoBlockKey);
      var entry := EntryAt(ts, pos + 1, tags, true, true, missing);
      if entry.Some? {
        ClosedCons(entry.value.0, BlockPairs(ts, entry.value.1, tags), MappingEnd);
      }
      Enters(ts, s, BlockMappingKey, states, pos, pos + 1, tags, true, true, missing);
    }
  }

  /** Where an item of a flow sequence may start. */
  ghost function ItemFuture(ts: Tokens, states: seq<State>, pos: nat, tags: Tags): Outlook
    requires states != []
  {
    if pos >= |ts| then None
    else if ts[pos].FlowSequenceEnd? then First([In(SequenceEnd)], Popped(ts, states, pos + 1, tags))
    else if ts[pos].Key? then First([In(PAIR)], Future(ts, FlowSequenceEntryMappingKey, states, pos + 1, tags))
    else NodeFuture(ts, states + [FlowSequenceEntry], pos, tags, false, false)
  }

  lemma PairWord(pair: ParsedAll, ts: Tokens, tags: Tags)
    ensures NodeThen(Collect(PAIR, pair), FlowSequenceEntry, ts, tags) == InFront([In(PAIR)], Followed(Closed(pair, MappingEnd), ts, tags))
  {
    hide Words, MoreItems;
    if pair.Some? {
      var (kids, next) := pair.value;
      var r := Closed(MoreItems(ts, next, tags), SequenceEnd);
      assert Word(Collection(PAIR, kids)) == [In(PAIR)] + (Words(kids) + [In(MappingEnd)]);
      if r.Some? {
        assert [In(PAIR)] + (Words(kids) + [In(MappingEnd)]) + r.value.0 == [In(PAIR)] + (Words(kids) + [In(MappingEnd)] + r.value.0);
      }
    }
  }

  lemma FlowItemFuture(ts: Tokens, states: seq<State>, pos: nat, tags: Tags)
    requires states != []
    ensures Future(ts, FlowSequenceFirstEntry, states, pos, tags) == ItemFuture(ts, states, pos + 1, tags)
  {
    hide Future, NodeFuture, Popped, NodeAt, PairKey, First, Words, Word, Followed, InFront;
    var s, at := FlowSequenceFirstEntry, pos + 1;
    if at >= |ts| {
      Fails(ts, s, states, pos, tags);
    } else if ts[at].FlowSequenceEnd? {
      NoWords(SequenceEnd);
      Closes(ts, s, [In(SequenceEnd)], states, pos, at + 1, tags);
    } else {
      var item := if ts[at].Key? then Collect(PAIR, PairKey(ts, at + 1, tags)) else NodeAt(ts, at, tags, false, false);
      if item.Some? {
        ClosedCons(item.value.0, MoreItems(ts, item.value.1, tags), SequenceEnd);
      }
      assert Rest(s, ts, pos, tags) == NodeThen(item, FlowSequenceEntry, ts, tags);
      if ts[at].Key? {
        PairWord(PairKey(ts, at + 1, tags), ts, tags);
        Moves(ts, s, [In(PAIR)], FlowSequenceEntryMappingKey, states, pos, at + 1, tags);
      } else {
        Pushes(ts, s, FlowSequenceEntry, states, pos, at, tags, false, false);
      }
    }
  }

  lemma FlowMoreFuture(ts: Tokens, states: seq<State>, pos: nat, tags: Tags)
    requires states != []
    ensures Future(ts, FlowSequenceEntry, states, pos, tags) ==
            if pos >= |ts| then None
            else if ts[pos].FlowSequenceEnd? then First([In(SequenceEnd)], Popped(ts, states, pos + 1, tags))
            else if ts[pos].FlowEntry? then ItemFuture(ts, states, pos + 1, tags)
            else None
  {
    hide Popped, FlowItems, First, Words, ItemFuture;
    if pos < |ts| && ts[pos].FlowSequenceEnd? {
      NoWords(SequenceEnd);
    } else if pos < |ts| && ts[pos].FlowEntry? {
      FlowItemFuture(ts, states, pos, tags);
    }
  }

  lemma PairKeyFuture(ts: Tokens, states: seq<State>, pos: nat, tags: Tags)
    requires states != []
    ensures Future(ts, FlowSequenceEntryMappingKey, states, pos, tags) ==
            if pos >= |ts| then None
            else if NoPairKey(ts[pos]) then
              First([In(EMPTY)], Future(ts, FlowSequenceEntryMappingValue, states, if ts[pos].FlowSequenceEnd? then pos else pos + 1, tags))
            else NodeFuture(ts, states + [FlowSequenceEntryMappingValue], pos, tags, false, false)
  {
    hide Future, NodeFuture, NodeAt, First, Words, Word, PairValue, MoreItems;
    var s, s' := FlowSequenceEntryMappingKey, FlowSequenceEntryMappingValue;
    if pos >= |ts| {
      Fails(ts, s, states, pos, tags);
    } else if NoPairKey(ts[pos]) {
      var at := if ts[pos].FlowSequenceEnd? then pos else pos + 1;
      ConsFollowed(Leaf(EMPTY), PairValue(ts, at, tags), ts, tags);
      assert Word(Leaf(EMPTY)) == [In(EMPTY)] by { EmptyWord(); }
      Moves(ts, s, [In(EMPTY)], s', states, pos, at, tags);
    } else {
      var key := NodeAt(ts, pos, tags, false, false);
      if key.Some? {
        ConsFollowed(key.value.0, PairValue(ts, key.value.1, tags), ts, tags);
      }
      Pushes(ts, s, s', states, pos, pos, tags, false, false);
    }
  }

  lemma EmptyWord()
    ensures Word(Leaf(EMPTY)) == [In(EMPTY)]
  {
  }

  lemma ConsFollowed(t: Tree, rest: ParsedAll, ts: Tokens, tags: Tags)
    ensures Followed(Closed(Cons(t, rest), MappingEnd), ts, tags) == InFront(Word(t), Followed(Closed(rest, MappingEnd), ts, tags))
  {
    hide Word, Words, MoreItems;
    ClosedCons(t, rest, MappingEnd);
    if rest.Some? {
      var (w, next) := Closed(rest, MappingEnd).value;
      var r := Closed(MoreItems(ts, next, tags), SequenceEnd);
      if r.Some? {
        assert Word(t) + (w + r.value.0) == Word(t) + w + r.value.0;
      }
    }
  }

  lemma PairValueFuture(ts: Tokens, states: seq<State>, pos: nat, tags: Tags)
    requires states != []
    ensures Future(ts, FlowSequenceEntryMappingValue, states, pos, tags) ==
            if pos >= |ts| then None
            else if !ts[pos].Value? then First([In(EMPTY)], Future(ts, FlowSequenceEntryMappingEnd, states, pos, tags))
            else if pos + 1 >= |ts| then None
            else if NoPairValue(ts[pos + 1]) then First([In(EMPTY)], Future(ts, FlowSequenceEntryMappingEnd, states, pos + 1, tags))
            else NodeFuture(ts, states + [FlowSequenceEntryMappingEnd], pos + 1, tags, false, false)
  {
    hide Future, NodeFuture, NodeAt, EntryAt, First, Words, MoreItems;
    var s, s' := FlowSequenceEntryMappingValue, FlowSequenceEntryMappingEnd;
    if pos >= |ts| {
      Fails(ts, s, states, pos, tags);
    } else if !ts[pos].Value? {
      OneFollowed(Leaf(EMPTY), pos, ts, tags);
      Moves(ts, s, [In(EMPTY)], s', states, pos, pos, tags);
    } else {
      var missing := Is(ts, pos + 1, NoPairValue);
      var entry := EntryAt(ts, pos + 1, tags, false, false, missing);
      if entry.Some? {
        OneFollowed(entry.value.0, entry.value.1, ts, tags);
      }
      Enters(ts, s, s', states, pos, pos + 1, tags, false, false, missing);
    }
  }

  lemma OneFollowed(t: Tree, next: nat, ts: Tokens, tags: Tags)
    ensures Followed(Closed(Some(([t], next)), MappingEnd), ts, tags)
         == InFront(Word(t), Followed(Some(([In(MappingEnd)], next)), ts, tags))
  {
    hide Word, MoreItems;
    var none: seq<Tree> := [];
    ConsFollowed(t, Some((none, next)), ts, tags);
    NoWords(MappingEnd);
  }

  lemma PairEndFuture(ts: Tokens, states: seq<State>, pos: nat, tags: Tags)
    requires states != []
    ensures Future(ts, FlowSequenceEntryMappingEnd, states, pos, tags) ==
            if pos >= |ts| then None else First([In(MappingEnd)], Future(ts, FlowSequenceEntry, states, pos, tags))
  {
    hide MoreItems, Words, First;
    assert pos >= |ts| ==> MoreItems(ts, pos, tags) == None by { NoTokens(ts, pos, tags); }
    FirstNone([In(MappingEnd)]);
    Moves(ts, FlowSequenceEntryMappingEnd, [In(MappingEnd)], FlowSequenceEntry, states, pos, pos, tags);
  }

  lemma NoTokens(ts: Tokens, pos: nat, tags: Tags)
    ensures pos >= |ts| ==> MoreItems(ts, pos, tags) == None && MorePairs(ts, pos, tags) == None
  {
  }

  /** Where a pair of a flow mapping may start. */
  ghost function PairFuture(ts: Tokens, states: seq<State>, pos: nat, tags: Tags): Outlook
    requires states != []
  {
    if pos >= |ts| then None
    else if ts[pos].FlowMappingEnd? then First([In(MappingEnd)], Popped(ts, states, pos + 1, tags))
    else if !ts[pos].Key? then NodeFuture(ts, states + [FlowMappingEmptyValue], pos, tags, false, false)
    else if pos + 1 >= |ts| then None
    else if NoFlowKey(ts[pos + 1]) then First([In(EMPTY)], Future(ts, FlowMappingValue, states, pos + 1, tags))
    else NodeFuture(ts, states + [FlowMappingValue], pos + 1, tags, false, false)
  }

  lemma FlowPairFuture(ts: Tokens, states: seq<State>, pos: nat, tags: Tags)
    requires states != []
    ensures Future(ts, FlowMappingFirstKey, states, pos, tags) == PairFuture(ts, states, pos + 1, tags)
  {
    hide Future, NodeFuture, Popped, NodeAt, EntryAt, First, Words, Word, FlowValue, MorePairs;
    var s, at := FlowMappingFirstKey, pos + 1;
    if at >= |ts| {
      Fails(ts, s, states, pos, tags);
    } else if ts[at].FlowMappingEnd? {
      NoWords(MappingEnd);
      Closes(ts, s, [In(MappingEnd)], states, pos, at + 1, tags);
    } else if ts[at].Key? {
      var missing := Is(ts, at + 1, NoFlowKey);
      var entry := EntryAt(ts, at + 1, tags, false, false, missing);
      if entry.Some? {
        ClosedCons(entry.value.0, FlowValue(ts, entry.value.1, tags), MappingEnd);
      }
      Enters(ts, s, FlowMappingValue, states, pos, at + 1, tags, false, false, missing);
    } else {
      var key := NodeAt(ts, at, tags, false, false);
      if key.Some? {
        ClosedCons(key.value.0, Cons(Leaf(EMPTY), MorePairs(ts, key.value.1, tags)), MappingEnd);
      }
      Pushes(ts, s, FlowMappingEmptyValue, states, pos, at, tags, false, false);
    }
  }

  lemma FlowKeyFuture(ts: Tokens, states: seq<State>, pos: nat, tags: Tags)
    requires states != []
    ensures Future(ts, FlowMappingKey, states, pos, tags) ==
            if pos >= |ts| then None
            else if ts[pos].FlowMappingEnd? then First([In(MappingEnd)], Popped(ts, states, pos + 1, tags))
            else if ts[pos].FlowEntry? then PairFuture(ts, states, pos + 1, tags)
            else None
  {
    hide Popped, FlowPairs, First, Words, PairFuture;
    if pos < |ts| && ts[pos].FlowMappingEnd? {
      NoWords(MappingEnd);
    } else if pos < |ts| && ts[pos].FlowEntry? {
      FlowPairFuture(ts, states, pos, tags);
    }
  }

  lemma FlowValueFuture(ts: Tokens, states: seq<State>, pos: nat, tags: Tags)
    requires states != []
    ensures Future(ts, FlowMappingValue, states, pos, tags) ==
            if pos >= |ts| then None
            else if !ts[pos].Value? then First([In(EMPTY)], Future(ts, FlowMappingKey, states, pos, tags))
            else if pos + 1 >= |ts| then None
            else if NoFlowValue(ts[pos + 1]) then First([In(EMPTY)], Future(ts, FlowMappingKey, states, pos + 1, tags))
            else NodeFuture(ts, states + [FlowMappingKey], pos + 1, tags, false, false)
  {
    hide Future, NodeFuture, NodeAt, EntryAt, First, Words, MorePairs;
    var s, s' := FlowMappingValue, FlowMappingKey;
    if pos >= |ts| {
      Fails(ts, s, states, pos, tags);
    } else if !ts[pos].Value? {
      ClosedCons(Leaf(EMPTY), MorePairs(ts, pos, tags), MappingEnd);
      Moves(ts, s, [In(EMPTY)], s', states, pos, pos, tags);
    } else {
      var missing := Is(ts, pos + 1, NoFlowValue);
      var entry := EntryAt(ts, pos + 1, tags, false, false, missing);
      if entry.Some? {
        ClosedCons(entry.value.0, MorePairs(ts, entry.value.1, tags), MappingEnd);
      }
      Enters(ts, s, s', states, pos, pos + 1, tags, false, false, missing);
    }
  }

  lemma EmptyValueFuture(ts: Tokens, states: seq<State>, pos: nat, tags: Tags)
    requires states != []
    ensures Future(ts, FlowMappingEmptyValue, states, pos, tags) ==
            if pos >= |ts| then None else First([In(EMPTY)], Future(ts, FlowMappingKey, states, pos, tags))
  {
    hide Future, First, Words, MorePairs;
    NoTokens(ts, pos, tags);
    if pos >= |ts| {
      Fails(ts, FlowMappingEmptyValue, states, pos, tags);
    } else {
      ClosedCons(Leaf(EMPTY), MorePairs(ts, pos, tags), MappingEnd);
      Moves(ts, FlowMappingEmptyValue, [In(EMPTY)], FlowMappingKey, states, pos, pos, tags);
    }
  }

  // ----- nodes

  lemma LeafFuture(ts: Tokens, states: seq<State>, pos: nat, tags: Tags, block: bool, indentless: bool, e: Event, next: nat)
    requires states != [] && NodeAt(ts, pos, tags, block, indentless) == Some((Leaf(e), next))
    ensures NodeFuture(ts, states, pos, tags, block, indentless) == First([In(e)], Popped(ts, states, next, tags))
  {
    hide NodeAt, Popped, First;
  }

  lemma OpenFuture(ts: Tokens, states: seq<State>, pos: nat, tags: Tags, block: bool, indentless: bool,
                   start: Event, children: ParsedAll, s: State, at: nat)
    requires states != [] && NodeAt(ts, pos, tags, block, indentless) == Collect(start, children)
    requires Closed(children, EndOf(start)) == Rest(s, ts, at, tags)
    ensures NodeFuture(ts, states, pos, tags, block, indentless) == First([In(start)], Future(ts, s, states, at, tags))
  {
    hide NodeAt, Popped, Rest, Words, First;
    FirstNone([In(start)]);
    if children.Some? {
      var (kids, next) := children.value;
      var w := Words(kids) + [In(EndOf(start))];
      assert Word(Collection(start, kids)) == [In(start)] + w;
      FirstFirst([In(start)], w, Popped(ts, states, next, tags));
    }
  }

  /** A node behind its properties. */
  ghost function ContentFuture(ts: Tokens, states: seq<State>, p: Properties, tags: Tags, block: bool, indentless: bool): Outlook
    requires states != [] && p.next < |ts|
  {
    var t := ts[p.next];
    if indentless && t.BlockEntry? then
      First([In(SequenceOf(p, BLOCK))], Future(ts, IndentlessSequenceEntry, states, p.next, tags))
    else if t.ScalarToken? then
      First([In(ScalarOf(p.anchor, p.tag, t.text, t.style))], Popped(ts, states, p.next + 1, tags))
    else if t.FlowSequenceStart? && !t.deep then
      First([In(SequenceOf(p, FLOW))], Future(ts, FlowSequenceFirstEntry, states, p.next, tags))
    else if t.FlowMappingStart? && !t.deep then
      First([In(MappingOf(p, FLOW))], Future(ts, FlowMappingFirstKey, states, p.next, tags))
    else if block && t.BlockSequenceStart? && !t.deep then
      First([In(SequenceOf(p, BLOCK))], Future(ts, BlockSequenceFirstEntry, states, p.next, tags))
    else if block && t.BlockMappingStart? && !t.deep then
      First([In(MappingOf(p, BLOCK))], Future(ts, BlockMappingFirstKey, states, p.next, tags))
    else if (p.anchor != None || p.tag != None) && !TooDeep(block, t) then
      First([In(ScalarEvent(p.anchor, p.tag, "", IsImplicit(p.tag), false, PLAIN))], Popped(ts, states, p.next, tags))
    else None
  }

  lemma NodeFutureIs(ts: Tokens, states: seq<State>, pos: nat, tags: Tags, block: bool, indentless: bool)
    requires states != []
    ensures NodeFuture(ts, states, pos, tags, block, indentless) ==
            if pos >= |ts| then None
            else if ts[pos].AliasToken? then First([In(Alias(Some(ts[pos].name)))], Popped(ts, states, pos + 1, tags))
            else
              match PropertiesAt(ts, pos, tags)
              case None => None
              case Some(p) => ContentFuture(ts, states, p, tags, block, indentless)
  {
    hide PropertiesAt, Popped, Future, First, NodeFuture, ContentFuture;
    if pos >= |ts| {
      NoNode(ts, states, pos, tags, block, indentless);
    } else if ts[pos].AliasToken? {
      LeafFuture(ts, states, pos, tags, block, indentless, Alias(Some(ts[pos].name)), pos + 1);
    } else if PropertiesAt(ts, pos, tags).Some? {
      ContentIs(ts, states, pos, tags, block, indentless, PropertiesAt(ts, pos, tags).value);
    } else {
      NoNode(ts, states, pos, tags, block, indentless);
    }
  }

  lemma NoNode(ts: Tokens, states: seq<State>, pos: nat, tags: Tags, block: bool, indentless: bool)
    requires states != [] && NodeAt(ts, pos, tags, block, indentless) == None
    ensures NodeFuture(ts, states, pos, tags, block, indentless) == None
  {
  }

  lemma ContentIs(ts: Tokens, states: seq<State>, pos: nat, tags: Tags, block: bool, indentless: bool, p: Properties)
    requires states != [] && pos < |ts| && !ts[pos].AliasToken? && PropertiesAt(ts, pos, tags) == Some(p)
    ensures NodeFuture(ts, states, pos, tags, block, indentless) == ContentFuture(ts, states, p, tags, block, indentless)
  {
    hide PropertiesAt, Popped, Future, First, NodeFuture, Closed;
    var t, at := ts[p.next], p.next;
    if indentless && t.BlockEntry? {
      OpenFuture(ts, states, pos, tags, block, indentless, SequenceOf(p, BLOCK), IndentlessItems(ts, at, tags), IndentlessSequenceEntry, at);
    } else if t.ScalarToken? {
      LeafFuture(ts, states, pos, tags, block, indentless, ScalarOf(p.anchor, p.tag, t.text, t.style), at + 1);
    } else if t.FlowSequenceStart? && !t.deep {
      OpenFuture(ts, states, pos, tags, block, indentless, SequenceOf(p, FLOW), FlowItems(ts, at + 1, tags), FlowSequenceFirstEntry, at);
    } else if t.FlowMappingStart? && !t.deep {
      OpenFuture(ts, states, pos, tags, block, indentless, MappingOf(p, FLOW), FlowPairs(ts, at + 1, tags), FlowMappingFirstKey, at);
    } else if block && t.BlockSequenceStart? && !t.deep {
      OpenFuture(ts, states, pos, tags, block, indentless, SequenceOf(p, BLOCK), BlockItems(ts, at + 1, tags), BlockSequenceFirstEntry, at);
    } else if block && t.BlockMappingStart? && !t.deep {
      OpenFuture(ts, states, pos, tags, block, indentless, MappingOf(p, BLOCK), BlockPairs(ts, at + 1, tags), BlockMappingFirstKey, at);
    } else if (p.anchor != None || p.tag != None) && !TooDeep(block, t) {
      LeafFuture(ts, states, pos, tags, block, indentless, ScalarEvent(p.anchor, p.tag, "", IsImplicit(p.tag), false, PLAIN), at);
    } else {
      NoNode(ts, states, pos, tags, block, indentless);
    }
  }

  /** States at a node. */
  lemma AtNodeFuture(ts: Tokens, states: seq<State>, pos: nat, tags: Tags)
    requires states != []
    ensures Future(ts, BlockNode, states, pos, tags) == NodeFuture(ts, states, pos, tags, true, false)
    ensures Future(ts, BlockNodeOrIndentlessSequence, states, pos, tags) == NodeFuture(ts, states, pos, tags, true, true)
    ensures Future(ts, FlowNode, states, pos, tags) == NodeFuture(ts, states, pos, tags, false, false)
  {
    hide NodeAt, Popped, First;
  }

  lemma ContentStateFuture(ts: Tokens, states: seq<State>, pos: nat, tags: Tags)
    requires states != []
    ensures Future(ts, DocumentContent, states, pos, tags) ==
            if pos >= |ts| then None
            else if NoRoot(ts[pos]) then First([In(EMPTY)], Popped(ts, states, pos, tags))
            else NodeFuture(ts, states, pos, tags, true, false)
  {
    hide NodeAt, Popped, First;
    EmptyWord();
  }

  // ----- documents

  lemma RootFuture(ts: Tokens, root: Parsed, tags: Tags)
    requires root.Some? ==> root.value.1 <= |ts|
    ensures ToEnd(AfterRoot(ts, root)) == First([In(DocumentStart)], Onward(Alone(root), ts, [DocumentEndState], tags))
  {
    hide Documents, Word, DocumentWords;
    if root.Some? {
      var (t, next) := root.value;
      assert Popped(ts, [DocumentEndState], next, tags) == Outside(DocumentEndState, ts, next, tags);
      if next < |ts| {
        var docs := Documents(ts, PastEnds(ts, if ts[next].DocumentEndToken? then next + 1 else next), []);
        if docs.Some? {
          DocumentWordsCons(t, docs.value.0);
          var rest := DocumentWords(docs.value.0) + [StreamEnd];
          assert [In(DocumentStart)] + Word(t) + [In(DocumentEnd)] + DocumentWords(docs.value.0) + [StreamEnd]
              == [In(DocumentStart)] + (Word(t) + ([In(DocumentEnd)] + rest));
        }
      }
    }
  }

  /** Where an explicit document or the end of the stream is due. */
  ghost function ExplicitFuture(ts: Tokens, pos: nat, tags: Tags): Outlook {
    if pos >= |ts| then None
    else if ts[pos].StreamEndToken? then First([StreamEnd], Future(ts, End, [], pos + 1, tags))
    else
      match Directives(ts, pos, tags)
      case None => None
      case Some((next, known)) =>
        if !ts[next].DocumentStartToken? then None
        else First([In(DocumentStart)], Future(ts, DocumentContent, [DocumentEndState], next + 1, known))
  }

  lemma ExplicitIs(ts: Tokens, pos: nat, tags: Tags)
    ensures ToEnd(Documents(ts, pos, tags)) == ExplicitFuture(ts, pos, tags)
  {
    hide Directives, AfterRoot, EntryAt, Onward;
    if pos < |ts| && ts[pos].StreamEndToken? {
      NoDocuments();
      assert [StreamEnd] + [] == [] + [StreamEnd];
    } else if pos < |ts| && Directives(ts, pos, tags).Some? {
      var (next, known) := Directives(ts, pos, tags).value;
      RootFuture(ts, EntryAt(ts, next + 1, known, true, false, Is(ts, next + 1, NoRoot)), known);
    }
  }

  lemma DocumentStartFuture(ts: Tokens, pos: nat, tags: Tags)
    ensures Future(ts, DocumentStartState, [], pos, tags) == ExplicitFuture(ts, PastEnds(ts, pos), tags)
  {
    hide Documents, ExplicitFuture;
    ExplicitIs(ts, PastEnds(ts, pos), tags);
  }

  /** Where a document without directives and DOCUMENT-START begins. */
  ghost function ImplicitFuture(ts: Tokens, pos: nat, tags: Tags): Outlook
    requires pos <= |ts|
  {
    match Directives(ts, pos, tags)
    case None => None
    case Some((next, known)) => First([In(DocumentStart)], Future(ts, BlockNode, [DocumentEndState], next, known))
  }

  lemma FirstDocumentFuture(ts: Tokens, pos: nat, tags: Tags)
    ensures Future(ts, ImplicitDocumentStart, [], pos, tags) ==
            if pos >= |ts| then None
            else if StartsExplicit(ts[pos]) || ts[pos].StreamEndToken? then ExplicitFuture(ts, pos, tags)
            else ImplicitFuture(ts, pos, tags)
  {
    hide Documents, ExplicitFuture, Directives, AfterRoot, NodeAt, Onward;
    ExplicitIs(ts, pos, tags);
    if pos < |ts| && Directives(ts, pos, tags).Some? {
      var (next, known) := Directives(ts, pos, tags).value;
      RootFuture(ts, NodeAt(ts, next, known, true, false), known);
    }
  }

  lemma DocumentEndFuture(ts: Tokens, pos: nat, tags: Tags)
    ensures Future(ts, DocumentEndState, [], pos, tags) ==
            if pos >= |ts| then None
            else First([In(DocumentEnd)], Future(ts, DocumentStartState, [], if ts[pos].DocumentEndToken? then pos + 1 else pos, []))
  {
    hide Documents, First;
  }

  lemma StreamStartFuture(ts: Tokens, pos: nat, tags: Tags)
    ensures Future(ts, StreamStartState, [], pos, tags) ==
            if pos >= |ts| || !ts[pos].StreamStartToken? then None
            else First([StreamStart], Future(ts, ImplicitDocumentStart, [], pos + 1, tags))
  {
    hide FirstDocument;
  }

  /** At first everything is still to come. */
  lemma AllAhead(ts: Tokens)
    ensures ToStream(StreamAt(ts)) == First([], Future(ts, StreamStartState, [], 0, []))
  {
    hide FirstDocument, DocumentWords;
    FirstNothing(Future(ts, StreamStartState, [], 0, []));
    if StreamAt(ts).Some? {
      var docs := StreamAt(ts).value.0;
      assert [StreamStart] + (DocumentWords(docs) + [StreamEnd]) == [StreamStart] + DocumentWords(docs) + [StreamEnd];
    }
  }

  /** One event later. */
  lemma OneTold(log: Events, before: Outlook, error: bool, e: StreamEvent, after: Outlook)
    requires Tells(before, error, e, after)
    ensures First(log, before) == if error then None else First(log + [e], after)
  {
    hide First;
    FirstNone(log);
    FirstFirst(log, [e], after);
  }

  lemma NothingAhead(ts: Tokens, log: Events, pos: nat, tags: Tags)
    ensures First(log, Future(ts, End, [], pos, tags)) == Some(log)
  {
    assert log + [] == log;
  }

  /** The events of a whole stream of documents. */
  ghost function ToStream(docs: ParsedAll): Outlook {
    match docs
    case None => None
    case Some((ts, _)) => Some(StreamWord(ts))
  }
}
