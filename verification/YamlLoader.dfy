/** The loader: composes nodes from a stream of events, resolving aliases by anchor name. */
module YamlLoader {
  import opened Basics
  import opened YamlGraph

  datatype AliasData = AliasData(anchor: string, index: nat)

  /** The document under construction, the anchors seen, and the open collections. */
  datatype LoadState = LoadState(nodes: seq<Node>, aliases: seq<AliasData>, ctx: seq<nat>)

  datatype LoadError =
    | DuplicateAnchor
    | UndefinedAlias
    | MissingAnchor   // an alias event without a name
    | StackLimit
    | NotExpected     // the C code asserts that this does not happen
    | NoMoreEvents

  datatype Result = Loaded(s: LoadState) | Failed(e: LoadError)

  /** Index of the first alias entry with the given name, or 0. */
  function FindAlias(aliases: seq<AliasData>, anchor: string): nat {
    if aliases == [] then 0
    else if aliases[0].anchor == anchor then aliases[0].index
    else FindAlias(aliases[1..], anchor)
  }

  predicate HasAnchor(aliases: seq<AliasData>, anchor: string) {
    exists i | 0 <= i < |aliases| :: aliases[i].anchor == anchor
  }

  /** yaml_parser_register_anchor */
  function RegisterAnchor(s: LoadState, index: nat, anchor: Option<string>): Result {
    match anchor
    case None => Loaded(s)
    case Some(name) =>
      if HasAnchor(s.aliases, name) then Failed(DuplicateAnchor)
      else Loaded(s.(aliases := s.aliases + [AliasData(name, index)]))
  }

  /** True when the innermost open collection can take one more child. */
  predicate HasRoom(n: Node) {
    match n
    case Scalar(_, _, _) => false
    case Sequence(_, items, _) => |items| < STACK_MAX
    case Mapping(_, pairs, _) =>
      || |pairs| < STACK_MAX
      || (pairs != [] && pairs[|pairs| - 1].key != 0 && pairs[|pairs| - 1].value == 0)
  }

  predicate CtxValid(s: LoadState) {
    s.ctx == [] || 1 <= s.ctx[|s.ctx| - 1] <= |s.nodes|
  }

  /** yaml_parser_load_node_add: the root has no parent to be added to. */
  function NodeAdd(s: LoadState, index: nat): Result {
    if s.ctx == [] then Loaded(s)
    else if !CtxValid(s) then Failed(NotExpected)
    else
      var p := s.ctx[|s.ctx| - 1] - 1;
      if s.nodes[p].Scalar? then Failed(NotExpected)
      else if !HasRoom(s.nodes[p]) then Failed(StackLimit)
      else Loaded(s.(nodes := s.nodes[p := AddChild(s.nodes[p], index)]))
  }

  function TagOr(tag: Option<string>, default: string): string {
    if tag.None? then default else NormalTag(tag.value, default)
  }

  /** Pushes a new node, registers its anchor and adds it to the open collection. */
  function NewNode(s: LoadState, node: Node, anchor: Option<string>): Result {
    if |s.nodes| >= STACK_MAX then Failed(StackLimit)
    else
      var index := |s.nodes| + 1;
      match RegisterAnchor(s.(nodes := s.nodes + [node]), index, anchor)
      case Failed(e) => Failed(e)
      case Loaded(s1) => NodeAdd(s1, index)
  }

  function OpenNode(s: LoadState, node: Node, anchor: Option<string>): Result {
    var index := |s.nodes| + 1;
    match NewNode(s, node, anchor)
    case Failed(e) => Failed(e)
    case Loaded(s1) =>
      if |s1.ctx| >= STACK_MAX then Failed(StackLimit) else Loaded(s1.(ctx := s1.ctx + [index]))
  }

  function CloseNode(s: LoadState, sequence: bool): Result {
    if s.ctx == [] || !CtxValid(s) then Failed(NotExpected)
    else
      var node := s.nodes[s.ctx[|s.ctx| - 1] - 1];
      if (sequence && node.Sequence?) || (!sequence && node.Mapping?) then Loaded(s.(ctx := s.ctx[..|s.ctx| - 1]))
      else Failed(NotExpected)
  }

  /** The composer function for one event. */
  function Step(s: LoadState, e: Event): Result {
    match e
    case Alias(None) => Failed(MissingAnchor)
    case Alias(Some(name)) =>
      if !HasAnchor(s.aliases, name) then Failed(UndefinedAlias) else NodeAdd(s, FindAlias(s.aliases, name))
    case ScalarEvent(anchor, tag, value, _, _, style) =>
      NewNode(s, Scalar(TagOr(tag, DEFAULT_SCALAR_TAG), value, style), anchor)
    case SequenceStart(anchor, tag, _, style) =>
      OpenNode(s, Sequence(TagOr(tag, DEFAULT_SEQUENCE_TAG), [], style), anchor)
    case MappingStart(anchor, tag, _, style) =>
      OpenNode(s, Mapping(TagOr(tag, DEFAULT_MAPPING_TAG), [], style), anchor)
    case SequenceEnd => CloseNode(s, true)
    case MappingEnd => CloseNode(s, false)
    case DocumentStart => Failed(NotExpected)
    case DocumentEnd => Failed(NotExpected)
  }

  function Run(s: LoadState, events: seq<Event>): Result
    decreases |events|
  {
    if events == [] then Loaded(s)
    else match Step(s, events[0])
      case Failed(e) => Failed(e)
      case Loaded(s1) => Run(s1, events[1..])
  }

  /** yaml_parser_load_nodes: composes until the end of the document. */
  function LoadNodes(s: LoadState, pending: seq<Event>): Result
    decreases |pending|
  {
    if pending == [] then Failed(NoMoreEvents)
    else if pending[0].DocumentEnd? then Loaded(s)
    else match Step(s, pending[0])
      case Failed(e) => Failed(e)
      case Loaded(s1) => LoadNodes(s1, pending[1..])
  }

  function LoadDocument(pending: seq<Event>): Result {
    if pending == [] then Failed(NoMoreEvents)
    else if !pending[0].DocumentStart? then Failed(NotExpected)
    else LoadNodes(LoadState([], [], []), pending[1..])
  }

  lemma {:induction false} RunConcat(s: LoadState, a: seq<Event>, b: seq<Event>)
    ensures Run(s, a + b) == match Run(s, a) { case Failed(e) => Failed(e) case Loaded(s1) => Run(s1, b) }
    decreases |a|
  {
    if a == [] {
      assert a + b == b;
    } else {
      assert (a + b)[1..] == a[1..] + b;
      match Step(s, a[0]) {
        case Failed(_) =>
        case Loaded(s1) => RunConcat(s1, a[1..], b);
      }
    }
  }

  lemma {:induction false} LoadIsRun(s: LoadState, events: seq<Event>)
    requires Run(s, events).Loaded?
    ensures LoadNodes(s, events + [DocumentEnd]) == Run(s, events)
    decreases |events|
  {
    if events != [] {
      assert (events + [DocumentEnd])[1..] == events[1..] + [DocumentEnd];
      LoadIsRun(Step(s, events[0]).s, events[1..]);
    }
  }

  /** The parser object, composing in place. */
  class Composer {
    var nodes: seq<Node>
    var aliases: seq<AliasData>
    var ctx: seq<nat>
    var error: Option<LoadError>

    ghost function State(): LoadState
      reads this
    {
      LoadState(nodes, aliases, ctx)
    }

    /** What one composer call must do: return 1 and the new state, or 0 and the error. */
    ghost predicate Follows(ok: bool, r: Result)
      reads this
    {
      match r
      case Loaded(s) => ok && State() == s && error.None?
      case Failed(e) => !ok && error == Some(e)
    }

    constructor ()
      ensures State() == LoadState([], [], []) && error.None?
    {
      nodes, aliases, ctx, error := [], [], [], None;
    }

    method Fail(e: LoadError) returns (ok: bool)
      modifies this`error
      ensures !ok && error == Some(e)
    {
      error := Some(e);
      ok := false;
    }

    method Register(index: nat, anchor: Option<string>) returns (ok: bool)
      requires error.None?
      modifies this`aliases, this`error
      ensures Follows(ok, RegisterAnchor(old(State()), index, anchor))
    {
      if anchor.None? {
        return true;
      }
      var i := 0;
      while i < |aliases|
        invariant 0 <= i <= |aliases| && State() == old(State()) && error.None?
        invariant forall k | 0 <= k < i :: aliases[k].anchor != anchor.value
      {
        if aliases[i].anchor == anchor.value {
          ok := Fail(DuplicateAnchor);
          return;
        }
        i := i + 1;
      }
      aliases := aliases + [AliasData(anchor.value, index)];
      ok := true;
    }

    method LoadNodeAdd(index: nat) returns (ok: bool)
      requires error.None?
      modifies this`nodes, this`error
      ensures Follows(ok, NodeAdd(old(State()), index))
    {
      if ctx == [] {
        return true;
      }
      var parentIndex := ctx[|ctx| - 1];
      if !(1 <= parentIndex <= |nodes|) {
        ok := Fail(NotExpected);
        return;
      }
      var parent := nodes[parentIndex - 1];
      match parent {
        case Sequence(_, items, _) =>
          if !(|items| < STACK_MAX) {
            ok := Fail(StackLimit);
            return;
          }
          nodes := nodes[parentIndex - 1 := parent.(items := items + [index])];
        case Mapping(_, pairs, _) =>
          if pairs != [] {
            var p := pairs[|pairs| - 1];
            if p.key != 0 && p.value == 0 {
              nodes := nodes[parentIndex - 1 := parent.(pairs := pairs[|pairs| - 1 := Pair(p.key, index)])];
              return true;
            }
          }
          if !(|pairs| < STACK_MAX) {
            ok := Fail(StackLimit);
            return;
          }
          nodes := nodes[parentIndex - 1 := parent.(pairs := pairs + [Pair(index, 0)])];
        case Scalar(_, _, _) =>
          ok := Fail(NotExpected);
          return;
      }
      ok := true;
    }

    method LoadAlias(anchor: Option<string>) returns (ok: bool)
      requires error.None?
      modifies this
      ensures Follows(ok, Step(old(State()), Alias(anchor)))
    {
      if anchor.None? {
        ok := Fail(MissingAnchor);
        return;
      }
      var i := 0;
      while i < |aliases|
        invariant 0 <= i <= |aliases| && State() == old(State()) && error.None?
        invariant forall k | 0 <= k < i :: aliases[k].anchor != anchor.value
        invariant FindAlias(aliases[i..], anchor.value) == FindAlias(aliases, anchor.value)
      {
        if aliases[i].anchor == anchor.value {
          ok := LoadNodeAdd(aliases[i].index);
          return;
        }
        assert aliases[i..][1..] == aliases[i + 1..];
        i := i + 1;
      }
      ok := Fail(UndefinedAlias);
    }

    method PushNode(node: Node, anchor: Option<string>) returns (ok: bool, index: nat)
      requires error.None?
      modifies this
      ensures Follows(ok, NewNode(old(State()), node, anchor))
      ensures index == old(|nodes|) + 1
    {
      index := |nodes| + 1;
      if !(|nodes| < STACK_MAX) {
        ok := Fail(StackLimit);
        return;
      }
      nodes := nodes + [node];
      ok := Register(|nodes|, anchor);
      if !ok {
        return;
      }
      ok := LoadNodeAdd(|nodes|);
    }

    method LoadScalar(e: Event) returns (ok: bool)
      requires error.None? && e.ScalarEvent?
      modifies this
      ensures Follows(ok, Step(old(State()), e))
    {
      var index;
      ok, index := PushNode(Scalar(TagOr(e.scalarTag, DEFAULT_SCALAR_TAG), e.value, e.style), e.anchor);
    }

    method OpenCollection(node: Node, anchor: Option<string>) returns (ok: bool)
      requires error.None?
      modifies this
      ensures Follows(ok, OpenNode(old(State()), node, anchor))
    {
      var index;
      ok, index := PushNode(node, anchor);
      if !ok {
        return;
      }
      if !(|ctx| < STACK_MAX) {
        ok := Fail(StackLimit);
        return;
      }
      ctx := ctx + [index];
    }

    method CloseCollection(sequence: bool) returns (ok: bool)
      requires error.None?
      modifies this
      ensures Follows(ok, CloseNode(old(State()), sequence))
    {
      if |ctx| == 0 || !(1 <= ctx[|ctx| - 1] <= |nodes|) {
        ok := Fail(NotExpected);
        return;
      }
      var index := ctx[|ctx| - 1];
      if sequence != nodes[index - 1].Sequence? || sequence == nodes[index - 1].Mapping? {
        ok := Fail(NotExpected);
        return;
      }
      ctx := ctx[..|ctx| - 1];
      ok := true;
    }

    /** The cases of yaml_parser_load_nodes but the last one. */
    method LoadEvent(event: Event) returns (ok: bool)
      requires error.None?
      modifies this
      ensures Follows(ok, Step(old(State()), event))
    {
      match event {
        case Alias(anchor) => ok := LoadAlias(anchor);
        case ScalarEvent(_, _, _, _, _, _) => ok := LoadScalar(event);
        case SequenceStart(anchor, tag, _, style) =>
          ok := OpenCollection(Sequence(TagOr(tag, DEFAULT_SEQUENCE_TAG), [], style), anchor);
        case SequenceEnd => ok := CloseCollection(true);
        case MappingStart(anchor, tag, _, style) =>
          ok := OpenCollection(Mapping(TagOr(tag, DEFAULT_MAPPING_TAG), [], style), anchor);
        case MappingEnd => ok := CloseCollection(false);
        case _ => ok := Fail(NotExpected);
      }
    }

    /** yaml_parser_load_document and yaml_parser_load_nodes, over the events still to come. */
    method Load(events: seq<Event>) returns (ok: bool)
      requires error.None? && State() == LoadState([], [], [])
      modifies this
      ensures Follows(ok, LoadDocument(events))
    {
      if |events| == 0 {
        ok := Fail(NoMoreEvents);
        return;
      }
      if !events[0].DocumentStart? {
        ok := Fail(NotExpected);
        return;
      }
      var pending := events[1..];
      while true
        invariant error.None?
        invariant LoadNodes(State(), pending) == LoadDocument(events)
        decreases |pending|
      {
        if |pending| == 0 {
          ok := Fail(NoMoreEvents);
          return;
        }
        var event := pending[0];
        if event.DocumentEnd? {
          return true;
        }
        ok := LoadEvent(event);
        if !ok {
          return;
        }
        pending := pending[1..];
      }
    }
  }
}
