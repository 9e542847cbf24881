/** YAML documents as node graphs, and the events that carry them.  Nodes refer to each
    other by index, counted from 1, so sharing and cycles are allowed. */
module YamlGraph {
  import opened Basics

  datatype Pair = Pair(key: nat, value: nat)

  datatype Node =
    | Scalar(tag: string, value: string, style: nat)
    | Sequence(tag: string, items: seq<nat>, style: nat)
    | Mapping(tag: string, pairs: seq<Pair>, style: nat)

  datatype Event =
    | DocumentStart
    | DocumentEnd
    | Alias(aliased: Option<string>)
    | ScalarEvent(anchor: Option<string>, scalarTag: Option<string>, value: string,
                  plainImplicit: bool, quotedImplicit: bool, style: nat)
    | SequenceStart(anchor: Option<string>, sequenceTag: Option<string>, implicit: bool, style: nat)
    | SequenceEnd
    | MappingStart(anchor: Option<string>, mappingTag: Option<string>, implicit: bool, style: nat)
    | MappingEnd

  const INT_MAX := 0x7FFF_FFFF
  const STACK_MAX := INT_MAX - 1

  const DEFAULT_SCALAR_TAG := "tag:yaml.org,2002:str"
  const DEFAULT_SEQUENCE_TAG := "tag:yaml.org,2002:seq"
  const DEFAULT_MAPPING_TAG := "tag:yaml.org,2002:map"

  function Flatten(pairs: seq<Pair>): (r: seq<nat>)
    ensures |r| == 2 * |pairs|
  {
    if pairs == [] then []
    else
      var k := |pairs| - 1;
      Flatten(pairs[..k]) + [pairs[k].key, pairs[k].value]
  }

  /** Pair k occupies positions 2k and 2k + 1. */
  lemma {:induction false} FlattenAt(pairs: seq<Pair>, k: nat)
    requires k < |pairs|
    ensures Flatten(pairs)[2 * k] == pairs[k].key && Flatten(pairs)[2 * k + 1] == pairs[k].value
    ensures Flatten(pairs[..k]) == Flatten(pairs)[..2 * k]
  {
    var m := |pairs| - 1;
    if k < m {
      FlattenAt(pairs[..m], k);
      assert pairs[..m][..k] == pairs[..k];
      assert Flatten(pairs)[..2 * k] == Flatten(pairs[..m])[..2 * k];
    }
  }

  /** The nodes a node refers to, in the order both dumper and loader walk them. */
  function Children(n: Node): seq<nat> {
    match n
    case Scalar(_, _, _) => []
    case Sequence(_, items, _) => items
    case Mapping(_, pairs, _) => Flatten(pairs)
  }

  ghost predicate InRange(doc: seq<Node>, cs: seq<nat>) {
    forall k | 0 <= k < |cs| :: 1 <= cs[k] <= |doc|
  }

  /** What yaml_document_append_* asserts of every index. */
  ghost predicate WellFormed(doc: seq<Node>) {
    forall i | 0 <= i < |doc| :: InRange(doc, Children(doc[i]))
  }

  /** Indices are C ints, and the loader's stacks refuse to grow beyond STACK_MAX. */
  ghost predicate Fits(doc: seq<Node>) {
    && |doc| <= STACK_MAX
    && forall i | 0 <= i < |doc| ::
         (doc[i].Sequence? ==> |doc[i].items| <= STACK_MAX) && (doc[i].Mapping? ==> |doc[i].pairs| <= STACK_MAX)
  }

  // ----- adding children one at a time, as the loader does

  /** A pending key has value 0; the next child becomes its value. */
  function AddToPairs(pairs: seq<Pair>, index: nat): seq<Pair> {
    var k := |pairs| - 1;
    if pairs != [] && pairs[k].key != 0 && pairs[k].value == 0 then pairs[k := Pair(pairs[k].key, index)]
    else pairs + [Pair(index, 0)]
  }

  function AddChild(n: Node, index: nat): Node {
    match n
    case Scalar(_, _, _) => n
    case Sequence(_, items, _) => n.(items := items + [index])
    case Mapping(_, pairs, _) => n.(pairs := AddToPairs(pairs, index))
  }

  ghost function PairUp(cs: seq<nat>): seq<Pair> {
    if cs == [] then [] else AddToPairs(PairUp(cs[..|cs| - 1]), cs[|cs| - 1])
  }

  ghost function WithChildren(n: Node, cs: seq<nat>): Node {
    match n
    case Scalar(_, _, _) => n
    case Sequence(_, _, _) => n.(items := cs)
    case Mapping(_, _, _) => n.(pairs := PairUp(cs))
  }

  lemma AddChildExtends(n: Node, cs: seq<nat>, c: nat)
    ensures AddChild(WithChildren(n, cs), c) == WithChildren(n, cs + [c])
  {
    assert (cs + [c])[..|cs|] == cs;
  }

  ghost predicate Positive(cs: seq<nat>) {
    forall k | 0 <= k < |cs| :: cs[k] > 0
  }

  /** A key without a value shows exactly after an odd number of children. */
  lemma {:induction false} PairUpShape(cs: seq<nat>)
    requires Positive(cs)
    ensures |PairUp(cs)| == (|cs| + 1) / 2
    ensures cs != [] ==> (PairUp(cs)[|PairUp(cs)| - 1].value == 0 <==> |cs| % 2 == 1)
    ensures cs != [] ==> PairUp(cs)[|PairUp(cs)| - 1].key != 0
  {
    if cs != [] {
      var rest, last := cs[..|cs| - 1], cs[|cs| - 1];
      PairUpShape(rest);
    }
  }

  /** Adding all keys and values one by one rebuilds the pairs. */
  lemma {:induction false} PairUpFlatten(pairs: seq<Pair>)
    requires Positive(Flatten(pairs))
    ensures PairUp(Flatten(pairs)) == pairs
  {
    if pairs != [] {
      var k := |pairs| - 1;
      var f := Flatten(pairs[..k]);
      var key, value := pairs[k].key, pairs[k].value;
      assert Flatten(pairs) == f + [key, value];
      FlattenAt(pairs, k);
      PairUpFlatten(pairs[..k]);
      PairUpShape(f);
      assert PairUp(f + [key]) == AddToPairs(pairs[..k], key) by {
        assert (f + [key])[..|f|] == f;
      }
      assert PairUp(f + [key, value]) == AddToPairs(PairUp(f + [key]), value) by {
        assert (f + [key, value])[..|f| + 1] == f + [key];
      }
    }
  }

  // ----- numbering nodes by a visiting order

  ghost predicate Distinct(s: seq<nat>) {
    forall i, j | 0 <= i < j < |s| :: s[i] != s[j]
  }

  /** The 1-based position of a node in a visiting order. */
  ghost function Position(order: seq<nat>, i: nat): (p: nat)
    requires i in order
    ensures 1 <= p <= |order| && order[p - 1] == i
  {
    if order[0] == i then 1 else 1 + Position(order[1..], i)
  }

  lemma PositionIs(order: seq<nat>, k: nat)
    requires k < |order| && Distinct(order)
    ensures Position(order, order[k]) == k + 1
  {
  }

  lemma {:induction false} PositionExtends(order: seq<nat>, more: seq<nat>, i: nat)
    requires i in order && order <= more
    ensures Position(more, i) == Position(order, i)
  {
    if order[0] != i {
      PositionExtends(order[1..], more[1..], i);
    }
  }

  ghost predicate AllIn(cs: seq<nat>, order: seq<nat>) {
    forall k | 0 <= k < |cs| :: cs[k] in order
  }

  ghost function Positions(order: seq<nat>, cs: seq<nat>): (r: seq<nat>)
    requires AllIn(cs, order)
    ensures |r| == |cs| && Positive(r)
  {
    seq(|cs|, i requires 0 <= i < |cs| => Position(order, cs[i]))
  }

  lemma PositionsExtend(order: seq<nat>, more: seq<nat>, cs: seq<nat>)
    requires AllIn(cs, order) && order <= more
    ensures AllIn(cs, more) && Positions(more, cs) == Positions(order, cs)
  {
    forall i | 0 <= i < |cs|
      ensures cs[i] in more && Position(more, cs[i]) == Position(order, cs[i])
    {
      PositionExtends(order, more, cs[i]);
    }
  }

  /** The loader replaces the non-specific tag "!" by the default tag of the node's kind. */
  function NormalTag(tag: string, default: string): string {
    if tag == "!" then default else tag
  }

  function Normal(n: Node): Node {
    match n
    case Scalar(tag, value, style) => Scalar(NormalTag(tag, DEFAULT_SCALAR_TAG), value, style)
    case Sequence(tag, items, style) => Sequence(NormalTag(tag, DEFAULT_SEQUENCE_TAG), items, style)
    case Mapping(tag, pairs, style) => Mapping(NormalTag(tag, DEFAULT_MAPPING_TAG), pairs, style)
  }

  ghost function RenamePairs(pairs: seq<Pair>, order: seq<nat>): (r: seq<Pair>)
    requires AllIn(Flatten(pairs), order)
    ensures |r| == |pairs|
  {
    if pairs == [] then []
    else
      var k := |pairs| - 1;
      assert Flatten(pairs)[..2 * k] == Flatten(pairs[..k]);
      assert Flatten(pairs)[2 * k] == pairs[k].key && Flatten(pairs)[2 * k + 1] == pairs[k].value;
      RenamePairs(pairs[..k], order) + [Pair(Position(order, pairs[k].key), Position(order, pairs[k].value))]
  }

  /** The same node with every reference replaced by its position in the order. */
  ghost function Rename(n: Node, order: seq<nat>): Node
    requires AllIn(Children(n), order)
  {
    match n
    case Scalar(_, _, _) => n
    case Sequence(_, items, _) => n.(items := Positions(order, items))
    case Mapping(_, pairs, _) => n.(pairs := RenamePairs(pairs, order))
  }

  lemma {:induction false} FlattenRenamed(pairs: seq<Pair>, order: seq<nat>)
    requires AllIn(Flatten(pairs), order)
    ensures Flatten(RenamePairs(pairs, order)) == Positions(order, Flatten(pairs))
  {
    if pairs != [] {
      var k := |pairs| - 1;
      assert Flatten(pairs)[..2 * k] == Flatten(pairs[..k]);
      FlattenRenamed(pairs[..k], order);
      assert RenamePairs(pairs, order)[..k] == RenamePairs(pairs[..k], order);
    }
  }

  /** Renaming is rebuilding the node from its renamed children. */
  lemma RenameIsRebuild(n: Node, order: seq<nat>)
    requires AllIn(Children(n), order)
    ensures WithChildren(n, Positions(order, Children(n))) == Rename(n, order)
  {
    if n.Mapping? {
      FlattenRenamed(n.pairs, order);
      PairUpFlatten(RenamePairs(n.pairs, order));
    }
  }

  /** What the loader makes of a node: default tags for "!", references as positions in the order. */
  ghost function LoadedNode(n: Node, order: seq<nat>): Node
    requires AllIn(Children(n), order)
  {
    Rename(Normal(n), order)
  }
}
