/** The dumper: a first walk over the graph counts references and hands out anchors,
    a second walk emits events, with an alias for every node it meets again. */
module YamlDumper {
  import opened Basics
  import opened YamlGraph

  // ----- anchor names: "id%03d"

  function Digit(d: nat): char
    requires d < 10
  {
    ('0' as int + d) as char
  }

  function Decimal(n: nat): (r: string)
    ensures |r| >= 1
  {
    if n < 10 then [Digit(n)] else Decimal(n / 10) + [Digit(n % 10)]
  }

  function Zeros(n: nat): string {
    if n == 0 then "" else ['0'] + Zeros(n - 1)
  }

  function GenerateAnchor(id: nat): string {
    "id" + Zeros(if |Decimal(id)| < 3 then 3 - |Decimal(id)| else 0) + Decimal(id)
  }

  ghost function DecimalValue(s: string): int {
    if s == "" then 0 else 10 * DecimalValue(s[..|s| - 1]) + (s[|s| - 1] as int - '0' as int)
  }

  lemma {:induction false} DecimalValueOf(n: nat)
    ensures DecimalValue(Decimal(n)) == n
  {
    if n < 10 {
      assert Decimal(n)[..0] == "";
    } else {
      DecimalValueOf(n / 10);
      assert Decimal(n)[..|Decimal(n)| - 1] == Decimal(n / 10);
    }
  }

  lemma {:induction false} PaddingKeepsValue(k: nat, s: string)
    ensures DecimalValue(Zeros(k) + s) == DecimalValue(s)
    decreases k, |s|
  {
    if s != "" {
      PaddingKeepsValue(k, s[..|s| - 1]);
      assert (Zeros(k) + s)[..|Zeros(k) + s| - 1] == Zeros(k) + s[..|s| - 1];
    } else if k > 0 {
      assert Zeros(k) + s == Zeros(k - 1) + "0" by {
        ZerosSnoc(k - 1);
      }
      PaddingKeepsValue(k - 1, "0");
      assert "0"[..0] == "";
      assert DecimalValue("0") == 0;
    }
  }

  lemma {:induction false} ZerosSnoc(k: nat)
    ensures ['0'] + Zeros(k) == Zeros(k) + ['0']
  {
    if k > 0 {
      ZerosSnoc(k - 1);
    }
  }

  lemma AnchorValue(id: nat)
    ensures |GenerateAnchor(id)| >= 2 && DecimalValue(GenerateAnchor(id)[2..]) == id
  {
    hide Decimal, Zeros, DecimalValue;
    var k := if |Decimal(id)| < 3 then 3 - |Decimal(id)| else 0;
    PaddingKeepsValue(k, Decimal(id));
    DecimalValueOf(id);
    assert GenerateAnchor(id)[2..] == Zeros(k) + Decimal(id);
  }

  /** Different anchor numbers get different names. */
  lemma AnchorNamesDiffer(a: nat, b: nat)
    requires GenerateAnchor(a) == GenerateAnchor(b)
    ensures a == b
  {
    AnchorValue(a);
    AnchorValue(b);
  }

  // ----- how many nodes are still unvisited: the measure of both walks

  ghost function Unvisited(marks: seq<nat>): nat {
    if marks == [] then 0 else (if marks[0] == 0 then 1 else 0) + Unvisited(marks[1..])
  }

  ghost predicate Above(b: seq<nat>, a: seq<nat>) {
    |a| == |b| && forall k | 0 <= k < |a| :: a[k] <= b[k]
  }

  lemma {:induction false} UnvisitedAbove(a: seq<nat>, b: seq<nat>)
    requires Above(b, a)
    ensures Unvisited(b) <= Unvisited(a)
  {
    if a != [] {
      assert a[0] <= b[0];
      forall k | 0 <= k < |a| - 1 ensures a[1..][k] <= b[1..][k] { assert a[k + 1] <= b[k + 1]; }
      UnvisitedAbove(a[1..], b[1..]);
    }
  }

  lemma {:induction false} UnvisitedUpdate(a: seq<nat>, k: nat, v: nat)
    requires k < |a| && a[k] == 0 && v > 0
    ensures Unvisited(a[k := v]) == Unvisited(a) - 1
  {
    if k == 0 {
      assert a[k := v][1..] == a[1..];
    } else {
      UnvisitedUpdate(a[1..], k - 1, v);
      assert a[k := v][1..] == a[1..][k - 1 := v];
    }
  }

  // ----- the first walk

  datatype MarkState = MarkState(refs: seq<nat>, ids: seq<nat>, last: nat)

  ghost predicate Sized(doc: seq<Node>, s: MarkState) {
    |s.refs| == |doc| && |s.ids| == |doc|
  }

  /** Visiting node i: its children are walked on the first visit, it gets an anchor on the second. */
  ghost function Mark(doc: seq<Node>, i: nat, s: MarkState): (r: MarkState)
    requires WellFormed(doc) && 1 <= i <= |doc| && Sized(doc, s)
    ensures Sized(doc, r) && Above(r.refs, s.refs) && Unvisited(r.refs) <= Unvisited(s.refs)
    ensures r.refs[i - 1] > s.refs[i - 1]
    decreases Unvisited(s.refs), 0
  {
    var refs := s.refs[i - 1 := s.refs[i - 1] + 1];
    UnvisitedAbove(s.refs, refs);
    if refs[i - 1] == 1 then
      UnvisitedUpdate(s.refs, i - 1, 1);
      MarkAll(doc, Children(doc[i - 1]), s.(refs := refs))
    else if refs[i - 1] == 2 then
      s.(refs := refs, ids := s.ids[i - 1 := s.last + 1], last := s.last + 1)
    else
      s.(refs := refs)
  }

  ghost function MarkAll(doc: seq<Node>, cs: seq<nat>, s: MarkState): (r: MarkState)
    requires WellFormed(doc) && InRange(doc, cs) && Sized(doc, s)
    ensures Sized(doc, r) && Above(r.refs, s.refs) && Unvisited(r.refs) <= Unvisited(s.refs)
    decreases Unvisited(s.refs), |cs|
  {
    if cs == [] then s
    else
      var k := |cs| - 1;
      Mark(doc, cs[k], MarkAll(doc, cs[..k], s))
  }

  /** Anchors go exactly to the nodes met twice, each its own number. */
  ghost predicate AnchorsRight(s: MarkState) {
    && |s.refs| == |s.ids|
    && (forall k | 0 <= k < |s.ids| :: s.ids[k] != 0 <==> s.refs[k] >= 2)
    && (forall k | 0 <= k < |s.ids| :: s.ids[k] <= s.last)
    && (forall k, l | 0 <= k < l < |s.ids| && s.ids[k] != 0 :: s.ids[k] != s.ids[l])
  }

  lemma {:induction false} MarkAnchors(doc: seq<Node>, i: nat, s: MarkState)
    requires WellFormed(doc) && 1 <= i <= |doc| && Sized(doc, s) && AnchorsRight(s)
    ensures AnchorsRight(Mark(doc, i, s))
    decreases Unvisited(s.refs), 0
  {
    if s.refs[i - 1] == 0 {
      var refs := s.refs[i - 1 := 1];
      UnvisitedUpdate(s.refs, i - 1, 1);
      MarkAllAnchors(doc, Children(doc[i - 1]), s.(refs := refs));
    }
  }

  lemma {:induction false} MarkAllAnchors(doc: seq<Node>, cs: seq<nat>, s: MarkState)
    requires WellFormed(doc) && InRange(doc, cs) && Sized(doc, s) && AnchorsRight(s)
    ensures AnchorsRight(MarkAll(doc, cs, s))
    decreases Unvisited(s.refs), |cs|
  {
    if cs != [] {
      var k := |cs| - 1;
      MarkAllAnchors(doc, cs[..k], s);
      MarkAnchors(doc, cs[k], MarkAll(doc, cs[..k], s));
    }
  }

  ghost function Unmarked(doc: seq<Node>): MarkState {
    MarkState(seq(|doc|, _ => 0), seq(|doc|, _ => 0), 0)
  }

  // ----- the second walk

  datatype DumpState = DumpState(serialized: seq<nat>, order: seq<nat>, events: seq<Event>)

  function AnchorOf(id: nat): Option<string> {
    if id == 0 then None else Some(GenerateAnchor(id))
  }

  function ScalarOf(n: Node, anchor: Option<string>): Event
    requires n.Scalar?
  {
    ScalarEvent(anchor, Some(n.tag), n.value, n.tag == DEFAULT_SCALAR_TAG, n.tag == DEFAULT_SCALAR_TAG, n.style)
  }

  function StartOf(n: Node, anchor: Option<string>): Event
    requires !n.Scalar?
  {
    if n.Sequence? then SequenceStart(anchor, Some(n.tag), n.tag == DEFAULT_SEQUENCE_TAG, n.style)
    else MappingStart(anchor, Some(n.tag), n.tag == DEFAULT_MAPPING_TAG, n.style)
  }

  function EndOf(n: Node): Event
    requires !n.Scalar?
  {
    if n.Sequence? then SequenceEnd else MappingEnd
  }

  ghost predicate DumpSized(doc: seq<Node>, ids: seq<nat>, s: DumpState) {
    |ids| == |doc| && |s.serialized| == |doc|
  }

  ghost function Dump(doc: seq<Node>, ids: seq<nat>, i: nat, s: DumpState): (r: DumpState)
    requires WellFormed(doc) && 1 <= i <= |doc| && DumpSized(doc, ids, s)
    ensures DumpSized(doc, ids, r) && Above(r.serialized, s.serialized)
    ensures Unvisited(r.serialized) <= Unvisited(s.serialized)
    ensures s.order <= r.order && s.events <= r.events
    decreases Unvisited(s.serialized), 0
  {
    var n, anchor := doc[i - 1], AnchorOf(ids[i - 1]);
    if s.serialized[i - 1] != 0 then s.(events := s.events + [Alias(anchor)])
    else
      UnvisitedUpdate(s.serialized, i - 1, 1);
      var s1 := s.(serialized := s.serialized[i - 1 := 1], order := s.order + [i]);
      if n.Scalar? then s1.(events := s.events + [ScalarOf(n, anchor)])
      else
        var s2 := DumpAll(doc, ids, Children(n), s1.(events := s.events + [StartOf(n, anchor)]));
        s2.(events := s2.events + [EndOf(n)])
  }

  ghost function DumpAll(doc: seq<Node>, ids: seq<nat>, cs: seq<nat>, s: DumpState): (r: DumpState)
    requires WellFormed(doc) && InRange(doc, cs) && DumpSized(doc, ids, s)
    ensures DumpSized(doc, ids, r) && Above(r.serialized, s.serialized)
    ensures Unvisited(r.serialized) <= Unvisited(s.serialized)
    ensures s.order <= r.order && s.events <= r.events
    decreases Unvisited(s.serialized), |cs|
  {
    if cs == [] then s
    else
      var k := |cs| - 1;
      Dump(doc, ids, cs[k], DumpAll(doc, ids, cs[..k], s))
  }

  ghost function Unserialized(doc: seq<Node>): DumpState {
    DumpState(seq(|doc|, _ => 0), [], [DocumentStart])
  }

  /** The state after dumping a whole document, without the closing event. */
  ghost function DumpRoot(doc: seq<Node>): DumpState
    requires WellFormed(doc) && doc != []
  {
    Dump(doc, Mark(doc, 1, Unmarked(doc)).ids, 1, Unserialized(doc))
  }

  // ----- the emitter object

  datatype Anchors = Anchors(references: nat, anchor: nat, serialized: nat)

  class Emitter {
    const document: seq<Node>
    const anchors: array<Anchors>
    var lastAnchorId: nat
    var events: seq<Event>
    ghost var order: seq<nat>

    ghost predicate Valid()
    {
      WellFormed(document) && anchors.Length == |document|
    }

    ghost function Marks(): MarkState
      requires anchors.Length == |document|
      reads this, anchors
    {
      MarkState(seq(|document|, k requires 0 <= k < |document| reads anchors => anchors[k].references),
                seq(|document|, k requires 0 <= k < |document| reads anchors => anchors[k].anchor),
                lastAnchorId)
    }

    ghost function Dumped(): DumpState
      requires anchors.Length == |document|
      reads this, anchors
    {
      DumpState(seq(|document|, k requires 0 <= k < |document| reads anchors => anchors[k].serialized), order, events)
    }

    constructor (document: seq<Node>)
      requires WellFormed(document)
      ensures Valid() && fresh(anchors) && this.document == document
      ensures Marks() == Unmarked(document) && Dumped() == Unserialized(document)
    {
      this.document := document;
      anchors := new Anchors[|document|](_ => Anchors(0, 0, 0));
      lastAnchorId := 0;
      events := [DocumentStart];
      order := [];
    }

    /** yaml_emitter_anchor_node */
    method AnchorNode(index: nat)
      requires Valid() && 1 <= index <= |document|
      modifies this`lastAnchorId, anchors
      ensures Marks() == Mark(document, index, old(Marks()))
      ensures Dumped() == old(Dumped())
      decreases Unvisited(Marks().refs), 0
    {
      var node := document[index - 1];
      var a := anchors[index - 1];
      ghost var before := Marks();
      anchors[index - 1] := a.(references := a.references + 1);
      ghost var s1 := before.(refs := before.refs[index - 1 := a.references + 1]);
      assert Marks().refs == s1.refs && Marks().ids == s1.ids;
      assert Dumped().serialized == old(Dumped().serialized);
      if anchors[index - 1].references == 1 {
        UnvisitedUpdate(before.refs, index - 1, 1);
        match node {
          case Sequence(_, items, _) =>
            AnchorItems(items);
          case Mapping(_, pairs, _) =>
            AnchorPairs(pairs);
          case Scalar(_, _, _) =>
        }
      } else if anchors[index - 1].references == 2 {
        lastAnchorId := lastAnchorId + 1;
        anchors[index - 1] := anchors[index - 1].(anchor := lastAnchorId);
        assert Marks().ids == before.ids[index - 1 := before.last + 1];
        assert Marks().refs == s1.refs;
        assert Dumped().serialized == old(Dumped().serialized);
      }
    }

    method AnchorItems(items: seq<nat>)
      requires Valid() && InRange(document, items)
      modifies this`lastAnchorId, anchors
      ensures Marks() == MarkAll(document, items, old(Marks()))
      ensures Dumped() == old(Dumped())
      decreases Unvisited(Marks().refs), 1
    {
      hide Mark, MarkAll;
      MarkNone(document, old(Marks()));
      var k := 0;
      while k < |items|
        invariant 0 <= k <= |items|
        invariant Marks() == MarkAll(document, items[..k], old(Marks()))
        invariant Dumped() == old(Dumped())
      {
        MarkOneMore(document, items[..k], items[k], old(Marks()));
        assert items[..k + 1] == items[..k] + [items[k]];
        AnchorNode(items[k]);
        k := k + 1;
      }
      assert items[..k] == items;
    }

    method AnchorPairs(pairs: seq<Pair>)
      requires Valid() && InRange(document, Flatten(pairs))
      modifies this`lastAnchorId, anchors
      ensures Marks() == MarkAll(document, Flatten(pairs), old(Marks()))
      ensures Dumped() == old(Dumped())
      decreases Unvisited(Marks().refs), 1
    {
      hide Mark, MarkAll, InRange, Flatten;
      MarkNone(document, old(Marks()));
      FlattenNone(document);
      var k := 0;
      while k < |pairs|
        invariant 0 <= k <= |pairs|
        invariant InRange(document, Flatten(pairs[..k]))
        invariant Marks() == MarkAll(document, Flatten(pairs[..k]), old(Marks()))
        invariant Dumped() == old(Dumped())
      {
        PairInRange(document, pairs, k);
        PrefixInRange(document, pairs, k);
        FlattenSnoc(pairs, k);
        ghost var f := Flatten(pairs[..k]);
        InRangeSnoc(document, f, pairs[k].key);
        InRangeSnoc(document, f + [pairs[k].key], pairs[k].value);
        MarkOneMore(document, f, pairs[k].key, old(Marks()));
        MarkOneMore(document, f + [pairs[k].key], pairs[k].value, old(Marks()));
        AnchorNode(pairs[k].key);
        AnchorNode(pairs[k].value);
        k := k + 1;
      }
      assert pairs[..k] == pairs;
    }

    method Emit(e: Event)
      requires Valid()
      modifies this`events
      ensures events == old(events) + [e]
      ensures Dumped() == old(Dumped()).(events := events) && Marks() == old(Marks())
    {
      events := events + [e];
      assert Dumped().serialized == old(Dumped().serialized);
      assert Marks().refs == old(Marks().refs) && Marks().ids == old(Marks().ids);
    }

    /** yaml_emitter_dump_node: an alias for a node already written, else the node itself. */
    method DumpNode(index: nat)
      requires Valid() && 1 <= index <= |document|
      modifies this`events, this`order, anchors
      ensures Dumped() == Dump(document, Marks().ids, index, old(Dumped()))
      ensures Marks() == old(Marks())
      decreases Unvisited(Dumped().serialized), 0
    {
      var node := document[index - 1];
      var anchor := AnchorOf(anchors[index - 1].anchor);
      ghost var marks, before := Marks(), Dumped();
      assert anchor == AnchorOf(marks.ids[index - 1]);
      if anchors[index - 1].serialized != 0 {
        Emit(Alias(anchor));
        return;
      }
      anchors[index - 1] := anchors[index - 1].(serialized := 1);
      order := order + [index];
      UnvisitedUpdate(before.serialized, index - 1, 1);
      assert Marks().refs == marks.refs && Marks().ids == marks.ids;
      assert Dumped().serialized == before.serialized[index - 1 := 1];
      match node {
        case Scalar(_, _, _) =>
          Emit(ScalarOf(node, anchor));
        case Sequence(_, items, _) =>
          Emit(StartOf(node, anchor));
          DumpItems(items);
          Emit(SequenceEnd);
        case Mapping(_, pairs, _) =>
          Emit(StartOf(node, anchor));
          DumpPairs(pairs);
          Emit(MappingEnd);
      }
    }

    method DumpItems(items: seq<nat>)
      requires Valid() && InRange(document, items)
      modifies this`events, this`order, anchors
      ensures Dumped() == DumpAll(document, Marks().ids, items, old(Dumped()))
      ensures Marks() == old(Marks())
      decreases Unvisited(Dumped().serialized), 1
    {
      hide Dump, DumpAll;
      ghost var ids := Marks().ids;
      DumpNone(document, ids, old(Dumped()));
      var k := 0;
      while k < |items|
        invariant 0 <= k <= |items|
        invariant Dumped() == DumpAll(document, ids, items[..k], old(Dumped()))
        invariant Marks() == old(Marks())
      {
        DumpOneMore(document, ids, items[..k], items[k], old(Dumped()));
        assert items[..k + 1] == items[..k] + [items[k]];
        DumpNode(items[k]);
        k := k + 1;
      }
      assert items[..k] == items;
    }

    method DumpPairs(pairs: seq<Pair>)
      requires Valid() && InRange(document, Flatten(pairs))
      modifies this`events, this`order, anchors
      ensures Dumped() == DumpAll(document, Marks().ids, Flatten(pairs), old(Dumped()))
      ensures Marks() == old(Marks())
      decreases Unvisited(Dumped().serialized), 1
    {
      hide Dump, DumpAll, InRange, Flatten;
      ghost var ids := Marks().ids;
      FlattenNone(document);
      DumpNone(document, ids, old(Dumped()));
      var k := 0;
      while k < |pairs|
        invariant 0 <= k <= |pairs|
        invariant InRange(document, Flatten(pairs[..k]))
        invariant Dumped() == DumpAll(document, ids, Flatten(pairs[..k]), old(Dumped()))
        invariant Marks() == old(Marks())
      {
        PairInRange(document, pairs, k);
        PrefixInRange(document, pairs, k);
        FlattenSnoc(pairs, k);
        ghost var f := Flatten(pairs[..k]);
        InRangeSnoc(document, f, pairs[k].key);
        InRangeSnoc(document, f + [pairs[k].key], pairs[k].value);
        DumpOneMore(document, ids, f, pairs[k].key, old(Dumped()));
        DumpOneMore(document, ids, f + [pairs[k].key], pairs[k].value, old(Dumped()));
        DumpNode(pairs[k].key);
        DumpNode(pairs[k].value);
        k := k + 1;
      }
      assert pairs[..k] == pairs;
    }
  }

  /** yaml_emitter_dump: a document without nodes produces no document events. */
  method DumpDocument(document: seq<Node>) returns (events: seq<Event>)
    requires WellFormed(document)
    ensures events == if document == [] then [] else DumpRoot(document).events + [DocumentEnd]
  {
    if document == [] {
      return [];
    }
    var emitter := new Emitter(document);
    emitter.AnchorNode(1);
    emitter.DumpNode(1);
    emitter.Emit(DocumentEnd);
    events := emitter.events;
  }

  lemma FlattenNone(doc: seq<Node>)
    ensures Flatten([]) == [] && InRange(doc, [])
  {
  }

  lemma FlattenSnoc(pairs: seq<Pair>, k: nat)
    requires k < |pairs|
    ensures Flatten(pairs[..k + 1]) == Flatten(pairs[..k]) + [pairs[k].key] + [pairs[k].value]
  {
    assert pairs[..k + 1][..k] == pairs[..k];
  }

  lemma PairInRange(doc: seq<Node>, pairs: seq<Pair>, k: nat)
    requires k < |pairs| && InRange(doc, Flatten(pairs))
    ensures 1 <= pairs[k].key <= |doc| && 1 <= pairs[k].value <= |doc|
  {
    hide Flatten, InRange;
    FlattenAt(pairs, k);
    InRangeAt(doc, Flatten(pairs), 2 * k);
    InRangeAt(doc, Flatten(pairs), 2 * k + 1);
  }

  lemma PrefixInRange(doc: seq<Node>, pairs: seq<Pair>, k: nat)
    requires k < |pairs| && InRange(doc, Flatten(pairs))
    ensures InRange(doc, Flatten(pairs[..k]))
  {
    hide Flatten, InRange;
    FlattenAt(pairs, k);
    InRangeAt(doc, Flatten(pairs), 2 * k);
  }

  lemma InRangeAt(doc: seq<Node>, cs: seq<nat>, k: nat)
    requires k < |cs| && InRange(doc, cs)
    ensures 1 <= cs[k] <= |doc| && InRange(doc, cs[..k])
  {
  }

  lemma InRangeSnoc(doc: seq<Node>, cs: seq<nat>, c: nat)
    requires InRange(doc, cs) && 1 <= c <= |doc|
    ensures InRange(doc, cs + [c])
  {
  }

  lemma MarkNone(doc: seq<Node>, s: MarkState)
    requires WellFormed(doc) && Sized(doc, s)
    ensures MarkAll(doc, [], s) == s
  {
  }

  lemma DumpNone(doc: seq<Node>, ids: seq<nat>, s: DumpState)
    requires WellFormed(doc) && DumpSized(doc, ids, s)
    ensures DumpAll(doc, ids, [], s) == s
  {
  }

  lemma MarkOneMore(doc: seq<Node>, cs: seq<nat>, c: nat, s: MarkState)
    requires WellFormed(doc) && InRange(doc, cs) && 1 <= c <= |doc| && Sized(doc, s)
    ensures MarkAll(doc, cs + [c], s) == Mark(doc, c, MarkAll(doc, cs, s))
  {
    assert (cs + [c])[..|cs|] == cs;
  }

  lemma DumpOneMore(doc: seq<Node>, ids: seq<nat>, cs: seq<nat>, c: nat, s: DumpState)
    requires WellFormed(doc) && InRange(doc, cs) && 1 <= c <= |doc| && DumpSized(doc, ids, s)
    ensures DumpAll(doc, ids, cs + [c], s) == Dump(doc, ids, c, DumpAll(doc, ids, cs, s))
  {
    assert (cs + [c])[..|cs|] == cs;
  }
}
