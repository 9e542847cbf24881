/** What a dumped document looks like event by event, and what a loaded one looks like node by node. */
module YamlDumped {
  import opened Basics
  import opened YamlGraph
  import opened YamlDumper
  import opened YamlLoader
  import opened YamlRoundTrip

  // ----- anchor names

  /** "id" and at least three digits. */
  lemma AnchorName(id: nat)
    ensures id < 1000 ==>
              GenerateAnchor(id) == ['i', 'd', (48 + id / 100) as char, (48 + id / 10 % 10) as char, (48 + id % 10) as char]
    ensures id >= 1000 ==> |GenerateAnchor(id)| >= 6 && GenerateAnchor(id)[..2] == "id" && GenerateAnchor(id)[2..] == Decimal(id)
    ensures forall k :: 0 <= k < |Decimal(id)| ==> '0' <= Decimal(id)[k] <= '9'
  {
    hide Decimal;
    DecimalDigits(id);
    if id < 1000 {
      SmallDecimal(id);
      assert Zeros(2) == ['0', '0'] && Zeros(1) == ['0'] && Zeros(0) == [];
    } else {
      assert Zeros(0) == [];
    }
  }

  lemma SmallDecimal(n: nat)
    requires n < 1000
    ensures n < 10 ==> Decimal(n) == [(48 + n) as char]
    ensures 10 <= n < 100 ==> Decimal(n) == [(48 + n / 10) as char, (48 + n % 10) as char]
    ensures 100 <= n ==> Decimal(n) == [(48 + n / 100) as char, (48 + n / 10 % 10) as char, (48 + n % 10) as char]
  {
    if n >= 100 {
      assert n / 10 / 10 == n / 100;
      assert Decimal(n / 10) == Decimal(n / 10 / 10) + [Digit(n / 10 % 10)];
      assert Decimal(n) == Decimal(n / 10) + [Digit(n % 10)];
    } else if n >= 10 {
      assert Decimal(n) == Decimal(n / 10) + [Digit(n % 10)];
    }
  }

  lemma {:induction false} DecimalDigits(n: nat)
    ensures forall k :: 0 <= k < |Decimal(n)| ==> '0' <= Decimal(n)[k] <= '9'
    ensures n >= 10 ==> |Decimal(n)| >= 2
    ensures n >= 100 ==> |Decimal(n)| >= 3
    ensures n >= 1000 ==> |Decimal(n)| >= 4
  {
    if n >= 10 {
      DecimalDigits(n / 10);
    }
  }

  // ----- the events of a dumped document

  /** Every node is written with its tag; the flags say whether that is the default one of its kind. */
  predicate Flagged(e: Event) {
    match e
    case ScalarEvent(_, tag, _, plain, quoted, _) => tag.Some? && plain == quoted == (tag == Some("tag:yaml.org,2002:str"))
    case SequenceStart(_, tag, implicit, _) => tag.Some? && implicit == (tag == Some("tag:yaml.org,2002:seq"))
    case MappingStart(_, tag, implicit, _) => tag.Some? && implicit == (tag == Some("tag:yaml.org,2002:map"))
    case _ => true
  }

  ghost predicate AllFlagged(events: seq<Event>) {
    forall k | 0 <= k < |events| :: Flagged(events[k])
  }

  lemma {:induction false} DumpFlagged(doc: seq<Node>, ids: seq<nat>, i: nat, d: DumpState)
    requires WellFormed(doc) && 1 <= i <= |doc| && DumpSized(doc, ids, d) && AllFlagged(d.events)
    ensures AllFlagged(Dump(doc, ids, i, d).events)
    decreases Unvisited(d.serialized), 0
  {
    hide Children;
    if d.serialized[i - 1] == 0 && !doc[i - 1].Scalar? {
      var n := doc[i - 1];
      UnvisitedUpdate(d.serialized, i - 1, 1);
      DumpAllFlagged(doc, ids, Children(n), TakeUp(d, i).(events := d.events + [StartOf(n, AnchorOf(ids[i - 1]))]));
    }
  }

  lemma {:induction false} DumpAllFlagged(doc: seq<Node>, ids: seq<nat>, cs: seq<nat>, d: DumpState)
    requires WellFormed(doc) && InRange(doc, cs) && DumpSized(doc, ids, d) && AllFlagged(d.events)
    ensures AllFlagged(DumpAll(doc, ids, cs, d).events)
    decreases Unvisited(d.serialized), |cs|
  {
    hide Dump, AllFlagged;
    if cs != [] {
      var k := |cs| - 1;
      DumpAllFlagged(doc, ids, cs[..k], d);
      DumpFlagged(doc, ids, cs[k], DumpAll(doc, ids, cs[..k], d));
    }
  }

  /** The flags of the dumped events: a tag is implicit exactly if it is the default tag of its kind of node. */
  lemma DumpedFlags(doc: seq<Node>, k: nat)
    requires WellFormed(doc) && doc != [] && k < |DumpedEvents(doc)|
    ensures var e := DumpedEvents(doc)[k];
            && (e.ScalarEvent? ==> e.scalarTag.Some? && e.plainImplicit == e.quotedImplicit == (e.scalarTag == Some("tag:yaml.org,2002:str")))
            && (e.SequenceStart? ==> e.sequenceTag.Some? && e.implicit == (e.sequenceTag == Some("tag:yaml.org,2002:seq")))
            && (e.MappingStart? ==> e.mappingTag.Some? && e.implicit == (e.mappingTag == Some("tag:yaml.org,2002:map")))
  {
    hide Dump, Mark;
    DumpFlagged(doc, Mark(doc, 1, Unmarked(doc)).ids, 1, Unserialized(doc));
    assert Flagged(DumpedEvents(doc)[k]);
  }

  // ----- anchors are written only where they are used

  /** Every node met twice so far has been written as an alias. */
  ghost predicate Aliased(ids: seq<nat>, refs: seq<nat>, events: seq<Event>) {
    |ids| == |refs| && forall k | 0 <= k < |refs| && refs[k] >= 2 :: Alias(AnchorOf(ids[k])) in events
  }

  /** Every anchor written is that of a node. */
  ghost predicate Anchored(ids: seq<nat>, events: seq<Event>) {
    forall k | 0 <= k < |events| :: Anchor(events[k]).Some? ==> exists i :: 0 <= i < |ids| && ids[i] != 0 && Anchor(events[k]) == AnchorOf(ids[i])
  }

  function Anchor(e: Event): Option<string> {
    match e
    case ScalarEvent(a, _, _, _, _, _) => a
    case SequenceStart(a, _, _, _) => a
    case MappingStart(a, _, _, _) => a
    case _ => None
  }

  lemma AliasedGrows(ids: seq<nat>, refs: seq<nat>, events: seq<Event>, more: seq<Event>)
    requires Aliased(ids, refs, events) && events <= more
    ensures Aliased(ids, refs, more)
  {
    forall k | 0 <= k < |refs| && refs[k] >= 2
      ensures Alias(AnchorOf(ids[k])) in more
    {
      var j :| 0 <= j < |events| && events[j] == Alias(AnchorOf(ids[k]));
      assert more[j] == events[j];
    }
  }

  lemma AnchoredGrows(ids: seq<nat>, events: seq<Event>, e: Event, i: nat)
    requires Anchored(ids, events) && i < |ids| && (Anchor(e) == AnchorOf(ids[i]) || Anchor(e) == None)
    ensures Anchored(ids, events + [e])
  {
    hide GenerateAnchor;
  }

  /** Both walks met the node before: it is written as an alias. */
  lemma UsedAgain(doc: seq<Node>, ids: seq<nat>, i: nat, m: MarkState, d: DumpState)
    requires WellFormed(doc) && 1 <= i <= |doc| && Sized(doc, m) && DumpSized(doc, ids, d) && Locked(doc, m, d)
    requires Aliased(ids, m.refs, d.events) && Anchored(ids, d.events) && d.serialized[i - 1] != 0
    ensures Locked(doc, Mark(doc, i, m), Dump(doc, ids, i, d))
    ensures Aliased(ids, Mark(doc, i, m).refs, Dump(doc, ids, i, d).events) && Anchored(ids, Dump(doc, ids, i, d).events)
  {
    hide AnchorOf;
    var e := Alias(AnchorOf(ids[i - 1]));
    var more := d.events + [e];
    assert Dump(doc, ids, i, d).events == more;
    assert Mark(doc, i, m).refs == m.refs[i - 1 := m.refs[i - 1] + 1];
    AliasedGrows(ids, m.refs, d.events, more);
    AnchoredGrows(ids, d.events, e, i - 1);
    assert more[|d.events|] == e;
  }

  lemma {:induction false} NodesUsed(doc: seq<Node>, ids: seq<nat>, i: nat, m: MarkState, d: DumpState)
    requires WellFormed(doc) && 1 <= i <= |doc| && Sized(doc, m) && DumpSized(doc, ids, d) && Locked(doc, m, d)
    requires Aliased(ids, m.refs, d.events) && Anchored(ids, d.events)
    ensures Locked(doc, Mark(doc, i, m), Dump(doc, ids, i, d))
    ensures Aliased(ids, Mark(doc, i, m).refs, Dump(doc, ids, i, d).events) && Anchored(ids, Dump(doc, ids, i, d).events)
    decreases Unvisited(d.serialized), 0
  {
    hide Children, AnchorOf, Mark, MarkAll, DumpAll, Aliased, Anchored, Locked, Unvisited;
    if d.serialized[i - 1] != 0 {
      UsedAgain(doc, ids, i, m, d);
    } else {
      FirstVisit(doc, ids, i, m, d);
      var n, anchor := doc[i - 1], AnchorOf(ids[i - 1]);
      var m1, d1 := m.(refs := m.refs[i - 1 := 1]), TakeUp(d, i);
      var e := if n.Scalar? then ScalarOf(n, anchor) else StartOf(n, anchor);
      FirstUse(doc, ids, i, m, d);
      AnchoredGrows(ids, d.events, e, i - 1);
      AliasedGrows(ids, m1.refs, d.events, d.events + [e]);
      var d2 := d1.(events := d.events + [e]);
      LockedIgnoresEvents(doc, m1, d1, d2);
      if !n.Scalar? {
        AllNodesUsed(doc, ids, Children(n), m1, d2);
        var d3 := DumpAll(doc, ids, Children(n), d2);
        AnchoredGrows(ids, d3.events, EndOf(n), i - 1);
        AliasedGrows(ids, Mark(doc, i, m).refs, d3.events, d3.events + [EndOf(n)]);
        LockedIgnoresEvents(doc, Mark(doc, i, m), d3, Dump(doc, ids, i, d));
      }
    }
  }

  lemma LockedIgnoresEvents(doc: seq<Node>, m: MarkState, d: DumpState, d1: DumpState)
    requires Locked(doc, m, d) && d1.serialized == d.serialized
    ensures Locked(doc, m, d1)
  {
  }

  lemma FirstUse(doc: seq<Node>, ids: seq<nat>, i: nat, m: MarkState, d: DumpState)
    requires 1 <= i <= |doc| && Sized(doc, m) && Aliased(ids, m.refs, d.events)
    ensures Aliased(ids, m.refs[i - 1 := 1], d.events)
  {
    hide AnchorOf;
  }

  lemma {:induction false} AllNodesUsed(doc: seq<Node>, ids: seq<nat>, cs: seq<nat>, m: MarkState, d: DumpState)
    requires WellFormed(doc) && InRange(doc, cs) && Sized(doc, m) && DumpSized(doc, ids, d) && Locked(doc, m, d)
    requires Aliased(ids, m.refs, d.events) && Anchored(ids, d.events)
    ensures Locked(doc, MarkAll(doc, cs, m), DumpAll(doc, ids, cs, d))
    ensures Aliased(ids, MarkAll(doc, cs, m).refs, DumpAll(doc, ids, cs, d).events) && Anchored(ids, DumpAll(doc, ids, cs, d).events)
    decreases Unvisited(d.serialized), |cs|
  {
    hide Mark, Dump, Aliased, Anchored, Locked, Unvisited;
    if cs != [] {
      var k := |cs| - 1;
      AllNodesUsed(doc, ids, cs[..k], m, d);
      NodesUsed(doc, ids, cs[k], MarkAll(doc, cs[..k], m), DumpAll(doc, ids, cs[..k], d));
    }
  }

  /** An anchor is written only where an alias refers to it. */
  lemma AnchorsAreUsed(doc: seq<Node>, k: nat)
    requires WellFormed(doc) && doc != [] && k < |DumpedEvents(doc)|
    ensures var e := DumpedEvents(doc)[k];
            (e.ScalarEvent? || e.SequenceStart? || e.MappingStart?) && e.anchor.Some? ==> Alias(e.anchor) in DumpedEvents(doc)
  {
    hide Mark, Dump, GenerateAnchor;
    var m0, d0, e := Unmarked(doc), Unserialized(doc), DumpedEvents(doc)[k];
    var m := Mark(doc, 1, m0);
    NodesUsed(doc, m.ids, 1, m0, d0);
    MarkAnchors(doc, 1, m0);
    var all := DumpRoot(doc).events;
    if Anchor(e).Some? {
      assert e == all[k];
      var i :| 0 <= i < |m.ids| && m.ids[i] != 0 && Anchor(e) == AnchorOf(m.ids[i]);
      assert m.refs[i] >= 2;
      AliasedGrows(m.ids, m.refs, all, DumpedEvents(doc));
    }
  }

  /** Anchors go to the nodes met at least twice, and different ones to different nodes. */
  lemma AnchorsGiven(doc: seq<Node>, k: nat, l: nat)
    requires WellFormed(doc) && doc != [] && k < |doc| && l < |doc|
    ensures var m := Mark(doc, 1, Unmarked(doc));
            && (m.ids[k] != 0 <==> m.refs[k] >= 2) && (k != l && m.ids[k] != 0 ==> m.ids[k] != m.ids[l])
  {
    hide Mark;
    MarkAnchors(doc, 1, Unmarked(doc));
  }

  // ----- the loaded document node by node

  lemma {:induction false} RenamedPair(pairs: seq<Pair>, order: seq<nat>, k: nat)
    requires AllIn(Flatten(pairs), order) && k < |pairs|
    ensures var r := RenamePairs(pairs, order)[k];
            && 1 <= r.key <= |order| && order[r.key - 1] == pairs[k].key && 1 <= r.value <= |order| && order[r.value - 1] == pairs[k].value
  {
    var m := |pairs| - 1;
    assert Flatten(pairs)[..2 * m] == Flatten(pairs[..m]);
    if k < m {
      RenamedPair(pairs[..m], order, k);
    }
  }

  lemma LoadedParts(n: Node, order: seq<nat>)
    requires AllIn(Children(n), order)
    ensures var l := LoadedNode(n, order);
            && (n.Scalar? ==> l == Scalar(if n.tag == "!" then "tag:yaml.org,2002:str" else n.tag, n.value, n.style))
            && (n.Sequence? ==>
                  && l.Sequence? && l.tag == (if n.tag == "!" then "tag:yaml.org,2002:seq" else n.tag) && l.style == n.style
                  && |l.items| == |n.items|
                  && forall j :: 0 <= j < |n.items| ==> 1 <= l.items[j] <= |order| && order[l.items[j] - 1] == n.items[j])
            && (n.Mapping? ==>
                  && l.Mapping? && l.tag == (if n.tag == "!" then "tag:yaml.org,2002:map" else n.tag) && l.style == n.style
                  && |l.pairs| == |n.pairs|
                  && (forall j :: 0 <= j < |n.pairs| ==> 1 <= l.pairs[j].key <= |order| && order[l.pairs[j].key - 1] == n.pairs[j].key)
                  && (forall j :: 0 <= j < |n.pairs| ==> 1 <= l.pairs[j].value <= |order| && order[l.pairs[j].value - 1] == n.pairs[j].value))
  {
    hide Flatten, RenamePairs;
    if n.Mapping? {
      forall j | 0 <= j < |n.pairs|
        ensures var r := RenamePairs(n.pairs, order)[j];
                && 1 <= r.key <= |order| && order[r.key - 1] == n.pairs[j].key && 1 <= r.value <= |order| && order[r.value - 1] == n.pairs[j].value
      {
        RenamedPair(n.pairs, order, j);
      }
    }
  }

  /**
   * Node k of the loaded document has kind, value and style of the k-th node dumped; it has its tag, or the default one
   * for "!"; and each child is the loaded node that stands for the same child.
   */
  lemma LoadedIs(doc: seq<Node>, k: nat)
    requires WellFormed(doc) && Fits(doc) && doc != [] && k < |Visit(doc, 1, [])|
    ensures var order, r := Visit(doc, 1, []), LoadDocument(DumpedEvents(doc));
            && r.Loaded? && |r.s.nodes| == |order| && 1 <= order[k] <= |doc| && order[0] == 1
            && var n, l := doc[order[k] - 1], r.s.nodes[k];
            && (n.Scalar? ==> l == Scalar(if n.tag == "!" then "tag:yaml.org,2002:str" else n.tag, n.value, n.style))
            && (n.Sequence? ==>
                  && l.Sequence? && l.tag == (if n.tag == "!" then "tag:yaml.org,2002:seq" else n.tag) && l.style == n.style
                  && |l.items| == |n.items|
                  && forall j :: 0 <= j < |n.items| ==> 1 <= l.items[j] <= |order| && order[l.items[j] - 1] == n.items[j])
            && (n.Mapping? ==>
                  && l.Mapping? && l.tag == (if n.tag == "!" then "tag:yaml.org,2002:map" else n.tag) && l.style == n.style
                  && |l.pairs| == |n.pairs|
                  && (forall j :: 0 <= j < |n.pairs| ==> 1 <= l.pairs[j].key <= |order| && order[l.pairs[j].key - 1] == n.pairs[j].key)
                  && (forall j :: 0 <= j < |n.pairs| ==> 1 <= l.pairs[j].value <= |order| && order[l.pairs[j].value - 1] == n.pairs[j].value))
  {
    hide Visit, LoadDocument, DumpedEvents, Children, LoadedNode, Distinct;
    RoundTrip(doc);
    var order := Visit(doc, 1, []);
    LoadedParts(doc[order[k] - 1], order);
  }

  // ----- one step of the loader

  /** A node behind the limit, or with an anchor seen before, is refused; else it is appended and known by its anchor. */
  lemma NodeStep(s: LoadState, node: Node, anchor: Option<string>)
    requires s.ctx == []
    ensures |s.nodes| >= 0x7FFF_FFFE ==> NewNode(s, node, anchor) == Failed(StackLimit)
    ensures |s.nodes| < 0x7FFF_FFFE && anchor.None? ==> NewNode(s, node, anchor) == Loaded(s.(nodes := s.nodes + [node]))
    ensures |s.nodes| < 0x7FFF_FFFE && anchor.Some? ==>
              NewNode(s, node, anchor) ==
                if exists i :: 0 <= i < |s.aliases| && s.aliases[i].anchor == anchor.value then Failed(DuplicateAnchor)
                else Loaded(s.(nodes := s.nodes + [node], aliases := s.aliases + [AliasData(anchor.value, |s.nodes| + 1)]))
  {
  }

  /** A child goes to the end of the sequence, or is the key or the value that is due, unless the collection is full. */
  lemma ChildStep(s: LoadState, index: nat)
    requires s.ctx != [] && 1 <= s.ctx[|s.ctx| - 1] <= |s.nodes|
    ensures var p := s.ctx[|s.ctx| - 1] - 1;
            var n, r := s.nodes[p], NodeAdd(s, index);
            && (n.Sequence? ==> r == if |n.items| >= 0x7FFF_FFFE then Failed(StackLimit)
                                     else Loaded(s.(nodes := s.nodes[p := n.(items := n.items + [index])])))
            && (n.Mapping? ==>
                  var k := |n.pairs| - 1;
                  var due := k >= 0 && n.pairs[k].key != 0 && n.pairs[k].value == 0;
                  r == if !due && |n.pairs| >= 0x7FFF_FFFE then Failed(StackLimit)
                       else Loaded(s.(nodes := s.nodes[p := n.(pairs := if due then n.pairs[k := Pair(n.pairs[k].key, index)]
                                                                        else n.pairs + [Pair(index, 0)])])))
  {
  }

  /** The tags of composed nodes: that of the event, or the default one for none and for "!". An alias needs a name seen before. */
  lemma EventStep(s: LoadState, anchor: Option<string>, tag: Option<string>, text: string, flag: bool, quoted: bool, style: nat)
    ensures var plain := tag.None? || tag == Some("!");
            && Step(s, ScalarEvent(anchor, tag, text, flag, quoted, style)) ==
                 NewNode(s, Scalar(if plain then "tag:yaml.org,2002:str" else tag.value, text, style), anchor)
            && Step(s, SequenceStart(anchor, tag, flag, style)) ==
                 OpenNode(s, Sequence(if plain then "tag:yaml.org,2002:seq" else tag.value, [], style), anchor)
            && Step(s, MappingStart(anchor, tag, flag, style)) ==
                 OpenNode(s, Mapping(if plain then "tag:yaml.org,2002:map" else tag.value, [], style), anchor)
    ensures Step(s, Alias(None)) == Failed(MissingAnchor)
    ensures anchor.Some? && (forall i :: 0 <= i < |s.aliases| ==> s.aliases[i].anchor != anchor.value) ==>
              Step(s, Alias(anchor)) == Failed(UndefinedAlias)
    ensures forall i | anchor.Some? && 0 <= i < |s.aliases| && s.aliases[i].anchor == anchor.value
                       && forall j :: 0 <= j < i ==> s.aliases[j].anchor != anchor.value ::
              Step(s, Alias(anchor)) == NodeAdd(s, s.aliases[i].index)
  {
    hide NewNode, OpenNode, NodeAdd;
    forall i | anchor.Some? && 0 <= i < |s.aliases| && s.aliases[i].anchor == anchor.value
        && forall j :: 0 <= j < i ==> s.aliases[j].anchor != anchor.value
      ensures FindAlias(s.aliases, anchor.value) == s.aliases[i].index
    {
      FirstAlias(s.aliases, anchor.value, i);
    }
  }

  lemma {:induction false} FirstAlias(aliases: seq<AliasData>, name: string, i: nat)
    requires i < |aliases| && aliases[i].anchor == name && forall j :: 0 <= j < i ==> aliases[j].anchor != name
    ensures FindAlias(aliases, name) == aliases[i].index
    decreases |aliases|
  {
    if i > 0 {
      FirstAlias(aliases[1..], name, i - 1);
    }
  }
}
