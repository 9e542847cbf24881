/** Feeding the dumper's events to the loader rebuilds the document's node graph. */
module YamlRoundTrip {
  import opened YamlGraph
  import opened YamlDumper
  import opened YamlLoader

  // ----- anchors resolve to the right nodes

  ghost predicate IdsDistinct(ids: seq<nat>) {
    forall k, l | 0 <= k < l < |ids| && ids[k] != 0 :: ids[k] != ids[l]
  }

  ghost predicate OrderFor(ids: seq<nat>, order: seq<nat>) {
    forall k | 0 <= k < |order| :: 1 <= order[k] <= |ids|
  }

  /** The alias table after the nodes of the order were loaded. */
  ghost function AliasesOf(ids: seq<nat>, order: seq<nat>): seq<AliasData>
    requires OrderFor(ids, order)
  {
    if order == [] then []
    else
      var k := |order| - 1;
      var id := ids[order[k] - 1];
      AliasesOf(ids, order[..k]) + if id != 0 then [AliasData(GenerateAnchor(id), k + 1)] else []
  }

  lemma {:induction false} FindInConcat(a: seq<AliasData>, b: seq<AliasData>, name: string)
    ensures HasAnchor(a + b, name) <==> HasAnchor(a, name) || HasAnchor(b, name)
    ensures FindAlias(a + b, name) == if HasAnchor(a, name) then FindAlias(a, name) else FindAlias(b, name)
  {
    if a == [] {
      assert a + b == b;
    } else {
      FindInConcat(a[1..], b, name);
      assert (a + b)[1..] == a[1..] + b;
      assert HasAnchor(a + b, name) <==> a[0].anchor == name || HasAnchor(a[1..] + b, name) by {
        HasAnchorSplit(a + b, name);
      }
      HasAnchorSplit(a, name);
    }
  }

  lemma HasAnchorSplit(a: seq<AliasData>, name: string)
    requires a != []
    ensures HasAnchor(a, name) <==> a[0].anchor == name || HasAnchor(a[1..], name)
  {
    if HasAnchor(a, name) && a[0].anchor != name {
      var i :| 0 <= i < |a| && a[i].anchor == name;
      assert a[1..][i - 1].anchor == name;
    }
    if HasAnchor(a[1..], name) {
      var i :| 0 <= i < |a| - 1 && a[1..][i].anchor == name;
      assert a[i + 1].anchor == name;
    }
  }

  lemma {:induction false} NotYetNamed(ids: seq<nat>, order: seq<nat>, i: nat)
    requires OrderFor(ids, order) && IdsDistinct(ids)
    requires 1 <= i <= |ids| && ids[i - 1] != 0 && i !in order
    ensures !HasAnchor(AliasesOf(ids, order), GenerateAnchor(ids[i - 1]))
  {
    if order != [] {
      var k := |order| - 1;
      var rest, id, name := order[..k], ids[order[k] - 1], GenerateAnchor(ids[i - 1]);
      NotYetNamed(ids, rest, i);
      var last := if id != 0 then [AliasData(GenerateAnchor(id), k + 1)] else [];
      FindInConcat(AliasesOf(ids, rest), last, name);
      if GenerateAnchor(id) == name {
        AnchorNamesDiffer(id, ids[i - 1]);
      }
    }
  }

  lemma FindSingle(name: string, index: nat)
    ensures HasAnchor([AliasData(name, index)], name)
    ensures FindAlias([AliasData(name, index)], name) == index
  {
    assert [AliasData(name, index)][0].anchor == name;
  }

  /** Looking up the anchor of a loaded node finds that node. */
  lemma {:induction false} NameFindsNode(ids: seq<nat>, order: seq<nat>, i: nat)
    requires OrderFor(ids, order) && IdsDistinct(ids) && Distinct(order)
    requires i in order && ids[i - 1] != 0
    ensures HasAnchor(AliasesOf(ids, order), GenerateAnchor(ids[i - 1]))
    ensures FindAlias(AliasesOf(ids, order), GenerateAnchor(ids[i - 1])) == Position(order, i)
  {
    hide GenerateAnchor, FindAlias, HasAnchor, Position;
    var k := |order| - 1;
    var rest, id, name := order[..k], ids[order[k] - 1], GenerateAnchor(ids[i - 1]);
    var last := if id != 0 then [AliasData(GenerateAnchor(id), k + 1)] else [];
    FindInConcat(AliasesOf(ids, rest), last, name);
    if i in rest {
      NameFindsNode(ids, rest, i);
      PositionExtends(rest, order, i);
    } else {
      NotYetNamed(ids, rest, i);
      PositionIs(order, k);
      FindSingle(name, k + 1);
    }
  }

  // ----- dumper and loader side by side

  /** The dumper has written exactly the nodes the loader has, in the same order. */
  ghost predicate Sim(doc: seq<Node>, ids: seq<nat>, d: DumpState, l: LoadState) {
    && DumpSized(doc, ids, d)
    && |d.order| + Unvisited(d.serialized) == |doc|
    && Distinct(d.order) && OrderFor(ids, d.order)
    && (forall i | 1 <= i <= |doc| :: d.serialized[i - 1] != 0 <==> i in d.order)
    && |l.nodes| == |d.order|
    && l.aliases == AliasesOf(ids, d.order)
    && |l.ctx| <= |l.nodes|
  }

  /** The first walk has met exactly the nodes the second one has written. */
  ghost predicate Locked(doc: seq<Node>, m: MarkState, d: DumpState) {
    && |m.refs| == |d.serialized| == |doc|
    && forall k | 0 <= k < |doc| :: d.serialized[k] != 0 <==> m.refs[k] > 0
  }

  /** The result of the whole first walk. */
  ghost predicate FinalMarks(doc: seq<Node>, ids: seq<nat>, fin: seq<nat>) {
    && |ids| == |fin| == |doc|
    && (forall k | 0 <= k < |ids| :: ids[k] != 0 <==> fin[k] >= 2)
    && IdsDistinct(ids)
  }

  /** The innermost open collection, if any, takes another child. */
  ghost predicate Open(l: LoadState) {
    l.ctx != [] ==>
      var p := l.ctx[|l.ctx| - 1];
      1 <= p <= |l.nodes| && !l.nodes[p - 1].Scalar? && HasRoom(l.nodes[p - 1])
  }

  ghost function Attach(l: LoadState, index: nat): seq<Node>
    requires Open(l)
  {
    if l.ctx == [] then l.nodes
    else
      var p := l.ctx[|l.ctx| - 1] - 1;
      l.nodes[p := AddChild(l.nodes[p], index)]
  }

  /** Node k of the loaded document is complete. */
  ghost predicate Rebuilt(doc: seq<Node>, order: seq<nat>, nodes: seq<Node>, k: nat)
    requires k < |order| && |nodes| == |order|
  {
    && 1 <= order[k] <= |doc|
    && var n := doc[order[k] - 1];
    && AllIn(Children(n), order)
    && nodes[k] == WithChildren(Normal(n), Positions(order, Children(n)))
  }

  lemma RebuiltExtends(doc: seq<Node>, order: seq<nat>, nodes: seq<Node>, order': seq<nat>, nodes': seq<Node>, k: nat)
    requires k < |order| && |nodes| == |order| && |nodes'| == |order'| && order <= order'
    requires Rebuilt(doc, order, nodes, k) && nodes'[k] == nodes[k]
    ensures Rebuilt(doc, order', nodes', k)
  {
    PositionsExtend(order, order', Children(doc[order[k] - 1]));
  }

  /** What loading the events of one node, and of everything below it, has done. */
  ghost predicate NodeLoaded(doc: seq<Node>, ids: seq<nat>, i: nat, d: DumpState, l: LoadState,
                             d': DumpState, l': LoadState)
    requires Open(l)
  {
    && Sim(doc, ids, d', l') && l'.ctx == l.ctx
    && d.order <= d'.order && i in d'.order
    && |d.order| <= |l'.nodes| && l'.nodes[..|d.order|] == Attach(l, Position(d'.order, i))
    && forall k | |d.order| <= k < |d'.order| :: Rebuilt(doc, d'.order, l'.nodes, k)
  }

  ghost function NewEvents(d: DumpState, d': DumpState): seq<Event>
    requires d.events <= d'.events
  {
    d'.events[|d.events|..]
  }

  /** A node met again: its alias finds it. */
  lemma AliasLoads(doc: seq<Node>, ids: seq<nat>, i: nat, d: DumpState, l: LoadState) returns (l': LoadState)
    requires WellFormed(doc) && 1 <= i <= |doc| && Sim(doc, ids, d, l) && Open(l) && IdsDistinct(ids)
    requires d.serialized[i - 1] != 0 && ids[i - 1] != 0
    ensures var d' := Dump(doc, ids, i, d);
      && Run(l, NewEvents(d, d')) == Loaded(l')
      && NodeLoaded(doc, ids, i, d, l, d', l')
  {
    var d' := Dump(doc, ids, i, d);
    var e := Alias(AnchorOf(ids[i - 1]));
    assert NewEvents(d, d') == [e];
    NameFindsNode(ids, d.order, i);
    l' := l.(nodes := Attach(l, Position(d.order, i)));
    RunOne(l, e);
  }

  lemma RunOne(l: LoadState, e: Event)
    ensures Run(l, [e]) == Step(l, e)
  {
    match Step(l, e) {
      case Failed(_) =>
      case Loaded(s) =>
        assert [e][1..] == [];
        assert Run(s, []) == Loaded(s);
    }
  }

  /** The state in which the dumper has just taken up node i for the first time. */
  ghost function TakeUp(d: DumpState, i: nat): DumpState
    requires 1 <= i <= |d.serialized|
  {
    d.(serialized := d.serialized[i - 1 := 1], order := d.order + [i])
  }

  /** A new node is appended, registered, and attached to its parent. */
  lemma NewNodeLoads(doc: seq<Node>, ids: seq<nat>, i: nat, d: DumpState, l: LoadState, node: Node) returns (l': LoadState)
    requires WellFormed(doc) && Fits(doc) && 1 <= i <= |doc| && Sim(doc, ids, d, l) && Open(l) && IdsDistinct(ids)
    requires d.serialized[i - 1] == 0
    ensures NewNode(l, node, AnchorOf(ids[i - 1])) == Loaded(l')
    ensures Sim(doc, ids, TakeUp(d, i), l') && l'.ctx == l.ctx && |l'.ctx| < STACK_MAX
    ensures l'.nodes == Attach(l, |d.order| + 1) + [node]
    ensures Position(d.order + [i], i) == |d.order| + 1
  {
    hide AliasesOf, HasAnchor, GenerateAnchor, Unvisited, Position;
    TakeUpNew(doc, ids, i, d, l);
    if ids[i - 1] != 0 {
      NotYetNamed(ids, d.order, i);
    }
    l' := LoadState(Attach(l, |d.order| + 1) + [node], AliasesOf(ids, d.order + [i]), l.ctx);
    if l.ctx != [] {
      var p := l.ctx[|l.ctx| - 1] - 1;
      AttachBelow(l.nodes, node, p, AddChild(l.nodes[p], |d.order| + 1));
    }
  }

  lemma AttachBelow(nodes: seq<Node>, node: Node, p: nat, n: Node)
    requires p < |nodes|
    ensures (nodes + [node])[p := n] == nodes[p := n] + [node] && (nodes + [node])[p] == nodes[p]
  {
  }

  /** Taking up a new node keeps the dumper's side of the simulation. */
  lemma TakeUpNew(doc: seq<Node>, ids: seq<nat>, i: nat, d: DumpState, l: LoadState)
    requires 1 <= i <= |doc| && Sim(doc, ids, d, l) && d.serialized[i - 1] == 0
    ensures i !in d.order && |d.order| < |doc|
    ensures var d1 := TakeUp(d, i);
      && |d1.order| + Unvisited(d1.serialized) == |doc|
      && Distinct(d1.order) && OrderFor(ids, d1.order)
      && (forall j | 1 <= j <= |doc| :: d1.serialized[j - 1] != 0 <==> j in d1.order)
      && Position(d1.order, i) == |d.order| + 1
      && AliasesOf(ids, d1.order)
         == AliasesOf(ids, d.order) + if ids[i - 1] != 0 then [AliasData(GenerateAnchor(ids[i - 1]), |d1.order|)] else []
  {
    hide GenerateAnchor;
    var d1 := TakeUp(d, i);
    assert i !in d.order;
    UnvisitedUpdate(d.serialized, i - 1, 1);
    assert d1.order[..|d.order|] == d.order;
    PositionIs(d1.order, |d.order|);
  }

  /** What loading the events of the first children of the innermost open collection has done. */
  ghost predicate ChildrenLoaded(doc: seq<Node>, ids: seq<nat>, base: Node, cs: seq<nat>,
                                 d: DumpState, l: LoadState, d': DumpState, l': LoadState)
  {
    && l.ctx != [] && 1 <= l.ctx[|l.ctx| - 1] <= |l.nodes| && |l.nodes| == |d.order|
    && Sim(doc, ids, d', l') && l'.ctx == l.ctx
    && d.order <= d'.order && AllIn(cs, d'.order)
    && |d.order| <= |l'.nodes|
    && l'.nodes[..|d.order|]
       == l.nodes[l.ctx[|l.ctx| - 1] - 1 := WithChildren(base, Positions(d'.order, cs))]
    && forall k | |d.order| <= k < |d'.order| :: Rebuilt(doc, d'.order, l'.nodes, k)
  }

  ghost predicate HasCapacity(base: Node, n: nat) {
    match base
    case Scalar(_, _, _) => false
    case Sequence(_, _, _) => n <= STACK_MAX
    case Mapping(_, _, _) => n <= 2 * STACK_MAX
  }

  lemma RoomForNext(base: Node, cs: seq<nat>)
    requires HasCapacity(base, |cs| + 1) && Positive(cs)
    ensures HasRoom(WithChildren(base, cs))
  {
    if base.Mapping? {
      PairUpShape(cs);
    }
  }

  lemma PositionsSnoc(order: seq<nat>, cs: seq<nat>, c: nat)
    requires AllIn(cs, order) && c in order
    ensures AllIn(cs + [c], order)
    ensures Positions(order, cs + [c]) == Positions(order, cs) + [Position(order, c)]
  {
  }

  lemma ChildAdded(doc: seq<Node>, ids: seq<nat>, base: Node, cs: seq<nat>, c: nat, d: DumpState, l: LoadState,
                   d1: DumpState, l1: LoadState, d': DumpState, l': LoadState)
    requires ChildrenLoaded(doc, ids, base, cs, d, l, d1, l1)
    requires Open(l1) && NodeLoaded(doc, ids, c, d1, l1, d', l')
    ensures ChildrenLoaded(doc, ids, base, cs + [c], d, l, d', l')
  {
    hide WithChildren, Position, AliasesOf, Unvisited, AddChild, HasRoom;
    var p, n, n1 := l.ctx[|l.ctx| - 1] - 1, |d.order|, |d1.order|;
    var pos := Positions(d1.order, cs);
    PositionsExtend(d1.order, d'.order, cs);
    PositionsSnoc(d'.order, cs, c);
    assert l1.nodes[p] == l1.nodes[..n][p] == WithChildren(base, pos);
    AddChildExtends(base, pos, Position(d'.order, c));
    var w := WithChildren(base, Positions(d'.order, cs + [c]));
    assert l'.nodes[..n1] == l1.nodes[p := w];
    assert l'.nodes[..n] == l'.nodes[..n1][..n] == l1.nodes[..n][p := w] == l.nodes[p := w];
    forall k | n <= k < |d'.order|
      ensures Rebuilt(doc, d'.order, l'.nodes, k)
    {
      if k < n1 {
        assert l'.nodes[k] == l'.nodes[..n1][k] == l1.nodes[k];
        RebuiltExtends(doc, d1.order, l1.nodes, d'.order, l'.nodes, k);
      }
    }
  }

  /** The events of node i, and of everything first met below it, load as that part of the graph. */
  lemma {:induction false} NodeLoads(doc: seq<Node>, ids: seq<nat>, fin: seq<nat>, i: nat,
                                     m: MarkState, d: DumpState, l: LoadState) returns (l': LoadState)
    requires WellFormed(doc) && Fits(doc) && 1 <= i <= |doc| && Sized(doc, m)
    requires Sim(doc, ids, d, l) && Locked(doc, m, d) && Open(l)
    requires FinalMarks(doc, ids, fin) && Above(fin, Mark(doc, i, m).refs)
    ensures var d' := Dump(doc, ids, i, d);
      && Locked(doc, Mark(doc, i, m), d')
      && Run(l, NewEvents(d, d')) == Loaded(l')
      && NodeLoaded(doc, ids, i, d, l, d', l')
    decreases Unvisited(d.serialized), 0
  {
    hide Dump, DumpAll, MarkAll, Run, NodeLoaded, ChildrenLoaded, WithChildren, HasCapacity, Unvisited, AliasesOf,
      Children, HasRoom, Sim;
    if d.serialized[i - 1] != 0 {
      AnchoredAgain(doc, ids, fin, i, m, d);
      l' := AliasLoads(doc, ids, i, d, l);
    } else {
      FirstVisit(doc, ids, i, m, d);
      if doc[i - 1].Scalar? {
        l' := ScalarLoads(doc, ids, i, d, l);
      } else {
        var n := doc[i - 1];
        var d1 := TakeUp(d, i).(events := d.events + [StartOf(n, AnchorOf(ids[i - 1]))]);
        var m1 := m.(refs := m.refs[i - 1 := 1]);
        var l1 := StartLoads(doc, ids, i, d, l);
        SimIgnoresEvents(doc, ids, TakeUp(d, i), d1, l1);
        ChildrenFit(doc, i);
        var l2 := ChildrenLoad(doc, ids, fin, Normal(n), Children(n), m1, d1, l1);
        l' := EndLoads(doc, ids, i, d, l, d1, l1, DumpAll(doc, ids, Children(n), d1), l2);
      }
    }
  }

  /** A node written before was referenced at least twice, so it has an anchor. */
  lemma AnchoredAgain(doc: seq<Node>, ids: seq<nat>, fin: seq<nat>, i: nat, m: MarkState, d: DumpState)
    requires WellFormed(doc) && 1 <= i <= |doc| && Sized(doc, m) && DumpSized(doc, ids, d)
    requires Locked(doc, m, d) && FinalMarks(doc, ids, fin) && Above(fin, Mark(doc, i, m).refs)
    requires d.serialized[i - 1] != 0
    ensures ids[i - 1] != 0
    ensures Locked(doc, Mark(doc, i, m), Dump(doc, ids, i, d))
  {
    assert m.refs[i - 1] > 0;
    assert fin[i - 1] >= Mark(doc, i, m).refs[i - 1] >= 2;
  }

  /** Both walks go on to the children of a node they meet for the first time. */
  lemma FirstVisit(doc: seq<Node>, ids: seq<nat>, i: nat, m: MarkState, d: DumpState)
    requires WellFormed(doc) && 1 <= i <= |doc| && Sized(doc, m) && DumpSized(doc, ids, d)
    requires Locked(doc, m, d) && d.serialized[i - 1] == 0
    ensures var n := doc[i - 1];
      var m1 := m.(refs := m.refs[i - 1 := 1]);
      && Mark(doc, i, m) == MarkAll(doc, Children(n), m1)
      && Unvisited(d.serialized[i - 1 := 1]) < Unvisited(d.serialized)
      && Locked(doc, m1, TakeUp(d, i))
      && (n.Scalar? ==> Mark(doc, i, m) == m1 && Dump(doc, ids, i, d).serialized == TakeUp(d, i).serialized)
      && (!n.Scalar? ==> Dump(doc, ids, i, d).serialized == DumpAll(doc, ids, Children(n),
            TakeUp(d, i).(events := d.events + [StartOf(n, AnchorOf(ids[i - 1]))])).serialized)
  {
    assert m.refs[i - 1] == 0;
    UnvisitedUpdate(d.serialized, i - 1, 1);
  }

  lemma SimIgnoresEvents(doc: seq<Node>, ids: seq<nat>, d: DumpState, d1: DumpState, l: LoadState)
    requires Sim(doc, ids, d, l) && d1 == d.(events := d1.events)
    ensures Sim(doc, ids, d1, l)
  {
  }

  lemma ChildrenFit(doc: seq<Node>, i: nat)
    requires WellFormed(doc) && Fits(doc) && 1 <= i <= |doc| && !doc[i - 1].Scalar?
    ensures InRange(doc, Children(doc[i - 1])) && HasCapacity(Normal(doc[i - 1]), |Children(doc[i - 1])|)
  {
  }

  lemma {:induction false} ChildrenLoad(doc: seq<Node>, ids: seq<nat>, fin: seq<nat>, base: Node, cs: seq<nat>,
                                        m: MarkState, d: DumpState, l: LoadState) returns (l': LoadState)
    requires WellFormed(doc) && Fits(doc) && InRange(doc, cs) && Sized(doc, m)
    requires Sim(doc, ids, d, l) && Locked(doc, m, d)
    requires l.ctx != [] && 1 <= l.ctx[|l.ctx| - 1] <= |l.nodes|
    requires l.nodes[l.ctx[|l.ctx| - 1] - 1] == WithChildren(base, []) && HasCapacity(base, |cs|)
    requires FinalMarks(doc, ids, fin) && Above(fin, MarkAll(doc, cs, m).refs)
    ensures var d' := DumpAll(doc, ids, cs, d);
      && Locked(doc, MarkAll(doc, cs, m), d')
      && Run(l, NewEvents(d, d')) == Loaded(l')
      && ChildrenLoaded(doc, ids, base, cs, d, l, d', l')
    decreases Unvisited(d.serialized), |cs|
  {
    hide Dump, DumpAll, Mark, MarkAll, Run, NodeLoaded, ChildrenLoaded, WithChildren, HasCapacity, Unvisited, AliasesOf,
      FinalMarks, Locked, Children, HasRoom;
    if cs == [] {
      l' := l;
      NoChildren(doc, ids, base, m, d, l);
    } else {
      var k := |cs| - 1;
      var rest := cs[..k];
      assert cs == rest + [cs[k]];
      MarkOneMore(doc, rest, cs[k], m);
      DumpOneMore(doc, ids, rest, cs[k], d);
      var m1, d1 := MarkAll(doc, rest, m), DumpAll(doc, ids, rest, d);
      AboveTransitive(fin, MarkAll(doc, cs, m).refs, m1.refs);
      LessCapacity(base, k);
      var l1 := ChildrenLoad(doc, ids, fin, base, rest, m, d, l);
      OpenForNext(doc, ids, base, rest, d, l, d1, l1);
      l' := NodeLoads(doc, ids, fin, cs[k], m1, d1, l1);
      var d' := DumpAll(doc, ids, cs, d);
      ChildAdded(doc, ids, base, rest, cs[k], d, l, d1, l1, d', l');
      RunOn(l, l1, d, d1, d');
    }
  }

  lemma NoChildren(doc: seq<Node>, ids: seq<nat>, base: Node, m: MarkState, d: DumpState, l: LoadState)
    requires WellFormed(doc) && Sized(doc, m) && Sim(doc, ids, d, l)
    requires l.ctx != [] && 1 <= l.ctx[|l.ctx| - 1] <= |l.nodes|
    requires l.nodes[l.ctx[|l.ctx| - 1] - 1] == WithChildren(base, [])
    ensures MarkAll(doc, [], m) == m && DumpAll(doc, ids, [], d) == d
    ensures Run(l, NewEvents(d, d)) == Loaded(l)
    ensures ChildrenLoaded(doc, ids, base, [], d, l, d, l)
  {
    assert Positions(d.order, []) == [];
    assert l.nodes[..|d.order|] == l.nodes;
  }

  lemma AboveTransitive(c: seq<nat>, b: seq<nat>, a: seq<nat>)
    requires Above(c, b) && Above(b, a)
    ensures Above(c, a)
  {
    forall k | 0 <= k < |a| ensures a[k] <= c[k] { assert a[k] <= b[k] <= c[k]; }
  }

  lemma LessCapacity(base: Node, k: nat)
    requires HasCapacity(base, k + 1)
    ensures HasCapacity(base, k)
  {
  }

  lemma OpenForNext(doc: seq<Node>, ids: seq<nat>, base: Node, cs: seq<nat>, d: DumpState, l: LoadState,
                    d1: DumpState, l1: LoadState)
    requires ChildrenLoaded(doc, ids, base, cs, d, l, d1, l1) && HasCapacity(base, |cs| + 1)
    ensures Open(l1) && Sim(doc, ids, d1, l1)
  {
    var pos := Positions(d1.order, cs);
    RoomForNext(base, pos);
    assert l1.nodes[..|d.order|][l.ctx[|l.ctx| - 1] - 1] == WithChildren(base, pos);
  }

  /** Running the events of two stretches one after the other. */
  lemma RunOn(l: LoadState, l1: LoadState, d: DumpState, d1: DumpState, d2: DumpState)
    requires d.events <= d1.events <= d2.events && Run(l, NewEvents(d, d1)) == Loaded(l1)
    ensures Run(l, NewEvents(d, d2)) == Run(l1, NewEvents(d1, d2))
  {
    hide Run;
    RunConcat(l, NewEvents(d, d1), NewEvents(d1, d2));
    assert NewEvents(d, d2) == NewEvents(d, d1) + NewEvents(d1, d2);
  }

  lemma ScalarLoads(doc: seq<Node>, ids: seq<nat>, i: nat, d: DumpState, l: LoadState) returns (l': LoadState)
    requires WellFormed(doc) && Fits(doc) && 1 <= i <= |doc| && Sim(doc, ids, d, l) && Open(l) && IdsDistinct(ids)
    requires d.serialized[i - 1] == 0 && doc[i - 1].Scalar?
    ensures var d' := Dump(doc, ids, i, d);
      && Run(l, NewEvents(d, d')) == Loaded(l')
      && NodeLoaded(doc, ids, i, d, l, d', l')
  {
    hide AliasesOf, Unvisited, GenerateAnchor, Sim, Open, Attach, Position, Distinct, Rebuilt, NewNode;
    SimSized(doc, ids, d, l);
    var n, anchor, p := doc[i - 1], AnchorOf(ids[i - 1]), |d.order|;
    var d' := Dump(doc, ids, i, d);
    l' := NewNodeLoads(doc, ids, i, d, l, Normal(n));
    assert d' == TakeUp(d, i).(events := d.events + [ScalarOf(n, anchor)]);
    SimPopped(doc, ids, TakeUp(d, i), l', d', l');
    SimSizes(doc, ids, d, l, d', l');
    assert NewEvents(d, d') == [ScalarOf(n, anchor)];
    RunOne(l, ScalarOf(n, anchor));
    NewNodeRebuilt(doc, d'.order, l'.nodes, p);
    assert l'.nodes[..p] == Attach(l, p + 1);
  }

  lemma StartLoads(doc: seq<Node>, ids: seq<nat>, i: nat, d: DumpState, l: LoadState) returns (l1: LoadState)
    requires WellFormed(doc) && Fits(doc) && 1 <= i <= |doc| && Sim(doc, ids, d, l) && Open(l) && IdsDistinct(ids)
    requires d.serialized[i - 1] == 0 && !doc[i - 1].Scalar?
    ensures Step(l, StartOf(doc[i - 1], AnchorOf(ids[i - 1]))) == Loaded(l1)
    ensures Sim(doc, ids, TakeUp(d, i), l1)
    ensures l1.ctx == l.ctx + [|d.order| + 1]
    ensures l1.nodes == Attach(l, |d.order| + 1) + [WithChildren(Normal(doc[i - 1]), [])]
    ensures Position(d.order + [i], i) == |d.order| + 1
  {
    hide AliasesOf, Unvisited, GenerateAnchor, Position;
    var n := doc[i - 1];
    var l0 := NewNodeLoads(doc, ids, i, d, l, WithChildren(Normal(n), []));
    l1 := l0.(ctx := l.ctx + [|d.order| + 1]);
    assert PairUp([]) == [];
  }

  lemma EndLoads(doc: seq<Node>, ids: seq<nat>, i: nat, d: DumpState, l: LoadState,
                 d1: DumpState, l1: LoadState, d2: DumpState, l2: LoadState) returns (l': LoadState)
    requires WellFormed(doc) && 1 <= i <= |doc| && Sim(doc, ids, d, l) && Open(l)
    requires d.serialized[i - 1] == 0 && !doc[i - 1].Scalar?
    requires var n := doc[i - 1];
      && d1 == TakeUp(d, i).(events := d.events + [StartOf(n, AnchorOf(ids[i - 1]))])
      && Step(l, StartOf(n, AnchorOf(ids[i - 1]))) == Loaded(l1)
      && l1.ctx == l.ctx + [|d.order| + 1]
      && l1.nodes == Attach(l, |d.order| + 1) + [WithChildren(Normal(n), [])]
      && d2 == DumpAll(doc, ids, Children(n), d1)
      && Run(l1, NewEvents(d1, d2)) == Loaded(l2)
      && ChildrenLoaded(doc, ids, Normal(n), Children(n), d1, l1, d2, l2)
    requires Position(d1.order, i) == |d.order| + 1
    ensures var d' := Dump(doc, ids, i, d);
      && Run(l, NewEvents(d, d')) == Loaded(l')
      && NodeLoaded(doc, ids, i, d, l, d', l')
  {
    hide AliasesOf, Unvisited, GenerateAnchor, WithChildren, Position, DumpAll, Run, Positions, AddChild;
    var n := doc[i - 1];
    var d' := Dump(doc, ids, i, d);
    var start, end := StartOf(n, AnchorOf(ids[i - 1])), EndOf(n);
    assert d' == d2.(events := d2.events + [end]);
    l' := l2.(ctx := l.ctx);
    ClosesNode(doc, ids, i, d, l, d1, l1, d2, l2, d');
    assert NewEvents(d, d1) == [start] && NewEvents(d2, d') == [end];
    RunOne(l, start);
    RunOne(l2, end);
    RunOn(l, l1, d, d1, d');
    RunOn(l1, l2, d1, d2, d');
  }

  lemma ClosesNode(doc: seq<Node>, ids: seq<nat>, i: nat, d: DumpState, l: LoadState,
                   d1: DumpState, l1: LoadState, d2: DumpState, l2: LoadState, d': DumpState)
    requires 1 <= i <= |doc| && Sim(doc, ids, d, l) && Open(l)
    requires !doc[i - 1].Scalar? && d1.order == d.order + [i]
    requires l1.ctx == l.ctx + [|d.order| + 1]
    requires l1.nodes == Attach(l, |d.order| + 1) + [WithChildren(Normal(doc[i - 1]), [])]
    requires ChildrenLoaded(doc, ids, Normal(doc[i - 1]), Children(doc[i - 1]), d1, l1, d2, l2)
    requires Position(d1.order, i) == |d.order| + 1
    requires d' == d2.(events := d'.events)
    ensures Step(l2, EndOf(doc[i - 1])) == Loaded(l2.(ctx := l.ctx))
    ensures NodeLoaded(doc, ids, i, d, l, d', l2.(ctx := l.ctx))
  {
    hide AliasesOf, Unvisited, Position, AddChild, PairUp, HasRoom, Sim, Open, Rebuilt, Children, Distinct;
    var n, p := doc[i - 1], |d.order|;
    var w := WithChildren(Normal(n), Positions(d2.order, Children(n)));
    SimSizes(doc, ids, d, l, d2, l2);
    AtNewNode(l1.nodes, l2.nodes, Attach(l, p + 1), WithChildren(Normal(n), []), w, p);
    assert d2.order[p] == d1.order[p] == i;
    PositionExtends(d1.order, d2.order, i);
    assert l2.ctx[..|l2.ctx| - 1] == l.ctx;
    var l' := l2.(ctx := l.ctx);
    SimPopped(doc, ids, d2, l2, d', l');
    NewNodeRebuilt(doc, d2.order, l2.nodes, p);
    assert forall k | p <= k < |d'.order| :: Rebuilt(doc, d'.order, l'.nodes, k);
  }

  lemma SimSizes(doc: seq<Node>, ids: seq<nat>, d: DumpState, l: LoadState, d2: DumpState, l2: LoadState)
    requires Sim(doc, ids, d, l) && Sim(doc, ids, d2, l2) && Open(l)
    ensures |l.nodes| == |d.order| && |l2.nodes| == |d2.order|
    ensures |Attach(l, |d.order| + 1)| == |l.nodes|
  {
  }

  lemma SimSized(doc: seq<Node>, ids: seq<nat>, d: DumpState, l: LoadState)
    requires Sim(doc, ids, d, l)
    ensures DumpSized(doc, ids, d) && |l.nodes| == |d.order| <= |doc|
    ensures Distinct(d.order) && InRange(doc, d.order)
  {
  }

  lemma SimPopped(doc: seq<Node>, ids: seq<nat>, d: DumpState, l: LoadState, d': DumpState, l': LoadState)
    requires Sim(doc, ids, d, l) && d' == d.(events := d'.events)
    requires l' == l.(ctx := l'.ctx) && |l'.ctx| <= |l.ctx|
    ensures Sim(doc, ids, d', l')
  {
  }

  lemma AtNewNode(nodes1: seq<Node>, nodes2: seq<Node>, old': seq<Node>, empty: Node, full: Node, p: nat)
    requires |old'| == p && nodes1 == old' + [empty] && |nodes2| > p
    requires nodes2[..p + 1] == nodes1[p := full]
    ensures nodes2[p] == full && nodes2[..p] == old'
  {
    assert nodes2[p] == nodes2[..p + 1][p];
    assert nodes2[..p] == nodes2[..p + 1][..p];
  }

  lemma NewNodeRebuilt(doc: seq<Node>, order: seq<nat>, nodes: seq<Node>, p: nat)
    requires p < |order| && |nodes| == |order| && 1 <= order[p] <= |doc|
    requires AllIn(Children(doc[order[p] - 1]), order)
    requires nodes[p] == WithChildren(Normal(doc[order[p] - 1]), Positions(order, Children(doc[order[p] - 1])))
    ensures Rebuilt(doc, order, nodes, p)
  {
  }

  // ----- the order: depth first, first visit

  ghost function Unseen(doc: seq<Node>, seen: seq<nat>): set<nat> {
    set i: nat | 1 <= i <= |doc| && i !in seen
  }

  /** Depth-first search from node i: the nodes seen, in order of their first visit. */
  ghost function Visit(doc: seq<Node>, i: nat, seen: seq<nat>): (r: seq<nat>)
    requires WellFormed(doc) && 1 <= i <= |doc|
    ensures seen <= r && i in r && Unseen(doc, r) <= Unseen(doc, seen)
    decreases Unseen(doc, seen), 0
  {
    if i in seen then seen
    else
      assert i in Unseen(doc, seen) && i !in Unseen(doc, seen + [i]);
      VisitAll(doc, Children(doc[i - 1]), seen + [i])
  }

  ghost function VisitAll(doc: seq<Node>, cs: seq<nat>, seen: seq<nat>): (r: seq<nat>)
    requires WellFormed(doc) && InRange(doc, cs)
    ensures seen <= r && AllIn(cs, r) && Unseen(doc, r) <= Unseen(doc, seen)
    decreases Unseen(doc, seen), |cs|
  {
    if cs == [] then seen
    else
      var k := |cs| - 1;
      Visit(doc, cs[k], VisitAll(doc, cs[..k], seen))
  }

  /** The dumper marks a node as serialized exactly when it enters the order. */
  ghost predicate Tracks(doc: seq<Node>, d: DumpState) {
    && |d.serialized| == |doc|
    && forall i | 1 <= i <= |doc| :: d.serialized[i - 1] != 0 <==> i in d.order
  }

  lemma {:induction false} DumpVisits(doc: seq<Node>, ids: seq<nat>, i: nat, d: DumpState)
    requires WellFormed(doc) && 1 <= i <= |doc| && DumpSized(doc, ids, d) && Tracks(doc, d)
    ensures var d' := Dump(doc, ids, i, d);
      Tracks(doc, d') && d'.order == Visit(doc, i, d.order)
    decreases Unvisited(d.serialized), 0
  {
    hide AnchorOf;
    var n, anchor := doc[i - 1], AnchorOf(ids[i - 1]);
    if d.serialized[i - 1] == 0 {
      UnvisitedUpdate(d.serialized, i - 1, 1);
      var d1 := TakeUp(d, i);
      if n.Scalar? {
        assert VisitAll(doc, [], d1.order) == d1.order;
      } else {
        DumpAllVisits(doc, ids, Children(n), d1.(events := d.events + [StartOf(n, anchor)]));
      }
    }
  }

  lemma {:induction false} DumpAllVisits(doc: seq<Node>, ids: seq<nat>, cs: seq<nat>, d: DumpState)
    requires WellFormed(doc) && InRange(doc, cs) && DumpSized(doc, ids, d) && Tracks(doc, d)
    ensures var d' := DumpAll(doc, ids, cs, d);
      Tracks(doc, d') && d'.order == VisitAll(doc, cs, d.order)
    decreases Unvisited(d.serialized), |cs|
  {
    if cs != [] {
      var k := |cs| - 1;
      DumpAllVisits(doc, ids, cs[..k], d);
      DumpVisits(doc, ids, cs[k], DumpAll(doc, ids, cs[..k], d));
    }
  }

  // ----- the main results

  ghost function DumpedEvents(doc: seq<Node>): seq<Event>
    requires WellFormed(doc) && doc != []
  {
    DumpRoot(doc).events + [DocumentEnd]
  }

  /** Loading the dumped events gives the graph below the root, numbered depth first. */
  lemma RoundTrip(doc: seq<Node>)
    requires WellFormed(doc) && Fits(doc) && doc != []
    ensures var order := Visit(doc, 1, []);
      var r := LoadDocument(DumpedEvents(doc));
      && r.Loaded? && r.s.ctx == []
      && Distinct(order) && order[0] == 1 && InRange(doc, order) && |order| <= |doc|
      && |r.s.nodes| == |order|
      && forall k | 0 <= k < |order| ::
           AllIn(Children(doc[order[k] - 1]), order)
           && r.s.nodes[k] == LoadedNode(doc[order[k] - 1], order)
  {
    hide Dump, Mark, Run, LoadNodes, Step, Sim, LoadedNode, Children, Distinct, Visit, Tracks, Locked, FinalMarks, AliasesOf;
    var l := LoadFromStart(doc);
    var d := DumpRoot(doc);
    assert DumpedEvents(doc)[1..] == NewEvents(Unserialized(doc), d) + [DocumentEnd];
    LoadIsRun(LoadState([], [], []), NewEvents(Unserialized(doc), d));
    VisitStarts(doc);
    SimSized(doc, Mark(doc, 1, Unmarked(doc)).ids, d, l);
    forall k | 0 <= k < |d.order|
      ensures AllIn(Children(doc[d.order[k] - 1]), d.order)
      ensures l.nodes[k] == LoadedNode(doc[d.order[k] - 1], d.order)
    {
      RebuiltIsRenamed(doc, d.order, l.nodes, k);
    }
  }

  /** The emitter object's events through the composer object. */
  method DumpAndLoad(doc: seq<Node>) returns (nodes: seq<Node>)
    requires WellFormed(doc) && Fits(doc) && doc != []
    ensures var order := Visit(doc, 1, []);
      && |nodes| == |order| && InRange(doc, order)
      && forall k | 0 <= k < |order| ::
           AllIn(Children(doc[order[k] - 1]), order) && nodes[k] == LoadedNode(doc[order[k] - 1], order)
  {
    var events := DumpDocument(doc);
    RoundTrip(doc);
    var composer := new Composer();
    var ok := composer.Load(events);
    nodes := composer.nodes;
  }

  lemma LoadFromStart(doc: seq<Node>) returns (l: LoadState)
    requires WellFormed(doc) && Fits(doc) && doc != []
    ensures var ids, d := Mark(doc, 1, Unmarked(doc)).ids, DumpRoot(doc);
      && Sim(doc, ids, d, l) && l.ctx == []
      && d.order == Visit(doc, 1, [])
      && Run(LoadState([], [], []), NewEvents(Unserialized(doc), d)) == Loaded(l)
      && (forall k | 0 <= k < |d.order| :: Rebuilt(doc, d.order, l.nodes, k))
  {
    hide Dump, Mark, Run, Visit, Rebuilt;
    var m0, d0, l0 := Unmarked(doc), Unserialized(doc), LoadState([], [], []);
    var m := Mark(doc, 1, m0);
    StartsTogether(doc, m.ids);
    MarkAnchors(doc, 1, m0);
    DumpVisits(doc, m.ids, 1, d0);
    l := NodeLoads(doc, m.ids, m.refs, 1, m0, d0, l0);
  }

  lemma RebuiltIsRenamed(doc: seq<Node>, order: seq<nat>, nodes: seq<Node>, k: nat)
    requires k < |order| && |nodes| == |order| && Rebuilt(doc, order, nodes, k)
    ensures 1 <= order[k] <= |doc| && AllIn(Children(doc[order[k] - 1]), order)
    ensures nodes[k] == LoadedNode(doc[order[k] - 1], order)
  {
    ChildrenOfNormal(doc[order[k] - 1]);
    RenameIsRebuild(Normal(doc[order[k] - 1]), order);
  }

  lemma ChildrenOfNormal(n: Node)
    ensures Children(Normal(n)) == Children(n)
  {
  }

  lemma VisitStarts(doc: seq<Node>)
    requires WellFormed(doc) && doc != []
    ensures [1] <= Visit(doc, 1, [])
  {
    assert [] + [1] == [1];
  }

  lemma StartsTogether(doc: seq<Node>, ids: seq<nat>)
    requires |ids| == |doc|
    ensures var m0, d0, l0 := Unmarked(doc), Unserialized(doc), LoadState([], [], []);
      Sim(doc, ids, d0, l0) && Locked(doc, m0, d0) && Open(l0) && Tracks(doc, d0) && AnchorsRight(m0)
  {
    AllUnvisited(NoMarks(|doc|));
  }

  ghost function NoMarks(n: nat): seq<nat> {
    seq(n, _ => 0)
  }

  lemma {:induction false} AllUnvisited(marks: seq<nat>)
    requires forall k | 0 <= k < |marks| :: marks[k] == 0
    ensures Unvisited(marks) == |marks|
  {
    if marks != [] {
      AllUnvisited(marks[1..]);
    }
  }
}
