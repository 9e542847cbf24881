/** A loaded document is in canonical form: dumping and loading it again changes nothing. */
module YamlCanonical {
  import opened YamlGraph
  import opened YamlLoader
  import opened YamlRoundTrip
  import opened YamlReach

  /** Two graphs with the same edges, once nodes are renamed to their positions in the order. */
  ghost predicate SameEdges(doc: seq<Node>, g: seq<Node>, order: seq<nat>) {
    && |g| == |order| && Distinct(order) && InRange(doc, order)
    && forall k | 0 <= k < |order| ::
         && AllIn(Children(doc[order[k] - 1]), order)
         && Children(g[k]) == Positions(order, Children(doc[order[k] - 1]))
  }

  lemma EdgesAt(doc: seq<Node>, g: seq<Node>, order: seq<nat>, i: nat)
    requires SameEdges(doc, g, order) && i in order
    ensures 1 <= i <= |doc| && 1 <= Position(order, i) <= |g|
    ensures AllIn(Children(doc[i - 1]), order)
    ensures Children(g[Position(order, i) - 1]) == Positions(order, Children(doc[i - 1]))
  {
    hide Children, Positions, Position;
    var k := Position(order, i) - 1;
    assert order[k] == i;
  }

  lemma PositionsMember(order: seq<nat>, seen: seq<nat>, i: nat)
    requires AllIn(seen, order) && i in order
    ensures i in seen <==> Position(order, i) in Positions(order, seen)
  {
    hide Position;
    if i in seen {
      var k :| 0 <= k < |seen| && seen[k] == i;
      assert Positions(order, seen)[k] == Position(order, i);
    }
    if Position(order, i) in Positions(order, seen) {
      var k :| 0 <= k < |seen| && Positions(order, seen)[k] == Position(order, i);
      assert order[Position(order, seen[k]) - 1] == seen[k];
    }
  }

  lemma PositionsInRange(g: seq<Node>, order: seq<nat>, cs: seq<nat>)
    requires AllIn(cs, order) && |g| == |order|
    ensures InRange(g, Positions(order, cs))
  {
  }

  /** Depth-first search commutes with renaming. */
  lemma {:induction false} VisitRenamed(doc: seq<Node>, g: seq<Node>, order: seq<nat>, i: nat, seen: seq<nat>)
    requires WellFormed(doc) && WellFormed(g) && SameEdges(doc, g, order)
    requires i in order && 1 <= i <= |doc| && AllIn(seen, order)
    ensures AllIn(Visit(doc, i, seen), order)
    ensures Visit(g, Position(order, i), Positions(order, seen)) == Positions(order, Visit(doc, i, seen))
    decreases Unseen(doc, seen), 0
  {
    hide Children, Positions, Position, SameEdges, VisitAll;
    PositionsMember(order, seen, i);
    EdgesAt(doc, g, order, i);
    if i !in seen {
      assert i in Unseen(doc, seen) && i !in Unseen(doc, seen + [i]);
      PositionsSnoc(order, seen, i);
      VisitAllRenamed(doc, g, order, Children(doc[i - 1]), seen + [i]);
    }
  }

  lemma {:induction false} VisitAllRenamed(doc: seq<Node>, g: seq<Node>, order: seq<nat>, cs: seq<nat>, seen: seq<nat>)
    requires WellFormed(doc) && WellFormed(g) && SameEdges(doc, g, order)
    requires InRange(doc, cs) && AllIn(cs, order) && AllIn(seen, order)
    ensures AllIn(VisitAll(doc, cs, seen), order) && InRange(g, Positions(order, cs))
    ensures VisitAll(g, Positions(order, cs), Positions(order, seen)) == Positions(order, VisitAll(doc, cs, seen))
    decreases Unseen(doc, seen), |cs|
  {
    hide Position, SameEdges, Visit, VisitAll;
    assert |g| == |order| by { SameEdgesSize(doc, g, order); }
    PositionsInRange(g, order, cs);
    VisitAllUnfold(doc, cs, seen);
    VisitAllUnfold(g, Positions(order, cs), Positions(order, seen));
    if cs != [] {
      var k := |cs| - 1;
      VisitAllRenamed(doc, g, order, cs[..k], seen);
      VisitRenamed(doc, g, order, cs[k], VisitAll(doc, cs[..k], seen));
      assert Positions(order, cs)[..k] == Positions(order, cs[..k]);
    }
  }

  lemma SameEdgesSize(doc: seq<Node>, g: seq<Node>, order: seq<nat>)
    requires SameEdges(doc, g, order)
    ensures |g| == |order|
  {
  }

  ghost predicate Counts(s: seq<nat>) {
    forall k | 0 <= k < |s| :: s[k] == k + 1
  }

  /** Renaming by the identity order does nothing. */
  lemma RenameByCounting(n: Node, order: seq<nat>)
    requires Counts(order) && AllIn(Children(n), order)
    ensures Rename(n, order) == n
  {
    hide Children, Position, Rename;
    var cs := Children(n);
    forall k | 0 <= k < |cs| ensures Positions(order, cs)[k] == cs[k] {
      assert order[Position(order, cs[k]) - 1] == cs[k];
    }
    assert Positions(order, cs) == cs;
    RenameIsRebuild(n, order);
    RebuildSelf(n);
  }

  lemma RebuildSelf(n: Node)
    requires Positive(Children(n))
    ensures WithChildren(n, Children(n)) == n
  {
    if n.Mapping? {
      PairUpFlatten(n.pairs);
    }
  }

  lemma ChildrenOfLoaded(n: Node, order: seq<nat>)
    requires AllIn(Children(n), order)
    ensures Children(LoadedNode(n, order)) == Positions(order, Children(n))
    ensures Normal(LoadedNode(n, order)) == LoadedNode(n, order)
  {
    ChildrenOfNormal(n);
    if n.Mapping? {
      FlattenRenamed(n.pairs, order);
    }
    RenameKeepsTag(Normal(n), order);
    NormalTagIsNot(n);
  }

  /** The loaded graph is itself a well-formed document. */
  lemma LoadedIsDocument(doc: seq<Node>, g: seq<Node>, order: seq<nat>)
    requires Fits(doc) && |order| <= |doc| && |g| == |order| && Distinct(order) && InRange(doc, order)
    requires forall k | 0 <= k < |order| ::
      AllIn(Children(doc[order[k] - 1]), order) && g[k] == LoadedNode(doc[order[k] - 1], order)
    ensures WellFormed(g) && Fits(g) && SameEdges(doc, g, order)
    ensures forall k | 0 <= k < |g| :: Normal(g[k]) == g[k]
  {
    hide Children, Positions, Position, Normal;
    forall k | 0 <= k < |g|
      ensures InRange(g, Children(g[k])) && Normal(g[k]) == g[k]
      ensures Children(g[k]) == Positions(order, Children(doc[order[k] - 1]))
      ensures (g[k].Sequence? ==> |g[k].items| <= STACK_MAX) && (g[k].Mapping? ==> |g[k].pairs| <= STACK_MAX)
    {
      ChildrenOfLoaded(doc[order[k] - 1], order);
      PositionsInRange(g, order, Children(doc[order[k] - 1]));
      LoadedSize(doc[order[k] - 1], order);
    }
  }

  lemma LoadedSize(n: Node, order: seq<nat>)
    requires AllIn(Children(n), order)
    ensures var g := LoadedNode(n, order);
      && (g.Sequence? ==> n.Sequence? && |g.items| == |n.items|)
      && (g.Mapping? ==> n.Mapping? && |g.pairs| == |n.pairs|)
  {
  }

  /** A second dump and load gives back the very same document. */
  lemma SecondRoundTrip(doc: seq<Node>)
    requires WellFormed(doc) && Fits(doc) && doc != []
    ensures var r := LoadDocument(DumpedEvents(doc));
      && r.Loaded? && WellFormed(r.s.nodes) && Fits(r.s.nodes) && r.s.nodes != []
      && LoadDocument(DumpedEvents(r.s.nodes)) .Loaded?
      && LoadDocument(DumpedEvents(r.s.nodes)).s.nodes == r.s.nodes
  {
    hide Visit, LoadDocument, LoadedNode, Children, DumpedEvents, Normal, Positions;
    RoundTrip(doc);
    var order, g := Visit(doc, 1, []), LoadDocument(DumpedEvents(doc)).s.nodes;
    LoadedIsDocument(doc, g, order);
    OrderCounts(doc, g, order);
    RoundTrip(g);
    var order', g' := Visit(g, 1, []), LoadDocument(DumpedEvents(g)).s.nodes;
    forall k | 0 <= k < |g| ensures g'[k] == g[k] {
      assert order'[k] == k + 1;
      NormalIsLoaded(g[k], order');
    }
  }

  lemma NormalIsLoaded(n: Node, order: seq<nat>)
    requires Counts(order) && AllIn(Children(n), order) && Normal(n) == n
    ensures LoadedNode(n, order) == n
  {
    RenameByCounting(n, order);
  }

  /** Searching the loaded graph depth first meets its nodes in the order of their numbers. */
  lemma OrderCounts(doc: seq<Node>, g: seq<Node>, order: seq<nat>)
    requires WellFormed(doc) && WellFormed(g) && doc != [] && g != []
    requires order == Visit(doc, 1, []) && SameEdges(doc, g, order) && order[0] == 1
    ensures Counts(Visit(g, 1, [])) && |Visit(g, 1, [])| == |g|
  {
    hide Visit, Children;
    assert Positions(order, []) == [];
    VisitRenamed(doc, g, order, 1, []);
    PositionIs(order, 0);
    forall k | 0 <= k < |order| ensures Positions(order, order)[k] == k + 1 {
      PositionIs(order, k);
    }
  }
}
