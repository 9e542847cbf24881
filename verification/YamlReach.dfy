/** Which part of the graph survives a dump and load, and what a second dump and load does. */
module YamlReach {
  import opened YamlGraph
  import opened YamlLoader
  import opened YamlRoundTrip

  // ----- the visited nodes are the reachable ones

  ghost predicate Edge(doc: seq<Node>, a: nat, b: nat) {
    1 <= a <= |doc| && b in Children(doc[a - 1])
  }

  ghost predicate Path(doc: seq<Node>, p: seq<nat>) {
    p != [] && (|p| > 1 ==> Edge(doc, p[0], p[1]) && Path(doc, p[1..]))
  }

  ghost predicate Reaches(doc: seq<Node>, a: nat, b: nat) {
    exists p :: Path(doc, p) && p[0] == a && p[|p| - 1] == b
  }

  lemma ReachesSelf(doc: seq<Node>, a: nat)
    ensures Reaches(doc, a, a)
  {
    assert Path(doc, [a]);
  }

  lemma ReachesStep(doc: seq<Node>, a: nat, c: nat, b: nat)
    requires Edge(doc, a, c) && Reaches(doc, c, b)
    ensures Reaches(doc, a, b)
  {
    var p :| Path(doc, p) && p[0] == c && p[|p| - 1] == b;
    var q := [a] + p;
    assert q[1..] == p;
    assert Path(doc, q);
    assert q[0] == a && q[|q| - 1] == b;
  }

  lemma VisitAllUnfold(doc: seq<Node>, cs: seq<nat>, seen: seq<nat>)
    requires WellFormed(doc) && InRange(doc, cs)
    ensures VisitAll(doc, cs, seen) == if cs == [] then seen
      else Visit(doc, cs[|cs| - 1], VisitAll(doc, cs[..|cs| - 1], seen))
  {
  }

  ghost predicate NewReachable(doc: seq<Node>, a: nat, seen: seq<nat>, order: seq<nat>) {
    forall k | |seen| <= k < |order| :: Reaches(doc, a, order[k])
  }

  lemma {:induction false} VisitedAreReachable(doc: seq<Node>, i: nat, seen: seq<nat>)
    requires WellFormed(doc) && 1 <= i <= |doc|
    ensures NewReachable(doc, i, seen, Visit(doc, i, seen))
    decreases Unseen(doc, seen), 0
  {
    hide Reaches, Children;
    if i !in seen {
      assert i in Unseen(doc, seen) && i !in Unseen(doc, seen + [i]);
      ReachesSelf(doc, i);
      AllVisitedAreReachable(doc, i, Children(doc[i - 1]), seen + [i]);
    }
  }

  lemma {:induction false} AllVisitedAreReachable(doc: seq<Node>, a: nat, cs: seq<nat>, seen: seq<nat>)
    requires WellFormed(doc) && InRange(doc, cs) && forall k | 0 <= k < |cs| :: Edge(doc, a, cs[k])
    ensures NewReachable(doc, a, seen, VisitAll(doc, cs, seen))
    decreases Unseen(doc, seen), |cs|
  {
    hide Reaches, Edge, Visit, VisitAll, Children;
    VisitAllUnfold(doc, cs, seen);
    if cs != [] {
      var k := |cs| - 1;
      var mid := VisitAll(doc, cs[..k], seen);
      AllVisitedAreReachable(doc, a, cs[..k], seen);
      VisitedAreReachable(doc, cs[k], mid);
      var order := Visit(doc, cs[k], mid);
      forall j | |seen| <= j < |order| ensures Reaches(doc, a, order[j]) {
        if j < |mid| {
          assert order[j] == mid[j];
        } else {
          ReachesStep(doc, a, cs[k], order[j]);
        }
      }
    }
  }

  /** Every node in the order, except those in progress, has all its children in the order. */
  ghost predicate ClosedFrom(doc: seq<Node>, seen: seq<nat>, order: seq<nat>) {
    forall k | |seen| <= k < |order| :: 1 <= order[k] <= |doc| && AllIn(Children(doc[order[k] - 1]), order)
  }

  lemma {:induction false} VisitCloses(doc: seq<Node>, i: nat, seen: seq<nat>)
    requires WellFormed(doc) && 1 <= i <= |doc|
    ensures ClosedFrom(doc, seen, Visit(doc, i, seen))
    decreases Unseen(doc, seen), 0
  {
    hide Children;
    if i !in seen {
      assert i in Unseen(doc, seen) && i !in Unseen(doc, seen + [i]);
      VisitAllCloses(doc, Children(doc[i - 1]), seen + [i]);
    }
  }

  lemma {:induction false} VisitAllCloses(doc: seq<Node>, cs: seq<nat>, seen: seq<nat>)
    requires WellFormed(doc) && InRange(doc, cs)
    ensures ClosedFrom(doc, seen, VisitAll(doc, cs, seen))
    decreases Unseen(doc, seen), |cs|
  {
    hide Children, Visit, VisitAll;
    VisitAllUnfold(doc, cs, seen);
    if cs != [] {
      var k := |cs| - 1;
      var mid := VisitAll(doc, cs[..k], seen);
      VisitAllCloses(doc, cs[..k], seen);
      VisitCloses(doc, cs[k], mid);
      var order := Visit(doc, cs[k], mid);
      forall j | |seen| <= j < |order|
        ensures 1 <= order[j] <= |doc| && AllIn(Children(doc[order[j] - 1]), order)
      {
        if j < |mid| {
          assert order[j] == mid[j];
        }
      }
    }
  }

  lemma EdgeStays(doc: seq<Node>, order: seq<nat>, a: nat, b: nat)
    requires ClosedFrom(doc, [], order) && a in order && Edge(doc, a, b)
    ensures b in order
  {
    hide Children;
    var k :| 0 <= k < |order| && order[k] == a;
    var cs := Children(doc[order[k] - 1]);
    assert AllIn(cs, order) && b in cs;
  }

  lemma {:induction false} PathStays(doc: seq<Node>, order: seq<nat>, p: seq<nat>)
    requires ClosedFrom(doc, [], order) && Path(doc, p) && p[0] in order
    ensures p[|p| - 1] in order
    decreases |p|
  {
    hide ClosedFrom, Edge;
    if |p| > 1 {
      EdgeStays(doc, order, p[0], p[1]);
      PathStays(doc, order, p[1..]);
    }
  }

  /** Exactly the nodes reachable from the root are dumped. */
  lemma DumpedIffReachable(doc: seq<Node>, i: nat)
    requires WellFormed(doc) && doc != []
    ensures i in Visit(doc, 1, []) <==> Reaches(doc, 1, i)
  {
    hide Visit;
    var order := Visit(doc, 1, []);
    VisitedAreReachable(doc, 1, []);
    VisitCloses(doc, 1, []);
    if Reaches(doc, 1, i) {
      var p :| Path(doc, p) && p[0] == 1 && p[|p| - 1] == i;
      PathStays(doc, order, p);
    }
  }

  // ----- the tag "!" is the only thing a round trip can lose

  lemma RenameKeepsTag(n: Node, order: seq<nat>)
    requires AllIn(Children(n), order)
    ensures Rename(n, order).tag == n.tag
  {
  }

  lemma NormalChanges(n: Node)
    ensures Normal(n) == n <==> n.tag != "!"
  {
  }

  lemma NormalTagIsNot(n: Node)
    ensures Normal(n).tag != "!"
  {
  }

  lemma SameNodeIff(n: Node, order: seq<nat>)
    requires AllIn(Children(n), order)
    ensures LoadedNode(n, order) == Rename(n, order) <==> n.tag != "!"
  {
    hide Rename;
    ChildrenOfNormal(n);
    NormalChanges(n);
    RenameKeepsTag(n, order);
    RenameKeepsTag(Normal(n), order);
    NormalTagIsNot(n);
  }

  /** The nodes are those of the order, renumbered and otherwise unchanged. */
  ghost predicate SameGraph(doc: seq<Node>, order: seq<nat>, nodes: seq<Node>) {
    && |nodes| == |order|
    && forall k | 0 <= k < |order| ::
         1 <= order[k] <= |doc| && AllIn(Children(doc[order[k] - 1]), order)
         && nodes[k] == Rename(doc[order[k] - 1], order)
  }

  ghost predicate OrderPlain(doc: seq<Node>, order: seq<nat>)
    requires InRange(doc, order)
  {
    forall k | 0 <= k < |order| :: doc[order[k] - 1].tag != "!"
  }

  /** No node below the root carries the non-specific tag "!". */
  ghost predicate ReachablePlain(doc: seq<Node>) {
    forall i | 1 <= i <= |doc| && Reaches(doc, 1, i) :: doc[i - 1].tag != "!"
  }

  lemma TagsDecide(doc: seq<Node>, order: seq<nat>, nodes: seq<Node>)
    requires |nodes| == |order| && InRange(doc, order)
    requires forall k | 0 <= k < |order| ::
      AllIn(Children(doc[order[k] - 1]), order) && nodes[k] == LoadedNode(doc[order[k] - 1], order)
    ensures SameGraph(doc, order, nodes) <==> OrderPlain(doc, order)
  {
    hide Rename, LoadedNode, Children;
    forall k | 0 <= k < |order|
      ensures nodes[k] == Rename(doc[order[k] - 1], order) <==> doc[order[k] - 1].tag != "!"
    {
      SameNodeIff(doc[order[k] - 1], order);
    }
  }

  lemma PlainIff(doc: seq<Node>)
    requires WellFormed(doc) && doc != [] && InRange(doc, Visit(doc, 1, []))
    ensures OrderPlain(doc, Visit(doc, 1, [])) <==> ReachablePlain(doc)
  {
    hide Visit, Reaches;
    var order := Visit(doc, 1, []);
    if ReachablePlain(doc) {
      forall k | 0 <= k < |order| ensures doc[order[k] - 1].tag != "!" {
        DumpedIffReachable(doc, order[k]);
      }
    }
    if OrderPlain(doc, order) {
      forall i | 1 <= i <= |doc| && Reaches(doc, 1, i) ensures doc[i - 1].tag != "!" {
        DumpedIffReachable(doc, i);
      }
    }
  }

  /** The loaded graph is the renumbered original exactly when no reachable node is tagged "!". */
  lemma RoundTripExactIff(doc: seq<Node>)
    requires WellFormed(doc) && Fits(doc) && doc != []
    ensures LoadDocument(DumpedEvents(doc)).Loaded?
    ensures SameGraph(doc, Visit(doc, 1, []), LoadDocument(DumpedEvents(doc)).s.nodes) <==> ReachablePlain(doc)
  {
    hide Visit, LoadDocument, LoadedNode, Children, Distinct, DumpedEvents, SameGraph, OrderPlain, ReachablePlain;
    RoundTrip(doc);
    TagsDecide(doc, Visit(doc, 1, []), LoadDocument(DumpedEvents(doc)).s.nodes);
    PlainIff(doc);
  }

  /** A single scalar tagged "!" comes back with the default tag of scalars. */
  lemma OneTagLost(value: string, style: nat)
    ensures var doc := [Scalar("!", value, style)];
            && WellFormed(doc) && Fits(doc) && LoadDocument(DumpedEvents(doc)).Loaded?
            && LoadDocument(DumpedEvents(doc)).s.nodes == [Scalar(DEFAULT_SCALAR_TAG, value, style)]
            && LoadDocument(DumpedEvents(doc)).s.nodes != doc
  {
    hide Visit, LoadDocument, DumpedEvents, LoadedNode;
    var doc := [Scalar("!", value, style)];
    RoundTrip(doc);
    OneVisited(doc);
    OneLoaded(value, style);
  }

  lemma OneVisited(doc: seq<Node>)
    requires WellFormed(doc) && |doc| == 1 && doc[0].Scalar?
    ensures Visit(doc, 1, []) == [1]
  {
  }

  lemma OneLoaded(value: string, style: nat)
    ensures LoadedNode(Scalar("!", value, style), [1]) == Scalar(DEFAULT_SCALAR_TAG, value, style)
  {
  }
}
