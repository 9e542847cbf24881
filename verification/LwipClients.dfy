/** Clients of the heap object: they allocate, free and trim, and store data in what they hold. */
module LwipClients {
  import opened Basics
  import opened LwipBlocks
  import opened LwipRuns
  import H = LwipHeap

  datatype Call = Do(op: Op) | Store(p: int, data: seq<nat>)

  /** For each address held, also what its client has stored there. */
  datatype World = World(s: State, text: map<int, seq<nat>>)

  predicate Proper(w: World, call: Call, c: Config) {
    match call
    case Do(op) => Obeys(w.s, op, c)
    case Store(p, data) => p in w.s.held && |data| <= w.s.held[p]
  }

  function Cut(text: seq<nat>, n: nat): seq<nat> {
    if n < |text| then text[..n] else text
  }

  function Over(text: seq<nat>, data: seq<nat>): seq<nat> {
    if |data| < |text| then data + text[|data|..] else data
  }

  /** What is stored stays with its address, cut to what is held of it. */
  function Kept(text: map<int, seq<nat>>, held: map<int, nat>): map<int, seq<nat>> {
    map p | p in held :: if p in text then Cut(text[p], held[p]) else []
  }

  ghost function After(w: World, call: Call, c: Config): World {
    match call
    case Do(op) => var s := Step(w.s, op, c); World(s, Kept(w.text, s.held))
    case Store(p, data) => if p in w.text then w.(text := w.text[p := Over(w.text[p], data)]) else w
  }

  ghost predicate Behaves(w: World, calls: seq<Call>, c: Config)
    decreases |calls|
  {
    calls == [] || (Proper(w, calls[0], c) && Behaves(After(w, calls[0], c), calls[1..], c))
  }

  ghost function RunAll(w: World, calls: seq<Call>, c: Config): World
    decreases |calls|
  {
    if calls == [] then w else RunAll(After(w, calls[0], c), calls[1..], c)
  }

  ghost predicate HeldAt(ram: seq<nat>, p: int, text: seq<nat>) {
    0 <= p && p + |text| <= |ram| && ram[p..p + |text|] == text
  }

  /** The memory still holds what the clients have stored. */
  ghost predicate Holds(w: World, ram: seq<nat>) {
    && w.text.Keys == w.s.held.Keys
    && forall p :: p in w.text ==> |w.text[p]| <= w.s.held[p] && HeldAt(ram, p, w.text[p])
  }

  lemma HeldInside(s: State, p: int, size: nat, c: Config)
    requires Agrees(s, c) && p in s.held && size == c.size + 2 * c.Head()
    ensures 0 <= p && p + s.held[p] <= size
  {
    hide Live, Heaped;
    LiveDisjoint(s.blocks, c.size, c.Head());
    assert HasRegion(s.blocks, p, s.held[p], c);
  }

  /** One address that is held before and after an operation. */
  lemma TextStays(s: State, t: State, was: seq<nat>, now: seq<nat>, p: int, text: seq<nat>, c: Config)
    requires Agrees(s, c) && Agrees(t, c) && H.OnlyHeaders(was, now, s.blocks, t.blocks, c.Head())
    requires p in s.held && p in t.held && |text| <= s.held[p] && HeldAt(was, p, text)
    ensures HeldAt(now, p, Cut(text, t.held[p]))
  {
    hide Live, Heaped, H.OnlyHeaders;
    assert HasRegion(s.blocks, p, s.held[p], c) && HasRegion(t.blocks, p, t.held[p], c);
    var x :| x in Live(s.blocks, c.Head()) && x.start == p && s.held[p] <= x.end - x.start;
    var y :| y in Live(t.blocks, c.Head()) && y.start == p && t.held[p] <= y.end - y.start;
    H.ContentsStay(was, now, s.blocks, t.blocks, x, y, c.size, c.Head());
    OnlyHeadersSize(was, now, s.blocks, t.blocks, c.Head());
    var short := Cut(text, t.held[p]);
    assert was[p..p + |short|] == was[p..p + |text|][..|short|];
    SameText(was, now, p, short);
  }

  lemma SameText(was: seq<nat>, now: seq<nat>, p: int, text: seq<nat>)
    requires HeldAt(was, p, text) && |was| == |now|
    requires forall a :: 0 <= a < |was| && p <= a < p + |text| ==> now[a] == was[a]
    ensures HeldAt(now, p, text)
  {
    assert now[p..p + |text|] == was[p..p + |text|];
  }

  lemma OnlyHeadersSize(was: seq<nat>, now: seq<nat>, b: seq<Block>, d: seq<Block>, h: nat)
    requires H.OnlyHeaders(was, now, b, d, h)
    ensures |was| == |now|
  {
  }

  /** No operation on the heap changes what anybody has stored. */
  lemma HoldsAfter(w: World, op: Op, was: seq<nat>, now: seq<nat>, c: Config)
    requires Agrees(w.s, c) && Agrees(Step(w.s, op, c), c) && |now| == c.size + 2 * c.Head()
    requires Holds(w, was) && H.OnlyHeaders(was, now, w.s.blocks, Step(w.s, op, c).blocks, c.Head())
    ensures Holds(After(w, Do(op), c), now)
  {
    hide Step, Agrees, H.OnlyHeaders, HeldAt, Cut;
    var t := Step(w.s, op, c);
    forall p | p in t.held
      ensures |Kept(w.text, t.held)[p]| <= t.held[p] && HeldAt(now, p, Kept(w.text, t.held)[p])
    {
      HeldInside(t, p, |now|, c);
      if p in w.text {
        TextStays(w.s, t, was, now, p, w.text[p], c);
        CutShort(w.text[p], t.held[p]);
      } else {
        NothingHeld(now, p);
      }
    }
  }

  lemma CutShort(text: seq<nat>, n: nat)
    ensures |Cut(text, n)| <= n
  {
  }

  lemma NothingHeld(ram: seq<nat>, p: int)
    requires 0 <= p <= |ram|
    ensures HeldAt(ram, p, [])
  {
  }

  /** A client that stores data in its region disturbs nobody else. */
  lemma HoldsStored(w: World, p: int, data: seq<nat>, was: seq<nat>, now: seq<nat>, c: Config)
    requires Agrees(w.s, c) && Holds(w, was) && p in w.s.held && |data| <= w.s.held[p] && |was| == |now|
    requires HeldAt(now, p, data)
    requires forall a :: 0 <= a < |now| && !(p <= a < p + |data|) ==> now[a] == was[a]
    ensures Holds(After(w, Store(p, data), c), now)
  {
    hide Agrees, Safe, HeldAt, Over;
    AgreesIsSafe(w.s, c);
    forall q | q in w.text && q != p
      ensures HeldAt(now, q, w.text[q])
    {
      HeldApart(w.s, p, q, c);
      SameText(was, now, q, w.text[q]);
    }
    OverStored(was, now, p, w.text[p], data);
  }

  lemma HeldApart(s: State, p: int, q: int, c: Config)
    requires Safe(s, c) && p in s.held && q in s.held && p != q
    ensures p + s.held[p] <= q || q + s.held[q] <= p
  {
  }

  lemma OverStored(was: seq<nat>, now: seq<nat>, p: int, text: seq<nat>, data: seq<nat>)
    requires HeldAt(was, p, text) && HeldAt(now, p, data) && |was| == |now|
    requires forall a :: 0 <= a < |now| && !(p <= a < p + |data|) ==> now[a] == was[a]
    ensures HeldAt(now, p, Over(text, data)) && |Over(text, data)| == if |data| < |text| then |text| else |data|
  {
    if |data| < |text| {
      var m, d := p + |text|, p + |data|;
      assert now[d..m] == was[d..m] == was[p..m][|data|..];
      assert now[p..m] == now[p..d] + now[d..m];
    }
  }

  /**
   * Any run of calls on the heap object. Clients that free, trim and write only what they hold are safe
   * from each other, and find in memory what they have stored, whatever the others do in between.
   */
  method Execute(c: Config, calls: seq<Call>) returns (heap: H.Heap, ghost w: World)
    requires c.Legal() && Behaves(World(Fresh(c), map[]), calls, c)
    ensures fresh(heap) && heap.Valid() && heap.config == c
    ensures w == RunAll(World(Fresh(c), map[]), calls, c) && heap.blocks == w.s.blocks
    ensures Safe(w.s, c) && Holds(w, heap.ram[..])
  {
    hide Step, Agrees, Safe, After, Holds, H.OnlyHeaders;
    heap := new H.Heap(c);
    w := World(Fresh(c), map[]);
    FreshAgrees(c);
    NothingStored(c, heap.ram[..]);
    var i := 0;
    while i < |calls|
      invariant i <= |calls| && fresh(heap) && fresh(heap.ram) && heap.Valid() && heap.config == c
      invariant Agrees(w.s, c) && heap.blocks == w.s.blocks && Holds(w, heap.ram[..])
      invariant Behaves(w, calls[i..], c) && RunAll(w, calls[i..], c) == RunAll(World(Fresh(c), map[]), calls, c)
    {
      assert calls[i..][0] == calls[i] && calls[i..][1..] == calls[i + 1..];
      Perform(heap, calls[i], w, c);
      w := After(w, calls[i], c);
      i := i + 1;
    }
    AgreesIsSafe(w.s, c);
  }

  lemma NothingStored(c: Config, ram: seq<nat>)
    ensures Holds(World(Fresh(c), map[]), ram)
  {
  }

  /** One call. */
  method Perform(heap: H.Heap, call: Call, ghost w: World, c: Config)
    requires heap.Valid() && heap.config == c && Agrees(w.s, c) && heap.blocks == w.s.blocks && Holds(w, heap.ram[..])
    requires Proper(w, call, c)
    modifies heap, heap.ram
    ensures heap.Valid() && Agrees(After(w, call, c).s, c)
    ensures heap.blocks == After(w, call, c).s.blocks && Holds(After(w, call, c), heap.ram[..])
  {
    hide Agrees, Holds, H.OnlyHeaders, Owned, H.Heap.InUse;
    ghost var was := heap.ram[..];
    match call
    case Store(p, data) => Write(heap, p, data, w, c);
    case Do(op) =>
      AgreesHeap(w.s, c);
      StepAgrees(w.s, op, c);
      match op {
        case Malloc(n) =>
          var r := heap.Malloc(n);
        case Free(p) =>
          HeldIsOwned(w.s, p, c);
          heap.Free(Some(p));
        case Trim(p, n) =>
          HeldIsOwned(w.s, p, c);
          var r := heap.Trim(p, n);
      }
      HoldsAfter(w, op, was, heap.ram[..], c);
  }

  method Write(heap: H.Heap, p: int, data: seq<nat>, ghost w: World, c: Config)
    requires heap.Valid() && heap.config == c && Agrees(w.s, c) && heap.blocks == w.s.blocks && Holds(w, heap.ram[..])
    requires Proper(w, Store(p, data), c)
    modifies heap.ram
    ensures heap.Valid() && After(w, Store(p, data), c).s == w.s && Holds(After(w, Store(p, data), c), heap.ram[..])
  {
    hide Agrees, Holds;
    ghost var was := heap.ram[..];
    ghost var k := RegionOf(w.s, p, c);
    heap.Store(p, data, k);
    HoldsStored(w, p, data, was, heap.ram[..], c);
  }

  lemma RegionOf(s: State, p: int, c: Config) returns (k: nat)
    requires Agrees(s, c) && p in s.held
    ensures k + 1 < |s.blocks| && s.blocks[k].used && p == Data(s.blocks, k, c.Head()).start >= 0
    ensures p + s.held[p] <= Data(s.blocks, k, c.Head()).end
  {
    hide Heap;
    assert HasRegion(s.blocks, p, s.held[p], c);
    var r :| r in Live(s.blocks, c.Head()) && r.start == p && s.held[p] <= r.end - r.start;
    k :| 0 <= k < |s.blocks| - 1 && s.blocks[k].used && Data(s.blocks, k, c.Head()) == r;
  }
}
