/** Whole runs of allocations, frees and trims by clients that return only what they were given. */
module LwipRuns {
  import opened LwipBlocks

  datatype Op = Malloc(n: nat) | Free(p: int) | Trim(p: int, n: nat)

  /** The blocks, and for each address a client still holds the number of bytes it asked for. */
  datatype State = State(blocks: seq<Block>, held: map<int, nat>)

  ghost predicate HasRegion(b: seq<Block>, p: int, n: nat, c: Config) {
    exists r :: r in Live(b, c.Head()) && r.start == p && n <= r.end - r.start
  }

  /** The live regions are exactly the addresses held, each at least as long as asked for. */
  ghost predicate Agrees(s: State, c: Config) {
    && Heap(s.blocks, c)
    && (forall r :: r in Live(s.blocks, c.Head()) ==> r.start in s.held && s.held[r.start] <= r.end - r.start)
    && (forall p :: p in s.held ==> HasRegion(s.blocks, p, s.held[p], c))
  }

  predicate Obeys(s: State, op: Op, c: Config) {
    match op
    case Malloc(n) => n < c.Limit()
    case Free(p) => p in s.held
    case Trim(p, n) => p in s.held && n < c.Limit()
  }

  /** A call that mem.c can make sense of. */
  ghost predicate Known(s: State, op: Op, c: Config) {
    Heap(s.blocks, c) && (op.Malloc? || Owned(s.blocks, op.p, c))
  }

  ghost function Step(s: State, op: Op, c: Config): State {
    if !Known(s, op, c) then s else
    match op
    case Malloc(n) =>
      var (r, b) := MallocOn(s.blocks, n, c);
      State(b, if r.Some? then s.held[r.value := n] else s.held)
    case Free(p) => State(FreeOn(s.blocks, p, c), s.held - {p})
    case Trim(p, n) =>
      var (r, b) := TrimOn(s.blocks, p, n, c);
      State(b, if r.Some? then s.held[p := n] else s.held)
  }

  lemma HeldIsOwned(s: State, p: int, c: Config)
    requires Agrees(s, c) && p in s.held
    ensures Owned(s.blocks, p, c)
  {
    hide Heap, Live, Owned;
    assert HasRegion(s.blocks, p, s.held[p], c);
    OwnedIsLive(s.blocks, p, c);
  }

  /** One more region r, apart from the others, and one more address held. */
  lemma AgreesAfterAdding(s: State, b: seq<Block>, r: Region, n: nat, c: Config)
    requires Agrees(s, c) && Heap(b, c)
    requires Live(b, c.Head()) == Live(s.blocks, c.Head()) + {r} && n <= r.end - r.start
    requires forall x :: x in Live(s.blocks, c.Head()) ==> x.start != r.start
    ensures Agrees(State(b, s.held[r.start := n]), c)
  {
    hide Heap, Live;
    var held := s.held[r.start := n];
    forall p | p in held
      ensures HasRegion(b, p, held[p], c)
    {
      if p == r.start {
        assert r in Live(b, c.Head());
      } else {
        assert HasRegion(s.blocks, p, s.held[p], c);
        var x :| x in Live(s.blocks, c.Head()) && x.start == p && s.held[p] <= x.end - x.start;
        assert x in Live(b, c.Head());
      }
    }
  }

  /** The region x is gone, and its address is not held any more. */
  lemma AgreesAfterRemoving(s: State, b: seq<Block>, x: Region, c: Config)
    requires Agrees(s, c) && Heap(b, c) && Live(b, c.Head()) == Live(s.blocks, c.Head()) - {x}
    requires forall y :: y in Live(s.blocks, c.Head()) && y.start == x.start ==> y == x
    ensures Agrees(State(b, s.held - {x.start}), c)
  {
    hide Heap, Live;
    var held := s.held - {x.start};
    forall p | p in held
      ensures HasRegion(b, p, held[p], c)
    {
      assert HasRegion(s.blocks, p, s.held[p], c);
      var y :| y in Live(s.blocks, c.Head()) && y.start == p && s.held[p] <= y.end - y.start;
      assert y in Live(b, c.Head());
    }
  }

  lemma MallocAgrees(s: State, n: nat, c: Config)
    requires Agrees(s, c) && Heap(s.blocks, c) && n < c.Limit()
    ensures Agrees(Step(s, Malloc(n), c), c)
  {
    hide Live, Tiles, NoTwoFree, Allocated, FirstFit, Fits, Agrees;
    var b, h, m := s.blocks, c.Head(), Rounded(n, c.Limit());
    LastUsed(b, c.size, h);
    if n > 0 && !Rejected(n, c.Limit(), c.size) {
      RoundingGuard(n, c.Limit(), c.size);
      var k := FirstFit(b, m, h, 0);
      if k < |b| - 1 {
        AllocatedHeaped(b, k, m, c.size, h);
        var r := AllocatedLive(b, k, m, c.size, h);
        AgreesAfterAdding(s, Allocated(b, k, m, h), r, n, c);
      }
    }
  }

  lemma FreeAgrees(s: State, p: int, c: Config)
    requires Agrees(s, c) && Heap(s.blocks, c) && Owned(s.blocks, p, c)
    ensures Agrees(Step(s, Free(p), c), c)
  {
    hide Live, Tiles, NoTwoFree, Freed, Agrees, Owned;
    var b, h := s.blocks, c.Head();
    var k := IndexOf(b, p, c);
    FreedHeaped(b, k, c.size, h);
    FreedLive(b, k, c.size, h);
    LiveStarts(b, k, c.size, h);
    AgreesAfterRemoving(s, Freed(b, k), Data(b, k, h), c);
  }

  lemma TrimAgrees(s: State, p: int, n: nat, c: Config)
    requires Agrees(s, c) && Heap(s.blocks, c) && Owned(s.blocks, p, c) && n < c.Limit()
    ensures Agrees(Step(s, Trim(p, n), c), c)
  {
    hide Live, Tiles, NoTwoFree, Trimmed, Agrees, Owned;
    var b, h, m := s.blocks, c.Head(), Rounded(n, c.Limit());
    var k := IndexOf(b, p, c);
    if !Rejected(n, c.Limit(), c.size) && m <= Room(b, k, h) {
      RoundingGuard(n, c.Limit(), c.size);
      TrimmedHeaped(b, k, m, c.size, h);
      var r := TrimmedLive(b, k, m, c.size, h);
      LiveStarts(b, k, c.size, h);
      AgreesAfterReplacing(s, Trimmed(b, k, m, h), Data(b, k, h), r, n, c);
    }
  }

  /** The region x became r, which starts where x did. */
  lemma AgreesAfterReplacing(s: State, b: seq<Block>, x: Region, r: Region, n: nat, c: Config)
    requires Agrees(s, c) && Heap(b, c) && Live(b, c.Head()) == Live(s.blocks, c.Head()) - {x} + {r}
    requires r.start == x.start && n <= r.end - r.start
    requires forall y :: y in Live(s.blocks, c.Head()) && y.start == x.start ==> y == x
    ensures Agrees(State(b, s.held[r.start := n]), c)
  {
    hide Heap, Live;
    var held := s.held[r.start := n];
    forall p | p in held
      ensures HasRegion(b, p, held[p], c)
    {
      if p == r.start {
        assert r in Live(b, c.Head());
      } else {
        assert HasRegion(s.blocks, p, s.held[p], c);
        var y :| y in Live(s.blocks, c.Head()) && y.start == p && s.held[p] <= y.end - y.start;
        assert y in Live(b, c.Head());
      }
    }
  }

  /** Every operation of an obedient client keeps heap and client in agreement. */
  lemma StepAgrees(s: State, op: Op, c: Config)
    requires Agrees(s, c) && Obeys(s, op, c)
    ensures Known(s, op, c) && Agrees(Step(s, op, c), c)
  {
    hide Agrees, Step, Owned;
    assert Heap(s.blocks, c) by { AgreesHeap(s, c); }
    match op
    case Malloc(n) => MallocAgrees(s, n, c);
    case Free(p) =>
      HeldIsOwned(s, p, c);
      FreeAgrees(s, p, c);
    case Trim(p, n) =>
      HeldIsOwned(s, p, c);
      TrimAgrees(s, p, n, c);
  }

  lemma AgreesHeap(s: State, c: Config)
    requires Agrees(s, c)
    ensures Heap(s.blocks, c)
  {
  }

  function Fresh(c: Config): State {
    State([Block(0, false), Block(c.size, true)], map[])
  }

  /** ops is a run from s in which the clients only free and trim what they hold. */
  ghost predicate Obedient(s: State, ops: seq<Op>, c: Config)
    decreases |ops|
  {
    ops == [] || (Obeys(s, ops[0], c) && Obedient(Step(s, ops[0], c), ops[1..], c))
  }

  ghost function Run(s: State, ops: seq<Op>, c: Config): State
    requires Obedient(s, ops, c)
    decreases |ops|
  {
    if ops == [] then s else Run(Step(s, ops[0], c), ops[1..], c)
  }

  lemma {:induction false} RunAgrees(s: State, ops: seq<Op>, c: Config)
    requires Agrees(s, c) && Obedient(s, ops, c)
    ensures Agrees(Run(s, ops, c), c)
    decreases |ops|
  {
    hide Agrees, Step, Known;
    if ops != [] {
      StepAgrees(s, ops[0], c);
      RunAgrees(Step(s, ops[0], c), ops[1..], c);
    }
  }

  lemma FreshAgrees(c: Config)
    requires c.Legal()
    ensures Agrees(Fresh(c), c)
  {
    var b := Fresh(c).blocks;
    assert Live(b, c.Head()) == {};
  }

  /**
   * Every address held starts an aligned region with the bytes asked for, no two of these overlap, and
   * if nothing is held the heap is as it was at first.
   */
  ghost predicate Safe(s: State, c: Config) {
    && (forall p :: p in s.held ==> HasRegion(s.blocks, p, s.held[p], c) && p % MEM_ALIGNMENT == 0)
    && (forall p, q :: p in s.held && q in s.held && p < q ==> p + s.held[p] <= q)
    && (s.held == map[] ==> s == Fresh(c))
  }

  lemma AgreesIsSafe(s: State, c: Config)
    requires Agrees(s, c)
    ensures Safe(s, c)
  {
    hide Live, Heaped;
    LiveDisjoint(s.blocks, c.size, c.Head());
    forall p | p in s.held
      ensures HasRegion(s.blocks, p, s.held[p], c) && p % MEM_ALIGNMENT == 0
    {
      assert HasRegion(s.blocks, p, s.held[p], c);
    }
    forall p, q | p in s.held && q in s.held && p < q
      ensures p + s.held[p] <= q
    {
      assert HasRegion(s.blocks, p, s.held[p], c) && HasRegion(s.blocks, q, s.held[q], c);
      var x :| x in Live(s.blocks, c.Head()) && x.start == p && s.held[p] <= x.end - x.start;
      var y :| y in Live(s.blocks, c.Head()) && y.start == q && s.held[q] <= y.end - y.start;
      assert Apart(x, y);
    }
    if s.held == map[] {
      assert Live(s.blocks, c.Head()) == {};
      NothingLive(s.blocks, c.size, c.Head());
    }
  }

  /** After any run from mem_init the clients are safe from each other. */
  lemma RunIsSafe(ops: seq<Op>, c: Config)
    requires c.Legal() && Obedient(Fresh(c), ops, c)
    ensures Safe(Run(Fresh(c), ops, c), c)
  {
    hide Step, Obedient, Run, Agrees, Safe;
    FreshAgrees(c);
    RunAgrees(Fresh(c), ops, c);
    AgreesIsSafe(Run(Fresh(c), ops, c), c);
  }

  /** A request fails exactly when it is empty, too large for the arena, or larger than every free block. */
  lemma MallocFails(b: seq<Block>, n: nat, c: Config)
    requires Heap(b, c) && n < c.Limit()
    ensures MallocOn(b, n, c).0.None? <==>
            (|| n == 0 || AlignSize(n) > c.size
             || forall k :: 0 <= k < |b| - 1 && !b[k].used ==> Room(b, k, c.Head()) < Rounded(n, c.Limit()))
  {
    hide Tiles, NoTwoFree, Allocated, FirstFit;
    LastUsed(b, c.size, c.Head());
    RoundingGuard(n, c.Limit(), c.size);
    var m := Rounded(n, c.Limit());
    var k := FirstFit(b, m, c.Head(), 0);
    forall i | 0 <= i < |b| - 1 && !b[i].used && k == |b| - 1
      ensures Room(b, i, c.Head()) < m
    {
      assert !Fits(b, i, m, c.Head());
    }
  }
}
