/** What the heap's operations do, in numbers, and what becomes of stored data over whole runs. */
module LwipResults {
  import opened Basics
  import opened LwipBlocks
  import opened LwipRuns
  import opened LwipClients
  import H = LwipHeap

  // ----- sizes

  /** A header is two offsets and a flag, rounded up to 8 bytes; sizes are 16 or 32 bits wide. */
  lemma ConfigIs(c: Config)
    requires c.Legal()
    ensures (c.w == 2 && c.Head() == 8 && c.Limit() == 65536) || (c.w == 4 && c.Head() == 16 && c.Limit() == 4294967296)
    ensures c.size % 8 == 0 && c.Head() + 16 <= c.size && c.size + 2 * c.Head() < c.Limit()
    ensures forall p :: c.Plausible(p) <==> p % 8 == 0 && p >= c.Head() && p + 16 <= c.size
  {
  }

  /** The size searched for: a multiple of 8, not below 16. */
  function Wanted(n: nat): nat {
    if n <= 8 then 16 else (n + 7) / 8 * 8
  }

  lemma WantedIs(n: nat)
    ensures n <= Wanted(n) && Wanted(n) % 8 == 0 && (n <= 16 ==> Wanted(n) == 16) && (n > 8 ==> Wanted(n) < n + 8)
  {
  }

  // ----- what each operation makes of the blocks

  /** Allocation marks the block, and makes a block of the rest if it has room for a header and 16 bytes. */
  lemma AllocatedIs(b: seq<Block>, k: nat, n: nat, h: nat)
    requires k + 1 < |b|
    ensures var at, end := b[k].at, b[k + 1].at;
            Allocated(b, k, n, h) ==
              if end - at - h >= n + h + 16 then b[..k] + [Block(at, true), Block(at + h + n, false)] + b[k + 1..]
              else b[..k] + [Block(at, true)] + b[k + 1..]
  {
    var c := Mark(b, k, true);
    assert c == b[..k] + [Block(b[k].at, true)] + b[k + 1..];
    assert c[..k + 1] == b[..k] + [Block(b[k].at, true)] && c[k + 1..] == b[k + 1..];
  }

  /** A freed block swallows the free block behind it, and is swallowed by the free block in front of it. */
  lemma FreedIs(b: seq<Block>, k: nat)
    requires k + 1 < |b|
    ensures var front := if k > 0 && !b[k - 1].used then b[..k] else b[..k] + [Block(b[k].at, false)];
            var back := if b[k + 1].used then b[k + 1..] else b[k + 2..];
            Freed(b, k) == front + back
  {
    var c := Mark(b, k, false);
    assert c == b[..k] + [Block(b[k].at, false)] + b[k + 1..];
    assert c[..k + 1] + c[k + 2..] == b[..k] + [Block(b[k].at, false)] + b[k + 2..];
    assert k > 0 ==> c[k - 1] == b[k - 1];
    assert c[k + 1] == b[k + 1];
    if k > 0 && !b[k - 1].used {
      var d := if b[k + 1].used then c else Drop(c, k + 1);
      assert d[..k] == b[..k];
      assert d[k + 1..] == if b[k + 1].used then b[k + 1..] else b[k + 2..];
    }
  }

  /** Trimming moves the free block behind, or makes one of the rest if it has room for a header and 16 bytes. */
  lemma TrimmedResult(b: seq<Block>, k: nat, n: nat, h: nat)
    requires k + 1 < |b|
    ensures var at, end := b[k].at, b[k + 1].at;
            Trimmed(b, k, n, h) ==
              if end - at - h <= n then b
              else if !b[k + 1].used then b[..k + 1] + [Block(at + h + n, false)] + b[k + 2..]
              else if end - at - h >= n + h + 16 then b[..k + 1] + [Block(at + h + n, false)] + b[k + 1..]
              else b
  {
    assert b[k + 1 := Block(b[k].at + h + n, false)] == b[..k + 1] + [Block(b[k].at + h + n, false)] + b[k + 2..];
  }

  /** A request that is empty or too large, or for which no free block has room, is refused. */
  lemma MallocRefuses(b: seq<Block>, n: nat, c: Config)
    requires Heap(b, c) && n < c.Limit()
    requires n == 0 || Wanted(n) > c.size || forall k :: 0 <= k < |b| - 1 && !b[k].used ==> b[k + 1].at - b[k].at - c.Head() < Wanted(n)
    ensures MallocOn(b, n, c) == (None, b)
  {
    hide Tiles, NoTwoFree, Allocated, FirstFit;
    LastUsed(b, c.size, c.Head());
    RoundingGuard(n, c.Limit(), c.size);
    var h, s := c.Head(), Wanted(n);
    if n > 0 && s <= c.size {
      assert FirstFit(b, s, h, 0) < |b| - 1 ==> Fits(b, FirstFit(b, s, h, 0), s, h);
    }
  }

  /** Any other request is answered with the lowest free block that has room. */
  lemma MallocTakes(b: seq<Block>, n: nat, k: nat, c: Config)
    requires Heap(b, c) && 0 < n < c.Limit() && Wanted(n) <= c.size
    requires k + 1 < |b| && !b[k].used && b[k + 1].at - b[k].at - c.Head() >= Wanted(n)
    requires forall i :: 0 <= i < k && !b[i].used ==> b[i + 1].at - b[i].at - c.Head() < Wanted(n)
    ensures MallocOn(b, n, c) == (Some(b[k].at + c.Head()), Allocated(b, k, Wanted(n), c.Head()))
  {
    hide Tiles, NoTwoFree, Allocated, FirstFit;
    LastUsed(b, c.size, c.Head());
    RoundingGuard(n, c.Limit(), c.size);
    var h, s := c.Head(), Wanted(n);
    var f := FirstFit(b, s, h, 0);
    assert Fits(b, k, s, h);
    assert f < |b| - 1 ==> Fits(b, f, s, h);
  }

  /** Freeing and trimming work on the block whose data start at the address. */
  lemma FreeAndTrimIs(b: seq<Block>, k: nat, n: nat, c: Config)
    requires Heap(b, c) && k + 1 < |b| && b[k].used && n < c.Limit()
    ensures var h, s, p := c.Head(), Wanted(n), b[k].at + c.Head();
            && Owned(b, p, c) && FreeOn(b, p, c) == Freed(b, k)
            && TrimOn(b, p, n, c) == if s > c.size || s > b[k + 1].at - b[k].at - h then (None, b) else (Some(p), Trimmed(b, k, s, h))
  {
    hide Tiles, NoTwoFree, Trimmed, Freed;
    var p := b[k].at + c.Head();
    assert HeadAt(b, p - c.Head(), k);
    IndexUnique(b, p, k, c);
    RoundingGuard(n, c.Limit(), c.size);
  }

  /** Who holds what: a successful request adds its address, freeing removes it, a successful trim sets the new size. */
  lemma HeldIs(s: State, n: nat, p: int, c: Config)
    requires Heap(s.blocks, c)
    ensures var r := MallocOn(s.blocks, n, c);
            Step(s, Malloc(n), c) == State(r.1, match r.0 { case None => s.held case Some(a) => s.held[a := n] })
    ensures Owned(s.blocks, p, c) ==> Step(s, Free(p), c) == State(FreeOn(s.blocks, p, c), s.held - {p})
    ensures Owned(s.blocks, p, c) ==>
              var r := TrimOn(s.blocks, p, n, c);
              Step(s, Trim(p, n), c) == State(r.1, match r.0 { case None => s.held case Some(_) => s.held[p := n] })
  {
    hide MallocOn, FreeOn, TrimOn, Owned, Heap;
  }

  // ----- stored data over a run

  /** The call does not store at p, free it or trim it. */
  predicate LeavesAlone(call: Call, p: int) {
    match call
    case Store(q, _) => q != p
    case Do(Malloc(_)) => true
    case Do(Free(q)) => q != p
    case Do(Trim(q, _)) => q != p
  }

  /** Storing replaces the front of what was stored; trimming cuts it; anything else leaves it. */
  lemma TextAfter(w: World, call: Call, p: int, c: Config)
    requires Agrees(w.s, c) && w.text.Keys == w.s.held.Keys && p in w.text && |w.text[p]| <= w.s.held[p] && Proper(w, call, c)
    ensures var text, v := w.text[p], After(w, call, c);
            && (LeavesAlone(call, p) ==> p in v.text && v.text[p] == text && p in v.s.held && v.s.held[p] == w.s.held[p])
            && (call.Store? && call.p == p ==>
                  p in v.text && v.s == w.s && v.text[p] == if |call.data| < |text| then call.data + text[|call.data|..] else call.data)
            && (call == Do(Free(p)) ==> p !in v.text && p !in v.s.held)
            && (call.Do? && call.op.Trim? && call.op.p == p ==>
                  p in v.text && p in v.s.held && v.text[p] == if |text| > v.s.held[p] then text[..v.s.held[p]] else text)
    ensures After(w, call, c).text.Keys == After(w, call, c).s.held.Keys
    ensures p in After(w, call, c).text ==> |After(w, call, c).text[p]| <= After(w, call, c).s.held[p]
  {
    hide Agrees, MallocOn, FreeOn, TrimOn, Owned, Heap;
    if call.Do? && call.op.Malloc? {
      NewAddress(w.s, call.op.n, c);
    }
    if call.Do? {
      StepAgrees(w.s, call.op, c);
    }
  }

  /** A new address is held by nobody. */
  lemma NewAddress(s: State, n: nat, c: Config)
    requires Agrees(s, c) && n < c.Limit()
    ensures var r := MallocOn(s.blocks, n, c); r.0.Some? ==> r.0.value !in s.held
  {
    hide Live, Tiles, NoTwoFree, Allocated, FirstFit, Fits;
    var b, h, m := s.blocks, c.Head(), Rounded(n, c.Limit());
    LastUsed(b, c.size, h);
    if n > 0 && !Rejected(n, c.Limit(), c.size) {
      var k := FirstFit(b, m, h, 0);
      if k < |b| - 1 {
        var r := AllocatedLive(b, k, m, c.size, h);
        assert r.start in s.held ==> HasRegion(b, r.start, s.held[r.start], c);
      }
    }
  }

  /** Whatever the others do in any run, data that is stored stays until its own client stores there, trims or frees. */
  lemma {:induction false} DataStays(w: World, calls: seq<Call>, p: int, c: Config)
    requires Agrees(w.s, c) && w.text.Keys == w.s.held.Keys && p in w.text && |w.text[p]| <= w.s.held[p]
    requires Behaves(w, calls, c) && forall i :: 0 <= i < |calls| ==> LeavesAlone(calls[i], p)
    ensures var v := RunAll(w, calls, c); p in v.text && v.text[p] == w.text[p] && p in v.s.held && v.s.held[p] == w.s.held[p]
    decreases |calls|
  {
    hide Agrees, After, Proper;
    if calls != [] {
      TextAfter(w, calls[0], p, c);
      AfterAgrees(w, calls[0], c);
      DataStays(After(w, calls[0], c), calls[1..], p, c);
    }
  }

  lemma AfterAgrees(w: World, call: Call, c: Config)
    requires Agrees(w.s, c) && Proper(w, call, c)
    ensures Agrees(After(w, call, c).s, c)
  {
    hide Agrees, Step, Kept, Over;
    if call.Do? {
      StepAgrees(w.s, call.op, c);
    }
  }

  /**
   * A run on the heap object in which p is stored at some point and left alone from then on: at the end the bytes
   * are in memory at p.
   */
  method StoredIsFound(c: Config, before: seq<Call>, p: int, data: seq<nat>, later: seq<Call>) returns (heap: H.Heap)
    requires c.Legal() && Behaves(World(Fresh(c), map[]), before + [Store(p, data)] + later, c)
    requires forall i :: 0 <= i < |later| ==> LeavesAlone(later[i], p)
    ensures fresh(heap) && heap.Valid() && heap.config == c
    ensures 0 <= p && p + |data| <= heap.ram.Length && heap.ram[p..p + |data|] == data
  {
    hide Agrees, After, Proper, Holds, Safe, LeavesAlone;
    var calls := before + [Store(p, data)] + later;
    ghost var w: World;
    heap, w := Execute(c, calls);
    ghost var start := World(Fresh(c), map[]);
    FreshAgrees(c);
    NothingStored(c, []);
    assert before + [Store(p, data)] + later == before + ([Store(p, data)] + later);
    StoreThenKeep(start, before, p, data, later, c);
    HoldsAt(w, heap.ram[..], p);
    assert heap.ram[..][p..p + |w.text[p]|][..|data|] == heap.ram[p..p + |data|];
  }

  /** What a run keeps of the clients' world. */
  ghost predicate Sound(w: World, c: Config) {
    Agrees(w.s, c) && w.text.Keys == w.s.held.Keys && forall p :: p in w.text ==> |w.text[p]| <= w.s.held[p]
  }

  lemma SoundAfter(w: World, call: Call, c: Config)
    requires Sound(w, c) && Proper(w, call, c)
    ensures Sound(After(w, call, c), c)
  {
    hide Agrees, Step;
    AfterAgrees(w, call, c);
    if call.Store? {
      OverLength(w.text[call.p], call.data);
    }
  }

  lemma OverLength(text: seq<nat>, data: seq<nat>)
    ensures |Over(text, data)| == (if |data| < |text| then |text| else |data|) && Over(text, data)[..|data|] == data
  {
  }

  lemma {:induction false} StoreThenKeep(w: World, before: seq<Call>, p: int, data: seq<nat>, later: seq<Call>, c: Config)
    requires Sound(w, c) && Behaves(w, before + ([Store(p, data)] + later), c)
    requires forall i :: 0 <= i < |later| ==> LeavesAlone(later[i], p)
    ensures var v := RunAll(w, before + ([Store(p, data)] + later), c);
            p in v.text && |data| <= |v.text[p]| && v.text[p][..|data|] == data
    decreases |before|
  {
    hide Agrees, Proper, LeavesAlone, Step;
    var calls := before + ([Store(p, data)] + later);
    SoundAfter(w, calls[0], c);
    if before == [] {
      assert calls[1..] == later;
      ProperStore(w, p, data, c);
      OverLength(w.text[p], data);
      DataStays(After(w, calls[0], c), later, p, c);
    } else {
      assert calls[1..] == before[1..] + ([Store(p, data)] + later);
      StoreThenKeep(After(w, calls[0], c), before[1..], p, data, later, c);
    }
  }

  lemma ProperStore(w: World, p: int, data: seq<nat>, c: Config)
    requires Proper(w, Store(p, data), c)
    ensures p in w.s.held && |data| <= w.s.held[p]
  {
  }

  lemma HoldsAt(w: World, ram: seq<nat>, p: int)
    requires Holds(w, ram) && p in w.text
    ensures 0 <= p && p + |w.text[p]| <= |ram| && ram[p..p + |w.text[p]|] == w.text[p]
  {
  }

  /** Safe, in numbers: regions held are aligned, inside the arena and disjoint, and a heap with nothing held is one free block. */
  lemma SafeIs(s: State, c: Config)
    requires Agrees(s, c)
    ensures forall p :: p in s.held ==> p % 8 == 0 && c.Head() <= p && p + s.held[p] <= c.size
    ensures forall p, q :: p in s.held && q in s.held && p < q ==> p + s.held[p] <= q
    ensures s.held == map[] ==> s.blocks == [Block(0, false), Block(c.size, true)]
  {
    hide Live, Heaped;
    AgreesIsSafe(s, c);
    LiveDisjoint(s.blocks, c.size, c.Head());
    forall p | p in s.held
      ensures p % 8 == 0 && c.Head() <= p && p + s.held[p] <= c.size
    {
      assert HasRegion(s.blocks, p, s.held[p], c);
    }
  }
}
