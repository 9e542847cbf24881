/** The first-fit heap of lwIP: headers stored in ram, linked by offsets. */
module LwipHeap {
  import opened Basics
  import opened LwipBlocks

  ghost function NextOf(b: seq<Block>, k: nat): nat
    requires k < |b|
  {
    if k == |b| - 1 then b[k].at else b[k + 1].at
  }

  ghost function PrevOf(b: seq<Block>, k: nat): nat
    requires k < |b|
  {
    if k == |b| - 1 then b[k].at else if k == 0 then 0 else b[k - 1].at
  }

  function Flag(used: bool): nat {
    if used then 1 else 0
  }

  /**
   * ram holds at each field's first byte the value of that field. In the header at p, next is at p,
   * prev at p + w and used at p + 2 * w, where w is the width of mem_size_t.
   */
  ghost predicate Header(ram: seq<nat>, b: seq<Block>, k: nat, w: nat)
    requires k < |b|
  {
    var p := b[k].at;
    && p + 2 * w < |ram|
    && ram[p] == NextOf(b, k) && ram[p + w] == PrevOf(b, k) && ram[p + 2 * w] == Flag(b[k].used)
  }

  ghost predicate Linked(ram: seq<nat>, b: seq<Block>, w: nat) {
    forall k :: 0 <= k < |b| ==> Header(ram, b, k, w)
  }

  /** r differs from ram at most in the fields x0, x1, x2, x3 and in prev of the header at p, unless that is the end. */
  ghost predicate SameBut(ram: seq<nat>, r: seq<nat>, x0: nat, x1: nat, x2: nat, x3: nat, p: nat, size: nat, w: nat) {
    && |r| == |ram|
    && (forall a :: 0 <= a < |ram| && a != x0 && a != x1 && a != x2 && a != x3 && (a != p + w || p == size)
          ==> r[a] == ram[a])
  }

  lemma MarkLinked(ram: seq<nat>, b: seq<Block>, k: nat, used: bool, size: nat, w: nat)
    requires Linked(ram, b, w) && Tiles(b, size, 4 * w) && k + 1 < |b| && w > 0
    requires b[k].at + 2 * w < |ram|
    ensures Linked(ram[b[k].at + 2 * w := Flag(used)], Mark(b, k, used), w)
  {
    hide Tiles;
    var r, c := ram[b[k].at + 2 * w := Flag(used)], Mark(b, k, used);
    forall i | 0 <= i < |c|
      ensures Header(r, c, i, w)
    {
      assert Header(ram, b, i, w);
      Spaced(b, i, k, size, 4 * w);
    }
  }

  lemma InsertLinked(ram: seq<nat>, r: seq<nat>, b: seq<Block>, k: nat, at: nat, size: nat, w: nat)
    requires Linked(ram, b, w) && Tiles(b, size, 4 * w) && k + 1 < |b| && w > 0
    requires b[k].at + 4 * w + MIN_SIZE_ALIGNED <= at && at + 4 * w + MIN_SIZE_ALIGNED <= b[k + 1].at
    requires SameBut(ram, r, at, at + w, at + 2 * w, b[k].at, b[k + 1].at, size, w)
    requires b[k + 1].at + 2 * w < |r|
    requires r[at] == b[k + 1].at && r[at + w] == b[k].at && r[at + 2 * w] == 0 && r[b[k].at] == at
    requires b[k + 1].at != size ==> r[b[k + 1].at + w] == at
    ensures Linked(r, Insert(b, k, at), w)
  {
    hide Insert, Tiles;
    InsertAt(b, k, at);
    var c := Insert(b, k, at);
    forall i | 0 <= i < |c|
      ensures Header(r, c, i, w)
    {
      if i != k + 1 {
        var j := if i <= k then i else i - 1;
        assert Header(ram, b, j, w);
        Spaced(b, j, k, size, 4 * w);
        Spaced(b, j, k + 1, size, 4 * w);
        var p := c[i].at;
        assert r[p + 2 * w] == ram[p + 2 * w];
      }
    }
  }

  lemma ShiftLinked(ram: seq<nat>, r: seq<nat>, b: seq<Block>, k: nat, at: nat, size: nat, w: nat)
    requires Linked(ram, b, w) && Tiles(b, size, 4 * w) && k + 2 < |b| && w > 0
    requires b[k].at + 4 * w + MIN_SIZE_ALIGNED <= at <= b[k + 1].at
    requires SameBut(ram, r, at, at + w, at + 2 * w, b[k].at, b[k + 2].at, size, w)
    requires b[k + 2].at + 2 * w < |r|
    requires r[at] == b[k + 2].at && r[at + w] == b[k].at && r[at + 2 * w] == 0 && r[b[k].at] == at
    requires b[k + 2].at != size ==> r[b[k + 2].at + w] == at
    ensures Linked(r, b[k + 1 := Block(at, false)], w)
  {
    hide Tiles;
    var c := b[k + 1 := Block(at, false)];
    Spaced(b, k + 1, k + 2, size, 4 * w);
    forall i | 0 <= i < |c|
      ensures Header(r, c, i, w)
    {
      if i != k + 1 {
        assert Header(ram, b, i, w);
        Spaced(b, i, k, size, 4 * w);
        Spaced(b, i, k + 1, size, 4 * w);
        Spaced(b, i, k + 2, size, 4 * w);
        var p := c[i].at;
        assert r[p + 2 * w] == ram[p + 2 * w];
      }
    }
  }

  lemma DropLinked(ram: seq<nat>, r: seq<nat>, b: seq<Block>, k: nat, size: nat, w: nat)
    requires Linked(ram, b, w) && Tiles(b, size, 4 * w) && 0 < k < |b| - 1 && w > 0
    requires SameBut(ram, r, b[k - 1].at, b[k - 1].at, b[k - 1].at, b[k - 1].at, b[k + 1].at, size, w)
    requires b[k - 1].at + w < b[k + 1].at + 2 * w < |r|
    requires r[b[k - 1].at] == b[k + 1].at
    requires b[k + 1].at != size ==> r[b[k + 1].at + w] == b[k - 1].at
    ensures Linked(r, Drop(b, k), w)
  {
    hide Drop, Tiles;
    DropAt(b, k);
    var c := Drop(b, k);
    Spaced(b, k - 1, k + 1, size, 4 * w);
    forall i | 0 <= i < |c|
      ensures Header(r, c, i, w)
    {
      var j := if i < k then i else i + 1;
      assert Header(ram, b, j, w);
      Spaced(b, j, k - 1, size, 4 * w);
      Spaced(b, j, k + 1, size, 4 * w);
      var p := c[i].at;
      assert r[p + 2 * w] == ram[p + 2 * w];
    }
  }

  /** Whatever the owner of a live region stores in it, every header stays as it is. */
  lemma OwnerWrites(ram: seq<nat>, r: seq<nat>, b: seq<Block>, k: nat, size: nat, w: nat)
    requires Linked(ram, b, w) && Tiles(b, size, 4 * w) && k + 1 < |b| && w > 0
    requires |r| == |ram|
    requires forall a :: 0 <= a < |ram| && !(Data(b, k, 4 * w).start <= a < Data(b, k, 4 * w).end) ==> r[a] == ram[a]
    ensures Linked(r, b, w)
  {
    hide Tiles;
    forall i | 0 <= i < |b|
      ensures Header(r, b, i, w)
    {
      assert Header(ram, b, i, w);
      Spaced(b, i, k, size, 4 * w);
      Spaced(b, i, k + 1, size, 4 * w);
    }
  }

  lemma HeaderAt(ram: seq<nat>, b: seq<Block>, k: nat, size: nat, w: nat)
    requires Linked(ram, b, w) && Tiles(b, size, 4 * w) && k < |b|
    ensures b[k].at <= size && b[k].at + 2 * w < |ram| && (k < |b| - 1 <==> b[k].at != size)
    ensures k + 1 < |b| ==> ram[b[k].at] == b[k + 1].at && b[k].at + 4 * w + MIN_SIZE_ALIGNED <= b[k + 1].at
    ensures 0 < k < |b| - 1 ==> ram[b[k].at + w] == b[k - 1].at
    ensures k == 0 ==> ram[b[k].at + w] == 0 == b[k].at
    ensures ram[b[k].at + 2 * w] == Flag(b[k].used)
  {
    assert Header(ram, b, k, w);
    if k < |b| - 1 {
      assert b[k].at + 4 * w + MIN_SIZE_ALIGNED <= b[|b| - 1].at;
    }
  }

  // ----- what is written: headers only

  ghost predicate InHeader(b: seq<Block>, a: int, h: nat) {
    exists k :: 0 <= k < |b| && b[k].at <= a < b[k].at + h
  }

  /** From was to now, with blocks b before and c after, at most headers were written. */
  ghost predicate OnlyHeaders(was: seq<nat>, now: seq<nat>, b: seq<Block>, c: seq<Block>, h: nat) {
    && |was| == |now|
    && forall a :: 0 <= a < |was| && was[a] != now[a] ==> InHeader(b, a, h) || InHeader(c, a, h)
  }

  lemma NothingWritten(ram: seq<nat>, b: seq<Block>, c: seq<Block>, h: nat)
    ensures OnlyHeaders(ram, ram, b, c, h)
  {
  }

  lemma HeaderHas(b: seq<Block>, k: nat, a: int, h: nat)
    requires k < |b| && b[k].at <= a < b[k].at + h
    ensures InHeader(b, a, h)
  {
  }

  /** The three fields of block k are in its header. */
  lemma FieldsIn(b: seq<Block>, k: nat, w: nat)
    requires k < |b| && w > 0
    ensures InHeader(b, b[k].at, 4 * w) && InHeader(b, b[k].at + w, 4 * w) && InHeader(b, b[k].at + 2 * w, 4 * w)
  {
    hide InHeader;
    HeaderHas(b, k, b[k].at, 4 * w);
    HeaderHas(b, k, b[k].at + w, 4 * w);
    HeaderHas(b, k, b[k].at + 2 * w, 4 * w);
  }

  lemma MarkWrites(ram: seq<nat>, b: seq<Block>, k: nat, used: bool, v: nat, w: nat)
    requires k < |b| && w > 0 && b[k].at + 2 * w < |ram|
    ensures OnlyHeaders(ram, ram[b[k].at + 2 * w := v], b, Mark(b, k, used), 4 * w)
  {
    hide InHeader;
    FieldsIn(b, k, w);
  }

  lemma DropWrites(ram: seq<nat>, r: seq<nat>, b: seq<Block>, k: nat, size: nat, w: nat)
    requires 0 < k < |b| - 1 && w > 0
    requires SameBut(ram, r, b[k - 1].at, b[k - 1].at, b[k - 1].at, b[k - 1].at, b[k + 1].at, size, w)
    ensures OnlyHeaders(ram, r, b, Drop(b, k), 4 * w)
  {
    hide InHeader;
    FieldsIn(b, k - 1, w);
    FieldsIn(b, k + 1, w);
  }

  lemma InsertWrites(ram: seq<nat>, r: seq<nat>, b: seq<Block>, k: nat, at: nat, size: nat, w: nat)
    requires k + 1 < |b| && w > 0
    requires SameBut(ram, r, at, at + w, at + 2 * w, b[k].at, b[k + 1].at, size, w)
    ensures OnlyHeaders(ram, r, b, Insert(b, k, at), 4 * w)
  {
    hide InHeader;
    InsertAt(b, k, at);
    FieldsIn(b, k, w);
    FieldsIn(b, k + 1, w);
    FieldsIn(Insert(b, k, at), k + 1, w);
  }

  lemma ShiftWrites(ram: seq<nat>, r: seq<nat>, b: seq<Block>, k: nat, at: nat, size: nat, w: nat)
    requires k + 2 < |b| && w > 0
    requires SameBut(ram, r, at, at + w, at + 2 * w, b[k].at, b[k + 2].at, size, w)
    ensures OnlyHeaders(ram, r, b, b[k + 1 := Block(at, false)], 4 * w)
  {
    hide InHeader;
    FieldsIn(b, k, w);
    FieldsIn(b, k + 2, w);
    FieldsIn(b[k + 1 := Block(at, false)], k + 1, w);
  }

  /** Headers in between that were there before, or are there after, do not count. */
  lemma WritesThen(r: seq<nat>, s: seq<nat>, t: seq<nat>, b: seq<Block>, c: seq<Block>, d: seq<Block>, h: nat)
    requires OnlyHeaders(r, s, b, c, h) && OnlyHeaders(s, t, c, d, h)
    requires forall a :: InHeader(c, a, h) ==> InHeader(b, a, h) || InHeader(d, a, h)
    ensures OnlyHeaders(r, t, b, d, h)
  {
    hide InHeader;
    forall a | 0 <= a < |r| && r[a] != t[a]
      ensures InHeader(b, a, h) || InHeader(d, a, h)
    {
      assert r[a] != s[a] || s[a] != t[a];
    }
  }

  lemma MarkHeaders(b: seq<Block>, k: nat, used: bool, h: nat)
    requires k < |b|
    ensures forall a :: InHeader(Mark(b, k, used), a, h) <==> InHeader(b, a, h)
  {
    var c := Mark(b, k, used);
    forall a | InHeader(c, a, h)
      ensures InHeader(b, a, h)
    {
      var i :| 0 <= i < |c| && c[i].at <= a < c[i].at + h;
      assert b[i].at == c[i].at;
    }
    forall a | InHeader(b, a, h)
      ensures InHeader(c, a, h)
    {
      var i :| 0 <= i < |b| && b[i].at <= a < b[i].at + h;
      assert b[i].at == c[i].at;
    }
  }

  lemma DropHeaders(b: seq<Block>, k: nat, h: nat)
    requires k < |b|
    ensures forall a :: InHeader(Drop(b, k), a, h) ==> InHeader(b, a, h)
  {
    hide Drop;
    DropAt(b, k);
    var c := Drop(b, k);
    forall a | InHeader(c, a, h)
      ensures InHeader(b, a, h)
    {
      var i :| 0 <= i < |c| && c[i].at <= a < c[i].at + h;
      HeaderHas(b, if i < k then i else i + 1, a, h);
    }
  }

  lemma InsertHeaders(b: seq<Block>, k: nat, at: nat, h: nat)
    requires k < |b|
    ensures forall a :: InHeader(b, a, h) ==> InHeader(Insert(b, k, at), a, h)
  {
    hide Insert;
    InsertAt(b, k, at);
    var c := Insert(b, k, at);
    forall a | InHeader(b, a, h)
      ensures InHeader(c, a, h)
    {
      var i :| 0 <= i < |b| && b[i].at <= a < b[i].at + h;
      HeaderHas(c, if i <= k then i else i + 1, a, h);
    }
  }

  /** What a region holds stays there while the region is live. */
  lemma ContentsStay(was: seq<nat>, now: seq<nat>, b: seq<Block>, c: seq<Block>, r: Region, s: Region, size: nat, h: nat)
    requires OnlyHeaders(was, now, b, c, h) && Heaped(b, size, h) && Heaped(c, size, h) && h % 8 == 0
    requires r in Live(b, h) && s in Live(c, h) && r.start == s.start
    ensures forall a :: r.start <= a < r.end && a < s.end && a < |was| ==> now[a] == was[a]
  {
    hide Live, Heaped;
    LiveDisjoint(b, size, h);
    LiveDisjoint(c, size, h);
  }

  class Heap {
    const config: Config
    const ram: array<nat>
    /** The offset of the lowest free block. */
    var lfree: int
    ghost var blocks: seq<Block>

    ghost predicate Formed()
      reads this, ram
    {
      && config.Legal() && ram.Length == config.size + 2 * config.Head()
      && Tiles(blocks, config.size, config.Head()) && Linked(ram[..], blocks, config.w)
      && Lowest(blocks, lfree)
    }

    ghost predicate Valid()
      reads this, ram
    {
      Formed() && NoTwoFree(blocks)
    }

    /** What mem_free can see of an address: it may be a block, and the header before it says used. */
    ghost predicate InUse(p: int)
      requires Formed()
      reads this, ram
    {
      config.Plausible(p) && ram[p - config.Head() + 2 * config.w] != 0
    }

    /** mem_init. */
    constructor (config: Config)
      requires config.Legal()
      ensures Valid() && fresh(ram) && this.config == config
      ensures blocks == [Block(0, false), Block(config.size, true)]
    {
      this.config := config;
      ram := new nat[config.size + 2 * config.Head()];
      lfree := 0;
      blocks := [Block(0, false), Block(config.size, true)];
      new;
      ram[0] := config.size;
      ram[config.w] := 0;
      ram[2 * config.w] := 0;
      ram[config.size + 2 * config.w] := 1;
      ram[config.size] := config.size;
      ram[config.size + config.w] := config.size;
      assert Header(ram[..], blocks, 0, config.w);
      assert Header(ram[..], blocks, 1, config.w);
      assert blocks[0].at == 0;
    }

    /** mem_link_valid: true of every block. */
    method LinkValid(mem: nat, ghost k: nat) returns (ok: bool)
      requires Valid() && HeadAt(blocks, mem, k)
      ensures ok
    {
      hide Tiles, Linked, Lowest;
      var size, w := config.size, config.w;
      HeaderAt(ram[..], blocks, k, size, w);
      HeaderAt(ram[..], blocks, k + 1, size, w);
      if k > 0 {
        HeaderAt(ram[..], blocks, k - 1, size, w);
      }
      var next, prev := ram[mem], ram[mem + w];
      if next > size || prev > size {
        ok := false;
      } else if prev != mem && ram[prev] != mem {
        ok := false;
      } else if next != size && ram[next + w] != mem {
        ok := false;
      } else {
        ok := true;
      }
    }

    method PlugForward(mem: nat, ghost k: nat)
      requires Formed() && HeadAt(blocks, mem, k) && !blocks[k].used && FreeAround(blocks, k)
      modifies this`lfree, this`blocks, ram
      ensures Formed() && HeadAt(blocks, mem, k) && !blocks[k].used && FreeAround(blocks, k)
      ensures blocks == if old(blocks)[k + 1].used then old(blocks) else Drop(old(blocks), k + 1)
      ensures lfree == old(lfree) && blocks[k + 1].used
      ensures OnlyHeaders(old(ram[..]), ram[..], old(blocks), blocks, config.Head())
    {
      hide Tiles, Linked, Lowest, Drop, Header, OnlyHeaders, FreeAround;
      NothingWritten(ram[..], blocks, blocks, config.Head());
      var size, w := config.size, config.w;
      ghost var was := ram[..];
      LastUsed(blocks, size, 4 * w);
      HeaderAt(ram[..], blocks, k, size, w);
      HeaderAt(ram[..], blocks, k + 1, size, w);
      var nmem := ram[mem];
      if mem != nmem && ram[nmem + 2 * w] == 0 && nmem != size {
        LowestDrop(blocks, k + 1, lfree, size, 4 * w);
        HeaderAt(ram[..], blocks, k + 2, size, w);
        lfree := if lfree == nmem then mem else lfree;
        var next := ram[nmem];
        ram[mem] := next;
        if next != size {
          ram[next + w] := mem;
        }
        DropLinked(was, ram[..], blocks, k + 1, size, w);
        DropWrites(was, ram[..], blocks, k + 1, size, w);
        DropTiles(blocks, k + 1, size, 4 * w);
        ForwardPlug(blocks, k);
        DropAt(blocks, k + 1);
        blocks := Drop(blocks, k + 1);
      }
    }

    method PlugBackward(mem: nat, ghost k: nat)
      requires Formed() && HeadAt(blocks, mem, k) && !blocks[k].used && FreeAround(blocks, k)
      requires blocks[k + 1].used
      modifies this`lfree, this`blocks, ram
      ensures Valid() && lfree == old(lfree) && ram[mem + 2 * config.w] == 0
      ensures blocks == if k > 0 && !old(blocks)[k - 1].used then Drop(old(blocks), k) else old(blocks)
      ensures OnlyHeaders(old(ram[..]), ram[..], old(blocks), blocks, config.Head())
    {
      hide Tiles, Linked, Lowest, Drop, Header, OnlyHeaders;
      NothingWritten(ram[..], blocks, blocks, config.Head());
      var size, w := config.size, config.w;
      ghost var was := ram[..];
      HeaderAt(ram[..], blocks, k, size, w);
      HeaderAt(ram[..], blocks, k + 1, size, w);
      if k > 0 {
        HeaderAt(ram[..], blocks, k - 1, size, w);
      }
      var pmem := ram[mem + w];
      if pmem != mem && ram[pmem + 2 * w] == 0 {
        LowestDrop(blocks, k, lfree, size, 4 * w);
        lfree := if lfree == mem then pmem else lfree;
        ram[pmem] := ram[mem];
        if ram[mem] != size {
          ram[ram[mem] + w] := pmem;
        }
        DropLinked(was, ram[..], blocks, k, size, w);
        DropWrites(was, ram[..], blocks, k, size, w);
        DropTiles(blocks, k, size, 4 * w);
        BackwardPlug(blocks, k);
        blocks := Drop(blocks, k);
      }
    }

    /** plug_holes: joins the free block at mem with the free blocks beside it. */
    method PlugHoles(mem: nat, ghost k: nat)
      requires Formed() && HeadAt(blocks, mem, k) && !blocks[k].used && FreeAround(blocks, k)
      modifies this`lfree, this`blocks, ram
      ensures Valid() && blocks == Plugged(old(blocks), k) && lfree == old(lfree)
      ensures ram[mem + 2 * config.w] == 0
      ensures OnlyHeaders(old(ram[..]), ram[..], old(blocks), blocks, config.Head())
    {
      hide Tiles, Linked, Lowest, Drop, Header, FreeAround, NoTwoFree, OnlyHeaders, InHeader;
      ghost var first, was := blocks, ram[..];
      DropHeaders(first, k + 1, config.Head());
      if !first[k + 1].used {
        LastUsed(first, config.size, config.Head());
        DropAt(first, k + 1);
      }
      PlugForward(mem, k);
      ghost var second, mid := blocks, ram[..];
      PlugBackward(mem, k);
      WritesThen(was, mid, ram[..], first, second, blocks, config.Head());
    }

    lemma OwnedInUse(p: int)
      requires Valid() && Owned(blocks, p, config)
      ensures InUse(p)
    {
      hide Tiles, Linked, Lowest, NoTwoFree;
      var k := IndexOf(blocks, p, config);
      OwnedPlausible(blocks, k, config);
      HeaderAt(ram[..], blocks, k, config.size, config.w);
    }

    method Release(mem: nat, ghost k: nat)
      requires Valid() && HeadAt(blocks, mem, k) && blocks[k].used
      modifies this`lfree, this`blocks, ram
      ensures Valid() && blocks == Freed(old(blocks), k)
      ensures ram[mem + 2 * config.w] == 0
      ensures OnlyHeaders(old(ram[..]), ram[..], old(blocks), blocks, config.Head())
    {
      hide Tiles, Linked, Lowest, Plugged, Header, OnlyHeaders, InHeader;
      ghost var was, first := ram[..], blocks;
      HeaderAt(was, blocks, k, config.size, config.w);
      MarkWrites(was, blocks, k, false, 0, config.w);
      MarkHeaders(blocks, k, false, config.Head());
      ram[mem + 2 * config.w] := 0;
      assert ram[..] == was[mem + 2 * config.w := Flag(false)];
      MarkLinked(was, blocks, k, false, config.size, config.w);
      MarkTiles(blocks, k, false, config.size, config.Head());
      LowestFreed(blocks, k, lfree, config.size, config.Head());
      blocks := Mark(blocks, k, false);
      if mem < lfree {
        lfree := mem;
      }
      ghost var marked, mid := blocks, ram[..];
      PlugHoles(mem, k);
      WritesThen(was, mid, ram[..], first, marked, blocks, config.Head());
    }

    /**
     * mem_free. A null, misaligned or outlying address, and one whose header says it is not in use,
     * changes nothing; any other address has to come from mem_malloc.
     */
    method Free(rmem: Option<int>)
      requires Valid()
      requires rmem.Some? ==> (InUse(rmem.value) ==> Owned(blocks, rmem.value, config))
      modifies this`lfree, this`blocks, ram
      ensures Valid()
      ensures rmem.Some? && old(Owned(blocks, rmem.value, config)) ==> blocks == FreeOn(old(blocks), rmem.value, config)
      ensures rmem.Some? ==> !Owned(blocks, rmem.value, config) && !InUse(rmem.value)
      ensures !(rmem.Some? && old(Owned(blocks, rmem.value, config))) ==> blocks == old(blocks) && unchanged(ram, this)
      ensures OnlyHeaders(old(ram[..]), ram[..], old(blocks), blocks, config.Head())
    {
      hide Tiles, Linked, Lowest, NoTwoFree, Plugged, HeadAt, OnlyHeaders;
      NothingWritten(ram[..], blocks, blocks, config.Head());
      if rmem.Some? && Owned(blocks, rmem.value, config) {
        OwnedInUse(rmem.value);
      }
      if rmem.Some? && rmem.value % MEM_ALIGNMENT == 0 {
        var p, h, w := rmem.value, config.Head(), config.w;
        var mem := p - h;
        if !(mem < 0 || p + MIN_SIZE_ALIGNED > config.size) && ram[mem + 2 * w] != 0 {
          ghost var k := IndexOf(blocks, p, config);
          FreedNotOwned(blocks, p, config);
          var linked := LinkValid(mem, k);
          if linked {
            Release(mem, k);
          }
        }
      }
    }

    /** The end of mem_malloc: from the block just taken, the next one that is free, or the end. */
    method NextFree(start: nat, ghost k: nat) returns (cur: nat)
      requires config.Legal() && ram.Length == config.size + 2 * config.Head()
      requires Tiles(blocks, config.size, config.Head()) && Linked(ram[..], blocks, config.w)
      requires k < |blocks| && blocks[k].at == start && forall i :: 0 <= i < k ==> blocks[i].used
      ensures Lowest(blocks, cur)
    {
      hide Tiles, Linked, Lowest;
      var size, w := config.size, config.w;
      cur := start;
      ghost var j := k;
      HeaderAt(ram[..], blocks, j, size, w);
      while ram[cur + 2 * w] != 0 && cur != size
        invariant j < |blocks| && cur == blocks[j].at && cur + 2 * w < ram.Length
        invariant forall i :: 0 <= i < j ==> blocks[i].used
        decreases |blocks| - j
      {
        HeaderAt(ram[..], blocks, j, size, w);
        HeaderAt(ram[..], blocks, j + 1, size, w);
        cur := ram[cur];
        j := j + 1;
      }
      HeaderAt(ram[..], blocks, j, size, w);
      LowestFrom(blocks, j, size, config.Head());
    }

    /** Write the header of a free block at mem2 between the blocks at ptr and next. */
    method LinkFree(mem2: nat, next: nat, ptr: nat)
      requires config.w > 0 && ptr + 4 * config.w <= mem2 && mem2 + 4 * config.w <= next
      requires next + 2 * config.w < ram.Length
      modifies ram
      ensures SameBut(old(ram[..]), ram[..], mem2, mem2 + config.w, mem2 + 2 * config.w, ptr, next, config.size, config.w)
      ensures ram[mem2] == next && ram[mem2 + config.w] == ptr && ram[mem2 + 2 * config.w] == 0 && ram[ptr] == mem2
      ensures next != config.size ==> ram[next + config.w] == mem2
    {
      var w := config.w;
      ram[mem2 + 2 * w] := 0;
      ram[mem2] := next;
      ram[mem2 + w] := ptr;
      ram[ptr] := mem2;
      if ram[mem2] != config.size {
        ram[ram[mem2] + w] := mem2;
      }
    }

    /** Mark the free block at mem used, splitting off what is behind n bytes if that can hold another block. */
    method Carve(mem: nat, n: nat, ghost k: nat)
      requires Valid() && HeadAt(blocks, mem, k) && Fits(blocks, k, n, config.Head())
      requires n % 8 == 0 && n >= MIN_SIZE_ALIGNED
      modifies this`blocks, ram
      ensures Heaped(blocks, config.size, config.Head()) && Linked(ram[..], blocks, config.w)
      ensures blocks == Allocated(old(blocks), k, n, config.Head())
      ensures OnlyHeaders(old(ram[..]), ram[..], old(blocks), blocks, config.Head())
    {
      hide Tiles, Linked, Lowest, Insert, Header, NoTwoFree, OnlyHeaders, InHeader;
      var size, w, h := config.size, config.w, config.Head();
      ghost var was, b := ram[..], blocks;
      HeaderAt(was, b, k, size, w);
      HeaderAt(was, b, k + 1, size, w);
      MarkLinked(was, b, k, true, size, w);
      MarkTiles(b, k, true, size, h);
      AllocatedHeaped(b, k, n, size, h);
      blocks := Mark(b, k, true);
      MarkWrites(was, b, k, true, 1, w);
      MarkHeaders(b, k, true, h);
      if ram[mem] - (mem + h) >= n + h + MIN_SIZE_ALIGNED {
        var mem2 := mem + h + n;
        LinkFree(mem2, ram[mem], mem);
        ram[mem + 2 * w] := 1;
        InsertLinked(was[mem + 2 * w := 1], ram[..], blocks, k, mem2, size, w);
        InsertWrites(was[mem + 2 * w := 1], ram[..], blocks, k, mem2, size, w);
        WritesThen(was, was[mem + 2 * w := 1], ram[..], b, blocks, Insert(blocks, k, mem2), h);
        blocks := Insert(blocks, k, mem2);
      } else {
        ram[mem + 2 * w] := 1;
        assert ram[..] == was[mem + 2 * w := 1];
      }
    }

    /** Take the free block at mem for n bytes, then look for the new lowest free block. */
    method Take(mem: nat, n: nat, ghost k: nat)
      requires Valid() && HeadAt(blocks, mem, k) && Fits(blocks, k, n, config.Head())
      requires n % 8 == 0 && n >= MIN_SIZE_ALIGNED
      modifies this`lfree, this`blocks, ram
      ensures Valid() && blocks == Allocated(old(blocks), k, n, config.Head())
      ensures OnlyHeaders(old(ram[..]), ram[..], old(blocks), blocks, config.Head())
    {
      hide Tiles, Linked, Lowest, Insert, NoTwoFree, OnlyHeaders;
      ghost var b, h := blocks, config.Head();
      LowestFirst(b, k, lfree, config.size, h);
      if mem == lfree {
        Carve(mem, n, k);
        InsertAt(Mark(b, k, true), k, mem + h + n);
        lfree := NextFree(mem, k);
      } else {
        LowestMarked(b, k, lfree);
        LowestInsert(Mark(b, k, true), k, mem + h + n, lfree);
        Carve(mem, n, k);
      }
    }

    /** The scan of mem_malloc: the lowest free block with room for s bytes, if there is one. */
    method Search(s: nat) returns (found: bool, ptr: nat, ghost k: nat)
      requires Valid() && s <= config.size
      ensures k < |blocks| && k == FirstFit(blocks, s, config.Head(), 0) && (found <==> k + 1 < |blocks|)
      ensures found ==> ptr == blocks[k].at
    {
      hide Tiles, Linked, Lowest, NoTwoFree, Fits, FirstFit;
      var size, w, h := config.size, config.w, config.Head();
      k := LowestIndex(blocks, lfree, size, h);
      ptr := lfree;
      found := false;
      UsedDoNotFit(blocks, k, s, h);
      HeaderAt(ram[..], blocks, k, size, w);
      while ptr < size - s
        invariant k < |blocks| && ptr == blocks[k].at <= size && !found
        invariant forall i :: 0 <= i < k ==> !Fits(blocks, i, s, h)
        decreases |blocks| - k
      {
        HeaderAt(ram[..], blocks, k, size, w);
        FitsAt(blocks, k, s, h);
        if ram[ptr + 2 * w] == 0 && ram[ptr] - (ptr + h) >= s {
          found := true;
          break;
        }
        HeaderAt(ram[..], blocks, k + 1, size, w);
        ptr := ram[ptr];
        k := k + 1;
      }
      if !found {
        TooHigh(blocks, k, s, size, h);
        k := |blocks| - 1;
      }
      FirstFitIs(blocks, s, h, k);
    }

    /** mem_malloc: first fit, starting at the lowest free block. */
    method Malloc(n: nat) returns (r: Option<nat>)
      requires Valid() && n < config.Limit()
      modifies this`lfree, this`blocks, ram
      ensures Valid() && (r, blocks) == MallocOn(old(blocks), n, config)
      ensures OnlyHeaders(old(ram[..]), ram[..], old(blocks), blocks, config.Head())
    {
      hide Tiles, Linked, Lowest, NoTwoFree, Fits, Allocated, OnlyHeaders;
      NothingWritten(ram[..], blocks, blocks, config.Head());
      r := None;
      if n == 0 {
        return;
      }
      var s := Rounded(n, config.Limit());
      if s > config.size || s < n {
        return;
      }
      RoundingGuard(n, config.Limit(), config.size);
      var found, ptr, k := Search(s);
      if found {
        Take(ptr, s, k);
        r := Some(ptr + config.Head());
      }
    }

    /** mem_trim. An address outside the arena comes back as it is; any other has to come from mem_malloc. */
    method Trim(p: int, n: nat) returns (r: Option<int>)
      requires Valid() && n < config.Limit()
      requires 0 <= p < config.size ==> Owned(blocks, p, config)
      modifies this`lfree, this`blocks, ram
      ensures Valid()
      ensures old(Owned(blocks, p, config)) ==> (r, blocks) == TrimOn(old(blocks), p, n, config)
      ensures !old(Owned(blocks, p, config)) ==> blocks == old(blocks) && unchanged(this, ram)
      ensures !old(Owned(blocks, p, config)) ==> (r == if Rejected(n, config.Limit(), config.size) then None else Some(p))
      ensures OnlyHeaders(old(ram[..]), ram[..], old(blocks), blocks, config.Head())
    {
      hide Tiles, Linked, Lowest, NoTwoFree, Trimmed, OnlyHeaders;
      NothingWritten(ram[..], blocks, blocks, config.Head());
      var size, w, h := config.size, config.w, config.Head();
      if Owned(blocks, p, config) {
        OwnedInUse(p);
      }
      var s := Rounded(n, config.Limit());
      if s > size || s < n {
        return None;
      }
      if p < 0 || p >= size {
        return Some(p);
      }
      RoundingGuard(n, config.Limit(), size);
      var ptr := p - h;
      ghost var k := IndexOf(blocks, p, config);
      HeaderAt(ram[..], blocks, k, size, w);
      HeaderAt(ram[..], blocks, k + 1, size, w);
      var room := ram[ptr] - ptr - h;
      if s > room {
        return None;
      }
      if s != room {
        if ram[ram[ptr] + 2 * w] == 0 {
          LowerNext(ptr, s, k);
        } else if s + h + MIN_SIZE_ALIGNED <= room {
          SplitUsed(ptr, s, k);
        } else {
          TrimmedIs(blocks, k, s, h);
        }
      } else {
        TrimmedIs(blocks, k, s, h);
      }
      r := Some(p);
    }

    /** The next block is free: it takes what is behind s bytes. */
    method LowerNext(ptr: nat, s: nat, ghost k: nat)
      requires Valid() && HeadAt(blocks, ptr, k) && blocks[k].used && !blocks[k + 1].used
      requires s < Room(blocks, k, config.Head()) && s % 8 == 0 && s >= MIN_SIZE_ALIGNED
      modifies this`lfree, this`blocks, ram
      ensures Valid() && blocks == Trimmed(old(blocks), k, s, config.Head())
      ensures OnlyHeaders(old(ram[..]), ram[..], old(blocks), blocks, config.Head())
    {
      hide Tiles, Linked, Lowest, NoTwoFree, Header, SameBut, OnlyHeaders;
      var size, w, h := config.size, config.w, config.Head();
      ghost var was := ram[..];
      LastUsed(blocks, size, h);
      HeaderAt(was, blocks, k, size, w);
      HeaderAt(was, blocks, k + 1, size, w);
      HeaderAt(was, blocks, k + 2, size, w);
      TrimmedHeaped(blocks, k, s, size, h);
      var mem2, ptr2 := ram[ptr], ptr + h + s;
      LowestShift(blocks, k, ptr2, lfree, size, h);
      var next := ram[mem2];
      if lfree == mem2 {
        lfree := ptr2;
      }
      LinkFree(ptr2, next, ptr);
      ShiftLinked(was, ram[..], blocks, k, ptr2, size, w);
      ShiftWrites(was, ram[..], blocks, k, ptr2, size, w);
      blocks := blocks[k + 1 := Block(ptr2, false)];
    }

    /** The next block is used and there is room for a block behind s bytes. */
    method SplitUsed(ptr: nat, s: nat, ghost k: nat)
      requires Valid() && HeadAt(blocks, ptr, k) && blocks[k].used && blocks[k + 1].used
      requires s + config.Head() + MIN_SIZE_ALIGNED <= Room(blocks, k, config.Head())
      requires s % 8 == 0 && s >= MIN_SIZE_ALIGNED
      modifies this`lfree, this`blocks, ram
      ensures Valid() && blocks == Trimmed(old(blocks), k, s, config.Head())
      ensures OnlyHeaders(old(ram[..]), ram[..], old(blocks), blocks, config.Head())
    {
      hide Tiles, Linked, Lowest, NoTwoFree, Header, Insert, SameBut, OnlyHeaders;
      var size, w, h := config.size, config.w, config.Head();
      ghost var was := ram[..];
      HeaderAt(was, blocks, k, size, w);
      HeaderAt(was, blocks, k + 1, size, w);
      TrimmedHeaped(blocks, k, s, size, h);
      var mem2 := ptr + h + s;
      LowestInsert(blocks, k, mem2, lfree);
      if mem2 < lfree {
        lfree := mem2;
      }
      LinkFree(mem2, ram[ptr], ptr);
      InsertLinked(was, ram[..], blocks, k, mem2, size, w);
      InsertWrites(was, ram[..], blocks, k, mem2, size, w);
      blocks := Insert(blocks, k, mem2);
    }

    /** A client stores data from address p on, inside its own region. */
    method Store(p: nat, data: seq<nat>, ghost k: nat)
      requires Valid() && k + 1 < |blocks| && blocks[k].used && p == Data(blocks, k, config.Head()).start
      requires p + |data| <= Data(blocks, k, config.Head()).end
      modifies ram
      ensures Valid() && p + |data| <= ram.Length && ram[p..p + |data|] == data
      ensures forall a :: 0 <= a < ram.Length && !(p <= a < p + |data|) ==> ram[a] == old(ram[a])
    {
      hide Tiles, Linked, Lowest, NoTwoFree;
      ghost var was := ram[..];
      RegionInside(k);
      forall i | 0 <= i < |data| {
        ram[p + i] := data[i];
      }
      OwnerWrites(was, ram[..], blocks, k, config.size, config.w);
    }

    lemma RegionInside(k: nat)
      requires Valid() && k + 1 < |blocks|
      ensures Data(blocks, k, config.Head()).end <= config.size <= ram.Length
    {
      DataInside(blocks, k, config.size, config.Head());
    }
  }
}
