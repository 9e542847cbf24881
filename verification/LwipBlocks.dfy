/** The blocks of the lwIP heap as a list, and what each operation does to it. */
module LwipBlocks {
  import opened Basics

  const MEM_ALIGNMENT := 8
  const MIN_SIZE_ALIGNED := 16

  /** One block header: its offset in ram and its used flag. */
  datatype Block = Block(at: nat, used: bool)

  /** The bytes start..end of ram belong to whoever allocated them. */
  datatype Region = Region(start: nat, end: nat)

  /** LWIP_MEM_ALIGN_SIZE, before the cast to mem_size_t. */
  function AlignSize(n: nat): nat {
    (n + 7) / 8 * 8
  }

  /** The size that is searched for; the cast keeps it below limit, 2^16 or 2^32. */
  function Rounded(n: nat, limit: nat): (r: nat)
    requires limit > 0
  {
    var s := AlignSize(n) % limit;
    if s < MIN_SIZE_ALIGNED then MIN_SIZE_ALIGNED else s
  }

  ghost predicate Rejected(n: nat, limit: nat, size: nat)
    requires limit > 0
  {
    Rounded(n, limit) > size || Rounded(n, limit) < n
  }

  /** The range check catches every request whose rounding wrapped, and no other request that fits. */
  lemma RoundingGuard(n: nat, limit: nat, size: nat)
    requires limit % 8 == 0 && 16 <= size < limit && n < limit
    ensures Rejected(n, limit, size) <==> AlignSize(n) > size
    ensures !Rejected(n, limit, size) ==> Rounded(n, limit) == if n <= 8 then 16 else AlignSize(n)
  {
    AlignSizeIs(n, limit);
    WrapIs(AlignSize(n), limit);
  }

  lemma AlignSizeIs(n: nat, limit: nat)
    requires limit % 8 == 0 && n < limit
    ensures AlignSize(n) % 8 == 0 && n <= AlignSize(n) <= n + 7 && AlignSize(n) <= limit
  {
    var q, l := (n + 7) / 8, limit / 8;
    assert n + 7 == 8 * q + (n + 7) % 8 && limit == 8 * l;
  }

  lemma WrapIs(a: nat, limit: nat)
    requires a <= limit && limit > 0
    ensures a % limit == if a == limit then 0 else a
  {
  }

  // ----- the block list

  /** Headers in address order, tiling ram from 0 to the end marker at size. */
  ghost predicate Tiles(b: seq<Block>, size: nat, h: nat) {
    && |b| >= 2 && b[0].at == 0 && b[|b| - 1] == Block(size, true)
    && (forall k :: 0 <= k < |b| ==> b[k].at % MEM_ALIGNMENT == 0)
    && (forall i, j :: 0 <= i < j < |b| ==> b[i].at + h + MIN_SIZE_ALIGNED <= b[j].at)
  }

  ghost predicate NoTwoFree(b: seq<Block>) {
    forall i, j :: 0 <= i < j < |b| && j == i + 1 ==> b[i].used || b[j].used
  }

  ghost predicate Heaped(b: seq<Block>, size: nat, h: nat) {
    Tiles(b, size, h) && NoTwoFree(b)
  }

  ghost predicate Lowest(b: seq<Block>, low: int) {
    && (exists k :: 0 <= k < |b| && b[k].at == low && (b[k].used ==> k == |b| - 1))
    && (forall k :: 0 <= k < |b| && !b[k].used ==> low <= b[k].at)
  }

  ghost function Room(b: seq<Block>, k: nat, h: nat): int
    requires k + 1 < |b|
  {
    b[k + 1].at - b[k].at - h
  }

  ghost predicate Fits(b: seq<Block>, k: nat, n: nat, h: nat) {
    k + 1 < |b| && !b[k].used && Room(b, k, h) >= n
  }

  /** The lowest free block with room for n bytes, or the end marker. */
  ghost function FirstFit(b: seq<Block>, n: nat, h: nat, from: nat): (r: nat)
    requires from < |b|
    ensures from <= r < |b|
    ensures forall i :: from <= i < r ==> !Fits(b, i, n, h)
    ensures r < |b| - 1 ==> Fits(b, r, n, h)
    decreases |b| - from
  {
    if from == |b| - 1 || Fits(b, from, n, h) then from else FirstFit(b, n, h, from + 1)
  }

  ghost function Mark(b: seq<Block>, k: nat, used: bool): seq<Block>
    requires k < |b|
  {
    b[k := Block(b[k].at, used)]
  }

  ghost function Drop(b: seq<Block>, k: nat): seq<Block>
    requires k < |b|
  {
    b[..k] + b[k + 1..]
  }

  /** Put a free block after block k. */
  ghost function Insert(b: seq<Block>, k: nat, at: nat): seq<Block>
    requires k < |b|
  {
    b[..k + 1] + [Block(at, false)] + b[k + 1..]
  }

  /** Join free block k with its free neighbours. */
  ghost function Plugged(b: seq<Block>, k: nat): seq<Block>
    requires k + 1 < |b|
  {
    var c := if b[k + 1].used then b else Drop(b, k + 1);
    if k > 0 && !b[k - 1].used then Drop(c, k) else c
  }

  // ----- the three operations

  ghost function Allocated(b: seq<Block>, k: nat, n: nat, h: nat): seq<Block>
    requires k + 1 < |b|
  {
    if Room(b, k, h) >= n + h + MIN_SIZE_ALIGNED then Insert(Mark(b, k, true), k, b[k].at + h + n)
    else Mark(b, k, true)
  }

  ghost function Freed(b: seq<Block>, k: nat): seq<Block>
    requires k + 1 < |b|
  {
    Plugged(Mark(b, k, false), k)
  }

  ghost function Trimmed(b: seq<Block>, k: nat, n: nat, h: nat): seq<Block>
    requires k + 1 < |b|
  {
    if Room(b, k, h) <= n then b
    else if !b[k + 1].used then b[k + 1 := Block(b[k].at + h + n, false)]
    else if n + h + MIN_SIZE_ALIGNED <= Room(b, k, h) then Insert(b, k, b[k].at + h + n)
    else b
  }

  /** MEM_SIZE_ALIGNED and the width in bytes of mem_size_t. */
  datatype Config = Config(size: nat, w: nat) {
    function Limit(): (r: nat)
      ensures r % 8 == 0 && r >= 0x1_0000
    {
      if w == 2 then 0x1_0000 else 0x1_0000_0000
    }

    /** SIZEOF_STRUCT_MEM: two offsets and a flag, rounded up to MEM_ALIGNMENT. */
    function Head(): nat {
      4 * w
    }

    /** An aligned address with a header before it and MIN_SIZE bytes after it inside the arena. */
    predicate Plausible(p: int) {
      p % MEM_ALIGNMENT == 0 && p - Head() >= 0 && p + MIN_SIZE_ALIGNED <= size
    }

    ghost predicate Legal() {
      && (w == 2 || w == 4) && size % MEM_ALIGNMENT == 0
      && Head() + MIN_SIZE_ALIGNED <= size && size + 2 * Head() < Limit()
    }
  }

  ghost predicate Heap(b: seq<Block>, c: Config) {
    c.Legal() && Heaped(b, c.size, c.Head())
  }

  /** The index of a header. */
  ghost predicate HeadAt(b: seq<Block>, p: int, k: nat) {
    k + 1 < |b| && b[k].at == p
  }

  /** p was returned by mem_malloc and not freed since. */
  ghost predicate Owned(b: seq<Block>, p: int, c: Config) {
    exists k: nat :: HeadAt(b, p - c.Head(), k) && b[k].used
  }

  ghost function IndexOf(b: seq<Block>, p: int, c: Config): (k: nat)
    requires Owned(b, p, c)
    ensures HeadAt(b, p - c.Head(), k) && b[k].used
  {
    var k: nat :| HeadAt(b, p - c.Head(), k) && b[k].used;
    k
  }

  ghost function MallocOn(b: seq<Block>, n: nat, c: Config): (r: (Option<nat>, seq<Block>))
    requires b != []
  {
    var s := Rounded(n, c.Limit());
    if n == 0 || Rejected(n, c.Limit(), c.size) then (None, b)
    else
      var k := FirstFit(b, s, c.Head(), 0);
      if k == |b| - 1 then (None, b) else (Some(b[k].at + c.Head()), Allocated(b, k, s, c.Head()))
  }

  ghost function FreeOn(b: seq<Block>, p: int, c: Config): seq<Block>
    requires Owned(b, p, c)
  {
    Freed(b, IndexOf(b, p, c))
  }

  ghost function TrimOn(b: seq<Block>, p: int, n: nat, c: Config): (r: (Option<int>, seq<Block>))
    requires Owned(b, p, c)
  {
    var s := Rounded(n, c.Limit());
    var k := IndexOf(b, p, c);
    if Rejected(n, c.Limit(), c.size) || s > Room(b, k, c.Head()) then (None, b)
    else (Some(p), Trimmed(b, k, s, c.Head()))
  }

  // ----- the steps keep the tiling

  lemma InsertAt(b: seq<Block>, k: nat, at: nat)
    requires k < |b|
    ensures |Insert(b, k, at)| == |b| + 1
    ensures forall i :: 0 <= i <= k ==> Insert(b, k, at)[i] == b[i]
    ensures Insert(b, k, at)[k + 1] == Block(at, false)
    ensures forall i :: k + 1 < i <= |b| ==> Insert(b, k, at)[i] == b[i - 1]
  {
  }

  lemma DropAt(b: seq<Block>, k: nat)
    requires k < |b|
    ensures |Drop(b, k)| == |b| - 1
    ensures forall i :: 0 <= i < k ==> Drop(b, k)[i] == b[i]
    ensures forall i :: k <= i < |b| - 1 ==> Drop(b, k)[i] == b[i + 1]
  {
  }

  lemma InsertTiles(b: seq<Block>, k: nat, at: nat, size: nat, h: nat)
    requires Tiles(b, size, h) && k + 1 < |b| && at % MEM_ALIGNMENT == 0
    requires b[k].at + h + MIN_SIZE_ALIGNED <= at && at + h + MIN_SIZE_ALIGNED <= b[k + 1].at
    ensures Tiles(Insert(b, k, at), size, h)
  {
    hide Insert;
    InsertAt(b, k, at);
    var c := Insert(b, k, at);
    assert c[|b|] == b[|b| - 1];
    forall i, j | 0 <= i < j < |c|
      ensures c[i].at + h + MIN_SIZE_ALIGNED <= c[j].at
    {
      var x, y := b[if i <= k then i else i - 1], b[if j <= k then j else j - 1];
    }
  }

  lemma DropTiles(b: seq<Block>, k: nat, size: nat, h: nat)
    requires Tiles(b, size, h) && 0 < k < |b| - 1
    ensures Tiles(Drop(b, k), size, h)
  {
    hide Drop;
    DropAt(b, k);
    var c := Drop(b, k);
    assert c[|b| - 2] == b[|b| - 1];
  }

  /** Two neighbours are both free only where block k is one of them. */
  ghost predicate FreeAround(b: seq<Block>, k: nat) {
    forall i, j :: 0 <= i < j < |b| && j == i + 1 ==> b[i].used || b[j].used || i == k || j == k
  }

  lemma InsertNoTwoFree(b: seq<Block>, k: nat, at: nat)
    requires NoTwoFree(b) && k + 1 < |b| && b[k].used && b[k + 1].used
    ensures NoTwoFree(Insert(b, k, at))
  {
    hide Insert;
    InsertAt(b, k, at);
  }

  lemma ForwardPlug(b: seq<Block>, k: nat)
    requires FreeAround(b, k) && k + 2 < |b| && !b[k].used && !b[k + 1].used
    ensures FreeAround(Drop(b, k + 1), k) && Drop(b, k + 1)[k + 1].used
  {
    hide Drop;
    DropAt(b, k + 1);
  }

  lemma BackwardPlug(b: seq<Block>, k: nat)
    requires FreeAround(b, k) && 0 < k && k + 1 < |b| && b[k + 1].used && !b[k - 1].used
    ensures NoTwoFree(Drop(b, k))
  {
    hide Drop;
    DropAt(b, k);
  }

  lemma PluggedHeaped(b: seq<Block>, k: nat, size: nat, h: nat)
    requires Tiles(b, size, h) && FreeAround(b, k) && k + 1 < |b| && !b[k].used
    ensures Heaped(Plugged(b, k), size, h)
  {
    hide Drop, Tiles;
    assert b[|b| - 1].used && |b| >= 2 by { LastUsed(b, size, h); }
    var c := if b[k + 1].used then b else Drop(b, k + 1);
    if !b[k + 1].used {
      DropTiles(b, k + 1, size, h);
      ForwardPlug(b, k);
      DropAt(b, k + 1);
    }
    LastUsed(c, size, h);
    if k > 0 && !b[k - 1].used {
      DropTiles(c, k, size, h);
      BackwardPlug(c, k);
    }
  }

  lemma LastUsed(b: seq<Block>, size: nat, h: nat)
    requires Tiles(b, size, h)
    ensures |b| >= 2 && b[|b| - 1].used
  {
  }

  lemma MarkTiles(b: seq<Block>, k: nat, used: bool, size: nat, h: nat)
    requires Tiles(b, size, h) && k + 1 < |b|
    ensures Tiles(Mark(b, k, used), size, h)
  {
  }

  lemma AllocatedHeaped(b: seq<Block>, k: nat, n: nat, size: nat, h: nat)
    requires Heaped(b, size, h) && Fits(b, k, n, h) && n % 8 == 0 && n >= 16 && h % 8 == 0
    ensures Heaped(Allocated(b, k, n, h), size, h)
  {
    hide Tiles, Insert;
    var c := Mark(b, k, true);
    MarkTiles(b, k, true, size, h);
    assert NoTwoFree(c);
    if Room(b, k, h) >= n + h + MIN_SIZE_ALIGNED {
      AddressAligned(b, k, n, size, h);
      InsertTiles(c, k, b[k].at + h + n, size, h);
      InsertNoTwoFree(c, k, b[k].at + h + n);
    }
  }

  lemma AddressAligned(b: seq<Block>, k: nat, n: nat, size: nat, h: nat)
    requires Tiles(b, size, h) && k < |b| && n % 8 == 0 && h % 8 == 0
    ensures (b[k].at + h + n) % MEM_ALIGNMENT == 0
  {
    SumAligned(b[k].at, h, n);
  }

  lemma SumAligned(x: nat, y: nat, z: nat)
    requires x % 8 == 0 && y % 8 == 0 && z % 8 == 0
    ensures (x + y + z) % 8 == 0
  {
  }

  lemma FreedHeaped(b: seq<Block>, k: nat, size: nat, h: nat)
    requires Heaped(b, size, h) && k + 1 < |b| && b[k].used
    ensures Heaped(Freed(b, k), size, h)
  {
    hide Tiles, Plugged;
    MarkTiles(b, k, false, size, h);
    PluggedHeaped(Mark(b, k, false), k, size, h);
  }

  lemma ShiftTiles(b: seq<Block>, k: nat, at: nat, size: nat, h: nat)
    requires Tiles(b, size, h) && 0 < k < |b| - 1 && at % MEM_ALIGNMENT == 0
    requires b[k - 1].at + h + MIN_SIZE_ALIGNED <= at <= b[k].at
    ensures Tiles(b[k := Block(at, false)], size, h)
  {
    var c := b[k := Block(at, false)];
    forall i, j | 0 <= i < j < |c|
      ensures c[i].at + h + MIN_SIZE_ALIGNED <= c[j].at
    {
      if j == k && i < k - 1 {
        assert b[i].at + h + MIN_SIZE_ALIGNED <= b[k - 1].at;
      }
    }
  }

  lemma TrimmedHeaped(b: seq<Block>, k: nat, n: nat, size: nat, h: nat)
    requires Heaped(b, size, h) && k + 1 < |b| && b[k].used
    requires n % 8 == 0 && n >= 16 && h % 8 == 0
    ensures Heaped(Trimmed(b, k, n, h), size, h)
  {
    hide Tiles, Insert;
    LastUsed(b, size, h);
    AddressAligned(b, k, n, size, h);
    if Room(b, k, h) > n {
      if !b[k + 1].used {
        ShiftTiles(b, k + 1, b[k].at + h + n, size, h);
      } else if n + h + MIN_SIZE_ALIGNED <= Room(b, k, h) {
        InsertTiles(b, k, b[k].at + h + n, size, h);
        InsertNoTwoFree(b, k, b[k].at + h + n);
      }
    }
  }

  lemma OwnedPlausible(b: seq<Block>, k: nat, c: Config)
    requires c.Legal() && Tiles(b, c.size, c.Head()) && k + 1 < |b|
    ensures c.Plausible(b[k].at + c.Head())
  {
    AddressAligned(b, k, 0, c.size, c.Head());
    assert k + 1 < |b| - 1 ==> b[k + 1].at + c.Head() + MIN_SIZE_ALIGNED <= b[|b| - 1].at;
  }

  lemma Spaced(b: seq<Block>, i: nat, j: nat, size: nat, h: nat)
    requires Tiles(b, size, h) && i < |b| && j < |b|
    ensures i < j ==> b[i].at + h + MIN_SIZE_ALIGNED <= b[j].at
    ensures i > j ==> b[j].at + h + MIN_SIZE_ALIGNED <= b[i].at
    ensures b[i].at == size <==> i == |b| - 1
  {
    assert i < |b| - 1 ==> b[i].at + h + MIN_SIZE_ALIGNED <= b[|b| - 1].at;
  }

  lemma IndexUnique(b: seq<Block>, p: int, k: nat, c: Config)
    requires Tiles(b, c.size, c.Head()) && HeadAt(b, p - c.Head(), k) && b[k].used
    ensures Owned(b, p, c) && IndexOf(b, p, c) == k
  {
    var i := IndexOf(b, p, c);
    Spaced(b, i, k, c.size, c.Head());
  }

  lemma OwnedIsLive(b: seq<Block>, p: int, c: Config)
    ensures Owned(b, p, c) <==> exists r :: r in Live(b, c.Head()) && r.start == p
  {
    if Owned(b, p, c) {
      var k := IndexOf(b, p, c);
      assert Data(b, k, c.Head()) in Live(b, c.Head());
    }
    if r :| r in Live(b, c.Head()) && r.start == p {
      var k :| 0 <= k < |b| - 1 && b[k].used && Data(b, k, c.Head()) == r;
      assert HeadAt(b, p - c.Head(), k);
    }
  }

  /** A freed address is nobody's. */
  lemma FreedNotOwned(b: seq<Block>, p: int, c: Config)
    requires Heap(b, c) && Owned(b, p, c)
    ensures !Owned(FreeOn(b, p, c), p, c)
  {
    hide Freed, Owned, Tiles, Data, Live;
    var k, h := IndexOf(b, p, c), c.Head();
    FreedLive(b, k, c.size, h);
    OwnedIsLive(Freed(b, k), p, c);
    LiveStarts(b, k, c.size, h);
  }

  lemma LiveStarts(b: seq<Block>, k: nat, size: nat, h: nat)
    requires Tiles(b, size, h) && k + 1 < |b|
    ensures Data(b, k, h).start == b[k].at + h
    ensures forall r :: r in Live(b, h) && r.start == b[k].at + h ==> r == Data(b, k, h)
  {
    hide Tiles;
    forall r | r in Live(b, h) && r.start == b[k].at + h
      ensures r == Data(b, k, h)
    {
      var i :| 0 <= i < |b| - 1 && b[i].used && r == Data(b, i, h);
      if i != k {
        DataApart(b, i, k, size, h);
      }
    }
  }

  // ----- searching

  lemma FirstFitIs(b: seq<Block>, n: nat, h: nat, k: nat)
    requires k < |b| && (k == |b| - 1 || Fits(b, k, n, h))
    requires forall i :: 0 <= i < k ==> !Fits(b, i, n, h)
    ensures FirstFit(b, n, h, 0) == k
  {
    hide Fits, FirstFit;
    var r := FirstFit(b, n, h, 0);
  }

  /** The search may stop at size - n: no block from there on can hold n bytes. */
  lemma TooHigh(b: seq<Block>, k: nat, n: nat, size: nat, h: nat)
    requires Tiles(b, size, h) && k < |b| && b[k].at + n >= size && h > 0
    ensures forall i :: k <= i < |b| ==> !Fits(b, i, n, h)
  {
    forall i | k <= i < |b|
      ensures !Fits(b, i, n, h)
    {
      if k < i {
        assert b[k].at + h + MIN_SIZE_ALIGNED <= b[i].at;
      }
      if i + 1 < |b| - 1 {
        assert b[i + 1].at + h + MIN_SIZE_ALIGNED <= b[|b| - 1].at;
      }
    }
  }

  lemma UsedDoNotFit(b: seq<Block>, k: nat, n: nat, h: nat)
    requires k < |b| && forall i :: 0 <= i < k ==> b[i].used
    ensures forall i :: 0 <= i < k ==> !Fits(b, i, n, h)
  {
  }

  lemma FitsAt(b: seq<Block>, k: nat, n: nat, h: nat)
    requires k + 1 < |b|
    ensures Fits(b, k, n, h) <==> !b[k].used && b[k + 1].at - (b[k].at + h) >= n
  {
  }

  lemma TrimmedIs(b: seq<Block>, k: nat, n: nat, h: nat)
    requires k + 1 < |b| && (Room(b, k, h) <= n || (b[k + 1].used && n + h + MIN_SIZE_ALIGNED > Room(b, k, h)))
    ensures Trimmed(b, k, n, h) == b
  {
  }

  /** lfree is a header before which everything is used. */
  lemma LowestIndex(b: seq<Block>, low: int, size: nat, h: nat) returns (k: nat)
    requires Tiles(b, size, h) && Lowest(b, low)
    ensures k < |b| && b[k].at == low && (b[k].used ==> k == |b| - 1)
    ensures forall i :: 0 <= i < k ==> b[i].used
  {
    k :| 0 <= k < |b| && b[k].at == low && (b[k].used ==> k == |b| - 1);
    forall i | 0 <= i < k
      ensures b[i].used
    {
      assert b[i].at + h + MIN_SIZE_ALIGNED <= b[k].at;
    }
  }

  /** Everything before the lowest free block is used, and no free block is before it. */
  lemma LowestFirst(b: seq<Block>, k: nat, low: int, size: nat, h: nat)
    requires Tiles(b, size, h) && Lowest(b, low) && k + 1 < |b| && !b[k].used
    ensures low <= b[k].at
    ensures low == b[k].at ==> forall i :: 0 <= i < k ==> b[i].used
  {
    forall i | 0 <= i < k && low == b[k].at
      ensures b[i].used
    {
      assert b[i].at + h + MIN_SIZE_ALIGNED <= b[k].at;
    }
  }

  lemma LowestFrom(b: seq<Block>, k: nat, size: nat, h: nat)
    requires Tiles(b, size, h) && k < |b| && (b[k].used ==> k == |b| - 1)
    requires forall i :: 0 <= i < k ==> b[i].used
    ensures Lowest(b, b[k].at)
  {
    forall i | 0 <= i < |b| && !b[i].used
      ensures b[k].at <= b[i].at
    {
      assert i > k ==> b[k].at + h + MIN_SIZE_ALIGNED <= b[i].at;
    }
  }

  lemma LowestDrop(b: seq<Block>, k: nat, low: int, size: nat, h: nat)
    requires Tiles(b, size, h) && Lowest(b, low) && 0 < k < |b| - 1 && !b[k - 1].used && !b[k].used
    ensures Lowest(Drop(b, k), low) && low != b[k].at
  {
    hide Drop;
    var i := LowestIndex(b, low, size, h);
    DropAt(b, k);
    DropTiles(b, k, size, h);
    LowestFrom(Drop(b, k), i, size, h);
    assert b[k - 1].at + h + MIN_SIZE_ALIGNED <= b[k].at;
  }

  lemma LowestFreed(b: seq<Block>, k: nat, low: int, size: nat, h: nat)
    requires Tiles(b, size, h) && Lowest(b, low) && k + 1 < |b|
    ensures Lowest(Mark(b, k, false), if b[k].at < low then b[k].at else low)
  {
    var i := LowestIndex(b, low, size, h);
    var c := Mark(b, k, false);
    assert c[i].at == low && c[k].at == b[k].at;
    if b[k].at < low {
      assert b[k].at + h + MIN_SIZE_ALIGNED <= b[|b| - 1].at;
    }
  }

  lemma LowestMarked(b: seq<Block>, k: nat, low: int)
    requires Lowest(b, low) && k + 1 < |b| && low != b[k].at
    ensures Lowest(Mark(b, k, true), low)
  {
    var c := Mark(b, k, true);
    var i :| 0 <= i < |b| && b[i].at == low && (b[i].used ==> i == |b| - 1);
    assert c[i] == b[i];
  }

  lemma LowestInsert(b: seq<Block>, k: nat, at: nat, low: int)
    requires Lowest(b, low) && k + 1 < |b|
    ensures Lowest(Insert(b, k, at), if at < low then at else low)
  {
    hide Insert;
    InsertAt(b, k, at);
    var c := Insert(b, k, at);
    var i :| 0 <= i < |b| && b[i].at == low && (b[i].used ==> i == |b| - 1);
    assert c[if i <= k then i else i + 1] == b[i];
    assert c[k + 1] == Block(at, false);
  }

  lemma LowestShift(b: seq<Block>, k: nat, at: nat, low: int, size: nat, h: nat)
    requires Tiles(b, size, h) && Lowest(b, low) && k + 2 < |b| && b[k].used && !b[k + 1].used
    requires b[k].at + h + MIN_SIZE_ALIGNED <= at <= b[k + 1].at
    ensures Lowest(b[k + 1 := Block(at, false)], if low == b[k + 1].at then at else low)
  {
    var i := LowestIndex(b, low, size, h);
    var c := b[k + 1 := Block(at, false)];
    assert i <= k + 1;
    if i == k + 1 {
      assert c[i].at == at;
    } else {
      assert c[i] == b[i] && i != k;
      assert i < k && b[i].at + h + MIN_SIZE_ALIGNED <= b[k].at;
    }
    forall j | 0 <= j < |c| && !c[j].used
      ensures (if low == b[k + 1].at then at else low) <= c[j].at
    {
      if i == k + 1 && j != k + 1 {
        assert j > k + 1;
        assert b[k + 1].at + h + MIN_SIZE_ALIGNED <= b[j].at;
      }
    }
  }

  // ----- what the clients own

  /** The data bytes of block k. */
  ghost function Data(b: seq<Block>, k: nat, h: nat): Region
    requires k + 1 < |b|
  {
    Region(b[k].at + h, b[k + 1].at)
  }

  ghost function Live(b: seq<Block>, h: nat): set<Region> {
    set k | 0 <= k < |b| - 1 && b[k].used :: Data(b, k, h)
  }

  ghost predicate Apart(r: Region, s: Region) {
    r.end <= s.start || s.end <= r.start
  }

  lemma DataApart(b: seq<Block>, i: nat, j: nat, size: nat, h: nat)
    requires Tiles(b, size, h) && i < |b| - 1 && j < |b| - 1 && i != j
    ensures Apart(Data(b, i, h), Data(b, j, h))
    ensures Data(b, i, h).start != Data(b, j, h).start
  {
    if i < j {
      assert i + 1 < j ==> b[i + 1].at + h + MIN_SIZE_ALIGNED <= b[j].at;
    } else {
      assert j + 1 < i ==> b[j + 1].at + h + MIN_SIZE_ALIGNED <= b[i].at;
    }
  }

  lemma DataInside(b: seq<Block>, k: nat, size: nat, h: nat)
    requires Tiles(b, size, h) && k < |b| - 1 && h % 8 == 0
    ensures Data(b, k, h).start % MEM_ALIGNMENT == 0 && h <= Data(b, k, h).start
    ensures Data(b, k, h).start + MIN_SIZE_ALIGNED <= Data(b, k, h).end <= size
  {
    assert b[k].at % 8 == 0;
    assert k + 1 < |b| - 1 ==> b[k + 1].at + h + MIN_SIZE_ALIGNED <= b[|b| - 1].at;
  }

  lemma DataAndHeader(b: seq<Block>, i: nat, k: nat, size: nat, h: nat)
    requires Tiles(b, size, h) && i < |b| - 1 && k < |b|
    ensures Apart(Data(b, i, h), Region(b[k].at, b[k].at + h))
  {
    if k <= i {
      assert k < i ==> b[k].at + h + MIN_SIZE_ALIGNED <= b[i].at;
    } else {
      assert k > i + 1 ==> b[i + 1].at + h + MIN_SIZE_ALIGNED <= b[k].at;
    }
  }

  /** Live regions are aligned, at least MIN_SIZE long, inside the arena, and overlap no header and no other region. */
  lemma LiveDisjoint(b: seq<Block>, size: nat, h: nat)
    requires Heaped(b, size, h) && h % 8 == 0
    ensures forall r :: r in Live(b, h) ==> r.start % MEM_ALIGNMENT == 0 && h <= r.start
    ensures forall r :: r in Live(b, h) ==> r.start + MIN_SIZE_ALIGNED <= r.end <= size
    ensures forall r, s :: r in Live(b, h) && s in Live(b, h) && r != s ==> Apart(r, s)
    ensures forall r, k :: r in Live(b, h) && 0 <= k < |b| ==> Apart(r, Region(b[k].at, b[k].at + h))
  {
    hide Tiles, Data, NoTwoFree, Apart;
    forall r | r in Live(b, h)
      ensures r.start % MEM_ALIGNMENT == 0 && h <= r.start && r.start + MIN_SIZE_ALIGNED <= r.end <= size
    {
      var k :| 0 <= k < |b| - 1 && b[k].used && r == Data(b, k, h);
      DataInside(b, k, size, h);
    }
    forall r, s | r in Live(b, h) && s in Live(b, h) && r != s
      ensures Apart(r, s)
    {
      var i :| 0 <= i < |b| - 1 && b[i].used && r == Data(b, i, h);
      var j :| 0 <= j < |b| - 1 && b[j].used && s == Data(b, j, h);
      DataApart(b, i, j, size, h);
    }
    forall r, k | r in Live(b, h) && 0 <= k < |b|
      ensures Apart(r, Region(b[k].at, b[k].at + h))
    {
      var i :| 0 <= i < |b| - 1 && b[i].used && r == Data(b, i, h);
      DataAndHeader(b, i, k, size, h);
    }
  }

  lemma MarkLive(b: seq<Block>, k: nat, h: nat)
    requires k + 1 < |b|
    ensures Live(Mark(b, k, true), h) == Live(b, h) + {Data(b, k, h)}
  {
    var c := Mark(b, k, true);
    forall r | r in Live(b, h) + {Data(b, k, h)}
      ensures r in Live(c, h)
    {
      var i :| 0 <= i < |b| - 1 && (b[i].used || i == k) && r == Data(b, i, h);
      assert Data(c, i, h) == r;
    }
    forall r | r in Live(c, h)
      ensures r in Live(b, h) + {Data(b, k, h)}
    {
      var i :| 0 <= i < |c| - 1 && c[i].used && r == Data(c, i, h);
      assert Data(b, i, h) == r;
    }
  }

  lemma UnmarkLive(b: seq<Block>, k: nat, size: nat, h: nat)
    requires Tiles(b, size, h) && k + 1 < |b|
    ensures Live(Mark(b, k, false), h) == Live(b, h) - {Data(b, k, h)}
  {
    hide Tiles;
    var c := Mark(b, k, false);
    forall r | r in Live(b, h) - {Data(b, k, h)}
      ensures r in Live(c, h)
    {
      var i :| 0 <= i < |b| - 1 && b[i].used && r == Data(b, i, h);
      assert Data(c, i, h) == r;
    }
    forall r | r in Live(c, h)
      ensures r in Live(b, h) - {Data(b, k, h)}
    {
      var i :| 0 <= i < |c| - 1 && c[i].used && r == Data(c, i, h);
      assert Data(b, i, h) == r;
      DataApart(b, i, k, size, h);
    }
  }

  lemma DropLive(b: seq<Block>, k: nat, h: nat)
    requires 0 < k < |b| - 1 && !b[k - 1].used && !b[k].used
    ensures Live(Drop(b, k), h) == Live(b, h)
  {
    hide Drop;
    DropAt(b, k);
    var c := Drop(b, k);
    forall r | r in Live(b, h)
      ensures r in Live(c, h)
    {
      var i :| 0 <= i < |b| - 1 && b[i].used && r == Data(b, i, h);
      assert Data(c, if i < k then i else i - 1, h) == r;
    }
    forall r | r in Live(c, h)
      ensures r in Live(b, h)
    {
      var i :| 0 <= i < |c| - 1 && c[i].used && r == Data(c, i, h);
      assert Data(b, if i < k then i else i + 1, h) == r;
    }
  }

  lemma InsertLive(b: seq<Block>, k: nat, at: nat, size: nat, h: nat)
    requires Tiles(b, size, h) && k + 1 < |b| && b[k].used
    ensures Live(Insert(b, k, at), h) == Live(b, h) - {Data(b, k, h)} + {Region(b[k].at + h, at)}
  {
    hide Insert, Tiles;
    InsertAt(b, k, at);
    var c := Insert(b, k, at);
    assert Data(c, k, h) == Region(b[k].at + h, at);
    forall r | r in Live(b, h) - {Data(b, k, h)}
      ensures r in Live(c, h)
    {
      var i :| 0 <= i < |b| - 1 && b[i].used && r == Data(b, i, h);
      assert Data(c, if i < k then i else i + 1, h) == r;
    }
    forall r | r in Live(c, h)
      ensures r in Live(b, h) - {Data(b, k, h)} + {Region(b[k].at + h, at)}
    {
      var i :| 0 <= i < |c| - 1 && c[i].used && r == Data(c, i, h);
      if i != k {
        assert Data(b, if i < k then i else i - 1, h) == r;
        DataApart(b, if i < k then i else i - 1, k, size, h);
      }
    }
  }

  lemma ShiftLive(b: seq<Block>, k: nat, at: nat, size: nat, h: nat)
    requires Tiles(b, size, h) && k + 2 < |b| && b[k].used && !b[k + 1].used
    ensures Live(b[k + 1 := Block(at, false)], h) == Live(b, h) - {Data(b, k, h)} + {Region(b[k].at + h, at)}
  {
    hide Tiles;
    var c := b[k + 1 := Block(at, false)];
    assert Data(c, k, h) == Region(b[k].at + h, at);
    forall r | r in Live(b, h) - {Data(b, k, h)}
      ensures r in Live(c, h)
    {
      var i :| 0 <= i < |b| - 1 && b[i].used && r == Data(b, i, h);
      assert Data(c, i, h) == r;
    }
    forall r | r in Live(c, h)
      ensures r in Live(b, h) - {Data(b, k, h)} + {Region(b[k].at + h, at)}
    {
      var i :| 0 <= i < |c| - 1 && c[i].used && r == Data(c, i, h);
      if i != k {
        assert Data(b, i, h) == r;
        DataApart(b, i, k, size, h);
      }
    }
  }

  // ----- what each operation does to the live regions

  lemma FreeDataApart(b: seq<Block>, k: nat, size: nat, h: nat)
    requires Tiles(b, size, h) && k + 1 < |b| && !b[k].used
    ensures forall s :: s in Live(b, h) ==> Apart(Data(b, k, h), s) && s.start != Data(b, k, h).start
  {
    hide Tiles, Data, Apart;
    forall s | s in Live(b, h)
      ensures Apart(Data(b, k, h), s) && s.start != Data(b, k, h).start
    {
      var i :| 0 <= i < |b| - 1 && b[i].used && s == Data(b, i, h);
      DataApart(b, k, i, size, h);
    }
  }

  /** Allocation adds one region, long enough, apart from all the others. */
  lemma AllocatedLive(b: seq<Block>, k: nat, n: nat, size: nat, h: nat) returns (r: Region)
    requires Heaped(b, size, h) && Fits(b, k, n, h)
    ensures r.start == b[k].at + h && n <= r.end - r.start < n + h + MIN_SIZE_ALIGNED
    ensures Live(Allocated(b, k, n, h), h) == Live(b, h) + {r}
    ensures forall s :: s in Live(b, h) ==> Apart(r, s) && s.start != r.start
  {
    hide Insert, Tiles, Live, NoTwoFree;
    var c := Mark(b, k, true);
    MarkTiles(b, k, true, size, h);
    MarkLive(b, k, h);
    FreeDataApart(b, k, size, h);
    r := Data(b, k, h);
    if Room(b, k, h) >= n + h + MIN_SIZE_ALIGNED {
      InsertLive(c, k, b[k].at + h + n, size, h);
      assert Data(c, k, h) == r && r !in Live(b, h);
      assert Live(b, h) + {r} - {r} == Live(b, h);
      r := Region(b[k].at + h, b[k].at + h + n);
    }
  }

  lemma PluggedLive(b: seq<Block>, k: nat, size: nat, h: nat)
    requires Tiles(b, size, h) && k + 1 < |b| && !b[k].used
    ensures Live(Plugged(b, k), h) == Live(b, h)
  {
    hide Drop, Tiles, Live;
    LastUsed(b, size, h);
    var c := if b[k + 1].used then b else Drop(b, k + 1);
    if !b[k + 1].used {
      DropLive(b, k + 1, h);
      DropAt(b, k + 1);
    }
    if k > 0 && !b[k - 1].used {
      DropLive(c, k, h);
    }
  }

  /** Freeing removes exactly that region. */
  lemma FreedLive(b: seq<Block>, k: nat, size: nat, h: nat)
    requires Heaped(b, size, h) && k + 1 < |b| && b[k].used
    ensures Live(Freed(b, k), h) == Live(b, h) - {Data(b, k, h)}
  {
    hide Plugged, Tiles;
    MarkTiles(b, k, false, size, h);
    UnmarkLive(b, k, size, h);
    PluggedLive(Mark(b, k, false), k, size, h);
  }

  /** Trimming keeps the start of the region and moves its end down, not below the new size. */
  lemma TrimmedLive(b: seq<Block>, k: nat, n: nat, size: nat, h: nat) returns (r: Region)
    requires Heaped(b, size, h) && k + 1 < |b| && b[k].used
    ensures r.start == b[k].at + h && r.end <= b[k + 1].at
    ensures Room(b, k, h) >= n ==> n <= r.end - r.start
    ensures Live(Trimmed(b, k, n, h), h) == Live(b, h) - {Data(b, k, h)} + {r}
  {
    hide Insert, Tiles;
    LastUsed(b, size, h);
    r := Data(b, k, h);
    assert Live(b, h) == Live(b, h) - {r} + {r};
    if Room(b, k, h) > n {
      var at := b[k].at + h + n;
      if !b[k + 1].used {
        ShiftLive(b, k, at, size, h);
        r := Region(b[k].at + h, at);
      } else if n + h + MIN_SIZE_ALIGNED <= Room(b, k, h) {
        InsertLive(b, k, at, size, h);
        r := Region(b[k].at + h, at);
      }
    }
  }

  lemma UsedIsLive(b: seq<Block>, k: nat, h: nat)
    requires k + 1 < |b| && b[k].used
    ensures Data(b, k, h) in Live(b, h)
  {
  }

  /** No fragmentation survives: once nothing is live, the heap is one free block again. */
  lemma NothingLive(b: seq<Block>, size: nat, h: nat)
    requires Heaped(b, size, h) && Live(b, h) == {}
    ensures b == [Block(0, false), Block(size, true)]
  {
    hide Live;
    if b[0].used {
      UsedIsLive(b, 0, h);
    } else if |b| > 2 {
      var second := b[1];
      if second.used {
        UsedIsLive(b, 1, h);
      }
    }
  }
}
