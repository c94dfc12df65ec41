/** The arena: small allocations carved one after another out of blocks that grow. */
module Arenas {
  const UINT32: nat := 0x1_0000_0000

  /** A block header; `capacity` is what was asked of malloc for its data. */
  datatype Block = Block(id: nat, allocSize: nat, size: nat, capacity: nat)

  datatype Current = NoBlock | Current(block: Block)

  datatype Options = Options(initialBlockSize: nat, maxBlockSize: nat)

  const DEFAULT_OPTIONS: Options := Options(64, 8192)

  /** Memory handed out: a range of one block's data. */
  datatype Region = Region(block: nat, offset: nat, length: nat)

  predicate Disjoint(a: Region, b: Region) {
    a.block != b.block || a.offset + a.length <= b.offset || b.offset + b.length <= a.offset
  }

  predicate AllDisjoint(regions: seq<Region>) {
    forall i, j | 0 <= i < j < |regions| :: Disjoint(regions[i], regions[j])
  }

  predicate Inside(r: Region, b: Block) {
    r.block == b.id && r.offset + r.length <= b.capacity
  }

  predicate NearlyFull(b: Block) {
    4 * (b.size - b.allocSize) < b.size
  }

  /** Less than a quarter of a block that is no longer current was left unused. */
  predicate WellUsed(b: Block) {
    NearlyFull(b) || b.allocSize == b.size
  }

  predicate BlocksOk(cur: Current, isolated: seq<Block>, next: nat) {
    && (forall i | 0 <= i < |isolated| :: isolated[i].id < next)
    && (cur.Current? ==> cur.block.id < next && forall i | 0 <= i < |isolated| :: isolated[i].id != cur.block.id)
  }

  /** The current block's regions end where its next one will start. */
  predicate CurrentOk(cur: Current, regions: seq<Region>) {
    cur.Current? ==>
      && cur.block.allocSize <= cur.block.size == cur.block.capacity < UINT32
      && forall i | 0 <= i < |regions| :: regions[i].block == cur.block.id ==>
           regions[i].offset + regions[i].length <= cur.block.allocSize
  }

  /** The region lies in one of the blocks. */
  predicate Housed(r: Region, cur: Current, isolated: seq<Block>) {
    || (cur.Current? && Inside(r, cur.block))
    || exists k | 0 <= k < |isolated| :: Inside(r, isolated[k])
  }

  predicate AllHoused(regions: seq<Region>, cur: Current, isolated: seq<Block>) {
    forall i | 0 <= i < |regions| :: Housed(regions[i], cur, isolated)
  }

  /** A region in none of the old blocks is apart from all that are in them. */
  lemma NewIsApart(regions: seq<Region>, cur: Current, isolated: seq<Block>, next: nat, r: Region)
    requires AllHoused(regions, cur, isolated) && BlocksOk(cur, isolated, next) && r.block == next
    ensures forall i | 0 <= i < |regions| :: Disjoint(regions[i], r) && regions[i].block != next
  {
    forall i | 0 <= i < |regions| ensures regions[i].block != next {
      assert Housed(regions[i], cur, isolated);
    }
  }

  lemma DisjointSnoc(regions: seq<Region>, r: Region)
    requires AllDisjoint(regions) && forall i | 0 <= i < |regions| :: Disjoint(regions[i], r)
    ensures AllDisjoint(regions + [r])
  {
  }

  /** Regions stay in their blocks when a block is put before the others. */
  lemma HousedBehind(regions: seq<Region>, cur: Current, isolated: seq<Block>, b: Block, cur': Current)
    requires AllHoused(regions, cur, isolated)
    requires cur' == cur || (cur.Current? ==> cur.block == b)
    ensures AllHoused(regions, cur', [b] + isolated)
  {
    var blocks := [b] + isolated;
    forall i | 0 <= i < |regions| ensures Housed(regions[i], cur', blocks) {
      assert Housed(regions[i], cur, isolated);
      if exists k | 0 <= k < |isolated| :: Inside(regions[i], isolated[k]) {
        var k :| 0 <= k < |isolated| && Inside(regions[i], isolated[k]);
        assert blocks[k + 1] == isolated[k];
      } else {
        assert blocks[0] == b;
      }
    }
  }

  lemma HousedSnoc(regions: seq<Region>, cur: Current, isolated: seq<Block>, r: Region)
    requires AllHoused(regions, cur, isolated) && Housed(r, cur, isolated)
    ensures AllHoused(regions + [r], cur, isolated)
  {
    hide Housed;
  }

  /** The current block may have more of it in use. */
  lemma HousedUsed(regions: seq<Region>, b: Block, b': Block, isolated: seq<Block>)
    requires AllHoused(regions, Current(b), isolated) && b'.id == b.id && b'.capacity == b.capacity
    ensures AllHoused(regions, Current(b'), isolated)
  {
    forall i | 0 <= i < |regions| ensures Housed(regions[i], Current(b'), isolated) {
      assert Housed(regions[i], Current(b), isolated);
    }
  }

  /** What the heap allocator guarantees: each block it hands out is new. */
  class Heap {
    var next: nat

    constructor ()
    {
      next := 0;
    }

    method Malloc() returns (id: nat)
      modifies this
      ensures id == old(next) && next == id + 1
    {
      id := next;
      next := next + 1;
    }
  }

  class Arena {
    var cur: Current
    var isolated: seq<Block>
    var blockSize: nat
    var options: Options
    /** Everything handed out since the last clear. */
    ghost var regions: seq<Region>

    ghost predicate Valid(heap: Heap)
      reads this, heap
    {
      && options.maxBlockSize < UINT32 && blockSize < UINT32
      && BlocksOk(cur, isolated, heap.next) && CurrentOk(cur, regions)
      && AllHoused(regions, cur, isolated) && AllDisjoint(regions)
      && (cur.Current? ==> blockSize <= cur.block.size || NearlyFull(cur.block))
      && (forall i | 0 <= i < |isolated| :: WellUsed(isolated[i]))
    }

    constructor (options: Options, heap: Heap)
      requires options.maxBlockSize < UINT32 && options.initialBlockSize < UINT32
      ensures Valid(heap) && regions == []
      ensures cur == NoBlock && isolated == [] && this.options == options && blockSize == options.initialBlockSize
    {
      this.options := options;
      cur, isolated, blockSize := NoBlock, [], options.initialBlockSize;
      regions := [];
    }

    /**
     * Hands out n bytes: a region inside one of the arena's blocks, apart from all handed out
     * before. Nothing when memory runs out. What fits the current block is taken from it; of the
     * rest, what is over a quarter of the block size gets a block of its own, and everything else
     * starts a new current block, twice as large as the last up to the limit.
     */
    method Allocate(heap: Heap, n: nat, ok: bool) returns (r: Region, got: bool)
      requires Valid(heap)
      modifies this, heap
      ensures Valid(heap) && options == old(options)
      ensures got ==> regions == old(regions) + [r] && r.length == n
      ensures !got ==> regions == old(regions) && !ok
      ensures var fits := old(cur.Current? && cur.block.allocSize + n <= cur.block.size);
              && (fits ==>
                    && got && r == Region(old(cur).block.id, old(cur).block.allocSize, n)
                    && cur == Current(old(cur).block.(allocSize := old(cur).block.allocSize + n))
                    && isolated == old(isolated) && blockSize == old(blockSize) && heap.next == old(heap.next))
              && (!fits && n > old(blockSize) / 4 ==>
                    && got && r == Region(old(heap.next), 0, n) && cur == old(cur) && blockSize == old(blockSize)
                    && isolated == [Block(r.block, n % UINT32, n % UINT32, n)] + old(isolated))
              && (!fits && n <= old(blockSize) / 4 ==>
                    && Restarted(old(cur), old(isolated), old(blockSize), n, cur, isolated, blockSize, got)
                    && (got ==> r == Region(old(heap.next), 0, n) && cur.block.id == r.block))
    {
      if cur.Current? && cur.block.size - cur.block.allocSize >= n {
        var b := cur.block;
        r := Region(b.id, b.allocSize, n);
        cur := Current(b.(allocSize := (b.allocSize + n) % UINT32));
        HousedUsed(regions, b, cur.block, isolated);
        HousedSnoc(regions, cur, isolated, r);
        DisjointSnoc(regions, r);
        regions := regions + [r];
        return r, true;
      }
      r, got := AllocateInOtherBlocks(heap, n, ok);
    }

    /** A new current block, all but n bytes of it free; the one before is retired. */
    predicate Restarted(was: Current, retired: seq<Block>, size: nat, n: nat, now: Current, retired': seq<Block>,
                        size': nat, got: bool)
      reads this
    {
      && (was == NoBlock ==> size' == size)
      && (was.Current? ==> size' <= 2 * size && size' <= options.maxBlockSize)
      && (was.Current? ==> size' == 2 * size || size' == options.maxBlockSize)
      && (!got ==> now == was && retired' == retired)
      && (got ==>
            && now.Current? && now.block.allocSize == n && now.block.size == now.block.capacity
            && size' <= now.block.size && n <= now.block.size && (now.block.size == size' || now.block.size == n)
            && retired' == (if was.Current? then [was.block] else []) + retired)
    }

    /** An outlier gets a block of its own, which serves nothing else. */
    method AllocateNewBlock(heap: Heap, n: nat) returns (r: Region)
      requires Valid(heap)
      modifies this, heap
      ensures Valid(heap) && options == old(options) && blockSize == old(blockSize) && cur == old(cur)
      ensures regions == old(regions) + [r] && r == Region(old(heap.next), 0, n)
      ensures isolated == [Block(r.block, n % UINT32, n % UINT32, n)] + old(isolated)
    {
      var id := heap.Malloc();
      var b := Block(id, n % UINT32, n % UINT32, n);
      r := Region(id, 0, n);
      NewIsApart(regions, cur, isolated, id, r);
      HousedBehind(regions, cur, isolated, b, cur);
      isolated := [b] + isolated;
      assert Inside(r, isolated[0]);
      HousedSnoc(regions, cur, isolated, r);
      DisjointSnoc(regions, r);
      regions := regions + [r];
    }

    method AllocateInOtherBlocks(heap: Heap, n: nat, ok: bool) returns (r: Region, got: bool)
      requires Valid(heap)
      requires cur.Current? ==> cur.block.size - cur.block.allocSize < n
      modifies this, heap
      ensures Valid(heap) && options == old(options)
      ensures got ==> regions == old(regions) + [r] && r == Region(old(heap.next), 0, n)
      ensures !got ==> regions == old(regions) && !ok
      ensures n > old(blockSize) / 4 ==>
                && got && cur == old(cur) && blockSize == old(blockSize)
                && isolated == [Block(r.block, n % UINT32, n % UINT32, n)] + old(isolated)
      ensures n <= old(blockSize) / 4 ==>
                && Restarted(old(cur), old(isolated), old(blockSize), n, cur, isolated, blockSize, got)
                && (got ==> cur.block.id == r.block)
    {
      hide Disjoint, AllDisjoint, Housed, AllHoused;
      if n > blockSize / 4 {
        r := AllocateNewBlock(heap, n);
        return r, true;
      }
      if cur.Current? {
        blockSize := if 2 * blockSize < options.maxBlockSize then 2 * blockSize else options.maxBlockSize;
      }
      var newSize := blockSize;
      if newSize < n {
        newSize := n;
      }
      if !ok {
        return Region(0, 0, 0), false;
      }
      r := StartBlock(heap, n, newSize);
      got := true;
    }

    /** The current block is retired and a new one takes its place. */
    method StartBlock(heap: Heap, n: nat, newSize: nat) returns (r: Region)
      requires options.maxBlockSize < UINT32 && blockSize <= newSize < UINT32 && n <= newSize
      requires BlocksOk(cur, isolated, heap.next) && CurrentOk(cur, regions)
      requires AllHoused(regions, cur, isolated) && AllDisjoint(regions)
      requires cur.Current? ==> WellUsed(cur.block)
      requires forall i | 0 <= i < |isolated| :: WellUsed(isolated[i])
      modifies this, heap
      ensures Valid(heap) && options == old(options)
      ensures regions == old(regions) + [r] && r == Region(old(heap.next), 0, n) && blockSize == old(blockSize)
      ensures cur == Current(Block(r.block, n, newSize, newSize))
      ensures isolated == (if old(cur).Current? then [old(cur).block] else []) + old(isolated)
    {
      hide Disjoint, AllDisjoint, Housed, AllHoused, WellUsed;
      var id := heap.Malloc();
      var b := Block(id, n % UINT32, newSize % UINT32, newSize);
      r := Region(id, 0, n);
      NewIsApart(regions, cur, isolated, id, r);
      if cur.Current? {
        HousedBehind(regions, cur, isolated, cur.block, NoBlock);
        isolated := [cur.block] + isolated;
      }
      HousedAfresh(regions, isolated, b);
      cur := Current(b);
      AtHome(r, b, isolated);
      HousedSnoc(regions, cur, isolated, r);
      DisjointSnoc(regions, r);
      regions := regions + [r];
    }

    /** Exchanges two arenas with all they own. */
    method Swap(heap: Heap, other: Arena)
      requires Valid(heap) && other.Valid(heap)
      modifies this, other
      ensures Valid(heap) && other.Valid(heap)
      ensures cur == old(other.cur) && other.cur == old(cur)
      ensures isolated == old(other.isolated) && other.isolated == old(isolated)
      ensures regions == old(other.regions) && other.regions == old(regions)
      ensures options == old(other.options) && other.options == old(options)
      ensures blockSize == old(other.blockSize) && other.blockSize == old(blockSize)
    {
      cur, other.cur := other.cur, cur;
      isolated, other.isolated := other.isolated, isolated;
      blockSize, other.blockSize := other.blockSize, blockSize;
      options, other.options := other.options, options;
      regions, other.regions := other.regions, regions;
    }

    /** Gives everything up; the arena starts over with the default options. */
    method Clear(heap: Heap)
      requires Valid(heap)
      modifies this
      ensures Valid(heap) && regions == [] && cur == NoBlock && isolated == []
      ensures options == DEFAULT_OPTIONS && blockSize == DEFAULT_OPTIONS.initialBlockSize
    {
      var a := new Arena(DEFAULT_OPTIONS, heap);
      Swap(heap, a);
    }
  }

  lemma AtHome(r: Region, b: Block, isolated: seq<Block>)
    requires Inside(r, b)
    ensures Housed(r, Current(b), isolated)
  {
  }

  lemma HousedAfresh(regions: seq<Region>, isolated: seq<Block>, b: Block)
    requires AllHoused(regions, NoBlock, isolated)
    ensures AllHoused(regions, Current(b), isolated)
  {
    forall i | 0 <= i < |regions| ensures Housed(regions[i], Current(b), isolated) {
      assert Housed(regions[i], NoBlock, isolated);
    }
  }
}
