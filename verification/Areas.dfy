/** Reserved areas: how one is named, where it stays as the queue grows, and what assigning it changes. */
module Areas {
  import opened Memory

  /** A packed (reference index, offset in it, size) triple; zero is no area. */
  type Area = nat

  const INVALID_AREA: Area := 0
  const MAX_REF_INDEX: nat := 0x7_FFFF
  const MAX_REF_OFFSET: nat := 0x7FFF
  const MAX_AREA_SIZE: nat := 0x3FFF_FFFF

  function MakeArea(refIndex: nat, refOffset: nat, size: nat): Area {
    if refIndex > MAX_REF_INDEX || refOffset > MAX_REF_OFFSET || size > MAX_AREA_SIZE
    then INVALID_AREA
    else refIndex * 0x2000_0000_0000 + refOffset * 0x4000_0000 + size
  }

  function AreaRefIndex(a: Area): nat {
    a / 0x2000_0000_0000 % (MAX_REF_INDEX + 1)
  }

  function AreaRefOffset(a: Area): nat {
    a / 0x4000_0000 % (MAX_REF_OFFSET + 1)
  }

  function AreaSize(a: Area): nat {
    a % (MAX_AREA_SIZE + 1)
  }

  /** A triple is an area exactly when its parts have at most 19, 15 and 30 bits, not all zero; 64 bits hold it. */
  lemma AreaExactly(refIndex: nat, refOffset: nat, size: nat)
    ensures MakeArea(refIndex, refOffset, size) != INVALID_AREA
       <==> && refIndex < 524288 && refOffset < 32768 && size < 1073741824
            && (refIndex > 0 || refOffset > 0 || size > 0)
    ensures MakeArea(refIndex, refOffset, size) < 0x1_0000_0000_0000_0000
  {
  }

  /** Packing is lossless for every triple that fits. */
  lemma AreaRoundTrip(refIndex: nat, refOffset: nat, size: nat)
    requires MakeArea(refIndex, refOffset, size) != INVALID_AREA
    ensures var a := MakeArea(refIndex, refOffset, size);
            AreaRefIndex(a) == refIndex && AreaRefOffset(a) == refOffset && AreaSize(a) == size
  {
    var a := MakeArea(refIndex, refOffset, size);
    assert a / 0x4000_0000 == refIndex * 0x8000 + refOffset;
    assert a / 0x2000_0000_0000 == refIndex;
  }

  /** One byte of one block. */
  datatype Cell = Cell(block: BlockId, pos: nat)

  ghost function RefCells(r: BlockRef): (cells: seq<Cell>)
    ensures |cells| == r.length
    ensures forall k | 0 <= k < r.length :: cells[k] == Cell(r.block, r.offset + k)
  {
    seq(r.length, k requires 0 <= k < r.length => Cell(r.block, r.offset + k))
  }

  /** The cells a queue reads, in order. */
  ghost function Cells(refs: seq<BlockRef>): seq<Cell> {
    if refs == [] then [] else RefCells(refs[0]) + Cells(refs[1..])
  }

  lemma {:induction false} CellsConcat(a: seq<BlockRef>, b: seq<BlockRef>)
    ensures Cells(a + b) == Cells(a) + Cells(b)
  {
    if a == [] {
      assert a + b == b;
    } else {
      CellsConcat(a[1..], b);
      assert (a + b)[1..] == a[1..] + b && (a + b)[0] == a[0];
      ConcatAssociative(RefCells(a[0]), Cells(a[1..]), Cells(b));
    }
  }

  lemma CellsSnoc(refs: seq<BlockRef>, r: BlockRef)
    ensures Cells(refs + [r]) == Cells(refs) + RefCells(r)
  {
    CellsConcat(refs, [r]);
    assert [r][1..] == [];
    assert Cells([r]) == RefCells(r) + [];
  }

  lemma {:induction false} CellsTotal(refs: seq<BlockRef>)
    ensures |Cells(refs)| == Total(refs)
  {
    if refs != [] {
      CellsTotal(refs[1..]);
    }
  }

  /** Pushing a reference appends exactly its cells, merged or not. */
  lemma PushCells(refs: seq<BlockRef>, r: BlockRef)
    ensures Cells(Push(refs, r)) == Cells(refs) + RefCells(r)
  {
    if Merges(refs, r) {
      var n := |refs| - 1;
      var wide := refs[n].(length := refs[n].length + r.length);
      assert refs[..n] + [refs[n]] == refs;
      assert refs[..n] + [wide] == Push(refs, r);
      CellsSnoc(refs[..n], refs[n]);
      CellsSnoc(refs[..n], wide);
      assert RefCells(wide) == RefCells(refs[n]) + RefCells(r);
      ConcatAssociative(Cells(refs[..n]), RefCells(refs[n]), RefCells(r));
    } else {
      CellsSnoc(refs, r);
    }
  }

  /** References only get added behind the last one, which may also have become longer. */
  ghost predicate Extends(refs: seq<BlockRef>, refs': seq<BlockRef>) {
    && |refs| <= |refs'|
    && (forall i | 0 <= i < |refs| - 1 :: refs'[i] == refs[i])
    && (refs != [] ==> refs'[|refs| - 1].length >= refs[|refs| - 1].length)
  }

  lemma ExtendsReflexive(refs: seq<BlockRef>)
    ensures Extends(refs, refs) && Cells([]) == []
  {}

  lemma ExtendsTransitive(a: seq<BlockRef>, b: seq<BlockRef>, c: seq<BlockRef>)
    requires Extends(a, b) && Extends(b, c)
    ensures Extends(a, c)
  {}

  lemma AllExtendNone(refs: seq<BlockRef>)
    ensures Extends([], refs)
  {}

  lemma FewerExtend(refs: seq<BlockRef>, refs': seq<BlockRef>)
    requires refs != [] && Extends(refs, refs')
    ensures Extends(refs[..|refs| - 1], refs')
  {}

  lemma ShorterExtends(refs: seq<BlockRef>, n: nat, refs': seq<BlockRef>)
    requires refs != [] && n <= refs[|refs| - 1].length && Extends(refs, refs')
    ensures var k := |refs| - 1; Extends(refs[..k] + [refs[k].(length := refs[k].length - n)], refs')
  {}

  lemma PushExtends(refs: seq<BlockRef>, refs': seq<BlockRef>, r: BlockRef)
    requires Extends(refs, refs')
    ensures Extends(refs, Push(refs', r)) && Cells(Push(refs', r)) == Cells(refs') + RefCells(r)
  {
    PushCells(refs', r);
  }

  /** No valid reference in this memory reads the cell. */
  ghost predicate Unread(mem: Mem, c: Cell) {
    (c.block in mem.blocks && mem.blocks[c.block].size <= c.pos) || mem.next <= c.block
  }

  /** The queue grew by distinct cells that nobody could read before. */
  ghost predicate Grew(mem: Mem, refs: seq<BlockRef>, refs': seq<BlockRef>) {
    && Extends(refs, refs')
    && Cells(refs) <= Cells(refs')
    && NewCells(mem, Cells(refs'), |Cells(refs)|)
  }

  ghost predicate NewCells(mem: Mem, cells: seq<Cell>, from: nat) {
    && (forall k | from <= k < |cells| :: Unread(mem, cells[k]))
    && (forall i, j | from <= i < j < |cells| :: cells[i] != cells[j])
  }

  lemma GrewReflexive(mem: Mem, refs: seq<BlockRef>)
    ensures Grew(mem, refs, refs)
  {}

  /** A valid queue's cells are not unread. */
  lemma {:induction false} CellsAreRead(mem: Mem, refs: seq<BlockRef>)
    requires MemOk(mem) && RefsOk(mem, refs)
    ensures forall k | 0 <= k < |Cells(refs)| :: !Unread(mem, Cells(refs)[k])
  {
    if refs != [] {
      assert RefOk(mem, refs[0]);
      CellsAreRead(mem, refs[1..]);
    }
  }

  lemma GrewTransitive(m0: Mem, refs0: seq<BlockRef>, m1: Mem, refs1: seq<BlockRef>, refs2: seq<BlockRef>)
    requires MemOk(m0) && MemOk(m1) && Evolves(m0, m1) && RefsOk(m1, refs1)
    requires Grew(m0, refs0, refs1) && Grew(m1, refs1, refs2)
    ensures Grew(m0, refs0, refs2)
  {
    CellsAreRead(m1, refs1);
    NewCellsTransitive(m0, m1, Cells(refs1), Cells(refs2), |Cells(refs0)|);
  }

  lemma NewCellsTransitive(m0: Mem, m1: Mem, cells1: seq<Cell>, cells2: seq<Cell>, from: nat)
    requires Evolves(m0, m1) && cells1 <= cells2 && NewCells(m0, cells1, from)
    requires NewCells(m1, cells2, |cells1|) && forall k | 0 <= k < |cells1| :: !Unread(m1, cells1[k])
    ensures NewCells(m0, cells2, from)
  {
    forall k | from <= k < |cells2|
      ensures Unread(m0, cells2[k])
    {
      if k < |cells1| {
        assert cells2[k] == cells1[k];
      } else {
        UnreadBefore(m0, m1, cells2[k]);
      }
    }
    hide Unread, Evolves;
    forall i, j | from <= i < j < |cells2|
      ensures cells2[i] != cells2[j]
    {
      if j < |cells1| {
        assert cells1[i] != cells1[j];
      } else if i < |cells1| {
        assert !Unread(m1, cells1[i]) && Unread(m1, cells2[j]);
      }
    }
  }

  lemma UnreadBefore(m0: Mem, m1: Mem, c: Cell)
    requires Evolves(m0, m1) && Unread(m1, c)
    ensures Unread(m0, c)
  {}

  /** A reference written at a block's end covers only cells that were unread. */
  lemma WrittenUnread(m0: Mem, m1: Mem, r: BlockRef)
    requires Evolves(m0, m1) && r.block in m1.blocks && m1.blocks[r.block].size <= r.offset
    ensures forall k | 0 <= k < r.length :: Unread(m0, RefCells(r)[k])
  {
    forall k | 0 <= k < r.length
      ensures Unread(m0, RefCells(r)[k])
    {
      UnreadBefore(m0, m1, RefCells(r)[k]);
    }
  }

  lemma PushCount(refs: seq<BlockRef>, r: BlockRef)
    ensures 0 < |Push(refs, r)| && Push(refs, r)[|Push(refs, r)| - 1].length >= r.length
  {}

  lemma GrewExtends(mem: Mem, refs: seq<BlockRef>, refs': seq<BlockRef>)
    requires Grew(mem, refs, refs')
    ensures Extends(refs, refs')
  {}

  lemma PushGrew(mem: Mem, refs: seq<BlockRef>, r: BlockRef)
    requires forall k | 0 <= k < r.length :: Unread(mem, RefCells(r)[k])
    ensures Grew(mem, refs, Push(refs, r))
  {
    PushCells(refs, r);
    hide Cells, Unread;
    forall k | |Cells(refs)| <= k < |Cells(Push(refs, r))|
      ensures Unread(mem, Cells(Push(refs, r))[k])
    {
      assert Cells(Push(refs, r))[k] == RefCells(r)[k - |Cells(refs)|];
    }
    forall i, j | |Cells(refs)| <= i < j < |Cells(Push(refs, r))|
      ensures Cells(Push(refs, r))[i] != Cells(Push(refs, r))[j]
    {
      assert RefCells(r)[i - |Cells(refs)|] != RefCells(r)[j - |Cells(refs)|];
    }
  }

  /** Where an area starts, as a position in the bytes of the queue. */
  ghost function Position(refs: seq<BlockRef>, index: nat, offset: nat): nat
    requires index <= |refs|
  {
    Total(refs[..index]) + offset
  }

  /** An area keeps its position however the queue grows behind it. */
  lemma PositionStays(refs: seq<BlockRef>, refs': seq<BlockRef>, index: nat, offset: nat)
    requires Extends(refs, refs') && index < |refs|
    ensures Position(refs', index, offset) == Position(refs, index, offset)
  {
    assert refs'[..index] == refs[..index];
  }

  /** The area names the n bytes from position p of the queue. */
  ghost predicate Names(refs: seq<BlockRef>, area: Area, p: nat, n: nat) {
    && area != INVALID_AREA
    && AreaRefIndex(area) < |refs|
    && AreaRefOffset(area) <= refs[AreaRefIndex(area)].length
    && AreaSize(area) == n
    && Position(refs, AreaRefIndex(area), AreaRefOffset(area)) == p
  }

  lemma NamesStays(refs: seq<BlockRef>, refs': seq<BlockRef>, area: Area, p: nat, n: nat)
    requires Names(refs, area, p, n) && Extends(refs, refs')
    ensures Names(refs', area, p, n)
  {
    PositionStays(refs, refs', AreaRefIndex(area), AreaRefOffset(area));
  }

  /** A push that starts where the queue ended leaves its end inside the last reference. */
  lemma PushPosition(refs: seq<BlockRef>, r: BlockRef)
    ensures var refs' := Push(refs, r);
            var k := |refs'| - 1;
            && 0 <= k && r.length <= refs'[k].length
            && Position(refs', k, refs'[k].length - r.length) == Total(refs)
  {
    hide Total;
    PushTotal(refs, r);
    PushCount(refs, r);
    hide Push;
    TotalBack(Push(refs, r));
  }

  /** The area encoded right after the first push names the end of the queue as it was. */
  lemma FirstPushNames(refs: seq<BlockRef>, r: BlockRef, n: nat)
    requires 0 < r.length
    ensures var refs' := Push(refs, r);
            var k := |refs'| - 1;
            var area := MakeArea(k, refs'[k].length - r.length, n);
            area != INVALID_AREA ==> Names(refs', area, Total(refs), n)
  {
    hide Total, AreaRefIndex, AreaRefOffset, AreaSize, Push, Position;
    var refs' := Push(refs, r);
    var k := |refs'| - 1;
    PushPosition(refs, r);
    var offset := refs'[k].length - r.length;
    if MakeArea(k, offset, n) != INVALID_AREA {
      AreaRoundTrip(k, offset, n);
    }
  }

  /** The byte at position p lies in a reference, and at an offset of it, that an area can name. */
  ghost predicate Nameable(refs: seq<BlockRef>, p: nat) {
    exists i: nat, offset: nat | i < |refs| && offset < refs[i].length ::
      Position(refs, i, offset) == p && i <= MAX_REF_INDEX && offset <= MAX_REF_OFFSET
  }

  lemma {:induction false} TotalPrefix(refs: seq<BlockRef>, i: nat, j: nat)
    requires i <= j <= |refs|
    ensures Total(refs[..i]) <= Total(refs[..j])
  {
    if i < j {
      TotalPrefix(refs, i, j - 1);
      TotalSnoc(refs[..j - 1], refs[j - 1]);
      assert refs[..j - 1] + [refs[j - 1]] == refs[..j];
    }
  }

  lemma PlaceBefore(refs: seq<BlockRef>, i: nat, offset: nat, j: nat, offset': nat)
    requires i < j < |refs| && offset < refs[i].length
    ensures Position(refs, i, offset) < Position(refs, j, offset')
  {
    hide Total;
    TotalPrefix(refs, i + 1, j);
    TotalSnoc(refs[..i], refs[i]);
    assert refs[..i] + [refs[i]] == refs[..i + 1];
  }

  /** A position has one place only. */
  lemma PlaceUnique(refs: seq<BlockRef>, i: nat, offset: nat, j: nat, offset': nat)
    requires i < |refs| && offset < refs[i].length && j < |refs| && offset' < refs[j].length
    requires Position(refs, i, offset) == Position(refs, j, offset')
    ensures i == j && offset == offset'
  {
    if i < j {
      PlaceBefore(refs, i, offset, j, offset');
    } else if j < i {
      PlaceBefore(refs, j, offset', i, offset);
    }
  }

  lemma PlaceDecides(refs: seq<BlockRef>, i: nat, offset: nat)
    requires i < |refs| && offset < refs[i].length
    ensures Nameable(refs, Position(refs, i, offset)) <==> i <= MAX_REF_INDEX && offset <= MAX_REF_OFFSET
  {
    hide Position;
    if Nameable(refs, Position(refs, i, offset)) {
      var j: nat, offset': nat :| j < |refs| && offset' < refs[j].length
        && Position(refs, j, offset') == Position(refs, i, offset) && j <= MAX_REF_INDEX && offset' <= MAX_REF_OFFSET;
      PlaceUnique(refs, i, offset, j, offset');
    }
  }

  lemma {:induction false} PlaceExists(refs: seq<BlockRef>, p: nat) returns (i: nat, offset: nat)
    requires p < Total(refs)
    ensures i < |refs| && offset < refs[i].length && Position(refs, i, offset) == p
  {
    TotalBack(refs);
    var n := |refs| - 1;
    if p < Total(refs[..n]) {
      i, offset := PlaceExists(refs[..n], p);
      assert refs[..n][..i] == refs[..i];
    } else {
      i, offset := n, p - Total(refs[..n]);
    }
  }

  /** Growing a queue behind a position does not change whether it can be named. */
  lemma NameableStays(refs: seq<BlockRef>, refs': seq<BlockRef>, p: nat)
    requires Extends(refs, refs') && p < Total(refs)
    ensures Nameable(refs', p) <==> Nameable(refs, p)
  {
    hide Position, Nameable, Total;
    var i, offset := PlaceExists(refs, p);
    PositionStays(refs, refs', i, offset);
    PlaceDecides(refs, i, offset);
    PlaceDecides(refs', i, offset);
  }

  /** Whether the end of a queue can be named after the first push. */
  lemma FirstPushNameable(refs: seq<BlockRef>, r: BlockRef, n: nat)
    requires 0 < r.length && 0 < n <= MAX_AREA_SIZE
    ensures var refs' := Push(refs, r);
            var k := |refs'| - 1;
            && 0 <= k && r.length <= refs'[k].length
            && (MakeArea(k, refs'[k].length - r.length, n) != INVALID_AREA <==> Nameable(refs', Total(refs)))
            && Total(refs) < Total(refs')
  {
    PushPosition(refs, r);
    PushTotal(refs, r);
    hide Position, Nameable, Total, Push;
    var refs' := Push(refs, r);
    var k := |refs'| - 1;
    PlaceDecides(refs', k, refs'[k].length - r.length);
  }

  /** In a queue of few references, none of them long, every byte can be named. */
  lemma FewNameable(refs: seq<BlockRef>, p: nat)
    requires p < Total(refs) && |refs| <= MAX_REF_INDEX + 1
    requires forall i | 0 <= i < |refs| :: refs[i].length <= MAX_REF_OFFSET + 1
    ensures Nameable(refs, p)
  {
    hide Position, Nameable, Total;
    var i, offset := PlaceExists(refs, p);
    PlaceDecides(refs, i, offset);
  }

  /** The cells from a place inside one reference are that reference's. */
  lemma ChunkCells(refs: seq<BlockRef>, i: nat, offset: nat, nc: nat)
    requires i < |refs| && offset + nc <= refs[i].length
    ensures var p := Position(refs, i, offset);
            && p + nc <= |Cells(refs)| == Total(refs)
            && Cells(refs)[p..p + nc] == RefCells(BlockRef(refs[i].offset + offset, nc, refs[i].block))
  {
    CellsTotal(refs);
    CellsTotal(refs[..i]);
    CellsSnoc(refs[..i], refs[i]);
    CellsConcat(refs[..i + 1], refs[i + 1..]);
    assert refs[..i] + [refs[i]] == refs[..i + 1];
    assert refs[..i + 1] + refs[i + 1..] == refs;
    hide Cells, Total;
    var p := Position(refs, i, offset);
    var chunk := BlockRef(refs[i].offset + offset, nc, refs[i].block);
    forall k | 0 <= k < nc
      ensures Cells(refs)[p..p + nc][k] == RefCells(chunk)[k]
    {
      assert Cells(refs)[p + k] == RefCells(refs[i])[offset + k];
    }
  }

  lemma PositionAdds(refs: seq<BlockRef>, i: nat, offset: nat, nc: nat)
    requires i < |refs|
    ensures Position(refs, i, offset + nc) == Position(refs, i, offset) + nc
  {}

  lemma PositionEnd(refs: seq<BlockRef>)
    ensures Position(refs, |refs|, 0) == Total(refs)
  {
    assert refs[..|refs|] == refs;
  }

  lemma NextPosition(refs: seq<BlockRef>, i: nat)
    requires i < |refs|
    ensures Position(refs, i + 1, 0) == Position(refs, i, refs[i].length)
  {
    TotalSnoc(refs[..i], refs[i]);
    assert refs[..i] + [refs[i]] == refs[..i + 1];
  }

  /** No other place in the queue reads the cells at positions p up to p + n. */
  ghost predicate Exclusive(refs: seq<BlockRef>, p: nat, n: nat) {
    && p + n <= |Cells(refs)|
    && forall i, j | p <= i < p + n && 0 <= j < |Cells(refs)| && i != j :: Cells(refs)[i] != Cells(refs)[j]
  }

  /** No cell of another queue is among those at positions p up to p + n. */
  ghost predicate Avoids(other: seq<BlockRef>, refs: seq<BlockRef>, p: nat, n: nat)
    requires p + n <= |Cells(refs)|
  {
    forall i, j | p <= i < p + n && 0 <= j < |Cells(other)| :: Cells(refs)[i] != Cells(other)[j]
  }

  /** What a queue grew by is read nowhere else: not in it and not in any queue valid before. */
  lemma GrownIsExclusive(mem: Mem, refs: seq<BlockRef>, refs': seq<BlockRef>)
    requires MemOk(mem) && RefsOk(mem, refs) && Grew(mem, refs, refs')
    ensures Exclusive(refs', |Cells(refs)|, |Cells(refs')| - |Cells(refs)|)
  {
    CellsAreRead(mem, refs);
    hide Unread, MemOk, RefsOk, Cells;
    var n := |Cells(refs)|;
    forall i, j | n <= i < |Cells(refs')| && 0 <= j < |Cells(refs')| && i != j
      ensures Cells(refs')[i] != Cells(refs')[j]
    {
      if j < n {
        assert Cells(refs')[j] == Cells(refs)[j];
        assert !Unread(mem, Cells(refs)[j]) && Unread(mem, Cells(refs')[i]);
      } else if i < j {
      } else {
        assert Cells(refs')[j] != Cells(refs')[i];
      }
    }
  }

  lemma GrownIsAvoided(mem: Mem, refs: seq<BlockRef>, refs': seq<BlockRef>, other: seq<BlockRef>)
    requires MemOk(mem) && RefsOk(mem, other) && Grew(mem, refs, refs')
    ensures Avoids(other, refs', |Cells(refs)|, |Cells(refs')| - |Cells(refs)|)
  {
    CellsAreRead(mem, other);
    hide Unread, MemOk, RefsOk, Cells;
    forall i, j | |Cells(refs)| <= i < |Cells(refs')| && 0 <= j < |Cells(other)|
      ensures Cells(refs')[i] != Cells(other)[j]
    {
      assert Unread(mem, Cells(refs')[i]) && !Unread(mem, Cells(other)[j]);
    }
  }

  /** Growing keeps an exclusive stretch exclusive. */
  lemma ExclusiveGrows(mem: Mem, refs: seq<BlockRef>, refs': seq<BlockRef>, p: nat, n: nat)
    requires MemOk(mem) && RefsOk(mem, refs) && Grew(mem, refs, refs') && Exclusive(refs, p, n)
    ensures Exclusive(refs', p, n)
  {
    CellsAreRead(mem, refs);
    hide Unread, MemOk, RefsOk, Cells;
    forall i, j | p <= i < p + n && 0 <= j < |Cells(refs')| && i != j
      ensures Cells(refs')[i] != Cells(refs')[j]
    {
      assert Cells(refs')[i] == Cells(refs)[i];
      if j < |Cells(refs)| {
        assert Cells(refs')[j] == Cells(refs)[j];
      } else {
        assert !Unread(mem, Cells(refs)[i]) && Unread(mem, Cells(refs')[j]);
      }
    }
  }

  /** So does appending another queue that avoids it. */
  lemma ExclusiveAppends(refs: seq<BlockRef>, refs': seq<BlockRef>, other: seq<BlockRef>, p: nat, n: nat)
    requires Exclusive(refs, p, n) && Avoids(other, refs, p, n) && Cells(refs') == Cells(refs) + Cells(other)
    ensures Exclusive(refs', p, n)
  {
    hide Cells;
    forall i, j | p <= i < p + n && 0 <= j < |Cells(refs')| && i != j
      ensures Cells(refs')[i] != Cells(refs')[j]
    {
      assert Cells(refs')[i] == Cells(refs)[i];
      if j < |Cells(refs)| {
        assert Cells(refs')[j] == Cells(refs)[j];
      } else {
        assert Cells(refs')[j] == Cells(other)[j - |Cells(refs)|];
      }
    }
  }

  ghost predicate InMem(mem: Mem, c: Cell) {
    c.block in mem.blocks && c.pos < |mem.blocks[c.block].data|
  }

  function CellByte(mem: Mem, c: Cell): Byte {
    if c.block in mem.blocks && c.pos < |mem.blocks[c.block].data| then mem.blocks[c.block].data[c.pos] else 0
  }

  /** A queue reads its cells. */
  lemma {:induction false} BytesAreCells(mem: Mem, refs: seq<BlockRef>)
    requires MemOk(mem) && RefsOk(mem, refs)
    ensures |Bytes(mem, refs)| == |Cells(refs)|
    ensures forall k | 0 <= k < |Cells(refs)| ::
              InMem(mem, Cells(refs)[k]) && Bytes(mem, refs)[k] == CellByte(mem, Cells(refs)[k])
  {
    if refs != [] {
      var r := refs[0];
      PieceIsCells(mem, refs, r);
      BytesAreCells(mem, refs[1..]);
      hide MemOk, RefsOk, InMem, CellByte, Piece, RefCells;
      forall k | 0 <= k < |Cells(refs)|
        ensures InMem(mem, Cells(refs)[k]) && Bytes(mem, refs)[k] == CellByte(mem, Cells(refs)[k])
      {
        if k < r.length {
          assert Cells(refs)[k] == RefCells(r)[k];
        } else {
          assert Cells(refs)[k] == Cells(refs[1..])[k - r.length];
        }
      }
    }
  }

  lemma PieceIsCells(mem: Mem, refs: seq<BlockRef>, r: BlockRef)
    requires MemOk(mem) && RefsOk(mem, refs) && refs != [] && r == refs[0]
    ensures |Piece(mem, r)| == r.length
    ensures forall k | 0 <= k < r.length ::
              InMem(mem, RefCells(r)[k]) && Piece(mem, r)[k] == CellByte(mem, RefCells(r)[k])
  {
    assert RefOk(mem, refs[0]);
  }

  /** The same blocks, counts and sizes; only bytes differ. */
  ghost predicate SameShape(m: Mem, m': Mem) {
    && m'.next == m.next && m'.blocks.Keys == m.blocks.Keys
    && forall b | b in m.blocks ::
      && |m'.blocks[b].data| == |m.blocks[b].data|
      && m'.blocks[b] == m.blocks[b].(data := m'.blocks[b].data)
  }

  /** Exactly these cells were written, with these bytes. */
  ghost predicate Assigned(m: Mem, m': Mem, cells: seq<Cell>, data: seq<Byte>) {
    && |cells| == |data| && SameShape(m, m')
    && (forall k | 0 <= k < |cells| :: CellByte(m', cells[k]) == data[k])
    && (forall c: Cell | c !in cells :: CellByte(m', c) == CellByte(m, c))
  }

  lemma AssignedNothing(m: Mem)
    ensures Assigned(m, m, [], [])
  {}

  lemma AssignedThen(m0: Mem, m1: Mem, m2: Mem, a: seq<Cell>, x: seq<Byte>, b: seq<Cell>, y: seq<Byte>)
    requires Assigned(m0, m1, a, x) && Assigned(m1, m2, b, y)
    requires forall i, j | 0 <= i < |a| && 0 <= j < |b| :: a[i] != b[j]
    ensures Assigned(m0, m2, a + b, x + y)
  {
    hide CellByte;
    assert SameShape(m0, m2);
    hide SameShape;
    forall k | 0 <= k < |a|
      ensures CellByte(m2, a[k]) == x[k]
    {
      assert a[k] !in b;
    }
  }

  /** Copies bytes over part of one reference. */
  function Overwrite(mem: Mem, b: BlockId, pos: nat, data: seq<Byte>): Mem
    requires b in mem.blocks && pos + |data| <= |mem.blocks[b].data|
  {
    var x := mem.blocks[b];
    mem.(blocks := mem.blocks[b := x.(data := x.data[..pos] + data + x.data[pos + |data|..])])
  }

  lemma OverwrittenByte(mem: Mem, b: BlockId, pos: nat, data: seq<Byte>, c: Cell)
    requires b in mem.blocks && pos + |data| <= |mem.blocks[b].data|
    ensures CellByte(Overwrite(mem, b, pos, data), c)
         == if c.block == b && pos <= c.pos < pos + |data| then data[c.pos - pos] else CellByte(mem, c)
  {
  }

  lemma OverwriteAssigns(mem: Mem, b: BlockId, pos: nat, data: seq<Byte>)
    requires b in mem.blocks && pos + |data| <= |mem.blocks[b].data|
    ensures Assigned(mem, Overwrite(mem, b, pos, data), RefCells(BlockRef(pos, |data|, b)), data)
  {
    var mem', cells := Overwrite(mem, b, pos, data), RefCells(BlockRef(pos, |data|, b));
    assert SameShape(mem, mem');
    hide Overwrite, CellByte, SameShape;
    forall k | 0 <= k < |cells| ensures CellByte(mem', cells[k]) == data[k] {
      OverwrittenByte(mem, b, pos, data, cells[k]);
    }
    forall c: Cell | c.block == b && pos <= c.pos < pos + |data| ensures c in cells {
      assert cells[c.pos - pos] == c;
    }
    forall c: Cell | c !in cells ensures CellByte(mem', c) == CellByte(mem, c) {
      OverwrittenByte(mem, b, pos, data, c);
    }
  }

  lemma AssignedKeepsRefs(m: Mem, m': Mem, cells: seq<Cell>, data: seq<Byte>, refs: seq<BlockRef>)
    requires Assigned(m, m', cells, data) && MemOk(m) && RefsOk(m, refs)
    ensures MemOk(m') && RefsOk(m', refs)
  {
    forall i | 0 <= i < |refs| ensures RefOk(m', refs[i]) {
      assert RefOk(m, refs[i]);
    }
  }

  lemma Spliced<T>(was: seq<T>, now: seq<T>, data: seq<T>, p: nat)
    requires |now| == |was| && p + |data| <= |was|
    requires forall k | 0 <= k < |was| :: now[k] == if p <= k < p + |data| then data[k - p] else was[k]
    ensures now == was[..p] + data + was[p + |data|..]
  {}

  lemma CellAssigned(m: Mem, m': Mem, cells: seq<Cell>, p: nat, n: nat, data: seq<Byte>, k: nat)
    requires p + n <= |cells| && k < |cells| && Assigned(m, m', cells[p..p + n], data)
    requires forall i | p <= i < p + n && i != k :: cells[i] != cells[k]
    ensures CellByte(m', cells[k]) == if p <= k < p + n then data[k - p] else CellByte(m, cells[k])
  {
    hide SameShape, CellByte;
    if p <= k < p + n {
      assert cells[p..p + n][k - p] == cells[k];
    } else {
      assert cells[k] !in cells[p..p + n];
    }
  }

  /** Assigning an exclusive stretch replaces those bytes of the queue and no others. */
  lemma AssignReplaces(m: Mem, m': Mem, refs: seq<BlockRef>, p: nat, n: nat, data: seq<Byte>)
    requires MemOk(m) && RefsOk(m, refs) && Exclusive(refs, p, n)
    requires Assigned(m, m', Cells(refs)[p..p + n], data)
    ensures RefsOk(m', refs) && p + n <= |Bytes(m, refs)|
    ensures Bytes(m', refs) == Bytes(m, refs)[..p] + data + Bytes(m, refs)[p + n..]
  {
    AssignedKeepsRefs(m, m', Cells(refs)[p..p + n], data, refs);
    BytesAreCells(m, refs);
    BytesAreCells(m', refs);
    var cells, was, now := Cells(refs), Bytes(m, refs), Bytes(m', refs);
    assert |data| == n;
    hide Cells, Bytes, RefsOk, MemOk, Assigned, CellByte, InMem;
    forall k | 0 <= k < |cells|
      ensures now[k] == if p <= k < p + n then data[k - p] else was[k]
    {
      CellAssigned(m, m', cells, p, n, data, k);
    }
    Spliced(was, now, data, p);
  }

  /** It changes nothing for a queue that avoids the stretch. */
  lemma AssignAvoids(m: Mem, m': Mem, refs: seq<BlockRef>, p: nat, n: nat, data: seq<Byte>, other: seq<BlockRef>)
    requires MemOk(m) && RefsOk(m, other) && p + n <= |Cells(refs)| && Avoids(other, refs, p, n)
    requires Assigned(m, m', Cells(refs)[p..p + n], data)
    ensures RefsOk(m', other) && Bytes(m', other) == Bytes(m, other)
  {
    AssignedKeepsRefs(m, m', Cells(refs)[p..p + n], data, other);
    BytesAreCells(m, other);
    BytesAreCells(m', other);
    hide Cells, Bytes, RefsOk, MemOk, SameShape, CellByte;
    forall k | 0 <= k < |Cells(other)|
      ensures Bytes(m', other)[k] == Bytes(m, other)[k]
    {
      assert Cells(other)[k] !in Cells(refs)[p..p + n];
    }
  }

  /** One more chunk assigned: the stretch done so far grows by it. */
  lemma AssignChunk(m0: Mem, m1: Mem, m2: Mem, refs: seq<BlockRef>, p: nat, done: nat, nc: nat, n: nat,
                    x: seq<Byte>, y: seq<Byte>)
    requires Exclusive(refs, p, n) && done + nc <= n
    requires Assigned(m0, m1, Cells(refs)[p..p + done], x)
    requires Assigned(m1, m2, Cells(refs)[p + done..p + done + nc], y)
    ensures Assigned(m0, m2, Cells(refs)[p..p + done + nc], x + y)
  {
    hide Cells, Assigned;
    var cells := Cells(refs);
    var a, b := cells[p..p + done], cells[p + done..p + done + nc];
    forall i, j | 0 <= i < |a| && 0 <= j < |b|
      ensures a[i] != b[j]
    {
      assert a[i] == cells[p + i] && b[j] == cells[p + done + j];
    }
    AssignedThen(m0, m1, m2, a, x, b, y);
    assert a + b == cells[p..p + done + nc];
  }
}
