/** Reserving bytes in a buffer, appending to it whatever comes, and writing the reserved bytes last. */
module Reservations {
  import opened Memory
  import opened Views
  import opened BlockStores
  import opened Sides
  import opened Areas
  import opened IOBufs

  // ---- reserved bytes stay where they are and stay this buffer's alone

  /**
   * Since s0 the queue has grown first to refs1, by the reserved bytes, and then to s, and the area
   * names the first n of the reserved bytes still.
   */
  ghost predicate Reserved(s0: Side, refs1: seq<BlockRef>, area: Area, n: nat, s: Side) {
    && Kept(s0, s) && Grew(s0.mem, s0.refs, refs1) && Extends(refs1, s.refs) && Cells(refs1) <= Cells(s.refs)
    && (area != INVALID_AREA ==>
          && |Cells(refs1)| >= |Cells(s0.refs)| + n
          && Names(s.refs, area, |Cells(s0.refs)|, n)
          && Exclusive(s.refs, |Cells(s0.refs)|, n))
  }

  lemma ReservedStarts(s0: Side, area: Area, n: nat, s: Side)
    requires MemOk(s0.mem) && RefsOk(s0.mem, s0.refs) && MemOk(s.mem) && RefsOk(s.mem, s.refs)
    requires Kept(s0, s) && Grew(s0.mem, s0.refs, s.refs)
    requires area != INVALID_AREA ==>
               |s.Bytes()| >= |s0.Bytes()| + n && Names(s.refs, area, |s0.Bytes()|, n)
    ensures Reserved(s0, s.refs, area, n, s)
  {
    hide Kept, Grew, Names, Exclusive, Bytes, Cells, RefsOk, MemOk, Extends;
    CellsCounted(s0.mem, s0.refs);
    CellsCounted(s.mem, s.refs);
    ExtendsReflexive(s.refs);
    GrownIsExclusive(s0.mem, s0.refs, s.refs);
    if area != INVALID_AREA {
      ExclusivePart(s.refs, |Cells(s0.refs)|, |Cells(s.refs)| - |Cells(s0.refs)|, n);
    }
  }

  lemma ExclusivePart(refs: seq<BlockRef>, p: nat, n: nat, m: nat)
    requires Exclusive(refs, p, n) && m <= n
    ensures Exclusive(refs, p, m)
  {
  }

  lemma CellsCounted(mem: Mem, refs: seq<BlockRef>)
    requires MemOk(mem) && RefsOk(mem, refs)
    ensures |Bytes(mem, refs)| == |Cells(refs)|
  {
    hide Bytes, Cells, MemOk, RefsOk;
    BytesAreCells(mem, refs);
  }

  lemma ReservedGrows(s0: Side, refs1: seq<BlockRef>, area: Area, n: nat, s: Side, s': Side)
    requires MemOk(s0.mem) && MemOk(s.mem) && RefsOk(s.mem, s.refs)
    requires Reserved(s0, refs1, area, n, s) && Kept(s, s') && Grew(s.mem, s.refs, s'.refs)
    ensures Reserved(s0, refs1, area, n, s')
  {
    KeptTransitive(s0, s, s');
    GrewExtends(s.mem, s.refs, s'.refs);
    GrewCells(s.mem, s.refs, s'.refs);
    ExtendsTransitive(refs1, s.refs, s'.refs);
    hide Kept, Grew, Names, Exclusive, Cells, RefsOk, MemOk, Extends;
    if area != INVALID_AREA {
      NamesStays(s.refs, s'.refs, area, |Cells(s0.refs)|, n);
      ExclusiveGrows(s.mem, s.refs, s'.refs, |Cells(s0.refs)|, n);
    }
  }

  lemma GrewCells(mem: Mem, refs: seq<BlockRef>, refs': seq<BlockRef>)
    requires Grew(mem, refs, refs')
    ensures Cells(refs) <= Cells(refs')
  {
  }

  /** A queue that was valid before the reservation does not read the reserved bytes. */
  lemma ReservedAvoided(s0: Side, refs1: seq<BlockRef>, area: Area, n: nat, s: Side, other: seq<BlockRef>)
    requires MemOk(s0.mem) && RefsOk(s0.mem, other) && Reserved(s0, refs1, area, n, s) && area != INVALID_AREA
    ensures |Cells(s0.refs)| + n <= |Cells(s.refs)| && Avoids(other, s.refs, |Cells(s0.refs)|, n)
  {
    GrownIsAvoided(s0.mem, s0.refs, refs1, other);
    hide Kept, Grew, Names, Cells, RefsOk, MemOk;
    forall i, j | |Cells(s0.refs)| <= i < |Cells(s0.refs)| + n && 0 <= j < |Cells(other)|
      ensures Cells(s.refs)[i] != Cells(other)[j]
    {
      assert Cells(s.refs)[i] == Cells(refs1)[i];
    }
  }

  lemma ReservedAppends(s0: Side, refs1: seq<BlockRef>, area: Area, n: nat, s: Side, s': Side, other: seq<BlockRef>)
    requires MemOk(s0.mem) && MemOk(s.mem) && RefsOk(s0.mem, other)
    requires Reserved(s0, refs1, area, n, s) && Kept(s, s') && Extends(s.refs, s'.refs)
    requires Cells(s'.refs) == Cells(s.refs) + Cells(other)
    ensures Reserved(s0, refs1, area, n, s')
  {
    KeptTransitive(s0, s, s');
    ExtendsTransitive(refs1, s.refs, s'.refs);
    if area != INVALID_AREA {
      ReservedAvoided(s0, refs1, area, n, s, other);
      hide Kept, Grew, Names, Exclusive, Cells, RefsOk, MemOk, Extends, Avoids;
      NamesStays(s.refs, s'.refs, area, |Cells(s0.refs)|, n);
      ExclusiveAppends(s.refs, s'.refs, other, |Cells(s0.refs)|, n);
    }
  }

  /** Filling in the head changes those bytes of the buffer, and of no other. */
  lemma ReservedFilled(s0: Side, refs1: seq<BlockRef>, area: Area, n: nat, s: Side, mem': Mem, head: seq<Byte>)
    requires MemOk(s0.mem) && RefsOk(s0.mem, s0.refs) && MemOk(s.mem) && RefsOk(s.mem, s.refs)
    requires Reserved(s0, refs1, area, n, s) && area != INVALID_AREA && |head| == n
    requires |Cells(s0.refs)| + n <= |Cells(s.refs)|
    requires Assigned(s.mem, mem', Cells(s.refs)[|Cells(s0.refs)|..|Cells(s0.refs)| + n], head)
    ensures var p := |s0.Bytes()|;
            && p + n <= |s.Bytes()| && RefsOk(mem', s.refs)
            && Bytes(mem', s.refs) == s.Bytes()[..p] + head + s.Bytes()[p + n..]
  {
    hide Kept, Grew, Names, Exclusive, Bytes, Cells, RefsOk, MemOk, Assigned;
    CellsCounted(s0.mem, s0.refs);
    AssignReplaces(s.mem, mem', s.refs, |Cells(s0.refs)|, n, head);
  }

  lemma OthersUnfilled(s0: Side, refs1: seq<BlockRef>, area: Area, n: nat, s: Side, chain: seq<BlockId>, mem': Mem,
                       head: seq<Byte>, other: seq<BlockRef>)
    requires MemOk(s0.mem) && RefsOk(s0.mem, other) && Apart(s0.held, s0.refs, other)
    requires Balanced(s.mem, chain, s.held) && Reserved(s0, refs1, area, n, s) && area != INVALID_AREA
    requires |Cells(s0.refs)| + n <= |Cells(s.refs)|
    requires Assigned(s.mem, mem', Cells(s.refs)[|Cells(s0.refs)|..|Cells(s0.refs)| + n], head)
    ensures RefsOk(mem', other) && Bytes(mem', other) == Bytes(s0.mem, other) && Apart(s.held, s.refs, other)
  {
    hide Kept, Grew, Names, Exclusive, Bytes, Cells, RefsOk, MemOk, Assigned, Apart, Balanced, Uniform, Refusals;
    BalancedMem(s.mem, chain, s.held);
    OtherUntouched(s0, s, chain, other);
    ReservedAvoided(s0, refs1, area, n, s, other);
    AssignAvoids(s.mem, mem', s.refs, |Cells(s0.refs)|, n, head, other);
  }

  lemma NamesMeans(refs: seq<BlockRef>, area: Area, p: nat, n: nat)
    requires Names(refs, area, p, n) && p + n <= Total(refs)
    ensures AreaRefIndex(area) < |refs| && AreaRefOffset(area) <= refs[AreaRefIndex(area)].length
    ensures AreaSize(area) == n && AreaStart(refs, area) == p && AreaHere(refs, area) == n
  {
  }

  lemma CellsReached(s0: Side, refs1: seq<BlockRef>, area: Area, n: nat, s: Side)
    requires Reserved(s0, refs1, area, n, s) && area != INVALID_AREA
    ensures |Cells(s0.refs)| + n <= |Cells(s.refs)| == Total(s.refs)
    ensures Names(s.refs, area, |Cells(s0.refs)|, n) && Exclusive(s.refs, |Cells(s0.refs)|, n)
  {
    CellsTotal(s.refs);
  }

  lemma ReservedKept(s0: Side, refs1: seq<BlockRef>, area: Area, n: nat, s: Side)
    requires Reserved(s0, refs1, area, n, s)
    ensures Kept(s0, s)
  {
  }

  lemma ReservedExtends(s0: Side, refs1: seq<BlockRef>, area: Area, n: nat, s: Side)
    requires Reserved(s0, refs1, area, n, s)
    ensures Extends(refs1, s.refs) && Extends(s0.refs, s.refs)
  {
    GrewExtends(s0.mem, s0.refs, refs1);
    ExtendsTransitive(s0.refs, refs1, s.refs);
  }

  lemma NoArea()
    ensures AreaSize(INVALID_AREA) == 0
  {
  }

  ghost predicate SharedFrom(v: View, mem: Mem, held: multiset<BlockId>, refs: seq<BlockRef>) {
    ViewOk(v) && RefsOk(mem, RefsOf(v)) && Apart(held, refs, RefsOf(v))
  }

  ghost function Text(mem: Mem, v: View): seq<Byte> {
    if ViewOk(v) then Bytes(mem, RefsOf(v)) else []
  }

  /** Another buffer reads what it read at the start and can be shared from. */
  lemma StillThere(store: BlockStore, buf: IOBuf, other: IOBuf, s0: Side)
    requires buf.Valid(store) && Kept(s0, buf.Snap(store)) && MemOk(s0.mem)
    requires SharedFrom(other.view, s0.mem, s0.held, s0.refs)
    ensures other.Valid(store) && other.Snap(store).Bytes() == Bytes(s0.mem, RefsOf(other.view))
    ensures Apart(store.held, RefsOf(buf.view), RefsOf(other.view))
    ensures Length(other.view) == |Bytes(s0.mem, RefsOf(other.view))|
  {
    hide Balanced, Kept, Shares, Bytes, RefsOk, RefsOf, Shaped, Solid, Total, MemOk, Apart, Length, Uniform, Refusals;
    OtherUntouched(s0, buf.Snap(store), store.chain, RefsOf(other.view));
    BalancedMem(store.mem, store.chain, store.held);
    Readers(other.view, store.mem);
  }

  /** Appends another buffer by sharing it. */
  method AppendShared(store: BlockStore, buf: IOBuf, other: IOBuf, ghost s0: Side, ghost refs1: seq<BlockRef>,
                      ghost area: Area, ghost n: nat)
    requires buf != other && buf.Valid(store) && MemOk(s0.mem)
    requires Reserved(s0, refs1, area, n, buf.Snap(store))
    requires SharedFrom(other.view, s0.mem, s0.held, s0.refs)
    modifies buf, store`mem, store`held
    ensures buf.Valid(store) && Reserved(s0, refs1, area, n, buf.Snap(store))
    ensures buf.Snap(store).Bytes() == old(buf.Snap(store).Bytes()) + Bytes(s0.mem, RefsOf(other.view))
    ensures |RefsOf(buf.view)| <= old(|RefsOf(buf.view)|) + RefNum(other.view)
  {
    hide Balanced, Kept, Shares, Bytes, RefsOk, RefsOf, Shaped, Solid, Total, MemOk, Apart, Grew, Cells, Names,
         Exclusive, Extends, Length, RefNum, Uniform, Refusals;
    ghost var s := buf.Snap(store);
    BalancedMem(store.mem, store.chain, store.held);
    EmptyCheck(other.view);
    StillThere(store, buf, other, s0);
    buf.AppendOther(store, other);
    ReservedAppends(s0, refs1, area, n, s, buf.Snap(store), RefsOf(other.view));
  }

  /** Appends bytes by copying them. */
  method AppendCopied(store: BlockStore, buf: IOBuf, bytes: seq<Byte>, ghost s0: Side, ghost refs1: seq<BlockRef>,
                      ghost area: Area, ghost n: nat)
    requires buf.Valid(store) && MemOk(s0.mem) && Reserved(s0, refs1, area, n, buf.Snap(store))
    modifies buf, store
    ensures buf.Valid(store) && Reserved(s0, refs1, area, n, buf.Snap(store)) && store.failed >= old(store.failed)
    ensures old(buf.Snap(store).Bytes()) <= buf.Snap(store).Bytes()
    ensures store.failed == old(store.failed) ==> buf.Snap(store).Bytes() == old(buf.Snap(store).Bytes()) + bytes
    ensures |RefsOf(buf.view)| <= old(|RefsOf(buf.view)|) + |bytes|
  {
    hide Balanced, Kept, Shares, Bytes, RefsOk, RefsOf, Shaped, Solid, Total, MemOk, Grew, Cells, Names, Exclusive,
         Extends, Reserved, Rechained, Uniform, Refusals;
    ghost var s := buf.Snap(store);
    BalancedMem(store.mem, store.chain, store.held);
    var _ := buf.Append(store, bytes);
    ReservedGrows(s0, refs1, area, n, s, buf.Snap(store));
  }

  /** Writes the reserved bytes, if they could be named. */
  method FillReserved(store: BlockStore, buf: IOBuf, area: Area, data: seq<Byte>, ghost s0: Side,
                      ghost refs1: seq<BlockRef>, ghost n: nat) returns (rc: int)
    requires buf.Valid(store) && MemOk(s0.mem) && RefsOk(s0.mem, s0.refs) && n <= |data|
    requires Reserved(s0, refs1, area, n, buf.Snap(store))
    modifies store`mem
    ensures buf.Valid(store) && Undisturbed(s0, buf.Snap(store))
    ensures rc == if area != INVALID_AREA then 0 else -1
    ensures area == INVALID_AREA ==> buf.Snap(store).Bytes() == old(buf.Snap(store).Bytes())
    ensures area != INVALID_AREA ==>
              var p, was := |s0.Bytes()|, old(buf.Snap(store).Bytes());
              p + n <= |was| && buf.Snap(store).Bytes() == was[..p] + data[..n] + was[p + n..]
  {
    hide Balanced, Kept, Shares, Bytes, RefsOk, RefsOf, Shaped, Solid, Total, MemOk, Apart, Grew, Cells, Exclusive,
         Extends, Length, AreaRefIndex, AreaRefOffset, AreaSize, Position, Assigned, Names, Uniform, Refusals;
    ghost var s := buf.Snap(store);
    BalancedMem(store.mem, store.chain, store.held);
    if area != INVALID_AREA {
      CellsReached(s0, refs1, area, n, s);
      CellsCounted(s.mem, s.refs);
      NamesMeans(s.refs, area, |Cells(s0.refs)|, n);
      rc := buf.UnsafeAssign(store, area, data);
      ReservedFilled(s0, refs1, area, n, s, store.mem, data[..n]);
    } else {
      NoArea();
      rc := buf.UnsafeAssign(store, area, data);
    }
    forall o | RefsOk(s0.mem, o) && Apart(s0.held, s0.refs, o)
      ensures RefsOk(store.mem, o) && Bytes(store.mem, o) == Bytes(s0.mem, o) && Apart(store.held, s.refs, o)
    {
      if area != INVALID_AREA {
        OthersUnfilled(s0, refs1, area, n, s, store.chain, store.mem, data[..n], o);
      } else {
        OtherUntouched(s0, s, store.chain, o);
      }
    }
  }

  // ---- from reserving to assigning

  /** Something to append: bytes to copy, or a buffer to share. */
  datatype Addition = Copied(bytes: seq<Byte>) | Shared(buf: IOBuf)

  ghost function Added(a: Addition, mem: Mem): seq<Byte>
    reads if a.Shared? then {a.buf} else {}
  {
    if a.Copied? then a.bytes else Text(mem, a.buf.view)
  }

  /** What is shared is good and apart from the queue. */
  ghost predicate Addable(a: Addition, s: Side)
    reads if a.Shared? then {a.buf} else {}
  {
    a.Shared? ==> SharedFrom(a.buf.view, s.mem, s.held, s.refs)
  }

  function Joined(texts: seq<seq<Byte>>): seq<Byte> {
    if texts == [] then [] else Joined(texts[..|texts| - 1]) + texts[|texts| - 1]
  }

  lemma JoinedSnoc(texts: seq<seq<Byte>>, k: nat)
    requires k < |texts|
    ensures Joined(texts[..k + 1]) == Joined(texts[..k]) + texts[k]
  {
    assert texts[..k + 1][..k] == texts[..k];
  }

  method AppendAll(store: BlockStore, buf: IOBuf, additions: seq<Addition>, ghost texts: seq<seq<Byte>>,
                   ghost s0: Side, ghost refs1: seq<BlockRef>, ghost area: Area, ghost n: nat)
    requires buf.Valid(store) && MemOk(s0.mem) && Reserved(s0, refs1, area, n, buf.Snap(store))
    requires |texts| == |additions|
    requires forall k | 0 <= k < |additions| ::
               additions[k] != Shared(buf) && Addable(additions[k], s0) && texts[k] == Added(additions[k], s0.mem)
    modifies buf, store
    ensures buf.Valid(store) && Reserved(s0, refs1, area, n, buf.Snap(store)) && store.failed >= old(store.failed)
    ensures old(buf.Snap(store).Bytes()) <= buf.Snap(store).Bytes()
    ensures store.failed == old(store.failed) ==>
              buf.Snap(store).Bytes() == old(buf.Snap(store).Bytes()) + Joined(texts)
  {
    hide Balanced, Kept, Shares, Bytes, RefsOk, RefsOf, Shaped, Solid, Total, MemOk, Apart, Reserved, Joined, RefNum,
         Uniform, Refusals;
    ghost var s := buf.Snap(store);
    NothingJoined(s.Bytes(), texts);
    for i := 0 to |additions|
      invariant buf.Valid(store) && Reserved(s0, refs1, area, n, buf.Snap(store)) && store.failed >= old(store.failed)
      invariant s.Bytes() <= buf.Snap(store).Bytes()
      invariant store.failed == old(store.failed) ==> buf.Snap(store).Bytes() == s.Bytes() + Joined(texts[..i])
    {
      ghost var now := buf.Snap(store).Bytes();
      assert Addable(additions[i], s0);
      match additions[i] {
        case Copied(bytes) => AppendCopied(store, buf, bytes, s0, refs1, area, n);
        case Shared(other) => AppendShared(store, buf, other, s0, refs1, area, n);
      }
      JoinedSnoc(texts, i);
      ConcatAssociative(s.Bytes(), Joined(texts[..i]), texts[i]);
    }
    assert texts[..|texts|] == texts;
  }

  lemma NothingJoined(bytes: seq<Byte>, texts: seq<seq<Byte>>)
    ensures bytes + Joined(texts[..0]) == bytes
  {
  }

  /** The reserved bytes after assigning; sizes are passed on in 32 bits. */
  ghost function Overwritten(reserved: seq<Byte>, data: seq<Byte>, named: bool): seq<Byte> {
    var m := Narrow(|reserved|);
    if named && m <= |data| && m <= |reserved| then data[..m] + reserved[m..] else reserved
  }

  /**
   * Reserve n bytes, append anything, assign: if memory suffices and the area can be packed, the
   * buffer has the data in the reserved place and everything else as it would be without; if it
   * cannot be packed the reserved bytes stay what they were.
   */
  method ReserveAppendAssign(store: BlockStore, buf: IOBuf, n: nat, additions: seq<Addition>,
                             ghost texts: seq<seq<Byte>>, data: seq<Byte>) returns (rc: int, ghost reserved: seq<Byte>)
    requires buf.Valid(store) && |data| == n && |texts| == |additions|
    requires forall k | 0 <= k < |additions| ::
               && additions[k] != Shared(buf) && Addable(additions[k], buf.Snap(store))
               && texts[k] == Added(additions[k], store.mem)
    modifies buf, store
    ensures buf.Valid(store) && Undisturbed(old(buf.Snap(store)), buf.Snap(store))
    ensures store.failed >= old(store.failed)
    ensures store.failed == old(store.failed) ==>
              && rc == (if old(Packable(store.mem, store.chain, RefsOf(buf.view), n)) then 0 else -1)
              && |reserved| == n && old(Unwritten(store.mem, store.chain, n)) <= reserved
              && buf.Snap(store).Bytes()
                 == old(buf.Snap(store).Bytes())
                    + Overwritten(reserved, data, old(Packable(store.mem, store.chain, RefsOf(buf.view), n)))
                    + Joined(texts)
  {
    hide Balanced, Kept, Shares, Bytes, RefsOk, RefsOf, Shaped, Solid, Total, MemOk, Apart, Grew, Cells, Exclusive,
         Extends, Names, Packable, Nameable, Unwritten, Reserved, Undisturbed, Joined, Rechained, Uniform, Refusals,
         Addable, Added, Narrow, Overwritten;
    ghost var s0, chain := buf.Snap(store), store.chain;
    NarrowLess(n);
    BalancedMem(store.mem, store.chain, store.held);
    var area := buf.Reserve(store, n);
    ghost var s1, m := buf.Snap(store), Narrow(n);
    reserved := s1.Bytes()[|s0.Bytes()|..];
    BalancedMem(store.mem, store.chain, store.held);
    ReservedStarts(s0, area, m, s1);
    AppendAll(store, buf, additions, texts, s0, s1.refs, area, m);
    rc := FillReserved(store, buf, area, data, s0, s1.refs, m);
    if store.failed == old(store.failed) {
      UnwrittenBehind(s0.Bytes(), Unwritten(s0.mem, chain, n), s1.Bytes());
      assert s1.Bytes() == s0.Bytes() + reserved;
      Filled(s0.Bytes(), reserved, Joined(texts), data);
    }
  }

  lemma NarrowLess(n: nat)
    ensures Narrow(n) <= n
  {
  }

  lemma UnwrittenBehind(before: seq<Byte>, unwritten: seq<Byte>, all: seq<Byte>)
    requires before + unwritten <= all
    ensures unwritten <= all[|before|..]
  {
    assert all[|before|..][..|unwritten|] == unwritten;
  }

  /** The front of the reserved bytes between the old and the new ones becomes the data. */
  lemma Filled(before: seq<Byte>, reserved: seq<Byte>, behind: seq<Byte>, data: seq<Byte>)
    requires |data| == |reserved|
    ensures var was, p, m := before + reserved + behind, |before|, Narrow(|data|);
            && m <= |data|
            && was[..p] + data[..m] + was[p + m..] == before + Overwritten(reserved, data, true) + behind
            && Overwritten(reserved, data, false) == reserved
  {
    NarrowLess(|data|);
    hide Narrow;
    var was, p, m := before + reserved + behind, |before|, Narrow(|data|);
    assert was[..p] == before && was[p + m..] == reserved[m..] + behind;
  }
}
