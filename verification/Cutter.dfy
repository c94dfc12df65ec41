/** IOBufCutter: cuts many small pieces off a buffer, holding its front reference open meanwhile. */
module Cutters {
  import opened Memory
  import opened Views
  import opened BlockStores
  import opened Sides
  import opened IOBufs

  class IOBufCutter {
    const buf: IOBuf
    /** The block of the open front reference and the unread range of it, or NULL, 0, 0. */
    var block: BlockId
    var data: nat
    var dataEnd: nat

    constructor (buf: IOBuf)
      ensures this.buf == buf && block == NULL && data == dataEnd == 0
    {
      this.buf := buf;
      block, data, dataEnd := NULL, 0, 0;
    }

    /** How much of the front reference has been read. */
    ghost function Skip(): int
      reads this, buf
      requires ViewOk(buf.view)
    {
      if block == NULL || RefsOf(buf.view) == [] then 0 else data - RefsOf(buf.view)[0].offset
    }

    ghost predicate Open()
      reads this, buf
    {
      && ViewOk(buf.view)
      && (block == NULL ==> data == dataEnd == 0)
      && (block != NULL ==>
        && RefsOf(buf.view) != []
        && var r := RefsOf(buf.view)[0];
          r.block == block && r.offset <= data <= dataEnd == r.offset + r.length)
    }

    ghost predicate Valid(store: BlockStore)
      reads this, buf, store
    {
      buf.Valid(store) && Open()
    }

    /** The bytes not yet delivered. */
    ghost function Remaining(store: BlockStore): seq<Byte>
      reads this, buf, store
      requires Valid(store)
    {
      SkipInRange(store);
      buf.Snap(store).Bytes()[Skip()..]
    }

    lemma SkipInRange(store: BlockStore)
      requires Valid(store)
      ensures 0 <= Skip() <= |buf.Snap(store).Bytes()|
    {
      hide Balanced, Shares, Bytes, RefsOk, RefsOf, Shaped, Solid, Total, MemOk, Uniform, Refusals, Piece;
      BalancedMem(store.mem, store.chain, store.held);
      if RefsOf(buf.view) != [] {
        FrontPiece(buf.Snap(store));
      }
    }

    /** What is left in the open reference. */
    ghost function Current(store: BlockStore): seq<Byte>
      reads this, store
    {
      Piece(store.mem, BlockRef(data, if data <= dataEnd then dataEnd - data else 0, block))
    }

    /** What is left is the open reference's rest, then the other references. */
    lemma RemainingIs(store: BlockStore)
      requires Valid(store)
      ensures block == NULL ==> Current(store) == [] && Remaining(store) == buf.Snap(store).Bytes()
      ensures block != NULL ==>
                && RefsOf(buf.view) != [] && |Current(store)| == dataEnd - data
                && Remaining(store) == Current(store) + Bytes(store.mem, RefsOf(buf.view)[1..])
                && 0 <= Skip() <= |Piece(store.mem, RefsOf(buf.view)[0])|
                && Current(store) == Piece(store.mem, RefsOf(buf.view)[0])[Skip()..]
    {
      hide Balanced, Shares, Bytes, RefsOk, RefsOf, Shaped, Solid, Total, MemOk, Uniform, Refusals, Piece;
      BalancedMem(store.mem, store.chain, store.held);
      if block != NULL {
        BytesFrom(buf.Snap(store), data - RefsOf(buf.view)[0].offset);
      } else {
        NullPiece(store.mem, store.chain, store.held);
        assert buf.Snap(store).Bytes()[0..] == buf.Snap(store).Bytes();
      }
    }

    lemma CurrentSize(store: BlockStore)
      requires Valid(store)
      ensures |Current(store)| == dataEnd - data <= |Remaining(store)|
    {
      hide Balanced, Shares, Bytes, RefsOk, RefsOf, Shaped, Solid, Total, Piece, MemOk, Skip, Remaining, Current,
           Uniform, Refusals;
      RemainingIs(store);
    }

    lemma Sound(store: BlockStore)
      requires Valid(store)
      ensures Balanced(store.mem, store.chain, store.held) && MemOk(store.mem) && ViewOk(buf.view)
      ensures data <= dataEnd && (block == NULL ==> data == dataEnd == 0)
    {
      hide Shaped, Solid, Shares, Bytes, RefsOk, RefsOf;
    }

    method RemainingBytes(store: BlockStore) returns (n: nat)
      requires Valid(store)
      ensures n == |Remaining(store)|
    {
      hide Balanced, Shares, Bytes, RefsOk, RefsOf, Shaped, Solid, Total, Piece, RefAt, Length, Uniform, Refusals;
      BalancedMem(store.mem, store.chain, store.held);
      Readers(buf.view, store.mem);
      SkipInRange(store);
      if block != NULL {
        EmptyCheck(buf.view);
        n := dataEnd - data + Length(buf.view) - RefAt(buf.view, 0).length;
      } else {
        n := Length(buf.view);
      }
    }

    /** Drops what is left of the open reference and opens the next one, if there is one. */
    method LoadNextRef(store: BlockStore) returns (ok: bool)
      requires Valid(store)
      modifies this, buf, store`mem, store`held
      ensures Valid(store) && Kept(old(buf.Snap(store)), buf.Snap(store))
      ensures old(Remaining(store)) == old(Current(store)) + Remaining(store)
      ensures ok == (Remaining(store) != [])
      ensures ok ==> block != NULL && data < dataEnd && Skip() == 0
      ensures !ok ==> block == NULL
      ensures old(block) == NULL ==> buf.view == old(buf.view)
    {
      hide Balanced, Evolves, Shares, Bytes, RefsOk, RefsOf, Shaped, Solid, Total, Piece, RefAt, RefNum, Kept, MemOk,
           Uniform, Refusals;
      ghost var s := buf.Snap(store);
      KeptReflexive(s, store.chain);
      RemainingIs(store);
      if block != NULL {
        ghost var front, k := Piece(store.mem, s.refs[0]), Skip();
        var _ := buf.PopFrontRef(store);
        assert s.Bytes()[k..] == front[k..] + buf.Snap(store).Bytes();
      }
      EmptyCheck(buf.view);
      BalancedMem(store.mem, store.chain, store.held);
      Readers(buf.view, store.mem);
      if RefNum(buf.view) == 0 {
        data, dataEnd, block := 0, 0, NULL;
        RemainingIs(store);
        return false;
      } else {
        var r := RefAt(buf.view, 0);
        FrontPiece(buf.Snap(store));
        OneRef(store.mem, RefsOf(buf.view), 0);
        RefAlive(store.mem, r);
        data, dataEnd, block := r.offset, r.offset + r.length, r.block;
        return true;
      }
    }

    /** Reads past n bytes of the open reference. */
    method Advance(store: BlockStore, n: nat)
      requires Valid(store) && data + n <= dataEnd
      modifies this`data
      ensures Valid(store) && block == old(block) && dataEnd == old(dataEnd) && data == old(data) + n
      ensures n <= |old(Remaining(store))|
      ensures Remaining(store) == old(Remaining(store))[n..]
      ensures Piece(store.mem, BlockRef(old(data), n, block)) == old(Remaining(store))[..n]
    {
      hide Balanced, Evolves, Shares, Bytes, RefsOk, RefsOf, Shaped, Solid, Total, Piece, MemOk, Uniform, Refusals;
      RemainingIs(store);
      SkipInRange(store);
      if block == NULL {
        NullPiece(store.mem, store.chain, store.held);
      } else {
        OneRef(store.mem, RefsOf(buf.view), 0);
        BalancedMem(store.mem, store.chain, store.held);
        CurrentSplits(store.mem, RefsOf(buf.view)[0], data, dataEnd, n);
      }
      data := data + n;
    }

    /** Opens the next reference if the open one has been read to its end. */
    method LoadIfRead(store: BlockStore) returns (ok: bool)
      requires Valid(store)
      modifies this, buf, store`mem, store`held
      ensures Valid(store) && Kept(old(buf.Snap(store)), buf.Snap(store))
      ensures Remaining(store) == old(Remaining(store)) && ok == (Remaining(store) != [])
      ensures ok ==> block != NULL && data < dataEnd
      ensures old(block) == NULL ==> buf.view == old(buf.view) && (ok ==> Skip() == 0)
    {
      hide Balanced, Evolves, Shares, Bytes, RefsOk, RefsOf, Shaped, Solid, Total, Piece, Kept, MemOk, Uniform,
           Refusals, Remaining;
      ghost var s := buf.Snap(store);
      KeptReflexive(s, store.chain);
      RemainingIs(store);
      if data == dataEnd {
        ok := LoadNextRef(store);
      } else {
        ok := true;
      }
    }

    /** Cuts one byte. */
    method Cut1(store: BlockStore) returns (ok: bool, c: Byte)
      requires Valid(store)
      modifies this, buf, store`mem, store`held
      ensures Valid(store) && Kept(old(buf.Snap(store)), buf.Snap(store))
      ensures ok == (old(Remaining(store)) != [])
      ensures old(Remaining(store)) == (if ok then [c] else []) + Remaining(store)
      ensures old(block) == NULL ==> buf.view == old(buf.view) && (ok ==> block != NULL && Skip() == 1)
    {
      hide Balanced, Evolves, Shares, Bytes, RefsOk, RefsOf, Shaped, Solid, Total, Piece, Kept, MemOk, Uniform,
           Refusals, Remaining;
      c := 0;
      ok := LoadIfRead(store);
      if !ok {
        return;
      }
      RemainingIs(store);
      ghost var all := Remaining(store);
      c := Piece(store.mem, BlockRef(data, dataEnd - data, block))[0];
      assert all[0] == c;
      Advance(store, 1);
      assert all == [c] + all[1..];
    }

    /** Looks at the next byte without cutting it. */
    method Fetch1(store: BlockStore) returns (ok: bool, c: Byte)
      requires Valid(store)
      modifies this, buf, store`mem, store`held
      ensures Valid(store) && Kept(old(buf.Snap(store)), buf.Snap(store))
      ensures Remaining(store) == old(Remaining(store))
      ensures ok == (Remaining(store) != []) && (ok ==> c == Remaining(store)[0])
    {
      hide Balanced, Evolves, Shares, Bytes, RefsOk, RefsOf, Shaped, Solid, Total, Piece, Kept, MemOk, Uniform,
           Refusals, Remaining;
      c := 0;
      ok := LoadIfRead(store);
      if ok {
        RemainingIs(store);
        c := Piece(store.mem, BlockRef(data, dataEnd - data, block))[0];
      }
    }

    /** Drops n bytes, or all of them when there are fewer. */
    method PopFront(store: BlockStore, n: nat) returns (popped: nat)
      requires Valid(store)
      modifies this, buf, store`mem, store`held
      ensures Valid(store) && Kept(old(buf.Snap(store)), buf.Snap(store))
      ensures popped == Min(n, |old(Remaining(store))|)
      ensures Remaining(store) == old(Remaining(store))[popped..]
    {
      hide Balanced, Evolves, Shares, Bytes, RefsOk, RefsOf, Shaped, Solid, Total, Piece, Kept, MemOk, Current,
           Remaining, Skip, Valid, Open, Uniform, Refusals;
      Sound(store);
      ghost var s, all := buf.Snap(store), Remaining(store);
      KeptReflexive(s, store.chain);
      var left := n;
      ghost var gone: seq<Byte> := [];
      while true
        invariant Valid(store) && ViewOk(buf.view) && Kept(s, buf.Snap(store)) && 0 <= left <= n
        invariant all == gone + Remaining(store) && |gone| == n - left
        decreases left, if data == dataEnd then 1 else 0
      {
        Sound(store);
        CurrentSize(store);
        var size := dataEnd - data;
        if left <= size {
          DropMore(gone, Remaining(store), left);
          Advance(store, left);
          return n;
        }
        ghost var s1, open := buf.Snap(store), Current(store);
        var ok := LoadNextRef(store);
        Sound(store);
        ConcatAssociative(gone, open, Remaining(store));
        KeptTransitive(s, s1, buf.Snap(store));
        left := left - size;
        gone := gone + open;
        if !ok {
          DropMore(gone, [], 0);
          return n - left;
        }
      }
    }

    /** Copies up to n bytes from the references behind the front one. */
    method CopyTail(store: BlockStore, n: nat) returns (out: seq<Byte>)
      requires Valid(store) && RefsOf(buf.view) != [] && 0 < n
      ensures var tail := Bytes(store.mem, RefsOf(buf.view)[1..]);
              out == tail[..Min(n, |tail|)]
    {
      hide Balanced, Shares, Bytes, RefsOk, RefsOf, Shaped, Solid, Total, Piece, MemOk, RefAt, RefNum, Uniform,
           Refusals;
      ghost var refs := RefsOf(buf.view)[1..];
      BalancedMem(store.mem, store.chain, store.held);
      EmptyCheck(buf.view);
      RefsTail(store.mem, RefsOf(buf.view));
      BytesNone(store.mem);
      assert refs[..0] == [];
      var left := n;
      out := [];
      for i := 1 to RefNum(buf.view)
        invariant 0 < left <= n && |out| == n - left
        invariant out == Bytes(store.mem, refs[..i - 1])
      {
        var r := RefAt(buf.view, i);
        var nc := Min(left, r.length);
        assert r == refs[i - 1];
        PieceWithin(store.mem, refs, i - 1);
        PieceTaken(store.mem, refs, i - 1, nc);
        out := out + Piece(store.mem, r.(length := nc));
        left := left - nc;
        if left == 0 {
          return;
        }
      }
      assert refs[..|refs|] == refs;
    }

    /** Copies up to n bytes without cutting them. */
    method CopyTo(store: BlockStore, n: nat) returns (out: seq<Byte>)
      requires Valid(store)
      modifies this, buf, store`mem, store`held
      ensures Valid(store) && Kept(old(buf.Snap(store)), buf.Snap(store))
      ensures Remaining(store) == old(Remaining(store))
      ensures out == Remaining(store)[..Min(n, |Remaining(store)|)]
    {
      hide Balanced, Evolves, Shares, Bytes, RefsOk, RefsOf, Shaped, Solid, Total, Piece, Kept, MemOk, Remaining, Skip,
           Uniform, Refusals;
      ghost var s := buf.Snap(store);
      KeptReflexive(s, store.chain);
      RemainingIs(store);
      if dataEnd == data && n > 0 {
        var ok := LoadNextRef(store);
        if !ok {
          return [];
        }
        RemainingIs(store);
      }
      if n <= dataEnd - data {
        out := CopyOpen(store, n);
        return;
      }
      out := Piece(store.mem, BlockRef(data, dataEnd - data, block));
      var rest := CopyTail(store, n - (dataEnd - data));
      TakeBoth(out, Bytes(store.mem, RefsOf(buf.view)[1..]), n);
      out := out + rest;
    }

    method CopyOpen(store: BlockStore, n: nat) returns (out: seq<Byte>)
      requires Valid(store) && n <= dataEnd - data
      ensures n <= |Remaining(store)| && out == Remaining(store)[..n]
    {
      hide Balanced, Evolves, Shares, Bytes, RefsOk, RefsOf, Shaped, Solid, Total, Piece, MemOk, Remaining, Skip,
           Uniform, Refusals;
      RemainingIs(store);
      if block == NULL {
        NullPiece(store.mem, store.chain, store.held);
      } else {
        OneRef(store.mem, RefsOf(buf.view), 0);
        BalancedMem(store.mem, store.chain, store.held);
        CurrentSplits(store.mem, RefsOf(buf.view)[0], data, dataEnd, n);
      }
      out := Piece(store.mem, BlockRef(data, n, block));
    }

    /** Closes the front reference without delivering the rest of it. */
    method Abandon(store: BlockStore)
      requires Valid(store)
      modifies this, buf, store`mem, store`held
      ensures Valid(store) && Kept(old(buf.Snap(store)), buf.Snap(store)) && block == NULL
      ensures old(Remaining(store)) == old(Current(store)) + Remaining(store)
      ensures Remaining(store) == buf.Snap(store).Bytes()
    {
      hide Balanced, Evolves, Shares, Bytes, RefsOk, RefsOf, Shaped, Solid, Total, Piece, Kept, MemOk, Uniform,
           Refusals;
      ghost var s := buf.Snap(store);
      KeptReflexive(s, store.chain);
      RemainingIs(store);
      if block != NULL {
        ghost var front, k := Piece(store.mem, s.refs[0]), Skip();
        var _ := buf.PopFrontRef(store);
        assert s.Bytes()[k..] == front[k..] + buf.Snap(store).Bytes();
      }
      data, dataEnd, block := 0, 0, NULL;
    }

    /** Cuts n bytes into plain memory, or all of them when there are fewer. */
    method CutnBytes(store: BlockStore, n: nat) returns (out: seq<Byte>)
      requires Valid(store)
      modifies this, buf, store`mem, store`held
      ensures Valid(store) && Kept(old(buf.Snap(store)), buf.Snap(store))
      ensures |out| == Min(n, |old(Remaining(store))|)
      ensures old(Remaining(store)) == out + Remaining(store)
    {
      hide Balanced, Evolves, Shares, Bytes, RefsOk, RefsOf, Shaped, Solid, Total, Piece, Kept, MemOk, Skip, Remaining,
           Uniform, Refusals;
      ghost var s := buf.Snap(store);
      KeptReflexive(s, store.chain);
      RemainingIs(store);
      var size := dataEnd - data;
      if n <= size {
        out := CopyOpen(store, n);
        Advance(store, n);
        return;
      }
      out := Piece(store.mem, BlockRef(data, size, block));
      Abandon(store);
      ghost var s1 := buf.Snap(store);
      BalancedMem(store.mem, store.chain, store.held);
      var more := buf.CutnBytes(store, n - size);
      KeptTransitive(s, s1, buf.Snap(store));
      RemainingIs(store);
      out := out + more;
    }

    /** Shares the next n bytes of the open reference with another buffer and reads past them. */
    method PushOpen(store: BlockStore, out: IOBuf, n: nat)
      requires buf != out && Valid(store) && out.Valid(store) && 0 < n <= dataEnd - data
      requires Apart(store.held, RefsOf(buf.view), RefsOf(out.view))
      modifies this`data, out, store`mem, store`held
      ensures Valid(store) && out.Valid(store) && data == old(data) + n
      ensures Apart(store.held, RefsOf(buf.view), RefsOf(out.view))
      ensures Kept(old(Both(store.mem, store.held, RefsOf(buf.view), RefsOf(out.view))),
                   Both(store.mem, store.held, RefsOf(buf.view), RefsOf(out.view)))
      ensures n <= |old(Remaining(store))|
      ensures Remaining(store) == old(Remaining(store))[n..]
      ensures out.Snap(store).Bytes() == old(out.Snap(store).Bytes()) + old(Remaining(store))[..n]
    {
      hide Balanced, Evolves, Shares, Bytes, RefsOk, RefsOf, Shaped, Solid, Total, Piece, Kept, MemOk, Apart, RefOk,
           Pushed, Push, Brought, Bringing, Uniform, Refusals;
      ghost var a, o := buf.Snap(store), out.Snap(store);
      BalancedMem(store.mem, store.chain, store.held);
      ApartEach(store.held, a.refs, o.refs);
      OneRef(store.mem, a.refs, 0);
      var r := BlockRef(data, n, block);
      InsideOk(store.mem, a.refs[0], r);
      BringsNothing(o, r);
      Advance(store, n);
      ghost var rest := Remaining(store);
      out.PushBackRef(store, r, false);
      PushedBytes(o, out.Snap(store), r);
      CopiedAcross(a.mem, a.held, a.refs, o.refs, store.mem, store.held, a.refs, RefsOf(out.view));
      ApartEach(store.held, a.refs, RefsOf(out.view));
      KeptEvolves(o, out.Snap(store));
      StillReads(a.mem, store.mem, store.chain, store.held, a.refs);
    }

    /** Cuts n bytes into another buffer without copying them. */
    method Cutn(store: BlockStore, out: IOBuf, n: nat) returns (cut: nat)
      requires buf != out && Valid(store) && out.Valid(store)
      requires Apart(store.held, RefsOf(buf.view), RefsOf(out.view))
      modifies this, buf, out, store`mem, store`held
      ensures Valid(store) && out.Valid(store)
      ensures Apart(store.held, RefsOf(buf.view), RefsOf(out.view))
      ensures Kept(old(Both(store.mem, store.held, RefsOf(buf.view), RefsOf(out.view))),
                   Both(store.mem, store.held, RefsOf(buf.view), RefsOf(out.view)))
      ensures cut == Min(n, |old(Remaining(store))|)
      ensures Remaining(store) == old(Remaining(store))[cut..]
      ensures out.Snap(store).Bytes() == old(out.Snap(store).Bytes()) + old(Remaining(store))[..cut]
    {
      hide Balanced, Evolves, Shares, Bytes, RefsOk, RefsOf, Shaped, Solid, Total, Piece, Kept, MemOk, Apart, Remaining,
           Skip, Current, Uniform, Refusals;
      ghost var all, was := Remaining(store), out.Snap(store).Bytes();
      ghost var both := Both(store.mem, store.held, RefsOf(buf.view), RefsOf(out.view));
      KeptReflexive(both, store.chain);
      if n == 0 {
        return 0;
      }
      RemainingIs(store);
      var size := dataEnd - data;
      if n <= size {
        PushOpen(store, out, n);
        return n;
      }
      if size != 0 {
        PushOpen(store, out, size);
      }
      ghost var b1 := Both(store.mem, store.held, RefsOf(buf.view), RefsOf(out.view));
      BalancedMem(store.mem, store.chain, store.held);
      var more := CutBehind(store, out, n - size);
      KeptTransitive(both, b1, Both(store.mem, store.held, RefsOf(buf.view), RefsOf(out.view)));
      return size + more;
    }

    /** Cuts from the references behind the open one, which has been read to its end. */
    method CutBehind(store: BlockStore, out: IOBuf, n: nat) returns (cut: nat)
      requires buf != out && Valid(store) && out.Valid(store) && data == dataEnd
      requires Apart(store.held, RefsOf(buf.view), RefsOf(out.view))
      modifies this, buf, out, store`mem, store`held
      ensures Valid(store) && out.Valid(store)
      ensures Apart(store.held, RefsOf(buf.view), RefsOf(out.view))
      ensures Kept(old(Both(store.mem, store.held, RefsOf(buf.view), RefsOf(out.view))),
                   Both(store.mem, store.held, RefsOf(buf.view), RefsOf(out.view)))
      ensures cut == Min(n, |old(Remaining(store))|)
      ensures Remaining(store) == old(Remaining(store))[cut..]
      ensures out.Snap(store).Bytes() == old(out.Snap(store).Bytes()) + old(Remaining(store))[..cut]
    {
      hide Balanced, Evolves, Shares, Bytes, RefsOk, RefsOf, Shaped, Solid, Total, Piece, Kept, MemOk, Apart, Remaining,
           Skip, Current, Uniform, Refusals;
      ghost var both := Both(store.mem, store.held, RefsOf(buf.view), RefsOf(out.view));
      ghost var s1, o := buf.Snap(store), out.Snap(store);
      RemainingIs(store);
      BalancedMem(store.mem, store.chain, store.held);
      Abandon(store);
      BalancedMem(store.mem, store.chain, store.held);
      OtherUntouched(s1, buf.Snap(store), store.chain, o.refs);
      KeptBeside(s1, buf.Snap(store), o.refs);
      ghost var b2 := Both(store.mem, store.held, RefsOf(buf.view), RefsOf(out.view));
      cut := buf.Cutn(store, out, n);
      KeptTransitive(both, b2, Both(store.mem, store.held, RefsOf(buf.view), RefsOf(out.view)));
      RemainingIs(store);
    }

    /**
     * Closing: the buffer's references then hold exactly the uncut bytes. A partly read front
     * reference is shortened without telling the ring's byte counter, which stays too large by
     * what had been read of it.
     */
    method Close(store: BlockStore)
      requires Valid(store)
      modifies buf, store`mem, store`held
      ensures store.Valid() && Shaped(buf.view)
      ensures RefsOk(store.mem, RefsOf(buf.view)) && Shares(RefsOf(buf.view)) <= store.held
      ensures Kept(old(buf.Snap(store)), Side(store.mem, store.held, RefsOf(buf.view)))
      ensures Bytes(store.mem, RefsOf(buf.view)) == old(Remaining(store))
      ensures Length(buf.view) == |old(Remaining(store))|
                + old(if buf.view.Big? && data < dataEnd then Skip() else 0)
      ensures buf.Valid(store) <==> old(buf.view.Small? || data == dataEnd || Skip() == 0)
    {
      hide Balanced, Evolves, Shares, Bytes, RefsOk, RefsOf, Shaped, Solid, Total, Piece, Kept, MemOk, RefAt, RefNum,
           SetRef, Length, Uniform, Refusals;
      ghost var s := buf.Snap(store);
      KeptReflexive(s, store.chain);
      RemainingIs(store);
      EmptyCheck(buf.view);
      if block == NULL {
        Readers(buf.view, store.mem);
      } else if data != dataEnd {
        ghost var k := Skip();
        OneRef(store.mem, s.refs, 0);
        FrontShrinks(s, k);
        ghost var v := buf.view;
        Readers(v, store.mem);
        buf.view := SetRef(buf.view, 0, BlockRef(data, dataEnd - data, block));
        assert s.refs[0 := BlockRef(data, dataEnd - data, block)] == FrontShrunk(s, k).refs;
        UncountedFront(v, buf.view, store.mem, k);
      } else {
        var _ := buf.PopFrontRef(store);
        BalancedMem(store.mem, store.chain, store.held);
        Readers(buf.view, store.mem);
      }
    }
  }

  lemma ThreeMakeARing(v: View)
    requires ViewOk(v) && |RefsOf(v)| >= 3
    ensures v.Big?
  {
  }

  /** Cutting one byte off a ring whose front reference has more than one leaves the ring counting it still. */
  method MiscountByOne(store: BlockStore, buf: IOBuf)
    requires buf.Valid(store) && |RefsOf(buf.view)| >= 3 && RefsOf(buf.view)[0].length >= 2
    modifies buf, store`mem, store`held
    ensures store.Valid() && Shaped(buf.view)
    ensures old(buf.Snap(store).Bytes()) != []
            && Bytes(store.mem, RefsOf(buf.view)) == old(buf.Snap(store).Bytes())[1..]
    ensures Length(buf.view) == |Bytes(store.mem, RefsOf(buf.view))| + 1 && !buf.Valid(store)
  {
    hide Balanced, Evolves, Shares, Bytes, RefsOk, RefsOf, Shaped, Solid, Total, Piece, Kept, MemOk, Length, Uniform,
         Refusals;
    ThreeMakeARing(buf.view);
    BalancedMem(store.mem, store.chain, store.held);
    FrontPiece(buf.Snap(store));
    var cutter := new IOBufCutter(buf);
    ghost var all := cutter.Remaining(store);
    assert all == buf.Snap(store).Bytes();
    var _, _ := cutter.Cut1(store);
    assert cutter.Remaining(store) == all[1..];
    cutter.Close(store);
  }

  /** Three pieces of the caller's own memory make such a ring, if memory does not run out. */
  method MiscountOfThree(store: BlockStore, a: seq<Byte>, b: seq<Byte>, c: seq<Byte>) returns (buf: IOBuf)
    requires store.Valid() && 2 <= |a| < OFFSET_LIMIT && 0 < |b| < OFFSET_LIMIT && 0 < |c| < OFFSET_LIMIT
    modifies store`mem, store`held, store`asked, store`failed
    ensures fresh(buf) && store.Valid() && Shaped(buf.view)
    ensures store.failed == old(store.failed) ==>
              && Bytes(store.mem, RefsOf(buf.view)) == a[1..] + b + c
              && Length(buf.view) == |a| + |b| + |c|
  {
    hide Balanced, Evolves, Shares, Bytes, RefsOk, RefsOf, Shaped, Solid, Total, Piece, Kept, MemOk, Length, Uniform,
         Refusals;
    buf := new IOBuf();
    EmptyIn(store.mem, store.held);
    var rc := buf.AppendUserData(store, a);
    if rc == 0 {
      rc := buf.AppendUserData(store, b);
    }
    if rc == 0 {
      rc := buf.AppendUserData(store, c);
    }
    if rc == 0 {
      MiscountByOne(store, buf);
      assert ([] + a + b + c)[1..] == a[1..] + b + c;
    }
  }

  lemma TakeBoth(a: seq<Byte>, b: seq<Byte>, n: nat)
    requires |a| <= n
    ensures a + b[..Min(n - |a|, |b|)] == (a + b)[..Min(n, |a + b|)]
  {
  }

  lemma DropMore<T>(a: seq<T>, b: seq<T>, n: nat)
    requires n <= |b|
    ensures (a + b)[|a| + n..] == b[n..]
  {}
}
