/** IOBuf: a queue of bytes made of references to shared blocks. */
module IOBufs {
  import opened Memory
  import opened Ring
  import opened Views
  import opened BlockStores
  import opened Sides
  import opened Delimiters
  import opened Areas

  /** From s on, the first i of these references have been appended by sharing. */
  ghost predicate SharedSoFar(s: Side, refs: seq<BlockRef>, i: nat, s1: Side) {
    && i <= |refs| && Kept(s, s1)
    && RefsOk(s1.mem, refs) && Bytes(s1.mem, refs) == Bytes(s.mem, refs) && Apart(s1.held, s1.refs, refs)
    && s1.Bytes() == s.Bytes() + Bytes(s.mem, refs[..i])
    && Extends(s.refs, s1.refs) && Cells(s1.refs) == Cells(s.refs) + Cells(refs[..i]) && |s1.refs| <= |s.refs| + i
  }

  lemma NoneShared(s: Side, refs: seq<BlockRef>, chain: seq<BlockId>)
    requires Balanced(s.mem, chain, s.held) && RefsOk(s.mem, refs) && Apart(s.held, s.refs, refs)
    ensures SharedSoFar(s, refs, 0, s)
  {
    hide Balanced, Kept, RefsOk, Apart, Extends;
    BalancedMem(s.mem, chain, s.held);
    KeptReflexive(s, chain);
    ExtendsReflexive(s.refs);
  }

  lemma OneMoreShared(s: Side, refs: seq<BlockRef>, i: nat, s1: Side, s2: Side, chain: seq<BlockId>)
    requires MemOk(s.mem) && MemOk(s1.mem) && RefsOk(s.mem, refs) && SharedSoFar(s, refs, i, s1) && i < |refs|
    requires Balanced(s2.mem, chain, s2.held) && Pushed(s1, s2, refs[i]) && Kept(s1, s2)
    requires Piece(s1.mem, refs[i]) == Piece(s.mem, refs[i])
    ensures SharedSoFar(s, refs, i + 1, s2)
  {
    hide Balanced, Kept, Shares, Bytes, RefsOk, MemOk, Piece, Push, Apart, Extends, Cells;
    PushExtends(s.refs, s1.refs, refs[i]);
    PushFew(s1.refs, refs[i]);
    CellsSnoc(refs[..i], refs[i]);
    OtherUntouched(s1, s2, chain, refs);
    KeptTransitive(s, s1, s2);
    BytesSnoc(s.mem, refs[..i], refs[i]);
    assert refs[..i] + [refs[i]] == refs[..i + 1];
  }

  lemma SharedOneOf(s: Side, refs: seq<BlockRef>, i: nat, s1: Side, chain: seq<BlockId>)
    requires MemOk(s.mem) && RefsOk(s.mem, refs) && SharedSoFar(s, refs, i, s1) && i < |refs|
    requires Balanced(s1.mem, chain, s1.held)
    ensures RefOk(s1.mem, refs[i]) && Piece(s1.mem, refs[i]) == Piece(s.mem, refs[i])
  {
    hide Balanced, Kept, Shares, Bytes, RefsOk, MemOk, Piece, Apart, Extends, Cells;
    OneOf(s, s1, chain, refs, i);
  }

  lemma CutFurther(all: seq<Byte>, k: nat, n: nat, out: seq<Byte>)
    requires k + n <= |all|
    ensures all[k..][n..] == all[k + n..]
    ensures out + all[..k] + all[k..][..n] == out + all[..k + n]
  {
    assert all[..k] + all[k..][..n] == all[..k + n];
  }

  /** The first n bytes have gone to another buffer, and those behind them, up to so many, nowhere. */
  ghost predicate CutAt(all: seq<Byte>, n: nat, drop: nat, rest: seq<Byte>, out: seq<Byte>, out': seq<Byte>) {
    rest == all[Min(n + drop, |all|)..] && out' == out + all[..Min(n, |all|)]
  }

  lemma CutNone(all: seq<Byte>, out: seq<Byte>)
    ensures CutAt(all, 0, 0, all, out, out)
  {
    assert all[0..] == all && out + all[..0] == out;
  }

  lemma CutLeft(all: seq<Byte>, k: nat, rest: seq<Byte>, out: seq<Byte>, out': seq<Byte>)
    requires k <= |all| && CutAt(all, k, 0, rest, out, out')
    ensures |rest| == |all| - k && rest == all[k..] && out' == out + all[..k]
  {
  }

  lemma CutMore(all: seq<Byte>, k: nat, n: nat, rest: seq<Byte>, out: seq<Byte>, out': seq<Byte>)
    requires k + n <= |all| && CutAt(all, k, 0, rest, out, out')
    ensures CutAt(all, k + n, 0, rest[n..], out, out' + rest[..n])
  {
    CutFurther(all, k, n, out);
  }

  lemma PushFew(refs: seq<BlockRef>, r: BlockRef)
    ensures |refs| <= |Push(refs, r)| <= |refs| + 1
  {
  }

  lemma AllShared(s: Side, refs: seq<BlockRef>, s1: Side)
    requires SharedSoFar(s, refs, |refs|, s1)
    ensures Kept(s, s1) && RefsOk(s1.mem, refs) && Bytes(s1.mem, refs) == Bytes(s.mem, refs)
    ensures Apart(s1.held, s1.refs, refs) && s1.Bytes() == s.Bytes() + Bytes(s.mem, refs)
    ensures Extends(s.refs, s1.refs) && Cells(s1.refs) == Cells(s.refs) + Cells(refs)
    ensures |s1.refs| <= |s.refs| + |refs|
  {
    assert refs[..|refs|] == refs;
  }

  /** From s on, the other queue's references have been taken over, all but these. */
  ghost predicate MovedSoFar(s: Side, o: seq<BlockRef>, rest: seq<BlockRef>, s1: Side) {
    && Kept(Both(s.mem, s.held, o, s.refs), Both(s1.mem, s1.held, rest, s1.refs))
    && RefsOk(s1.mem, rest) && Apart(s1.held, rest, s1.refs)
    && s1.Bytes() + Bytes(s1.mem, rest) == s.Bytes() + Bytes(s.mem, o)
  }

  lemma NoneMoved(s: Side, o: seq<BlockRef>, chain: seq<BlockId>)
    requires Balanced(s.mem, chain, s.held) && RefsOk(s.mem, o) && Apart(s.held, o, s.refs)
    ensures MovedSoFar(s, o, o, s)
  {
    hide Balanced, Kept, RefsOk, Apart, Bytes;
    KeptReflexive(Both(s.mem, s.held, o, s.refs), chain);
  }

  lemma MovedFirst(s: Side, o: seq<BlockRef>, rest: seq<BlockRef>, s1: Side)
    requires MovedSoFar(s, o, rest, s1) && rest != []
    ensures RefOk(s1.mem, rest[0]) && Shares(s1.refs) + Brought(rest[0], true) <= s1.held
  {
    hide Kept, Shares, Bytes, Apart, Brought;
    ApartBrings(s1.held, rest, s1.refs);
  }

  lemma AllMoved(s: Side, o: seq<BlockRef>, s1: Side)
    requires MovedSoFar(s, o, [], s1)
    ensures Kept(Both(s.mem, s.held, o, s.refs), s1) && s1.Bytes() == s.Bytes() + Bytes(s.mem, o)
  {
    hide Kept, Shares, Apart;
    assert [] + s1.refs == s1.refs;
    BytesNone(s1.mem);
  }

  lemma OneMoreMoved(s: Side, o: seq<BlockRef>, rest: seq<BlockRef>, s1: Side, s2: Side, chain: seq<BlockId>)
    requires MemOk(s.mem) && MemOk(s1.mem) && MovedSoFar(s, o, rest, s1) && rest != []
    requires Balanced(s2.mem, chain, s2.held) && Pushed(s1, s2, rest[0]) && Kept(Bringing(s1, rest[0], true), s2)
    ensures MovedSoFar(s, o, rest[1..], s2)
  {
    hide Balanced, Kept, Shares, Bytes, RefsOk, MemOk, Piece, Push, Apart, Bringing;
    var a := Side(s1.mem, s1.held, rest);
    CutWhole(a, s1, s2, chain);
    KeptTransitive(Both(s.mem, s.held, o, s.refs), Both(s1.mem, s1.held, rest, s1.refs),
                   Both(s2.mem, s2.held, rest[1..], s2.refs));
    var n := rest[0].length;
    assert a.Bytes()[..n] + a.Bytes()[n..] == a.Bytes();
    ConcatAssociative(s1.Bytes(), a.Bytes()[..n], a.Bytes()[n..]);
  }

  class IOBuf {
    var view: View

    ghost predicate Valid(store: BlockStore)
      reads this, store
    {
      store.Valid() && Owns(view, store.mem, store.held)
    }

    ghost function Snap(store: BlockStore): Side
      reads this, store
      requires ViewOk(view)
    {
      Side(store.mem, store.held, RefsOf(view))
    }

    constructor ()
      ensures view == EMPTY_VIEW
    {
      view := EMPTY_VIEW;
    }

    method PlaceBackInSmall(r: BlockRef) returns (merged: bool)
      requires view.Small? && ViewOk(view) && r.block != NULL && 0 < r.length
      modifies this
      ensures ViewOk(view) && RefsOf(view) == Push(old(RefsOf(view)), r)
      ensures merged == Merges(old(RefsOf(view)), r)
    {
      var r0, r1 := view.r0, view.r1;
      if r0.block == NULL {
        view := Small(r, r1);
        return false;
      }
      if r1.block == NULL {
        if r0.block == r.block && r0.offset + r0.length == r.offset {
          view := Small(r0.(length := r0.length + r.length), r1);
          return true;
        }
        view := Small(r0, r);
        return false;
      }
      if r1.block == r.block && r1.offset + r1.length == r.offset {
        view := Small(r0, r1.(length := r1.length + r.length));
        return true;
      }
      var ring := [r0, r1, r] + seq(INITIAL_CAP - 3, _ => EMPTY_REF);
      view := Big(0, 3, INITIAL_CAP - 1, r0.length + r1.length + r.length, ring);
      assert IsPowerOfTwo(2) && IsPowerOfTwo(8) && IsPowerOfTwo(32);
      RingFromZero(3, INITIAL_CAP - 1, ring);
      assert ring[..3] == [r0, r1, r];
      TotalOfThree(r0, r1, r);
      return false;
    }

    static lemma TotalOfThree(a: BlockRef, b: BlockRef, c: BlockRef)
      ensures Total([a, b, c]) == a.length + b.length + c.length
    {
      assert [a, b, c][1..] == [b, c] && [b, c][1..] == [c];
      assert Total([c]) == c.length;
      assert Total([b, c]) == b.length + c.length;
    }

    /** Copies the references of a queue, in order, to the front of an array. */
    static method CopyRefs(v: View, into: seq<BlockRef>) returns (newRing: seq<BlockRef>)
      requires Shaped(v) && |RefsOf(v)| <= |into|
      ensures |newRing| == |into| && newRing[..|RefsOf(v)|] == RefsOf(v)
    {
      Counted(v);
      hide RefsOf, Shaped, RefNum, RefAt;
      newRing := into;
      for i := 0 to RefNum(v)
        invariant |newRing| == |into| && newRing[..i] == RefsOf(v)[..i]
      {
        newRing := newRing[i := RefAt(v, i)];
        assert newRing[..i + 1] == newRing[..i] + [RefsOf(v)[i]];
      }
    }

    method PlaceBackInBig(r: BlockRef) returns (merged: bool)
      requires view.Big? && ViewOk(view) && r.block != NULL && 0 < r.length
      modifies this
      ensures ViewOk(view) && RefsOf(view) == Push(old(RefsOf(view)), r)
      ensures merged == Merges(old(RefsOf(view)), r)
    {
      hide IsPowerOfTwo, Slot, Total;
      ghost var refs := RefsOf(view);
      PushTotal(refs, r);
      var Big(start, nref, capMask, nbytes, ring) := view;
      var back := RefAt(view, nref - 1);
      if back.block == r.block && back.offset + back.length == r.offset {
        RingSet(start, nref, capMask, ring, nref - 1, back.(length := back.length + r.length));
        view := Big(start, nref, capMask, nbytes + r.length,
                    ring[Slot(start, nref - 1, capMask) := back.(length := back.length + r.length)]);
        return true;
      }
      if nref != capMask + 1 {
        RingPush(start, nref, capMask, ring, r);
        view := Big(start, nref + 1, capMask, nbytes + r.length, ring[Slot(start, nref, capMask) := r]);
        return false;
      }
      var newCap := (capMask + 1) * 2;
      var newRing := CopyRefs(view, seq(newCap, _ => EMPTY_REF));
      assert newRing[nref := r][..nref + 1] == newRing[..nref] + [r];
      newRing := newRing[nref := r];
      DoublePower(capMask + 1);
      RingFromZero(nref + 1, newCap - 1, newRing);
      view := Big(0, nref + 1, newCap - 1, nbytes + r.length, newRing);
      return false;
    }

    /** Appends a reference: copied, taking a new share, or moved in with the caller's share. */
    method PushBackRef(store: BlockStore, r: BlockRef, move: bool)
      requires Valid(store) && RefOk(store.mem, r)
      requires Shares(RefsOf(view)) + Brought(r, move) <= store.held
      modifies this, store`mem, store`held
      ensures Valid(store) && Pushed(old(Snap(store)), Snap(store), r)
      ensures Kept(Bringing(old(Snap(store)), r, move), Snap(store))
      ensures store.mem.blocks.Keys == old(store.mem.blocks.Keys)
      ensures move && !Merges(old(RefsOf(view)), r) ==> store.mem == old(store.mem)
    {
      hide Balanced, Evolves, Shares, Bytes, RefsOk, RefsOf, RefOk, Retain, Release, ViewOk, Kept, Pushed, Push,
           Bringing, Merges, Uniform, Refusals;
      ghost var s := Snap(store);
      EmptyCheck(view);
      KeptReflexive(s, store.chain);
      RefAlive(s.mem, r);
      var merged: bool;
      if view.Small? {
        merged := PlaceBackInSmall(r);
      } else {
        merged := PlaceBackInBig(r);
      }
      EmptyCheck(view);
      EvolvesReflexive(s.mem);
      if merged {
        if move {
          MergedStaysHeld(s.held, s.refs, r);
          store.DecRef(r.block);
        }
      } else if !move {
        store.IncRef(r.block);
      }
      AfterPush(s, Snap(store), store.chain, r, move);
    }

    /** Drops the front reference and its share. */
    method PopFrontRef(store: BlockStore) returns (rc: int)
      requires Valid(store)
      modifies this, store`mem, store`held
      ensures Valid(store) && Kept(old(Snap(store)), Snap(store))
      ensures rc == if old(RefsOf(view)) == [] then -1 else 0
      ensures rc == -1 ==> view == old(view) && store.mem == old(store.mem) && store.held == old(store.held)
      ensures rc == 0 ==> PoppedFront(old(Snap(store)), Snap(store))
    {
      hide Balanced, Evolves, Shares, Bytes, RefsOk, RefsOf, RefAt, DropFront, Retain, Release, ViewOk, Kept,
           PoppedFront, Uniform, Refusals;
      ghost var s := Snap(store);
      EmptyCheck(view);
      KeptReflexive(s, store.chain);
      if view.Small? && view.r0.block == NULL {
        return -1;
      }
      var front := RefAt(view, 0);
      FrontHeld(s);
      store.DecRef(front.block);
      view := DropFront(view);
      FrontDropped(s, Snap(store), store.chain);
      return 0;
    }

    /** Drops the back reference and its share. */
    method PopBackRef(store: BlockStore) returns (rc: int)
      requires Valid(store)
      modifies this, store`mem, store`held
      ensures Valid(store) && Kept(old(Snap(store)), Snap(store))
      ensures rc == if old(RefsOf(view)) == [] then -1 else 0
      ensures rc == -1 ==> view == old(view) && store.mem == old(store.mem) && store.held == old(store.held)
      ensures rc == 0 ==> PoppedBack(old(Snap(store)), Snap(store))
    {
      hide Balanced, Evolves, Shares, Bytes, RefsOk, RefsOf, RefAt, DropBack, Retain, Release, ViewOk, Kept, PoppedBack,
           Uniform, Refusals;
      ghost var s := Snap(store);
      EmptyCheck(view);
      KeptReflexive(s, store.chain);
      if view.Small? && view.r0.block == NULL {
        return -1;
      }
      var back := RefAt(view, RefNum(view) - 1);
      BackHeld(s);
      store.DecRef(back.block);
      view := DropBack(view);
      BackDropped(s, Snap(store), store.chain);
      return 0;
    }

    /** Takes the front reference off without touching its count: its share now is the caller's. */
    method MoveOutFrontRef() returns (rc: int)
      requires ViewOk(view)
      modifies this
      ensures rc == if old(RefsOf(view)) == [] then -1 else 0
      ensures rc == -1 ==> view == old(view)
      ensures rc == 0 ==> ViewOk(view) && RefsOf(view) == old(RefsOf(view))[1..]
    {
      EmptyCheck(view);
      if view.Small? && view.r0.block == NULL {
        return -1;
      }
      view := DropFront(view);
      return 0;
    }

    /** Lets go of every reference. */
    method Clear(store: BlockStore)
      requires Valid(store)
      modifies this, store`mem, store`held
      ensures Valid(store) && Kept(old(Snap(store)), Snap(store)) && view == EMPTY_VIEW
    {
      hide Balanced, Evolves, Shares, Bytes, RefsOk, RefsOf, RefAt, Retain, Release, ViewOk, Kept, RefNum, Uniform,
           Refusals;
      ghost var s := Snap(store);
      EmptyCheck(view);
      KeptReflexive(s, store.chain);
      assert s.refs[0..] == s.refs;
      for i := 0 to RefNum(view)
        invariant store.Valid() && view == old(view)
        invariant Kept(s, Side(store.mem, store.held, s.refs[i..]))
        invariant RefsOk(store.mem, s.refs[i..]) && Shares(s.refs[i..]) <= store.held
      {
        ghost var s1 := Side(store.mem, store.held, s.refs[i..]);
        BalancedMem(store.mem, store.chain, store.held);
        FrontHeld(s1);
        store.DecRef(RefAt(view, i).block);
        ghost var s2 := Side(store.mem, store.held, s.refs[i + 1..]);
        assert s2.refs == s1.refs[1..];
        FrontDropped(s1, s2, store.chain);
        KeptTransitive(s, s1, s2);
      }
      view := EMPTY_VIEW;
      EmptyViewOk();
    }

    /** Pops n bytes from the front, or all of them when there are fewer. */
    method PopFront(store: BlockStore, n: nat) returns (popped: nat)
      requires Valid(store)
      modifies this, store`mem, store`held
      ensures Valid(store) && Kept(old(Snap(store)), Snap(store))
      ensures popped == Min(n, |old(Snap(store).Bytes())|)
      ensures Snap(store).Bytes() == old(Snap(store).Bytes())[popped..]
    {
      hide Balanced, Evolves, Shares, Bytes, RefsOk, RefsOf, RefAt, ViewOk, Kept, RefNum, Length, MemOk, ShrinkFront,
           Uniform, Refusals;
      ghost var s := Snap(store);
      KeptReflexive(s, store.chain);
      Readers(view, store.mem);
      var len := Length(view);
      if n >= len {
        Clear(store);
        EmptyViewOk();
        return len;
      }
      var left := n;
      while left > 0
        invariant Valid(store) && Kept(s, Snap(store)) && 0 <= left <= n
        invariant Snap(store).Bytes() == s.Bytes()[n - left..]
      {
        ghost var s1 := Snap(store);
        LookFront(view, store.mem, store.chain, store.held);
        var r := RefAt(view, 0);
        if r.length > left {
          FrontShrinks(s1, left);
          view := ShrinkFront(view, left);
          assert Snap(store) == FrontShrunk(s1, left);
          KeptTransitive(s, s1, Snap(store));
          return n;
        }
        left := left - r.length;
        var _ := PopFrontRef(store);
        KeptTransitive(s, s1, Snap(store));
      }
      return n;
    }

    /** Cuts one byte off the front. */
    method Cut1(store: BlockStore) returns (ok: bool, c: Byte)
      requires Valid(store)
      modifies this, store`mem, store`held
      ensures Valid(store) && Kept(old(Snap(store)), Snap(store))
      ensures ok == (old(Snap(store).Bytes()) != [])
      ensures !ok ==> view == old(view) && store.mem == old(store.mem)
      ensures ok ==> old(Snap(store).Bytes()) == [c] + Snap(store).Bytes()
    {
      hide Balanced, Evolves, Shares, Bytes, RefsOk, RefsOf, RefAt, ViewOk, Kept, RefNum, MemOk, ShrinkFront, Empty,
           Piece, Uniform, Refusals;
      ghost var s := Snap(store);
      KeptReflexive(s, store.chain);
      Readers(view, store.mem);
      EmptyCheck(view);
      if Empty(view) {
        return false, 0;
      }
      FrontPiece(s);
      var r := RefAt(view, 0);
      ok, c := true, Piece(store.mem, r)[0];
      if r.length > 1 {
        FrontShrinks(s, 1);
        view := ShrinkFront(view, 1);
        assert Snap(store) == FrontShrunk(s, 1);
      } else {
        var _ := PopFrontRef(store);
      }
    }

    /** Pops n bytes from the back, or all of them when there are fewer. */
    method PopBack(store: BlockStore, n: nat) returns (popped: nat)
      requires Valid(store)
      modifies this, store`mem, store`held
      ensures Valid(store) && Kept(old(Snap(store)), Snap(store))
      ensures popped == Min(n, |old(Snap(store).Bytes())|)
      ensures Snap(store).Bytes() == old(Snap(store).Bytes())[..|old(Snap(store).Bytes())| - popped]
      ensures Extends(RefsOf(view), old(RefsOf(view)))
    {
      hide Balanced, Evolves, Shares, Bytes, RefsOk, RefsOf, RefAt, ViewOk, Kept, RefNum, Length, MemOk, ShrinkBack,
           Piece, Extends, Uniform, Refusals;
      ghost var s := Snap(store);
      KeptReflexive(s, store.chain);
      Readers(view, store.mem);
      var len := Length(view);
      if n >= len {
        Clear(store);
        EmptyViewOk();
        AllExtendNone(s.refs);
        return len;
      }
      ExtendsReflexive(s.refs);
      var left := n;
      ghost var tail := [];
      while left > 0
        invariant Valid(store) && Kept(s, Snap(store)) && 0 <= left <= n
        invariant Extends(Snap(store).refs, s.refs)
        invariant s.Bytes() == Snap(store).Bytes() + tail && |tail| == n - left
      {
        ghost var s1 := Snap(store);
        LookBack(view, store.mem, store.chain, store.held);
        var r := RefAt(view, RefNum(view) - 1);
        if r.length > left {
          BackShrinks(s1, left);
          ShrinkBackOk(view, left);
          view := ShrinkBack(view, left);
          assert Snap(store) == BackShrunk(s1, left);
          ShorterExtends(s1.refs, left, s.refs);
          KeptTransitive(s, s1, Snap(store));
          tail := s1.Bytes()[|s1.Bytes()| - left..] + tail;
          return n;
        }
        left := left - r.length;
        tail := Piece(store.mem, r) + tail;
        var _ := PopBackRef(store);
        FewerExtend(s1.refs, s.refs);
        KeptTransitive(s, s1, Snap(store));
      }
      return n;
    }

    /** Copies the front reference out, or so much of it, and drops that. */
    method TakeFront(store: BlockStore, left: nat) returns (piece: seq<Byte>)
      requires Valid(store) && 0 < left <= |Snap(store).Bytes()|
      modifies this, store`mem, store`held
      ensures Valid(store) && Kept(old(Snap(store)), Snap(store))
      ensures 0 < |piece| <= left && old(Snap(store).Bytes()) == piece + Snap(store).Bytes()
    {
      hide Balanced, Evolves, Shares, Bytes, RefsOk, RefsOf, RefAt, ViewOk, Kept, RefNum, MemOk, ShrinkFront, Piece,
           Uniform, Refusals;
      ghost var s := Snap(store);
      LookFront(view, store.mem, store.chain, store.held);
      var r := RefAt(view, 0);
      if r.length <= left {
        piece := Piece(store.mem, r);
        var _ := PopFrontRef(store);
      } else {
        FrontShrinks(s, left);
        piece := Piece(store.mem, r.(length := left));
        view := ShrinkFront(view, left);
        assert Snap(store) == FrontShrunk(s, left);
      }
    }

    /** Cuts n bytes off the front into plain memory. */
    method CutnBytes(store: BlockStore, n: nat) returns (out: seq<Byte>)
      requires Valid(store)
      modifies this, store`mem, store`held
      ensures Valid(store) && Kept(old(Snap(store)), Snap(store))
      ensures |out| == Min(n, |old(Snap(store).Bytes())|)
      ensures old(Snap(store).Bytes()) == out + Snap(store).Bytes()
    {
      hide Balanced, Evolves, Shares, Bytes, RefsOk, RefsOf, ViewOk, Kept, Length, MemOk, Uniform, Refusals;
      ghost var s := Snap(store);
      KeptReflexive(s, store.chain);
      BalancedMem(store.mem, store.chain, store.held);
      Readers(view, store.mem);
      var m := Min(n, Length(view));
      out := [];
      assert out + s.Bytes() == s.Bytes();
      while |out| < m
        invariant Valid(store) && MemOk(store.mem) && Kept(s, Snap(store)) && |out| <= m
        invariant s.Bytes() == out + Snap(store).Bytes()
      {
        ghost var s1 := Snap(store);
        var piece := TakeFront(store, m - |out|);
        BalancedMem(store.mem, store.chain, store.held);
        KeptTransitive(s, s1, Snap(store));
        ConcatAssociative(out, piece, Snap(store).Bytes());
        out := out + piece;
      }
    }

    /** One turn of the cutting loop: moves a whole reference, or a copy of part of one. */
    method CutStep(store: BlockStore, out: IOBuf, left: nat) returns (step: nat)
      requires this != out && Valid(store) && out.Valid(store)
      requires Apart(store.held, RefsOf(view), RefsOf(out.view))
      requires 0 < left <= |Snap(store).Bytes()|
      modifies this, out, store`mem, store`held
      ensures Valid(store) && out.Valid(store)
      ensures Apart(store.held, RefsOf(view), RefsOf(out.view))
      ensures Kept(old(Both(store.mem, store.held, RefsOf(view), RefsOf(out.view))),
                   Both(store.mem, store.held, RefsOf(view), RefsOf(out.view)))
      ensures 0 < step <= left
      ensures Snap(store).Bytes() == old(Snap(store).Bytes())[step..]
      ensures out.Snap(store).Bytes() == old(out.Snap(store).Bytes()) + old(Snap(store).Bytes())[..step]
    {
      hide Balanced, Evolves, Shares, Bytes, RefsOk, RefsOf, RefAt, Shaped, Solid, Total, Kept, RefNum, MemOk,
           ShrinkFront, Piece, Apart, RefOk, Brought, Bringing, Pushed, Uniform, Refusals;
      ghost var a, b := Snap(store), out.Snap(store);
      LookFront(view, store.mem, store.chain, store.held);
      ApartEach(store.held, a.refs, b.refs);
      var r := RefAt(view, 0);
      RefsTail(store.mem, a.refs);
      if r.length <= left {
        ApartBrings(store.held, a.refs, b.refs);
        out.PushBackRef(store, r, true);
        var _ := MoveOutFrontRef();
        CutWhole(a, b, out.Snap(store), store.chain);
        step := r.length;
      } else {
        var cr := BlockRef(r.offset, left, r.block);
        PartOk(store.mem, r, left);
        ApartCopies(store.held, a.refs, b.refs, cr);
        out.PushBackRef(store, cr, false);
        view := ShrinkFront(view, left);
        CutPart(a, b, out.Snap(store), store.chain, left);
        step := left;
      }
    }

    /** Cuts n bytes off the front and appends them to another buffer without copying them. */
    method Cutn(store: BlockStore, out: IOBuf, n: nat) returns (cut: nat)
      requires this != out && Valid(store) && out.Valid(store)
      requires Apart(store.held, RefsOf(view), RefsOf(out.view))
      modifies this, out, store`mem, store`held
      ensures Valid(store) && out.Valid(store)
      ensures Apart(store.held, RefsOf(view), RefsOf(out.view))
      ensures Kept(old(Both(store.mem, store.held, RefsOf(view), RefsOf(out.view))),
                   Both(store.mem, store.held, RefsOf(view), RefsOf(out.view)))
      ensures cut == Min(n, |old(Snap(store).Bytes())|)
      ensures Snap(store).Bytes() == old(Snap(store).Bytes())[cut..]
      ensures out.Snap(store).Bytes() == old(out.Snap(store).Bytes()) + old(Snap(store).Bytes())[..cut]
    {
      hide Balanced, Evolves, Shares, Bytes, RefsOk, RefsOf, RefAt, Shaped, Solid, Total, Kept, RefNum, Length, MemOk,
           ShrinkFront, Piece, Apart, Uniform, Refusals, CutAt;
      ghost var a, b := Snap(store), out.Snap(store);
      ghost var both := Both(a.mem, a.held, a.refs, b.refs);
      KeptReflexive(both, store.chain);
      Readers(view, store.mem);
      var m := Min(n, Length(view));
      CutNone(a.Bytes(), b.Bytes());
      cut := 0;
      while cut < m
        invariant Valid(store) && out.Valid(store) && cut <= m
        invariant Apart(store.held, RefsOf(view), RefsOf(out.view))
        invariant Kept(both, Both(store.mem, store.held, RefsOf(view), RefsOf(out.view)))
        invariant CutAt(a.Bytes(), cut, 0, Snap(store).Bytes(), b.Bytes(), out.Snap(store).Bytes())
      {
        BalancedMem(store.mem, store.chain, store.held);
        ghost var x, y := Snap(store).Bytes(), out.Snap(store).Bytes();
        CutLeft(a.Bytes(), cut, x, b.Bytes(), y);
        ghost var b1 := Both(store.mem, store.held, RefsOf(view), RefsOf(out.view));
        var step := CutStep(store, out, m - cut);
        KeptTransitive(both, b1, Both(store.mem, store.held, RefsOf(view), RefsOf(out.view)));
        CutMore(a.Bytes(), cut, step, x, b.Bytes(), y);
        cut := cut + step;
      }
      CutLeft(a.Bytes(), m, Snap(store).Bytes(), b.Bytes(), out.Snap(store).Bytes());
    }

    /** Writes bytes at the end of a block of the chain and refers to them. */
    method PushWritten(store: BlockStore, b: BlockId, bytes: seq<Byte>) returns (ghost r: BlockRef)
      requires Valid(store) && b in store.chain && 0 < |bytes|
      requires store.mem.blocks[b].size + |bytes| <= store.mem.blocks[b].cap
      modifies this, store`mem, store`held
      ensures Valid(store) && Kept(old(Snap(store)), Snap(store))
      ensures Snap(store).Bytes() == old(Snap(store).Bytes()) + bytes
      ensures r == BlockRef(old(store.mem.blocks[b].size), |bytes|, b) && RefsOf(view) == Push(old(RefsOf(view)), r)
    {
      hide Balanced, Evolves, Shares, Bytes, RefsOk, RefsOf, Shaped, Solid, Total, Kept, MemOk, Piece, RefOk, Pushed,
           Push, Uniform, Refusals;
      ghost var s := Snap(store);
      BalancedMem(store.mem, store.chain, store.held);
      var w := store.Write(b, bytes);
      r := w;
      ghost var s1 := Snap(store);
      StoreMoved(s, s1, store.chain);
      BringsNothing(s1, r);
      PushBackRef(store, w, false);
      KeptTransitive(s, s1, Snap(store));
      PushedBytes(s1, Snap(store), r);
    }

    /** Appends as much of the data as fits the block being filled; nothing when memory runs out. */
    method AppendSome(store: BlockStore, data: seq<Byte>) returns (nc: nat)
      requires Valid(store) && data != []
      modifies this, store
      ensures Valid(store) && Kept(old(Snap(store)), Snap(store)) && nc <= |data|
      ensures Snap(store).Bytes() == old(Snap(store).Bytes()) + data[..nc]
      ensures Grew(old(store.mem), old(RefsOf(view)), RefsOf(view))
      ensures Rechained(old(store.chain), old(store.mem.next), store.chain)
      ensures |RefsOf(view)| <= old(|RefsOf(view)|) + nc
      ensures store.failed == old(store.failed) + (if nc > 0 then 0 else 1)
    {
      hide Balanced, Evolves, Shares, Bytes, RefsOk, RefsOf, Shaped, Solid, Total, Kept, MemOk, Push, Grew, Unfilled,
           Rechained, Uniform, Refusals;
      ghost var s := Snap(store);
      BalancedMem(store.mem, store.chain, store.held);
      GrewReflexive(s.mem, s.refs);
      ghost var chain := store.chain;
      var b := store.ShareTlsBlock();
      SharedRechained(s.mem, chain, store.chain);
      ghost var s1 := Snap(store);
      StoreMoved(s, s1, store.chain);
      if b == NULL {
        return 0;
      }
      ChainAlive(store.mem, store.chain, store.held, b);
      nc := Min(|data|, store.mem.blocks[b].cap - store.mem.blocks[b].size);
      ghost var r := PushWritten(store, b, data[..nc]);
      WrittenUnread(s.mem, s1.mem, r);
      PushGrew(s.mem, s.refs, r);
      PushFew(s.refs, r);
      KeptTransitive(s, s1, Snap(store));
    }

    /** Refers to as many bytes as the block being filled has left, up to n, leaving them as they are. */
    method ExposeSome(store: BlockStore, n: nat) returns (nc: nat, ghost r: BlockRef)
      requires Valid(store) && 0 < n
      modifies this, store
      ensures Valid(store) && Kept(old(Snap(store)), Snap(store)) && nc <= n
      ensures old(Snap(store).Bytes()) <= Snap(store).Bytes()
      ensures |Snap(store).Bytes()| == old(|Snap(store).Bytes()|) + nc
      ensures nc > 0 ==> r.length == nc && Lands(old(store.mem), old(store.chain), r)
      ensures nc > 0 ==> RefsOf(view) == Push(old(RefsOf(view)), r)
      ensures nc > 0 ==> old(Snap(store).Bytes() + Unwritten(store.mem, store.chain, n)) <= Snap(store).Bytes()
      ensures Grew(old(store.mem), old(RefsOf(view)), RefsOf(view))
      ensures Rechained(old(store.chain), old(store.mem.next), store.chain)
      ensures |RefsOf(view)| <= old(|RefsOf(view)|) + nc
      ensures store.failed == old(store.failed) + (if nc > 0 then 0 else 1)
    {
      hide Balanced, Evolves, Shares, Bytes, RefsOk, RefsOf, Shaped, Solid, Total, Kept, MemOk, Push, Grew, Unfilled,
           Rechained, Uniform, Refusals;
      ghost var s := Snap(store);
      BalancedMem(store.mem, store.chain, store.held);
      GrewReflexive(s.mem, s.refs);
      ghost var chain := store.chain;
      var b := store.ShareTlsBlock();
      SharedRechained(s.mem, chain, store.chain);
      ghost var s1 := Snap(store);
      StoreMoved(s, s1, store.chain);
      if b == NULL {
        return 0, EMPTY_REF;
      }
      ChainAlive(store.mem, store.chain, store.held, b);
      var x := store.mem.blocks[b];
      nc := Min(n, x.cap - x.size);
      r := PushWritten(store, b, x.data[x.size..x.size + nc]);
      WrittenUnread(s.mem, s1.mem, r);
      PushGrew(s.mem, s.refs, r);
      PushFew(s.refs, r);
      KeptTransitive(s, s1, Snap(store));
    }

    /** Appends bytes; when memory runs out, a proper prefix of them has been appended. */
    method Append(store: BlockStore, data: seq<Byte>) returns (rc: int)
      requires Valid(store)
      modifies this, store
      ensures Valid(store) && Kept(old(Snap(store)), Snap(store)) && (rc == 0 || rc == -1)
      ensures rc == 0 ==> Snap(store).Bytes() == old(Snap(store).Bytes()) + data
      ensures rc == -1 ==> old(Snap(store).Bytes()) <= Snap(store).Bytes() < old(Snap(store).Bytes()) + data
      ensures Grew(old(store.mem), old(RefsOf(view)), RefsOf(view))
      ensures Rechained(old(store.chain), old(store.mem.next), store.chain)
      ensures |RefsOf(view)| <= old(|RefsOf(view)|) + |data|
      ensures store.failed == old(store.failed) + (if rc == 0 then 0 else 1)
    {
      hide Balanced, Evolves, Shares, Bytes, RefsOk, RefsOf, Shaped, Solid, Total, MemOk, Grew, Rechained, Uniform,
           Refusals;
      ghost var s, chain := Snap(store), store.chain;
      KeptReflexive(s, store.chain);
      RechainedReflexive(chain, s.mem.next);
      GrewReflexive(s.mem, s.refs);
      var done := 0;
      while done < |data|
        invariant Valid(store) && Kept(s, Snap(store)) && done <= |data|
        invariant Snap(store).Bytes() == s.Bytes() + data[..done]
        invariant Grew(s.mem, s.refs, RefsOf(view)) && Rechained(chain, s.mem.next, store.chain)
        invariant store.failed == old(store.failed) && |RefsOf(view)| <= |s.refs| + done
      {
        ghost var s1, chain1 := Snap(store), store.chain;
        BalancedMem(store.mem, store.chain, store.held);
        var nc := AppendSome(store, data[done..]);
        RechainedTransitive(s.mem, chain, s1.mem, chain1, store.chain);
        BalancedMem(store.mem, store.chain, store.held);
        GrewTransitive(s.mem, s.refs, s1.mem, s1.refs, RefsOf(view));
        KeptTransitive(s, s1, Snap(store));
        assert data[..done] + data[done..][..nc] == data[..done + nc];
        if nc == 0 {
          return -1;
        }
        done := done + nc;
      }
      assert data[..done] == data;
      return 0;
    }

    method PushBack(store: BlockStore, c: Byte) returns (rc: int)
      requires Valid(store)
      modifies this, store
      ensures Valid(store) && Kept(old(Snap(store)), Snap(store))
      ensures rc == 0 || rc == -1
      ensures Snap(store).Bytes() == old(Snap(store).Bytes()) + (if rc == 0 then [c] else [])
      ensures Grew(old(store.mem), old(RefsOf(view)), RefsOf(view))
      ensures Rechained(old(store.chain), old(store.mem.next), store.chain)
      ensures store.failed == old(store.failed) + (if rc == 0 then 0 else 1)
    {
      hide Balanced, Evolves, Shares, Bytes, RefsOk, RefsOf, Shaped, Solid, Total, Kept, MemOk, Grew, Rechained,
           Uniform, Refusals;
      var nc := AppendSome(store, [c]);
      return if nc == 0 then -1 else 0;
    }

    /** Cuts the buffer to n bytes, or grows it to n with copies of c. */
    method Resize(store: BlockStore, n: nat, c: Byte) returns (rc: int)
      requires Valid(store)
      modifies this, store
      ensures Valid(store) && Kept(old(Snap(store)), Snap(store)) && (rc == 0 || rc == -1)
      ensures rc == 0 ==> Snap(store).Bytes() == Resized(old(Snap(store).Bytes()), n, c)
      ensures rc == -1 ==> old(Snap(store).Bytes()) <= Snap(store).Bytes() < Resized(old(Snap(store).Bytes()), n, c)
      ensures var was, now := old(Snap(store).Bytes()), Snap(store).Bytes();
              && (if rc == 0 then |now| == n else |was| <= |now| < n)
              && (forall k | 0 <= k < |now| && k < |was| :: now[k] == was[k])
              && (forall k | |was| <= k < |now| :: now[k] == c)
      ensures Rechained(old(store.chain), old(store.mem.next), store.chain)
      ensures store.failed == old(store.failed) + (if rc == 0 then 0 else 1)
    {
      hide Balanced, Evolves, Shares, Bytes, RefsOk, RefsOf, Shaped, Solid, Total, Kept, MemOk, Length, Rechained,
           Uniform, Refusals;
      RechainedReflexive(store.chain, store.mem.next);
      BalancedMem(store.mem, store.chain, store.held);
      Readers(view, store.mem);
      var len := Length(view);
      if n < len {
        var _ := PopBack(store, len - n);
        return 0;
      }
      ghost var was := Snap(store).Bytes();
      rc := Append(store, seq(n - len, _ => c));
      PaddedWith(was, Snap(store).Bytes(), n, c);
    }

    /** Appends another buffer by sharing its blocks; the other buffer stays as it is. */
    method AppendOther(store: BlockStore, other: IOBuf)
      requires this != other && Valid(store) && other.Valid(store)
      requires Apart(store.held, RefsOf(view), RefsOf(other.view))
      modifies this, store`mem, store`held
      ensures Valid(store) && Kept(old(Snap(store)), Snap(store))
      ensures Snap(store).Bytes() == old(Snap(store).Bytes()) + old(other.Snap(store).Bytes())
      ensures other.Valid(store) && other.Snap(store).Bytes() == old(other.Snap(store).Bytes())
      ensures Apart(store.held, RefsOf(view), RefsOf(other.view))
      ensures Extends(old(RefsOf(view)), RefsOf(view))
      ensures Cells(RefsOf(view)) == old(Cells(RefsOf(view)) + Cells(RefsOf(other.view)))
      ensures |RefsOf(view)| <= old(|RefsOf(view)| + |RefsOf(other.view)|)
    {
      hide Balanced, Evolves, Shares, Bytes, RefsOk, RefsOf, Shaped, Solid, Total, Kept, MemOk, Piece, RefOk, Pushed,
           Push, RefAt, RefNum, Apart, Extends, Cells, Uniform, Refusals, SharedSoFar;
      ghost var s, o := Snap(store), other.Snap(store);
      BalancedMem(store.mem, store.chain, store.held);
      EmptyCheck(other.view);
      NoneShared(s, o.refs, store.chain);
      for i := 0 to RefNum(other.view)
        invariant Valid(store) && MemOk(store.mem) && SharedSoFar(s, o.refs, i, Snap(store))
      {
        ghost var s1 := Snap(store);
        var r := RefAt(other.view, i);
        SharedOneOf(s, o.refs, i, s1, store.chain);
        BringsNothing(s1, r);
        PushBackRef(store, r, false);
        BalancedMem(store.mem, store.chain, store.held);
        OneMoreShared(s, o.refs, i, s1, Snap(store), store.chain);
      }
      AllShared(s, o.refs, Snap(store));
      ApartEach(store.held, RefsOf(view), o.refs);
    }

    /** Exchanges two buffers' fields. */
    method Swap(other: IOBuf)
      modifies this, other
      ensures view == old(other.view) && other.view == old(view)
    {
      view, other.view := other.view, view;
    }

    /** Appends another buffer by taking its references over; the other buffer becomes empty. */
    method AppendMovable(store: BlockStore, other: IOBuf)
      requires this != other && Valid(store) && other.Valid(store)
      requires Apart(store.held, RefsOf(view), RefsOf(other.view))
      modifies this, other, store`mem, store`held
      ensures Valid(store) && other.Valid(store) && other.view == EMPTY_VIEW
      ensures Kept(old(Both(store.mem, store.held, RefsOf(view), RefsOf(other.view))), Snap(store))
      ensures Snap(store).Bytes() == old(Snap(store).Bytes()) + old(other.Snap(store).Bytes())
    {
      hide Balanced, Evolves, Shares, Bytes, RefsOk, RefsOf, Shaped, Solid, Total, Kept, MemOk, Piece, RefOk, Pushed,
           Push, RefAt, RefNum, Apart, Empty, Brought, Bringing, Uniform, Refusals, MovedSoFar;
      ghost var s, o := Snap(store), other.Snap(store);
      ghost var both := Both(s.mem, s.held, o.refs, s.refs);
      KeptReflexive(both, store.chain);
      BalancedMem(store.mem, store.chain, store.held);
      Readers(view, store.mem);
      EmptyViewOk();
      ApartEach(store.held, s.refs, o.refs);
      BothCommute(s.mem, s.held, s.refs, o.refs);
      if Empty(view) {
        Swap(other);
        BothWithEmpty(s.mem, s.held, o.refs);
        EmptyViewUnique(other.view);
        return;
      }
      EmptyCheck(other.view);
      NoneMoved(s, o.refs, store.chain);
      assert o.refs[0..] == o.refs;
      for i := 0 to RefNum(other.view)
        invariant Valid(store) && MemOk(store.mem) && other.view == old(other.view)
        invariant MovedSoFar(s, o.refs, o.refs[i..], Snap(store))
      {
        ghost var s1 := Snap(store);
        var r := RefAt(other.view, i);
        MovedFirst(s, o.refs, o.refs[i..], s1);
        PushBackRef(store, r, true);
        BalancedMem(store.mem, store.chain, store.held);
        OneMoreMoved(s, o.refs, o.refs[i..], s1, Snap(store), store.chain);
        assert o.refs[i..][1..] == o.refs[i + 1..];
      }
      other.view := EMPTY_VIEW;
      assert o.refs[|o.refs|..] == [];
      AllMoved(s, o.refs, Snap(store));
      KeptFrom(both, Both(s.mem, s.held, s.refs, o.refs), Snap(store));
    }

    /** Takes one more share of every block a queue refers to. */
    static method RetainAll(store: BlockStore, v: View)
      requires store.Valid() && ViewOk(v) && RefsOk(store.mem, RefsOf(v))
      modifies store`mem, store`held
      ensures store.Valid() && store.mem.blocks.Keys == old(store.mem.blocks.Keys)
      ensures Evolves(old(store.mem), store.mem) && store.held == old(store.held) + Shares(RefsOf(v))
    {
      hide Balanced, Evolves, Shares, Bytes, RefsOk, RefsOf, Shaped, Solid, Total, MemOk, RefOk, RefAt, RefNum, Retain,
           Uniform, Refusals;
      ghost var mem, refs := store.mem, RefsOf(v);
      BalancedMem(store.mem, store.chain, store.held);
      EvolvesReflexive(mem);
      EmptyCheck(v);
      EmptyViewOk();
      assert refs[..0] == [];
      for i := 0 to RefNum(v)
        invariant store.Valid() && store.mem.blocks.Keys == mem.blocks.Keys
        invariant Evolves(mem, store.mem) && store.held == old(store.held) + Shares(refs[..i])
      {
        ghost var m1 := store.mem;
        BalancedMem(store.mem, store.chain, store.held);
        var r := RefAt(v, i);
        OneRef(mem, refs, i);
        store.IncRef(r.block);
        EvolvesTransitive(mem, m1, store.mem);
        SharesSnoc(refs[..i], r);
        assert refs[..i] + [r] == refs[..i + 1];
      }
      assert refs[..|refs|] == refs;
    }

    /** A copy: the same references, each with a share of its own, packed to the front of a new ring. */
    constructor CopyOf(store: BlockStore, rhs: IOBuf)
      requires rhs.Valid(store)
      modifies store`mem, store`held
      ensures Valid(store) && Snap(store).Bytes() == old(rhs.Snap(store).Bytes())
      ensures Kept(old(Side(store.mem, store.held, [])), Snap(store))
      ensures rhs.Valid(store) && rhs.Snap(store).Bytes() == old(rhs.Snap(store).Bytes())
      ensures Apart(store.held, RefsOf(view), RefsOf(rhs.view))
    {
      view := EMPTY_VIEW;
      new;
      hide Balanced, Evolves, Shares, Bytes, RefsOk, RefsOf, Shaped, Solid, Total, Kept, MemOk, Apart, Uniform,
           Refusals;
      ghost var o := rhs.Snap(store);
      BalancedMem(store.mem, store.chain, store.held);
      RetainAll(store, rhs.view);
      BalancedMem(store.mem, store.chain, store.held);
      if rhs.view.Small? {
        view := rhs.view;
      } else {
        view := PackedCopy(rhs.view, seq(rhs.view.capMask + 1, _ => EMPTY_REF));
      }
      RecountKeeps(o.mem, store.mem, o.refs);
      CopyAccounts(o.held, o.refs, store.held);
      KeptCopy(Side(o.mem, o.held, []), Snap(store));
    }

    static method PackedCopy(v: View, into: seq<BlockRef>) returns (v': View)
      requires ViewOk(v) && v.Big? && |into| == v.capMask + 1
      ensures ViewOk(v') && RefsOf(v') == RefsOf(v)
    {
      var ring := CopyRefs(v, into);
      RingFromZero(v.nref, v.capMask, ring);
      return Big(0, v.nref, v.capMask, v.nbytes, ring);
    }

    /** Assignment: drops this buffer's references and shares the other's, reusing a ring of equal size. */
    method Assign(store: BlockStore, rhs: IOBuf)
      requires Valid(store) && rhs.Valid(store)
      requires this != rhs ==> Apart(store.held, RefsOf(view), RefsOf(rhs.view))
      modifies this, store`mem, store`held
      ensures Valid(store) && Kept(old(Snap(store)), Snap(store))
      ensures Snap(store).Bytes() == old(rhs.Snap(store).Bytes())
      ensures rhs.Valid(store) && rhs.Snap(store).Bytes() == old(rhs.Snap(store).Bytes())
      ensures this != rhs ==> Apart(store.held, RefsOf(view), RefsOf(rhs.view))
    {
      hide Balanced, Evolves, Shares, Bytes, RefsOk, RefsOf, Shaped, Solid, Total, Kept, MemOk, Apart, Uniform,
           Refusals;
      ghost var s, o := Snap(store), rhs.Snap(store);
      KeptReflexive(s, store.chain);
      if this == rhs {
        return;
      }
      var mine := view;
      Clear(store);
      EmptyViewOk();
      ghost var s1 := Snap(store);
      OtherUntouched(s, s1, store.chain, o.refs);
      BalancedMem(store.mem, store.chain, store.held);
      RetainAll(store, rhs.view);
      BalancedMem(store.mem, store.chain, store.held);
      if rhs.view.Small? {
        view := rhs.view;
      } else if mine.Big? && mine.capMask == rhs.view.capMask {
        BigShape(mine);
        view := PackedCopy(rhs.view, mine.ring);
      } else {
        view := PackedCopy(rhs.view, seq(rhs.view.capMask + 1, _ => EMPTY_REF));
      }
      RecountKeeps(s1.mem, store.mem, o.refs);
      CopyAccounts(s1.held, o.refs, store.held);
      KeptCopy(s1, Snap(store));
      KeptTransitive(s, s1, Snap(store));
    }

    /** Move assignment: drops this buffer's references and takes the other's over. Moved into itself it is empty. */
    method MoveFrom(store: BlockStore, rhs: IOBuf)
      requires Valid(store) && rhs.Valid(store)
      requires this != rhs ==> Apart(store.held, RefsOf(view), RefsOf(rhs.view))
      modifies this, rhs, store`mem, store`held
      ensures Valid(store) && rhs.Valid(store) && rhs.view == EMPTY_VIEW
      ensures this == rhs ==> Kept(old(Snap(store)), Snap(store))
      ensures this != rhs ==>
                && view == old(rhs.view) && Snap(store).Bytes() == old(rhs.Snap(store).Bytes())
                && Kept(old(Both(store.mem, store.held, RefsOf(view), RefsOf(rhs.view))), Snap(store))
    {
      hide Balanced, Evolves, Shares, Bytes, RefsOk, RefsOf, Shaped, Solid, Total, Kept, MemOk, Apart, Uniform,
           Refusals;
      ghost var s, o := Snap(store), rhs.Snap(store);
      BalancedMem(store.mem, store.chain, store.held);
      Clear(store);
      EmptyViewOk();
      if this != rhs {
        OtherUntouched(s, Snap(store), store.chain, o.refs);
        KeptBeside(s, Snap(store), o.refs);
      }
      view := rhs.view;
      rhs.view := EMPTY_VIEW;
      BothWithEmpty(store.mem, store.held, o.refs);
    }

    /**
     * Appends memory the caller owns, without copying it, as a block of its own. Refuses what does
     * not fit a 32-bit length; -1 also when memory runs out.
     */
    method AppendUserData(store: BlockStore, data: seq<Byte>) returns (rc: int)
      requires Valid(store) && !(OFFSET_LIMIT <= |data| <= MAX_USER_DATA)
      modifies this, store`mem, store`held, store`asked, store`failed
      ensures Valid(store) && Kept(old(Snap(store)), Snap(store)) && (rc == 0 || rc == -1)
      ensures rc == -1 ==> view == old(view) && store.mem == old(store.mem) && store.held == old(store.held)
      ensures |data| > MAX_USER_DATA ==> rc == -1
      ensures store.failed == old(store.failed) + (if rc == 0 || |data| > MAX_USER_DATA then 0 else 1)
      ensures rc == 0 ==> Snap(store).Bytes() == old(Snap(store).Bytes()) + data
      ensures rc == 0 && data != [] ==>
                && RefsOf(view) == old(RefsOf(view)) + [BlockRef(0, |data|, old(store.mem.next))]
                && forall b | b in old(store.mem.blocks) ::
                     b in store.mem.blocks && store.mem.blocks[b] == old(store.mem).blocks[b]
    {
      hide Balanced, Evolves, Shares, Bytes, RefsOk, RefsOf, Shaped, Solid, Total, Kept, MemOk, Piece, RefOk, Pushed,
           Brought, Bringing, Merges, Uniform, Refusals;
      ghost var s := Snap(store);
      KeptReflexive(s, store.chain);
      BalancedMem(store.mem, store.chain, store.held);
      if |data| > MAX_USER_DATA {
        return -1;
      }
      if |data| == 0 {
        return 0;
      }
      var b := store.AddUserBlock(data);
      if b == NULL {
        return -1;
      }
      ghost var s1 := Snap(store);
      var r := BlockRef(0, |data|, b);
      UserBlockAdded(s, s1, store.chain, r);
      NewNeverMerges(s.mem, s.refs, r);
      PushBackRef(store, r, true);
      PushedBytes(s1, Snap(store), r);
      KeptUserBlock(s, s1, Snap(store), r);
      return 0;
    }

    /** Scans for a byte, reference by reference. */
    method FindChar(store: BlockStore, d: Byte) returns (n: int)
      requires Valid(store)
      ensures n == FirstFrom(Snap(store).Bytes(), [d], 0)
    {
      hide Balanced, Shares, Bytes, RefsOk, RefsOf, Shaped, Solid, Total, MemOk, Piece, RefAt, RefNum, FirstFrom,
           Uniform, Refusals;
      ghost var refs, all := RefsOf(view), Snap(store).Bytes();
      BalancedMem(store.mem, store.chain, store.held);
      EmptyCheck(view);
      BytesNone(store.mem);
      assert refs[..0] == [];
      n := 0;
      for i := 0 to RefNum(view)
        invariant n == |Bytes(store.mem, refs[..i])| <= |all|
        invariant FirstFrom(all, [d], 0) == FirstFrom(all, [d], n)
      {
        var r := RefAt(view, i);
        PieceWithin(store.mem, refs, i);
        var s := Piece(store.mem, r);
        for j := 0 to r.length
          invariant n == |Bytes(store.mem, refs[..i])| + j
          invariant FirstFrom(all, [d], 0) == FirstFrom(all, [d], n)
        {
          CharStep(all, d, n);
          if s[j] == d {
            return n;
          }
          n := n + 1;
        }
      }
      assert refs[..|refs|] == refs;
      CharEnd(all, d);
      return -1;
    }

    /** Scans for a delimiter with the rolling signature, across references. */
    method FindDelimiter(store: BlockStore, d: seq<Byte>) returns (n: int)
      requires Valid(store) && |d| <= 8
      ensures n == ScanFrom(Snap(store).Bytes(), d, 0)
    {
      hide Balanced, Shares, Bytes, RefsOk, RefsOf, Shaped, Solid, Total, MemOk, Piece, RefAt, RefNum, ScanFrom, Sig,
           ShiftIn, Mask, DelimSig, Uniform, Refusals;
      ghost var refs, all := RefsOf(view), Snap(store).Bytes();
      BalancedMem(store.mem, store.chain, store.held);
      EmptyCheck(view);
      BytesNone(store.mem);
      SigStart(|d|);
      assert refs[..0] == [] && all[..0] == [];
      var dsig := DelimSig(d);
      var sig := ZERO;
      n := 0;
      for i := 0 to RefNum(view)
        invariant n == |Bytes(store.mem, refs[..i])| <= |all|
        invariant sig == Sig(all[..n], |d|) && ScanFrom(all, d, 0) == ScanFrom(all, d, n)
      {
        var r := RefAt(view, i);
        PieceWithin(store.mem, refs, i);
        var s := Piece(store.mem, r);
        for j := 0 to r.length
          invariant n == |Bytes(store.mem, refs[..i])| + j
          invariant sig == Sig(all[..n], |d|) && ScanFrom(all, d, 0) == ScanFrom(all, d, n)
        {
          SigStep(all, d, n);
          sig := Mask(ShiftIn(sig, s[j]), |d|);
          if sig == dsig {
            return n;
          }
          n := n + 1;
        }
      }
      assert refs[..|refs|] == refs;
      ScanEnd(all, d);
      return -1;
    }

    /**
     * Cuts up to a delimiter into another buffer and drops the delimiter; changes nothing when the
     * search does not find it.
     */
    method CutUntil(store: BlockStore, out: IOBuf, d: seq<Byte>) returns (rc: int)
      requires this != out && Valid(store) && out.Valid(store)
      requires Apart(store.held, RefsOf(view), RefsOf(out.view))
      modifies this, out, store`mem, store`held
      ensures Valid(store) && out.Valid(store)
      ensures Apart(store.held, RefsOf(view), RefsOf(out.view))
      ensures Kept(old(Both(store.mem, store.held, RefsOf(view), RefsOf(out.view))),
                   Both(store.mem, store.held, RefsOf(view), RefsOf(out.view)))
      ensures var cut := SearchedCut(old(Snap(store).Bytes()), d);
              if cut == NotFound then
                rc == -1 && view == old(view) && out.view == old(out.view) && store.mem == old(store.mem)
              else
                && rc == 0 && Snap(store).Bytes() == cut.rest
                && out.Snap(store).Bytes() == old(out.Snap(store).Bytes()) + cut.before
    {
      hide Balanced, Evolves, Shares, Bytes, RefsOk, RefsOf, Shaped, Solid, Total, Kept, Length, MemOk, Apart, ScanFrom,
           FirstFrom, Uniform, Refusals;
      ghost var both := Both(store.mem, store.held, RefsOf(view), RefsOf(out.view));
      ghost var all := Snap(store).Bytes();
      KeptReflexive(both, store.chain);
      Readers(view, store.mem);
      var n: int;
      if |d| == 0 || |d| > 8 || |d| > Length(view) {
        ShortNotFound(all, d);
        return -1;
      }
      if |d| == 1 {
        n := FindChar(store, d[0]);
        assert [d[0]] == d;
      } else {
        n := FindDelimiter(store, d);
      }
      if n < 0 {
        return -1;
      }
      SearchRange(all, d, n);
      CutAndDrop(store, out, if n + 1 >= |d| then n + 1 - |d| else n + 1 - |d| + SIZE_MODULUS, |d|);
      return 0;
    }

    method CutAndDrop(store: BlockStore, out: IOBuf, n: nat, drop: nat)
      requires this != out && Valid(store) && out.Valid(store)
      requires Apart(store.held, RefsOf(view), RefsOf(out.view))
      modifies this, out, store`mem, store`held
      ensures Valid(store) && out.Valid(store)
      ensures Apart(store.held, RefsOf(view), RefsOf(out.view))
      ensures Kept(old(Both(store.mem, store.held, RefsOf(view), RefsOf(out.view))),
                   Both(store.mem, store.held, RefsOf(view), RefsOf(out.view)))
      ensures CutAt(old(Snap(store).Bytes()), n, drop, Snap(store).Bytes(),
                    old(out.Snap(store).Bytes()), out.Snap(store).Bytes())
    {
      hide Balanced, Evolves, Shares, Bytes, RefsOk, RefsOf, Shaped, Solid, Total, Kept, MemOk, Apart, Uniform,
           Refusals;
      ghost var both := Both(store.mem, store.held, RefsOf(view), RefsOf(out.view));
      BalancedMem(store.mem, store.chain, store.held);
      ghost var all := Snap(store).Bytes();
      var cut := Cutn(store, out, n);
      BalancedMem(store.mem, store.chain, store.held);
      ghost var s1, o := Snap(store), out.Snap(store);
      var popped := PopFront(store, drop);
      CutFurther(all, cut, popped, []);
      OtherUntouched(s1, Snap(store), store.chain, o.refs);
      KeptBeside(s1, Snap(store), o.refs);
      KeptTransitive(both, s1.(refs := s1.refs + o.refs), Both(store.mem, store.held, RefsOf(view), RefsOf(out.view)));
    }

    /**
     * Appends n bytes of whatever the blocks contain, and names them. The name is invalid when
     * memory ran out, and otherwise exactly when the place does not fit in it.
     */
    method Reserve(store: BlockStore, n: nat) returns (area: Area)
      requires Valid(store)
      modifies this, store
      ensures Valid(store) && Kept(old(Snap(store)), Snap(store))
      ensures Grew(old(store.mem), old(RefsOf(view)), RefsOf(view))
      ensures Rechained(old(store.chain), old(store.mem.next), store.chain)
      ensures |RefsOf(view)| <= old(|RefsOf(view)|) + n
      ensures store.failed == old(store.failed)
                              + (if |Snap(store).Bytes()| == |old(Snap(store).Bytes())| + n then 0 else 1)
      ensures old(Snap(store).Bytes()) <= Snap(store).Bytes()
      ensures |Snap(store).Bytes()| <= |old(Snap(store).Bytes())| + n
      ensures area != INVALID_AREA ==>
                && |Snap(store).Bytes()| == |old(Snap(store).Bytes())| + n
                && Names(RefsOf(view), area, |old(Snap(store).Bytes())|, Narrow(n))
      ensures |Snap(store).Bytes()| == |old(Snap(store).Bytes())| + n ==>
                && old(Snap(store).Bytes() + Unwritten(store.mem, store.chain, n)) <= Snap(store).Bytes()
                && (area != INVALID_AREA <==> old(Packable(store.mem, store.chain, RefsOf(view), n)))
                && (0 < Narrow(n) <= MAX_AREA_SIZE ==>
                      (area != INVALID_AREA <==> Nameable(RefsOf(view), |old(Snap(store).Bytes())|)))
    {
      hide Balanced, Evolves, Shares, Bytes, RefsOk, RefsOf, Shaped, Solid, Total, MemOk, Grew, Names, Push, RefAt,
           RefNum, MakeArea, Lands, Packable, Unwritten, Narrow, Nameable, Rechained, Uniform, Refusals;
      ghost var s, chain := Snap(store), store.chain;
      BalancedMem(store.mem, store.chain, store.held);
      KeptReflexive(s, store.chain);
      RechainedReflexive(chain, s.mem.next);
      GrewReflexive(s.mem, s.refs);
      BytesLength(s.mem, s.refs);
      NothingPacked(s.mem, chain, s.refs);
      area := INVALID_AREA;
      var done := 0;
      while done < n
        invariant Valid(store) && Kept(s, Snap(store)) && done <= n
        invariant Grew(s.mem, s.refs, RefsOf(view)) && Rechained(chain, s.mem.next, store.chain)
        invariant store.failed == old(store.failed) && |RefsOf(view)| <= |s.refs| + done
        invariant s.Bytes() <= Snap(store).Bytes() && |Snap(store).Bytes()| == |s.Bytes()| + done
        invariant area != INVALID_AREA ==> Names(RefsOf(view), area, |s.Bytes()|, Narrow(n))
        invariant 0 < done ==> (area != INVALID_AREA <==> Packable(s.mem, chain, s.refs, n))
        invariant 0 < done && 0 < Narrow(n) <= MAX_AREA_SIZE ==>
                    (area != INVALID_AREA <==> Nameable(RefsOf(view), |s.Bytes()|))
        invariant 0 < done ==> s.Bytes() + Unwritten(s.mem, chain, n) <= Snap(store).Bytes()
        invariant done == 0 ==> Snap(store) == s && store.chain == chain && area == INVALID_AREA
      {
        ghost var s1, chain1 := Snap(store), store.chain;
        BalancedMem(store.mem, store.chain, store.held);
        var nc, r := ExposeSome(store, n - done);
        BalancedMem(store.mem, store.chain, store.held);
        KeptTransitive(s, s1, Snap(store));
        RechainedTransitive(s.mem, chain, s1.mem, chain1, store.chain);
        GrewTransitive(s.mem, s.refs, s1.mem, s1.refs, RefsOf(view));
        if nc == 0 {
          return INVALID_AREA;
        }
        if done == 0 {
          FirstPushNames(s.refs, r, Narrow(n));
          PacksExactly(s.mem, chain, s.refs, r, n);
          if 0 < Narrow(n) <= MAX_AREA_SIZE {
            FirstPushNameable(s.refs, r, Narrow(n));
          }
          EmptyCheck(view);
          PushCount(s.refs, r);
          var k := RefNum(view) - 1;
          area := MakeArea(k, RefAt(view, k).length - nc, Narrow(n));
        } else {
          GrewExtends(s1.mem, s1.refs, RefsOf(view));
          BytesLength(s1.mem, s1.refs);
          NameableStays(s1.refs, RefsOf(view), |s.Bytes()|);
          if area != INVALID_AREA {
            NamesStays(s1.refs, RefsOf(view), area, |s.Bytes()|, Narrow(n));
          }
        }
        done := done + nc;
      }
    }

    /**
     * Writes over the named bytes. Returns -1 for an invalid name, and when the buffer ends before
     * the area does; what there is of it has then been written.
     */
    method UnsafeAssign(store: BlockStore, area: Area, data: seq<Byte>) returns (rc: int)
      requires Valid(store) && AreaSize(area) <= |data|
      requires area != INVALID_AREA && AreaRefIndex(area) < |RefsOf(view)| ==>
                 && AreaRefOffset(area) <= RefsOf(view)[AreaRefIndex(area)].length
                 && Exclusive(RefsOf(view), AreaStart(RefsOf(view), area), AreaHere(RefsOf(view), area))
      modifies store`mem
      ensures Valid(store) && RefsOf(view) == old(RefsOf(view))
      ensures rc == if area != INVALID_AREA && AreaRefIndex(area) < |RefsOf(view)|
                       && AreaHere(RefsOf(view), area) == AreaSize(area) then 0 else -1
      ensures area == INVALID_AREA || AreaRefIndex(area) >= |RefsOf(view)| ==> store.mem == old(store.mem)
      ensures area != INVALID_AREA && AreaRefIndex(area) < |RefsOf(view)| ==>
                var p, n := AreaStart(RefsOf(view), area), AreaHere(RefsOf(view), area);
                && p + n <= |Cells(RefsOf(view))|
                && Assigned(old(store.mem), store.mem, Cells(RefsOf(view))[p..p + n], data[..n])
    {
      hide Balanced, Shares, Bytes, RefsOk, RefsOf, Shaped, Solid, Total, MemOk, RefAt, RefNum, Assigned, Cells,
           AreaRefIndex, AreaRefOffset, AreaSize, Position, Exclusive, Overwrite, RefOk, Uniform, Refusals;
      EmptyCheck(view);
      if area == INVALID_AREA {
        return -1;
      }
      var i: nat := AreaRefIndex(area);
      var offset: nat := AreaRefOffset(area);
      var length: nat := AreaSize(area);
      if i >= RefNum(view) {
        return -1;
      }
      ghost var refs, mem := RefsOf(view), store.mem;
      ghost var p, n := AreaStart(refs, area), AreaHere(refs, area);
      AssignedNothing(mem);
      ChunkCells(refs, i, offset, 0);
      var done: nat := 0;
      assert Cells(refs)[p..p + done] == [] && data[..done] == [];
      while i < RefNum(view)
        invariant 0 <= i <= |refs| && Valid(store) && done + length == AreaSize(area)
        invariant p + n <= |Cells(refs)| == Total(refs)
        invariant if i < |refs| then offset <= refs[i].length else offset == 0
        invariant Position(refs, i, offset) == p + done && done <= n
        invariant Assigned(mem, store.mem, Cells(refs)[p..p + done], data[..done])
        invariant i == |refs| ==> 0 < length
      {
        var r := RefAt(view, i);
        var nc := Min(length, r.length - offset);
        ghost var m1 := store.mem;
        OneRef(m1, refs, i);
        ChunkCells(refs, i, offset, nc);
        store.Poke(r, offset, data[done..done + nc]);
        AssignChunk(mem, m1, store.mem, refs, p, done, nc, n, data[..done], data[done..done + nc]);
        assert data[..done] + data[done..done + nc] == data[..done + nc];
        BalancedMem(store.mem, store.chain, store.held);
        if length == nc {
          return 0;
        }
        NextPosition(refs, i);
        PositionAdds(refs, i, offset, nc);
        offset := 0;
        length := length - nc;
        done := done + nc;
        i := i + 1;
      }
      PositionEnd(refs);
      return -1;
    }
  }

  /** Where an area starts in the bytes of a queue. */
  ghost function AreaStart(refs: seq<BlockRef>, area: Area): nat
    requires AreaRefIndex(area) < |refs|
  {
    Position(refs, AreaRefIndex(area), AreaRefOffset(area))
  }

  /** How many bytes of an area the queue has. */
  ghost function AreaHere(refs: seq<BlockRef>, area: Area): nat
    requires AreaRefIndex(area) < |refs| && AreaRefOffset(area) <= refs[AreaRefIndex(area)].length
  {
    ChunkCells(refs, AreaRefIndex(area), AreaRefOffset(area), 0);
    Min(AreaSize(area), Total(refs) - AreaStart(refs, area))
  }

  /** One byte is searched for directly, more by signature, none and more than eight never. */
  function SearchedCut(bytes: seq<Byte>, d: seq<Byte>): Cut {
    if |d| == 0 then NotFound else if |d| == 1 then NaiveCut(bytes, d) else SignatureCut(bytes, d)
  }

  /** What the caller is promised, for every single byte and every searchable delimiter. */
  lemma CutUntilIsNaive(bytes: seq<Byte>, d: seq<Byte>)
    requires |d| == 1 || Searchable(d)
    ensures SearchedCut(bytes, d) == NaiveCut(bytes, d)
  {
    if |d| > 1 {
      SearchableIsRight(bytes, d);
    }
  }

  lemma ShortNotFound(bytes: seq<Byte>, d: seq<Byte>)
    requires |d| == 0 || |d| > 8 || |d| > |bytes|
    ensures SearchedCut(bytes, d) == NotFound
  {}

  lemma SearchRange(bytes: seq<Byte>, d: seq<Byte>, n: int)
    requires 1 <= |d| <= |bytes| && |d| <= 8 && 0 <= n
    requires n == if |d| == 1 then FirstFrom(bytes, d, 0) else ScanFrom(bytes, d, 0)
    ensures n < |bytes|
    ensures var start := if n + 1 >= |d| then n + 1 - |d| else n + 1 - |d| + SIZE_MODULUS;
            var cut := Min(start, |bytes|);
            SearchedCut(bytes, d) == Found(bytes[..cut], bytes[cut..][Min(|d|, |bytes| - cut)..])
  {
    if |d| == 1 {
      FirstFromIsFirst(bytes, d, 0);
    } else {
      ScanBound(bytes, d, 0);
    }
  }

  lemma {:induction false} ScanBound(bytes: seq<Byte>, d: seq<Byte>, n: nat)
    requires n <= |bytes|
    ensures ScanFrom(bytes, d, n) < |bytes|
    decreases |bytes| - n
  {
    if n < |bytes| && !Hit(bytes, n, d) {
      ScanBound(bytes, d, n + 1);
    }
  }

  lemma CharStep(bytes: seq<Byte>, d: Byte, n: nat)
    requires n < |bytes|
    ensures FirstFrom(bytes, [d], n) == if bytes[n] == d then n else FirstFrom(bytes, [d], n + 1)
  {}

  lemma CharEnd(bytes: seq<Byte>, d: Byte)
    ensures FirstFrom(bytes, [d], |bytes|) == -1
  {}

  lemma SigStart(k: nat)
    ensures Sig([], k) == ZERO
  {}

  lemma SigStep(bytes: seq<Byte>, d: seq<Byte>, n: nat)
    requires n < |bytes|
    ensures Sig(bytes[..n + 1], |d|) == Mask(ShiftIn(Sig(bytes[..n], |d|), bytes[n]), |d|)
    ensures ScanFrom(bytes, d, n) ==
            if Sig(bytes[..n + 1], |d|) == DelimSig(d) then n else ScanFrom(bytes, d, n + 1)
  {
    assert bytes[..n + 1][..n] == bytes[..n];
  }

  lemma ScanEnd(bytes: seq<Byte>, d: seq<Byte>)
    ensures ScanFrom(bytes, d, |bytes|) == -1
  {}

  /** Where the i-th reference's bytes stand in the whole. */
  lemma PieceWithin(mem: Mem, refs: seq<BlockRef>, i: nat)
    requires MemOk(mem) && RefsOk(mem, refs) && i < |refs|
    ensures |Piece(mem, refs[i])| == refs[i].length
    ensures |Bytes(mem, refs[..i + 1])| == |Bytes(mem, refs[..i])| + refs[i].length <= |Bytes(mem, refs)|
    ensures forall j | 0 <= j < refs[i].length ::
              Bytes(mem, refs)[|Bytes(mem, refs[..i])| + j] == Piece(mem, refs[i])[j]
  {
    hide Bytes;
    assert RefOk(mem, refs[i]);
    BytesSnoc(mem, refs[..i], refs[i]);
    assert refs[..i] + [refs[i]] == refs[..i + 1];
    BytesConcat(mem, refs[..i + 1], refs[i + 1..]);
    assert refs[..i + 1] + refs[i + 1..] == refs;
  }

  /** Taking part of one reference continues a copy of all before it. */
  lemma PieceTaken(mem: Mem, refs: seq<BlockRef>, i: nat, nc: nat)
    requires MemOk(mem) && RefsOk(mem, refs) && i < |refs| && nc <= refs[i].length
    ensures var done := Bytes(mem, refs[..i]);
            && |Piece(mem, refs[i].(length := nc))| == nc && |done| + nc <= |Bytes(mem, refs)|
            && done + Piece(mem, refs[i].(length := nc)) == Bytes(mem, refs)[..|done| + nc]
            && (nc == refs[i].length ==> done + Piece(mem, refs[i].(length := nc)) == Bytes(mem, refs[..i + 1]))
  {
    hide Bytes;
    assert RefOk(mem, refs[i]);
    PieceSplit(mem, refs[i], nc);
    BytesSnoc(mem, refs[..i], refs[i]);
    assert refs[..i] + [refs[i]] == refs[..i + 1];
    BytesConcat(mem, refs[..i + 1], refs[i + 1..]);
    assert refs[..i + 1] + refs[i + 1..] == refs;
    assert refs[i].(length := refs[i].length) == refs[i];
    hide MemOk, RefsOk, Piece;
  }

  function Resized(bytes: seq<Byte>, n: nat, c: Byte): seq<Byte> {
    if n < |bytes| then bytes[..n] else bytes + seq(n - |bytes|, _ => c)
  }

  lemma EmptyIn(mem: Mem, held: multiset<BlockId>)
    ensures ViewOk(EMPTY_VIEW) && RefsOf(EMPTY_VIEW) == [] && RefsOk(mem, []) && Shares([]) <= held
    ensures Bytes(mem, []) == []
  {
    EmptyViewOk();
  }

  lemma PaddedWith(was: seq<Byte>, now: seq<Byte>, n: nat, c: Byte)
    requires |was| <= n && was <= now <= was + seq(n - |was|, _ => c)
    ensures forall k | 0 <= k < |was| :: now[k] == was[k]
    ensures forall k | |was| <= k < |now| :: now[k] == c
  {
  }
}
