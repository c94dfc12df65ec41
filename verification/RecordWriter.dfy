/** Writing records into a buffer: the head is reserved first and filled in last. */
module RecordWriters {
  import opened Memory
  import opened Views
  import opened BlockStores
  import opened Sides
  import opened Areas
  import opened IOBufs
  import opened Reservations
  import opened Records

  /** A meta as a record holds it. */
  datatype NamedMeta = NamedMeta(name: seq<Byte>, data: IOBuf)

  class Record {
    var metas: seq<NamedMeta>
    const payload: IOBuf

    constructor ()
      ensures metas == [] && fresh(payload) && payload.view == EMPTY_VIEW
    {
      metas := [];
      payload := new IOBuf();
    }

    /** Finds the meta of that name, or adds an empty one; null for a name it has, if so asked, or cannot take. */
    method MutableMeta(name: seq<Byte>, nullOnFound: bool) returns (meta: IOBuf?)
      modifies this`metas
      ensures old(HasMeta(metas, name)) ==>
                && metas == old(metas)
                && if nullOnFound then meta == null
                   else exists i | 0 <= i < |metas| :: metas[i].name == name && metas[i].data == meta
      ensures !old(HasMeta(metas, name)) && !(0 < |name| <= MAX_NAME_SIZE) ==> meta == null && metas == old(metas)
      ensures !old(HasMeta(metas, name)) && 0 < |name| <= MAX_NAME_SIZE ==>
                && meta != null && fresh(meta) && meta.view == EMPTY_VIEW
                && metas == old(metas) + [NamedMeta(name, meta)]
      ensures old(WellNamed(metas)) ==> WellNamed(metas)
    {
      for i := 0 to |metas|
        invariant metas == old(metas) && forall j | 0 <= j < i :: metas[j].name != name
      {
        if metas[i].name == name {
          if nullOnFound {
            return null;
          }
          meta := metas[i].data;
          assert metas[i].name == name && metas[i].data == meta;
          return;
        }
      }
      if |name| > MAX_NAME_SIZE {
        return null;
      } else if name == [] {
        return null;
      }
      meta := new IOBuf();
      metas := metas + [NamedMeta(name, meta)];
    }

    /** Removes the meta of that name; the last one takes its place. */
    method RemoveMeta(name: seq<Byte>) returns (removed: bool)
      modifies this`metas
      ensures removed <==> old(HasMeta(metas, name))
      ensures !removed ==> metas == old(metas)
      ensures removed ==>
                exists i: nat | i < |old(metas)| :: old(metas)[i].name == name && metas == Without(old(metas), i)
      ensures old(WellNamed(metas)) ==> WellNamed(metas) && !HasMeta(metas, name)
    {
      for i := 0 to |metas|
        invariant metas == old(metas) && forall j | 0 <= j < i :: metas[j].name != name
      {
        if metas[i].name == name {
          WithoutOne(metas, i);
          var n := |metas| - 1;
          metas := metas[i := metas[n]];
          metas := metas[..n];
          assert metas == Without(old(metas), i);
          return true;
        }
      }
      return false;
    }

    /** What the record takes when serialized. */
    method Size(store: BlockStore) returns (n: nat)
      requires payload.Valid(store) && forall i | 0 <= i < |metas| :: metas[i].data.Valid(store)
      ensures n == ByteSize(Value(store.mem))
    {
      hide Balanced, Shares, Bytes, RefsOk, RefsOf, Shaped, Solid, Total, MemOk, Length, Uniform, Refusals;
      ghost var v := Value(store.mem);
      BalancedMem(store.mem, store.chain, store.held);
      Readers(payload.view, store.mem);
      n := HEAD_SIZE + Length(payload.view);
      for i := 0 to |metas|
        invariant n == HEAD_SIZE + |v.payload| + MetaSizes(v.metas[..i])
      {
        Readers(metas[i].data.view, store.mem);
        MetaSizesSnoc(v.metas[..i], v.metas[i]);
        assert v.metas[..i] + [v.metas[i]] == v.metas[..i + 1];
        n := n + 5 + |metas[i].name| + Length(metas[i].data.view);
      }
      assert v.metas[..|v.metas|] == v.metas;
      assert Value(store.mem).metas == v.metas;
    }

    ghost function Repr(): set<IOBuf>
      reads this
    {
      {payload} + set i | 0 <= i < |metas| :: metas[i].data
    }

    /** At most how many references the first i metas add to a buffer they are written to. */
    ghost function MetaRefs(i: nat): nat
      requires i <= |metas|
      reads this, Repr()
    {
      if i == 0 then 0 else MetaRefs(i - 1) + 5 + |metas[i - 1].name| + RefNum(metas[i - 1].data.view)
    }

    /** The same for the whole record. */
    ghost function References(): nat
      reads this, Repr()
    {
      HEAD_SIZE + MetaRefs(|metas|) + RefNum(payload.view)
    }

    /** All the record's buffers are good in this memory and apart from another queue. */
    ghost predicate Beside(mem: Mem, held: multiset<BlockId>, refs: seq<BlockRef>)
      reads this, Repr()
    {
      && SharedFrom(payload.view, mem, held, refs)
      && forall i | 0 <= i < |metas| :: SharedFrom(metas[i].data.view, mem, held, refs)
    }

    /** The record as a value. */
    ghost function Value(mem: Mem): Rec
      reads this, Repr()
    {
      Rec(seq(|metas|, i requires 0 <= i < |metas| reads this, Repr() =>
            Meta(metas[i].name, Text(mem, metas[i].data.view))), Text(mem, payload.view))
    }
  }

  /** The last one moves over the one that goes. */
  function Without(metas: seq<NamedMeta>, i: nat): seq<NamedMeta>
    requires i < |metas|
  {
    metas[i := metas[|metas| - 1]][..|metas| - 1]
  }

  lemma WithoutOne(metas: seq<NamedMeta>, i: nat)
    requires i < |metas|
    ensures multiset(Without(metas, i)) == multiset(metas) - multiset{metas[i]}
    ensures WellNamed(metas) ==> WellNamed(Without(metas, i)) && !HasMeta(Without(metas, i), metas[i].name)
  {
    hide WellNamed, HasMeta;
    LastMoves(metas, i);
    if WellNamed(metas) {
      WithoutNamed(metas, i);
    }
  }

  lemma WithoutNamed(metas: seq<NamedMeta>, i: nat)
    requires i < |metas| && WellNamed(metas)
    ensures WellNamed(Without(metas, i)) && !HasMeta(Without(metas, i), metas[i].name)
  {
    var n := |metas| - 1;
    assert forall k | 0 <= k < n :: Without(metas, i)[k] == if k == i then metas[n] else metas[k];
    hide Without;
  }

  lemma LastMoves<T>(s: seq<T>, i: nat)
    requires i < |s|
    ensures multiset(s[i := s[|s| - 1]][..|s| - 1]) == multiset(s) - multiset{s[i]}
  {
    var n := |s| - 1;
    var first, last := s[..n], s[n];
    assert s == first + [last];
    if i < n {
      assert s[i := last][..n] == first[i := last];
    } else {
      assert s[i := last][..n] == first;
    }
  }

  predicate HasMeta(metas: seq<NamedMeta>, name: seq<Byte>) {
    exists i | 0 <= i < |metas| :: metas[i].name == name
  }

  /** What adding and removing metas keeps: names within bounds, no two alike. */
  predicate WellNamed(metas: seq<NamedMeta>) {
    && (forall i | 0 <= i < |metas| :: 0 < |metas[i].name| <= MAX_NAME_SIZE)
    && (forall i, j | 0 <= i < j < |metas| :: metas[i].name != metas[j].name)
  }

  class RecordWriter {
    const buf: IOBuf

    constructor ()
      ensures fresh(buf) && buf.view == EMPTY_VIEW
    {
      buf := new IOBuf();
    }

    /** One meta: its prefix is copied in, its data shared. */
    method AppendMeta(store: BlockStore, name: seq<Byte>, data: IOBuf, more: bool,
                      ghost s0: Side, ghost refs1: seq<BlockRef>, ghost area: Area)
      requires buf != data && buf.Valid(store) && Reserved(s0, refs1, area, HEAD_SIZE, buf.Snap(store)) && MemOk(s0.mem)
      requires SharedFrom(data.view, s0.mem, s0.held, s0.refs) && Length(data.view) < MORE_BIT
      modifies buf, store
      ensures buf.Valid(store) && Reserved(s0, refs1, area, HEAD_SIZE, buf.Snap(store))
      ensures old(buf.Snap(store).Bytes()) <= buf.Snap(store).Bytes() && store.failed >= old(store.failed)
      ensures store.failed == old(store.failed) ==>
                && |Bytes(s0.mem, RefsOf(data.view))| < MORE_BIT
                && buf.Snap(store).Bytes() == old(buf.Snap(store).Bytes())
                                              + EncodeMeta(Meta(name, Bytes(s0.mem, RefsOf(data.view))), more)
      ensures |RefsOf(buf.view)| <= old(|RefsOf(buf.view)|) + 5 + |name| + RefNum(data.view)
    {
      hide Balanced, Kept, Shares, Bytes, RefsOk, RefsOf, Shaped, Solid, Total, MemOk, Apart, Length, Reserved, RefNum,
           Uniform, Refusals;
      ghost var s := buf.Snap(store);
      ReservedKept(s0, refs1, area, HEAD_SIZE, s);
      StillThere(store, buf, data, s0);
      var prefix := MetaPrefix(name, Length(data.view), more);
      hide MetaPrefix;
      AppendCopied(store, buf, prefix, s0, refs1, area, HEAD_SIZE);
      AppendShared(store, buf, data, s0, refs1, area, HEAD_SIZE);
      ConcatAssociative(s.Bytes(), prefix, Bytes(s0.mem, RefsOf(data.view)));
    }

    /** Takes back whatever was appended since. */
    method Reject(store: BlockStore, oldSize: nat, ghost s0: Side) returns (rc: int)
      requires buf.Valid(store) && Kept(s0, buf.Snap(store)) && MemOk(s0.mem)
      requires s0.Bytes() <= buf.Snap(store).Bytes() && oldSize == |s0.Bytes()|
      modifies buf, store`mem, store`held
      ensures rc == -1 && buf.Valid(store) && Kept(s0, buf.Snap(store)) && buf.Snap(store).Bytes() == s0.Bytes()
      ensures Extends(RefsOf(buf.view), old(RefsOf(buf.view)))
    {
      hide Balanced, Kept, Shares, Bytes, RefsOk, RefsOf, Shaped, Solid, Total, MemOk, Length, Extends, Uniform,
           Refusals;
      ghost var s := buf.Snap(store);
      BalancedMem(store.mem, store.chain, store.held);
      Readers(buf.view, store.mem);
      var _ := buf.PopBack(store, Length(buf.view) - oldSize);
      KeptTransitive(s0, s, buf.Snap(store));
      return -1;
    }

    /** A record's i-th meta, unless its name or its data is too long. */
    method WriteMeta(store: BlockStore, rec: Record, i: nat, ghost s0: Side, ghost refs1: seq<BlockRef>,
                     ghost area: Area) returns (fits: bool)
      requires buf.Valid(store) && buf !in rec.Repr() && MemOk(s0.mem) && i < |rec.metas|
      requires Reserved(s0, refs1, area, HEAD_SIZE, buf.Snap(store)) && rec.Beside(s0.mem, s0.held, s0.refs)
      modifies buf, store
      ensures buf.Valid(store) && Reserved(s0, refs1, area, HEAD_SIZE, buf.Snap(store))
      ensures old(buf.Snap(store).Bytes()) <= buf.Snap(store).Bytes() && store.failed >= old(store.failed)
      ensures var m := rec.Value(s0.mem).metas[i];
              && (fits <==> |m.name| <= MAX_NAME_SIZE && |m.data| < MORE_BIT)
              && (fits && store.failed == old(store.failed) ==>
                    buf.Snap(store).Bytes() == old(buf.Snap(store).Bytes()) + EncodeMeta(m, i + 1 < |rec.metas|))
      ensures |RefsOf(buf.view)| <= old(|RefsOf(buf.view)|) + rec.MetaRefs(i + 1) - rec.MetaRefs(i)
    {
      hide Balanced, Kept, Shares, Bytes, RefsOk, RefsOf, Shaped, Solid, Total, MemOk, Apart, Length, Reserved,
           EncodeMeta, RefNum, Uniform, Refusals;
      var name, data := rec.metas[i].name, rec.metas[i].data;
      ReservedKept(s0, refs1, area, HEAD_SIZE, buf.Snap(store));
      StillThere(store, buf, data, s0);
      if |name| > MAX_NAME_SIZE || Length(data.view) > 0x7FFF_FFFF {
        return false;
      }
      AppendMeta(store, name, data, i < |rec.metas| - 1, s0, refs1, area);
      return true;
    }

    /** One meta after another; stops at the first one that cannot be written. */
    method WriteMetas(store: BlockStore, rec: Record, ghost s0: Side, ghost area: Area) returns (ok: bool)
      requires buf.Valid(store) && buf !in rec.Repr() && MemOk(s0.mem)
      requires Reserved(s0, RefsOf(buf.view), area, HEAD_SIZE, buf.Snap(store))
      requires rec.Beside(s0.mem, s0.held, s0.refs)
      modifies buf, store
      ensures buf.Valid(store) && Reserved(s0, old(RefsOf(buf.view)), area, HEAD_SIZE, buf.Snap(store))
      ensures old(buf.Snap(store).Bytes()) <= buf.Snap(store).Bytes() && store.failed >= old(store.failed)
      ensures ok <==> MetasFit(rec.Value(s0.mem).metas)
      ensures ok && store.failed == old(store.failed) ==>
                buf.Snap(store).Bytes() == old(buf.Snap(store).Bytes()) + EncodeMetas(rec.Value(s0.mem).metas)
      ensures |RefsOf(buf.view)| <= old(|RefsOf(buf.view)|) + rec.MetaRefs(|rec.metas|)
    {
      hide Balanced, Kept, Shares, Bytes, RefsOk, RefsOf, Shaped, Solid, Total, MemOk, Apart, Grew, Cells, Names,
           Exclusive, Extends, Length, Reserved, EncodeMeta, EncodeMetas, EncodeFirst, MetasFit, RefNum, Uniform,
           Refusals, Record.Value, Record.Beside, Record.MetaRefs;
      AsManyMetas(rec, s0.mem);
      ghost var s1, metas := buf.Snap(store), rec.Value(s0.mem).metas;
      FirstNone(metas);
      assert s1.Bytes() + [] == s1.Bytes();
      for i := 0 to |rec.metas|
        invariant buf.Valid(store) && Reserved(s0, s1.refs, area, HEAD_SIZE, buf.Snap(store))
        invariant MetasFit(metas[..i]) && s1.Bytes() <= buf.Snap(store).Bytes() && store.failed >= old(store.failed)
        invariant store.failed == old(store.failed) ==>
                    buf.Snap(store).Bytes() == s1.Bytes() + EncodeFirst(metas, i)
        invariant |RefsOf(buf.view)| <= |s1.refs| + rec.MetaRefs(i)
      {
        FirstMore(metas, i);
        var fits := WriteMeta(store, rec, i, s0, s1.refs, area);
        MetaRefsGrow(rec, i + 1, |rec.metas|);
        if !fits {
          return false;
        }
        ConcatAssociative(s1.Bytes(), EncodeFirst(metas, i), EncodeMeta(metas[i], i + 1 < |metas|));
      }
      assert metas[..|metas|] == metas;
      EncodeFirstAll(metas);
      return true;
    }

    /** Metas, then payload. */
    method WriteBody(store: BlockStore, rec: Record, ghost s0: Side, ghost area: Area) returns (ok: bool)
      requires buf.Valid(store) && buf !in rec.Repr() && MemOk(s0.mem)
      requires Reserved(s0, RefsOf(buf.view), area, HEAD_SIZE, buf.Snap(store))
      requires rec.Beside(s0.mem, s0.held, s0.refs)
      modifies buf, store
      ensures buf.Valid(store) && Reserved(s0, old(RefsOf(buf.view)), area, HEAD_SIZE, buf.Snap(store))
      ensures old(buf.Snap(store).Bytes()) <= buf.Snap(store).Bytes() && store.failed >= old(store.failed)
      ensures ok <==> MetasFit(rec.Value(s0.mem).metas)
      ensures ok && store.failed == old(store.failed) ==>
                buf.Snap(store).Bytes() == old(buf.Snap(store).Bytes()) + Body(rec.Value(s0.mem))
      ensures |RefsOf(buf.view)| + HEAD_SIZE <= old(|RefsOf(buf.view)|) + rec.References()
    {
      hide Balanced, Kept, Shares, Bytes, RefsOk, RefsOf, Shaped, Solid, Total, MemOk, Apart, Grew, Cells, Names,
           Exclusive, Extends, Length, Reserved, EncodeMetas, MetasFit, RefNum, Uniform, Refusals;
      ghost var s1, v := buf.Snap(store), rec.Value(s0.mem);
      ok := WriteMetas(store, rec, s0, area);
      if !ok {
        return;
      }
      ReservedKept(s0, s1.refs, area, HEAD_SIZE, buf.Snap(store));
      StillThere(store, buf, rec.payload, s0);
      if Length(rec.payload.view) != 0 {
        AppendShared(store, buf, rec.payload, s0, s1.refs, area, HEAD_SIZE);
      }
      ConcatAssociative(s1.Bytes(), EncodeMetas(v.metas), v.payload);
    }

    /** Refuses a record that is too long or does not fit; fills in the head of any other. */
    method Finish(store: BlockStore, oldSize: nat, ok: bool, more: bool, area: Area, ghost s0: Side,
                  ghost refs1: seq<BlockRef>) returns (rc: int)
      requires buf.Valid(store) && MemOk(s0.mem) && RefsOk(s0.mem, s0.refs)
      requires Reserved(s0, refs1, area, HEAD_SIZE, buf.Snap(store))
      requires s0.Bytes() <= buf.Snap(store).Bytes() && oldSize == |s0.Bytes()|
      modifies buf, store`mem, store`held
      ensures buf.Valid(store) && Undisturbed(s0, buf.Snap(store)) && SamePlaces(s0.refs, RefsOf(buf.view))
      ensures |RefsOf(buf.view)| <= old(|RefsOf(buf.view)|) && s0.Bytes() <= buf.Snap(store).Bytes()
      ensures var size := |old(buf.Snap(store).Bytes())| - oldSize - HEAD_SIZE;
              && rc == (if ok && 0 <= size < MORE_BIT then 0 else -1)
              && (rc == -1 ==> buf.Snap(store).Bytes() == s0.Bytes())
              && (rc == 0 ==>
                    && RefsOf(buf.view) == old(RefsOf(buf.view))
                    && buf.Snap(store).Bytes() == HeadFilled(s0.Bytes(), old(buf.Snap(store).Bytes()), Head(size, more),
                                                             area != INVALID_AREA))
    {
      hide Balanced, Kept, Shares, Bytes, RefsOk, RefsOf, Shaped, Solid, Total, MemOk, Apart, Extends, Length, Reserved,
           Head, Undisturbed, SamePlaces, Uniform, Refusals;
      ghost var s := buf.Snap(store);
      ReservedKept(s0, refs1, area, HEAD_SIZE, s);
      ReservedExtends(s0, refs1, area, HEAD_SIZE, s);
      BalancedMem(store.mem, store.chain, store.held);
      Readers(buf.view, store.mem);
      var size := Length(buf.view);
      // The source subtracts in unsigned arithmetic: too few bytes look like far too many.
      if !ok || size < oldSize + HEAD_SIZE || size - oldSize - HEAD_SIZE > 0x7FFF_FFFF {
        rc := Reject(store, oldSize, s0);
        BalancedMem(store.mem, store.chain, store.held);
        CommonPlaces(s0, s.refs, buf.Snap(store));
        ExtendsCount(RefsOf(buf.view), s.refs);
        KeptUndisturbed(s0, buf.Snap(store), store.chain);
        return;
      }
      var head := Head(size - oldSize - HEAD_SIZE, more);
      var _ := FillReserved(store, buf, area, head, s0, refs1, HEAD_SIZE);
      rc := 0;
      PlacesStay(s0.refs, s.refs);
      FrontStays(s0.Bytes(), s.Bytes(), head);
    }

    /**
     * Serializes a record behind what the buffer has. A record it cannot write is refused and leaves
     * the buffer's bytes as they were; no other buffer is touched, the record's own included. The
     * source does not look whether memory ran out, nor whether the head could be named: if not, the
     * bytes reserved for it stay what they were.
     */
    method WriteWithoutFlush(store: BlockStore, rec: Record) returns (rc: int, ghost reserved: seq<Byte>)
      requires buf.Valid(store) && buf !in rec.Repr()
      requires rec.Beside(store.mem, store.held, RefsOf(buf.view))
      modifies buf, store
      ensures buf.Valid(store) && (rc == 0 || rc == -1) && Undisturbed(old(buf.Snap(store)), buf.Snap(store))
      ensures rc == -1 ==> buf.Snap(store).Bytes() == old(buf.Snap(store).Bytes())
      ensures SamePlaces(old(RefsOf(buf.view)), RefsOf(buf.view)) && store.failed >= old(store.failed)
      ensures |RefsOf(buf.view)| <= old(|RefsOf(buf.view)| + rec.References())
      ensures old(buf.Snap(store).Bytes()) <= buf.Snap(store).Bytes()
      ensures store.failed == old(store.failed) ==> (rc == 0 <==> old(Writable(rec.Value(store.mem))))
      ensures store.failed == old(store.failed) && rc == 0 ==>
                && |reserved| == HEAD_SIZE && old(Unwritten(store.mem, store.chain, HEAD_SIZE)) <= reserved
                && buf.Snap(store).Bytes() == old(buf.Snap(store).Bytes())
                   + if old(Packable(store.mem, store.chain, RefsOf(buf.view), HEAD_SIZE))
                     then old(Encode(rec.Value(store.mem))) else reserved + old(Body(rec.Value(store.mem)))
      ensures store.failed == old(store.failed) && rc == 0 ==>
                (old(Packable(store.mem, store.chain, RefsOf(buf.view), HEAD_SIZE)) <==>
                 Nameable(RefsOf(buf.view), old(|buf.Snap(store).Bytes()|)))
    {
      hide Balanced, Kept, Shares, Bytes, RefsOk, RefsOf, Shaped, Solid, Total, MemOk, Apart, Grew, Cells, Exclusive,
           Extends, Length, Names, Packable, Nameable, Unwritten, Reserved, MetasFit, Body, Head, Undisturbed,
           SamePlaces, Rechained, Uniform, Refusals, Record.References, HeadFilled, Record.Beside, Record.Value;
      AsManyMetas(rec, store.mem);
      ghost var s0, v, chain := buf.Snap(store), rec.Value(store.mem), store.chain;
      BalancedMem(store.mem, store.chain, store.held);
      Readers(buf.view, store.mem);
      var oldSize := Length(buf.view);
      var area := buf.Reserve(store, HEAD_SIZE);
      ghost var s1 := buf.Snap(store);
      BalancedMem(store.mem, store.chain, store.held);
      ReservedStarts(s0, area, HEAD_SIZE, s1);
      reserved := s1.Bytes()[|s0.Bytes()|..];
      var ok := WriteBody(store, rec, s0, area);
      ghost var s2 := buf.Snap(store);
      ReservedExtends(s0, s1.refs, area, HEAD_SIZE, s2);
      rc := Finish(store, oldSize, ok, |rec.metas| > 0, area, s0, s1.refs);
      if store.failed == old(store.failed) && rc == 0 {
        BytesLength(s1.mem, s1.refs);
        NameableStays(s1.refs, s2.refs, |s0.Bytes()|);
        Replaced(s0.Bytes(), s1.Bytes(), Body(v), Head(|Body(v)|, |rec.metas| > 0));
        UnwrittenBehind(s0.Bytes(), Unwritten(s0.mem, chain, HEAD_SIZE), s1.Bytes());
      }
    }
  }

  /** The bytes once the head has been filled in, if it could be named. */
  ghost function HeadFilled(before: seq<Byte>, all: seq<Byte>, head: seq<Byte>, named: bool): seq<Byte> {
    if named && |before| + |head| <= |all| then all[..|before|] + head + all[|before| + |head|..] else all
  }

  lemma AsManyMetas(rec: Record, mem: Mem)
    ensures |rec.Value(mem).metas| == |rec.metas| && rec.MetaRefs(0) == 0
  {
  }

  lemma {:induction false} MetaRefsGrow(rec: Record, i: nat, n: nat)
    requires i <= n <= |rec.metas|
    ensures rec.MetaRefs(i) <= rec.MetaRefs(n)
  {
    if i < n {
      MetaRefsGrow(rec, i, n - 1);
    }
  }

  lemma ExtendsCount(refs: seq<BlockRef>, refs': seq<BlockRef>)
    requires Extends(refs, refs')
    ensures |refs| <= |refs'|
  {
  }

  /** Filling in the head leaves what was there before it. */
  lemma FrontStays(before: seq<Byte>, all: seq<Byte>, head: seq<Byte>)
    requires before <= all
    ensures head[..|head|] == head && forall named :: before <= HeadFilled(before, all, head, named)
  {
  }

  /** The bytes a queue has can be named in the other exactly when they can be named in it. */
  ghost predicate SamePlaces(refs: seq<BlockRef>, refs': seq<BlockRef>) {
    forall p: nat | p < Total(refs) :: Nameable(refs', p) <==> Nameable(refs, p)
  }

  lemma PlacesStay(refs: seq<BlockRef>, refs': seq<BlockRef>)
    requires Extends(refs, refs')
    ensures SamePlaces(refs, refs')
  {
    hide Nameable, Total, Extends;
    forall p: nat | p < Total(refs) ensures Nameable(refs', p) <==> Nameable(refs, p) {
      NameableStays(refs, refs', p);
    }
  }

  /** Also when what was appended has been taken back. */
  lemma CommonPlaces(s: Side, grown: seq<BlockRef>, s': Side)
    requires MemOk(s.mem) && RefsOk(s.mem, s.refs) && MemOk(s'.mem) && RefsOk(s'.mem, s'.refs)
    requires Extends(s.refs, grown) && Extends(s'.refs, grown) && |s'.Bytes()| == |s.Bytes()|
    ensures SamePlaces(s.refs, s'.refs)
  {
    hide Nameable, Total, Extends, MemOk, RefsOk, Bytes;
    BytesLength(s.mem, s.refs);
    BytesLength(s'.mem, s'.refs);
    PlacesStay(s.refs, grown);
    PlacesStay(s'.refs, grown);
  }

  /** Not the encoding, if the first byte is not the magic's. */
  lemma NotTheHead(before: seq<Byte>, reserved: seq<Byte>, v: Rec)
    requires Writable(v) && |reserved| == HEAD_SIZE && reserved[0] != MAGIC[0]
    ensures before + (reserved + Body(v)) != before + Encode(v)
  {
    var p := |before|;
    assert (before + (reserved + Body(v)))[p] == reserved[0];
    assert (before + Encode(v))[p] == MAGIC[0];
  }

  /**
   * A write that reports success and leaves no record, if memory does not run out: the buffer has so
   * many references that the head cannot be named. What the block being filled had there stays.
   */
  method HeadLost(store: BlockStore) returns (w: RecordWriter, rc: int)
    requires store.Valid()
    requires var unwritten := Unwritten(store.mem, store.chain, HEAD_SIZE); unwritten != [] && unwritten[0] != MAGIC[0]
    modifies store
    ensures fresh(w) && fresh(w.buf) && w.buf.Valid(store)
    ensures var before: seq<Byte> := seq(MAX_REF_INDEX + 2, _ => 0);
            store.failed == old(store.failed) ==>
              && rc == 0 && before <= w.buf.Snap(store).Bytes()
              && |w.buf.Snap(store).Bytes()| == |before| + HEAD_SIZE
              && Writable(Rec([], [])) && w.buf.Snap(store).Bytes() != before + Encode(Rec([], []))
  {
    hide Balanced, Kept, Shares, Bytes, RefsOk, RefsOf, Shaped, Solid, Total, MemOk, Apart, Extends, Packable, Nameable,
         Unwritten, Undisturbed, SamePlaces, SameBlocks, Body, Writable, Encode, Uniform, Refusals, Record.References;
    ghost var first := Unwritten(store.mem, store.chain, HEAD_SIZE)[0];
    w := new RecordWriter();
    rc := 0;
    ghost var before: seq<Byte> := [];
    EmptyIn(store.mem, store.held);
    for i := 0 to MAX_REF_INDEX + 2
      invariant w.buf.Valid(store) && |RefsOf(w.buf.view)| == i && w.buf.Snap(store).Bytes() == before
      invariant |before| == i && (forall k | 0 <= k < i :: before[k] == 0) && store.failed == old(store.failed)
      invariant var unwritten := Unwritten(store.mem, store.chain, HEAD_SIZE); unwritten != [] && unwritten[0] == first
    {
      ghost var mem := store.mem;
      ChainThere(store.mem, store.chain, store.held);
      rc := w.buf.AppendUserData(store, [0]);
      if rc != 0 {
        return;
      }
      UnwrittenStays(mem, store.mem, store.chain, HEAD_SIZE);
      before := before + [0];
    }
    TooManyRefs(store.mem, store.chain, RefsOf(w.buf.view), HEAD_SIZE);
    var rec := new Record();
    EmptyRecord(rec, store.mem, store.held, RefsOf(w.buf.view));
    ghost var reserved;
    rc, reserved := w.WriteWithoutFlush(store, rec);
    assert before == seq(MAX_REF_INDEX + 2, _ => 0);
    if store.failed == old(store.failed) {
      NotTheHead(before, reserved, Rec([], []));
      NoBody();
    }
  }

  lemma UnwrittenStays(mem: Mem, mem': Mem, chain: seq<BlockId>, n: nat)
    requires SameBlocks(mem, mem, chain)
    requires forall b | b in mem.blocks :: b in mem'.blocks && mem'.blocks[b] == mem.blocks[b]
    ensures Unwritten(mem', chain, n) == Unwritten(mem, chain, n)
  {
    UnwrittenSame(mem, mem', chain, n);
  }

  lemma NoBody()
    ensures MetasFit([]) && Body(Rec([], [])) == []
  {
  }

  lemma EmptyRecord(rec: Record, mem: Mem, held: multiset<BlockId>, refs: seq<BlockRef>)
    requires rec.metas == [] && rec.payload.view == EMPTY_VIEW && Shares(refs) <= held
    ensures rec.Beside(mem, held, refs) && rec.Value(mem) == Rec([], []) && Writable(Rec([], []))
  {
    EmptyViewOk();
  }

  lemma FirstNone(metas: seq<Meta>)
    ensures MetasFit(metas[..0]) && EncodeFirst(metas, 0) == []
  {
  }

  /** One meta more of those that fit. */
  lemma FirstMore(metas: seq<Meta>, i: nat)
    requires i < |metas| && MetasFit(metas[..i])
    ensures MetasFit(metas) ==> |metas[i].name| <= MAX_NAME_SIZE && |metas[i].data| < MORE_BIT
    ensures |metas[i].name| <= MAX_NAME_SIZE && |metas[i].data| < MORE_BIT ==>
              && MetasFit(metas[..i + 1])
              && EncodeFirst(metas, i + 1) == EncodeFirst(metas, i) + EncodeMeta(metas[i], i + 1 < |metas|)
  {
    hide EncodeMeta;
    assert metas[..i + 1] == metas[..i] + [metas[i]];
  }

  /** The reserved bytes between the old ones and the body become the head, or stay. */
  lemma Replaced(before: seq<Byte>, reserved: seq<Byte>, body: seq<Byte>, head: seq<Byte>)
    requires before <= reserved && |reserved| == |before| + |head|
    ensures HeadFilled(before, reserved + body, head, true) == before + (head + body)
    ensures HeadFilled(before, reserved + body, head, false) == before + (reserved[|before|..] + body)
  {
    var all := reserved + body;
    assert all[..|before|] == before && all[|reserved|..] == body;
    assert reserved == before + reserved[|before|..];
  }
}
