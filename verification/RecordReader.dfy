/** Cutting records off a buffer, and finding the next one after a corrupt one. */
module RecordReaders {
  import opened Memory
  import opened Views
  import opened BlockStores
  import opened Sides
  import opened IOBufs
  import opened Cutters
  import opened Records
  import opened Reservations
  import opened RecordWriters

  /** These queues are good in this memory and apart from another one. */
  ghost predicate AllBeside(views: seq<View>, s: Side) {
    forall i | 0 <= i < |views| :: SharedFrom(views[i], s.mem, s.held, s.refs)
  }

  ghost function Texts(mem: Mem, views: seq<View>): seq<seq<Byte>> {
    seq(|views|, i requires 0 <= i < |views| => Text(mem, views[i]))
  }

  /** An operation on one queue leaves all queues beside it as they are. */
  lemma AllStay(views: seq<View>, s: Side, s': Side, chain: seq<BlockId>)
    requires MemOk(s.mem) && Balanced(s'.mem, chain, s'.held) && Kept(s, s') && AllBeside(views, s)
    ensures AllBeside(views, s') && Texts(s'.mem, views) == Texts(s.mem, views)
  {
    forall i | 0 <= i < |views|
      ensures SharedFrom(views[i], s'.mem, s'.held, s'.refs) && Text(s'.mem, views[i]) == Text(s.mem, views[i])
    {
      hide Balanced, Kept, Shares, Bytes, RefsOk, RefsOf, Shaped, Solid, Total, MemOk, Apart, Uniform, Refusals;
      assert SharedFrom(views[i], s.mem, s.held, s.refs);
      OtherUntouched(s, s', chain, RefsOf(views[i]));
    }
  }

  /** Being apart from two queues together is being apart from each. */
  lemma BesideFirst(views: seq<View>, mem: Mem, held: multiset<BlockId>, a: seq<BlockRef>, b: seq<BlockRef>)
    requires AllBeside(views, Both(mem, held, a, b))
    ensures AllBeside(views, Side(mem, held, a))
  {
    hide ViewOk, RefsOk, RefsOf;
    SharesConcat(a, b);
    forall i | 0 <= i < |views| ensures SharedFrom(views[i], mem, held, a) {
      assert SharedFrom(views[i], mem, held, a + b);
    }
  }

  ghost function ViewsOf(metas: seq<NamedMeta>): seq<View>
    reads set i | 0 <= i < |metas| :: metas[i].data
  {
    seq(|metas|, i requires 0 <= i < |metas| reads set j | 0 <= j < |metas| :: metas[j].data => metas[i].data.view)
  }

  /** Metas as values: names with the texts their buffers have. */
  ghost function Named(metas: seq<NamedMeta>, texts: seq<seq<Byte>>): seq<Meta>
    requires |texts| == |metas|
  {
    seq(|metas|, i requires 0 <= i < |metas| => Meta(metas[i].name, texts[i]))
  }

  lemma SameNames(metas: seq<NamedMeta>, texts: seq<seq<Byte>>, name: seq<Byte>)
    requires |texts| == |metas|
    ensures NewName(Named(metas, texts), name) <==> !HasMeta(metas, name) && 0 < |name| <= MAX_NAME_SIZE
  {
    var values := Named(metas, texts);
    forall i | 0 <= i < |metas| ensures values[i].name == metas[i].name {
    }
    if HasMeta(metas, name) {
      var i :| 0 <= i < |metas| && metas[i].name == name;
      assert values[i].name == name;
    }
  }

  lemma NamedSnoc(metas: seq<NamedMeta>, texts: seq<seq<Byte>>, m: NamedMeta, text: seq<Byte>)
    requires |texts| == |metas|
    ensures Named(metas + [m], texts + [text]) == Named(metas, texts) + [Meta(m.name, text)]
  {
  }

  lemma TextsSnoc(mem: Mem, views: seq<View>, v: View)
    ensures Texts(mem, views + [v]) == Texts(mem, views) + [Text(mem, v)]
  {
  }

  lemma BesideSnoc(views: seq<View>, v: View, s: Side)
    requires AllBeside(views, s) && SharedFrom(v, s.mem, s.held, s.refs)
    ensures AllBeside(views + [v], s)
  {
    hide SharedFrom;
  }

  lemma ViewsAre(metas: seq<NamedMeta>)
    ensures var views := ViewsOf(metas);
            |views| == |metas| && forall i | 0 <= i < |metas| :: views[i] == metas[i].data.view
  {
  }

  lemma SameViews(metas: seq<NamedMeta>, views: seq<View>)
    requires |views| == |metas| && forall i | 0 <= i < |metas| :: views[i] == metas[i].data.view
    ensures ViewsOf(metas) == views
  {
  }

  /** A record beside a queue, put together from its metas and its payload. */
  lemma RecordIs(rec: Record, s: Side)
    requires AllBeside(ViewsOf(rec.metas), s) && SharedFrom(rec.payload.view, s.mem, s.held, s.refs)
    ensures rec.Beside(s.mem, s.held, s.refs)
    ensures rec.Value(s.mem) == Rec(Named(rec.metas, Texts(s.mem, ViewsOf(rec.metas))), Text(s.mem, rec.payload.view))
  {
    hide SharedFrom, Text;
    var views := ViewsOf(rec.metas);
    forall i | 0 <= i < |rec.metas| ensures SharedFrom(rec.metas[i].data.view, s.mem, s.held, s.refs) {
      assert views[i] == rec.metas[i].data.view;
    }
    assert rec.Value(s.mem).metas == Named(rec.metas, Texts(s.mem, views));
  }

  class RecordReader {
    const portal: IOBuf
    const cutter: IOBufCutter
    var ncut: nat

    constructor (portal: IOBuf)
      ensures this.portal == portal && cutter.buf == portal && fresh(cutter) && cutter.block == NULL && ncut == 0
      ensures cutter.data == cutter.dataEnd == 0
    {
      this.portal := portal;
      cutter := new IOBufCutter(portal);
      ncut := 0;
    }

    ghost predicate Valid(store: BlockStore)
      reads cutter, portal, store
    {
      cutter.buf == portal && cutter.Valid(store)
    }

    ghost function Remaining(store: BlockStore): seq<Byte>
      reads cutter, portal, store
      requires Valid(store)
    {
      cutter.Remaining(store)
    }

    lemma Viewable(store: BlockStore)
      requires Valid(store)
      ensures ViewOk(portal.view) && Shaped(portal.view)
    {
    }

    method Peek(store: BlockStore, n: nat) returns (out: seq<Byte>)
      requires Valid(store)
      modifies cutter, portal, store`mem, store`held
      ensures Valid(store) && Remaining(store) == old(Remaining(store))
      ensures Undisturbed(old(portal.Snap(store)), portal.Snap(store))
      ensures out == Remaining(store)[..Smaller(n, |Remaining(store)|)]
    {
      hide Balanced, Kept, Shares, Bytes, RefsOk, RefsOf, Shaped, Solid, Total, MemOk, Undisturbed, Uniform, Refusals;
      ghost var s := portal.Snap(store);
      BalancedMem(store.mem, store.chain, store.held);
      out := cutter.CopyTo(store, n);
      KeptUndisturbed(s, portal.Snap(store), store.chain);
    }

    method Drop(store: BlockStore, n: nat)
      requires Valid(store) && n <= |Remaining(store)|
      modifies this`ncut, cutter, portal, store`mem, store`held
      ensures Valid(store) && Remaining(store) == old(Remaining(store))[n..] && ncut == old(ncut) + n
      ensures Undisturbed(old(portal.Snap(store)), portal.Snap(store))
    {
      hide Balanced, Kept, Shares, Bytes, RefsOk, RefsOf, Shaped, Solid, Total, MemOk, Undisturbed, Uniform, Refusals;
      ghost var s := portal.Snap(store);
      BalancedMem(store.mem, store.chain, store.held);
      var _ := cutter.PopFront(store, n);
      KeptUndisturbed(s, portal.Snap(store), store.chain);
      ncut := ncut + n;
    }

    /** The name and the size word of one meta. */
    method ReadMetaHead(store: BlockStore, raw: seq<Byte>)
      returns (nameSize: nat, name: seq<Byte>, raw': seq<Byte>)
      requires Valid(store) && |raw| == 4
      modifies cutter, portal, store`mem, store`held
      ensures Valid(store) && Kept(old(portal.Snap(store)), portal.Snap(store))
      ensures CutMetaHead(old(Remaining(store)), raw) == MetaHead(nameSize, name, raw', Remaining(store))
    {
      hide Balanced, Kept, Shares, Bytes, RefsOk, RefsOf, Shaped, Solid, Total, MemOk, Piece, Uniform, Refusals;
      ghost var s, all := portal.Snap(store), Remaining(store);
      KeptReflexive(s, store.chain);
      // A failed read is logged and leaves the size byte zero.
      var ok, c := cutter.Cut1(store);
      nameSize := if ok then c else 0;
      assert ok ==> all[1..] == Remaining(store) && all[0] == c;
      BalancedMem(store.mem, store.chain, store.held);
      ghost var s1, all1 := portal.Snap(store), Remaining(store);
      name := cutter.CutnBytes(store, nameSize);
      assert all1[..|name|] == name && all1[|name|..] == Remaining(store);
      KeptTransitive(s, s1, portal.Snap(store));
      BalancedMem(store.mem, store.chain, store.held);
      ghost var s2, all2 := portal.Snap(store), Remaining(store);
      var read := cutter.CutnBytes(store, 4);
      assert all2[..|read|] == read && all2[|read|..] == Remaining(store);
      KeptTransitive(s, s2, portal.Snap(store));
      raw' := Overlay(read, raw);
    }

    /** Cuts bytes into an empty buffer without copying them; buffers beside stay as they are. */
    method CutInto(store: BlockStore, out: IOBuf, n: nat, ghost views: seq<View>) returns (cut: nat)
      requires Valid(store) && out != portal && out.view == EMPTY_VIEW && AllBeside(views, portal.Snap(store))
      modifies cutter, portal, out, store`mem, store`held
      ensures Valid(store) && cut == Smaller(n, |old(Remaining(store))|)
      ensures Remaining(store) == old(Remaining(store))[cut..]
      ensures AllBeside(views, portal.Snap(store)) && Texts(store.mem, views) == Texts(old(store.mem), views)
      ensures Undisturbed(old(portal.Snap(store)), portal.Snap(store))
      ensures SharedFrom(out.view, store.mem, store.held, RefsOf(portal.view))
      ensures Text(store.mem, out.view) == old(Remaining(store))[..cut]
    {
      hide Balanced, Kept, Shares, Bytes, RefsOk, Total, MemOk, Piece, Apart, Undisturbed, Uniform, Refusals;
      ghost var s := portal.Snap(store);
      EmptyBeside(store.mem, store.held, RefsOf(portal.view));
      hide RefsOf, Shaped, Solid;
      BalancedMem(store.mem, store.chain, store.held);
      ghost var both := Both(store.mem, store.held, RefsOf(portal.view), RefsOf(out.view));
      assert both == s;
      cut := cutter.Cutn(store, out, n);
      ghost var both' := Both(store.mem, store.held, RefsOf(portal.view), RefsOf(out.view));
      AllStay(views, both, both', store.chain);
      BesideFirst(views, store.mem, store.held, RefsOf(portal.view), RefsOf(out.view));
      KeptUndisturbed(both, both', store.chain);
      FirstUndisturbed(s, portal.Snap(store), RefsOf(out.view));
    }

    /** The metas read so far are a record's metas, in buffers of their own. */
    ghost predicate Holds(store: BlockStore, rec: Record, values: seq<Meta>)
      reads cutter, portal, store, rec, rec.Repr()
      requires Valid(store)
    {
      && portal !in rec.Repr()
      && AllBeside(ViewsOf(rec.metas), portal.Snap(store))
      && values == Named(rec.metas, Texts(store.mem, ViewsOf(rec.metas)))
    }

    /** Adds a meta and cuts its data, unless the record cannot take the name. */
    method AddMeta(store: BlockStore, rec: Record, name: seq<Byte>, metaSize: nat, ghost values: seq<Meta>)
      returns (added: bool)
      requires Valid(store) && Holds(store, rec, values)
      modifies cutter, portal, store`mem, store`held, rec`metas
      ensures Valid(store) && (forall m | m in rec.metas && m !in old(rec.metas) :: fresh(m.data))
      ensures Undisturbed(old(portal.Snap(store)), portal.Snap(store))
      ensures added <==> NewName(values, name)
      ensures !added ==> Remaining(store) == old(Remaining(store))
      ensures added ==>
                var cut := Smaller(metaSize, |old(Remaining(store))|);
                && Remaining(store) == old(Remaining(store))[cut..]
                && Holds(store, rec, values + [Meta(name, old(Remaining(store))[..cut])])
    {
      hide Balanced, Kept, Shares, Bytes, RefsOk, RefsOf, Shaped, Solid, Total, MemOk, SharedFrom, NewName, HasMeta,
           AllBeside, Named, Text, ViewsOf, Valid, Remaining, Undisturbed, Uniform, Refusals;
      Viewable(store);
      UndisturbedReflexive(portal.Snap(store));
      ghost var views, before, texts := ViewsOf(rec.metas), rec.metas, Texts(store.mem, ViewsOf(rec.metas));
      ViewsAre(rec.metas);
      SameNames(rec.metas, texts, name);
      var meta := rec.MutableMeta(name, true);
      if meta == null {
        return false;
      }
      assert forall i | 0 <= i < |before| :: rec.metas[i] == before[i];
      var _ := CutInto(store, meta, metaSize, views);
      SameViews(rec.metas, views + [meta.view]);
      TextsSnoc(store.mem, views, meta.view);
      NamedSnoc(before, texts, NamedMeta(name, meta), Text(store.mem, meta.view));
      Viewable(store);
      BesideSnoc(views, meta.view, portal.Snap(store));
      return true;
    }

    /** Reading the head of a meta leaves the metas read before as they are. */
    method ReadHeadBeside(store: BlockStore, rec: Record, raw: seq<Byte>, ghost values: seq<Meta>)
      returns (nameSize: nat, name: seq<Byte>, raw': seq<Byte>)
      requires Valid(store) && |raw| == 4 && Holds(store, rec, values)
      modifies cutter, portal, store`mem, store`held
      ensures Valid(store) && Holds(store, rec, values)
      ensures Undisturbed(old(portal.Snap(store)), portal.Snap(store))
      ensures CutMetaHead(old(Remaining(store)), raw) == MetaHead(nameSize, name, raw', Remaining(store))
    {
      hide Balanced, Kept, Shares, Bytes, RefsOk, RefsOf, Shaped, Solid, Total, MemOk, SharedFrom, CutMetaHead,
           Undisturbed, Uniform, Refusals;
      ghost var s, views := portal.Snap(store), ViewsOf(rec.metas);
      BalancedMem(store.mem, store.chain, store.held);
      nameSize, name, raw' := ReadMetaHead(store, raw);
      AllStay(views, s, portal.Snap(store), store.chain);
      KeptUndisturbed(s, portal.Snap(store), store.chain);
      assert ViewsOf(rec.metas) == views;
    }

    /** One turn of the loop over the metas. */
    method CutOneMeta(store: BlockStore, rec: Record, size: nat, consumed: nat, raw: seq<Byte>, ghost scan: Scan,
                      ghost start: nat)
      returns (rc: int, consumed': nat, more': bool, raw': seq<Byte>)
      requires Valid(store) && consumed <= size && |raw| == 4 && start <= ncut && Holds(store, rec, scan.metas)
      requires scan == Scan(Remaining(store), consumed, scan.metas, true, raw, ncut - start)
      modifies this`ncut, cutter, portal, store`mem, store`held, rec`metas
      ensures Valid(store) && (forall m | m in rec.metas && m !in old(rec.metas) :: fresh(m.data)) && |raw'| == 4
      ensures Undisturbed(old(portal.Snap(store)), portal.Snap(store))
      ensures rc == match CutMeta(scan, size) case Stop(_) => -1 case Next(_) => 1
      ensures rc == -1 ==> ncut >= start && CutMeta(scan, size) == Stop(Corrupt(ncut - start, Remaining(store)))
      ensures rc == 1 ==>
                var s' := CutMeta(scan, size).scan;
                && ncut >= start && consumed' <= size && Holds(store, rec, s'.metas)
                && s' == Scan(Remaining(store), consumed', s'.metas, more', raw', ncut - start)
    {
      hide Balanced, Kept, Shares, Bytes, RefsOk, RefsOf, Shaped, Solid, Total, MemOk, SharedFrom, CutMetaHead, FromNet,
           SizeOf, MoreOf, NewName, Reversed, Valid, Remaining, AllBeside, Named, Texts, Undisturbed, Uniform, Refusals;
      consumed', more', raw' := consumed, true, raw;
      Viewable(store);
      ghost var s := portal.Snap(store);
      var nameSize, name, word := ReadHeadBeside(store, rec, raw, scan.metas);
      Viewable(store);
      ghost var s1 := portal.Snap(store);
      var tmp := FromNet(word);
      var metaSize := SizeOf(tmp);
      ncut := ncut + 5 + nameSize;
      if consumed + 5 + nameSize + metaSize > size {
        return -1, consumed, true, raw;
      }
      var added := AddMeta(store, rec, name, metaSize, scan.metas);
      Viewable(store);
      UndisturbedTransitive(s, s1, portal.Snap(store));
      if !added {
        return -1, consumed, true, raw;
      }
      ncut := ncut + metaSize;
      return 1, consumed + 5 + nameSize + metaSize, MoreOf(tmp), Reversed(word);
    }

    /** All metas of a record, from the bytes behind its head. */
    method CutMetas(store: BlockStore, rec: Record, size: nat, more: bool, raw: seq<Byte>, ghost start: nat)
      returns (rc: int, consumed: nat, ghost scan: Scan)
      requires Valid(store) && |raw| == 4 && start <= ncut && rec.metas == [] && portal !in rec.Repr()
      modifies this`ncut, cutter, portal, store`mem, store`held, rec`metas
      ensures Valid(store) && (forall m | m in rec.metas :: fresh(m.data))
      ensures Undisturbed(old(portal.Snap(store)), portal.Snap(store))
      ensures var out := CutBody(Scan(old(Remaining(store)), 0, [], more, raw, old(ncut) - start), size);
              && (rc == 1 || rc == -1)
              && (rc == -1 ==> ncut >= start && out == Corrupt(ncut - start, Remaining(store)))
              && (rc == 1 ==>
                    && ncut >= start && scan.consumed == consumed <= size
                    && scan.bytes == Remaining(store) && scan.ncut == ncut - start
                    && Holds(store, rec, scan.metas) && out == CutPayload(scan, size))
    {
      hide Balanced, Kept, Shares, Bytes, RefsOk, RefsOf, Shaped, Solid, Total, MemOk, SharedFrom, Valid, Remaining,
           CutMeta, CutPayload, Undisturbed, Uniform, Refusals;
      Viewable(store);
      ghost var s := portal.Snap(store);
      UndisturbedReflexive(s);
      assert Named([], []) == [] && ViewsOf([]) == [] && Texts(store.mem, []) == [];
      var m, r := more, raw;
      consumed := 0;
      scan := Scan(Remaining(store), 0, [], more, raw, ncut - start);
      ghost var scan0 := scan;
      while m
        invariant Valid(store) && (forall x | x in rec.metas :: fresh(x.data))
        invariant consumed <= size && |r| == 4 && ncut >= start
        invariant ViewOk(portal.view) && Shaped(portal.view) && Undisturbed(s, portal.Snap(store))
        invariant scan == Scan(Remaining(store), consumed, scan.metas, m, r, ncut - start)
        invariant Holds(store, rec, scan.metas)
        invariant CutBody(scan, size) == CutBody(scan0, size)
        decreases size - consumed, m
      {
        ghost var s1, turn := portal.Snap(store), CutMeta(scan, size);
        rc, consumed, m, r := CutOneMeta(store, rec, size, consumed, r, scan, start);
        Viewable(store);
        UndisturbedTransitive(s, s1, portal.Snap(store));
        if rc != 1 {
          return;
        }
        scan := turn.scan;
      }
      rc := 1;
    }

    method LookAtHead(store: BlockStore, maxSize: nat) returns (rc: int, word: Word)
      requires Valid(store)
      modifies cutter, portal, store`mem, store`held
      ensures Valid(store) && Remaining(store) == old(Remaining(store))
      ensures Undisturbed(old(portal.Snap(store)), portal.Snap(store))
      ensures match CheckHead(Remaining(store), maxSize)
              case Short => rc == 0
              case Wrong => rc == -1
              case Good(w) => rc == 1 && word == w && Remaining(store)[4..8] == ToNet(w)
    {
      hide Balanced, Kept, Shares, Bytes, RefsOk, RefsOf, Shaped, Solid, Total, MemOk, FromNet, ToNet, SizeOf,
           SizeChecksum, Undisturbed, Uniform, Refusals;
      word := 0;
      var head := Peek(store, HEAD_SIZE);
      ghost var all := Remaining(store);
      if |head| != HEAD_SIZE {
        return 0, word;
      }
      assert head[..4] == all[..4] && head[4..8] == all[4..8] && head[8] == all[8];
      if head[..4] != MAGIC {
        return -1, word;
      }
      word := FromNet(head[4..8]);
      NetRoundTripBack(head[4..8]);
      var size := SizeOf(word);
      if SizeChecksum(word) != head[8] {
        return -1, word;
      }
      if size > maxSize {
        return -1, word;
      }
      var n := cutter.RemainingBytes(store);
      if n < size + HEAD_SIZE {
        return 0, word;
      }
      return 1, word;
    }

    /** Cuts the next record: 1 and the record, 0 when there are not enough bytes, -1 when they are not one. */
    method CutNext(store: BlockStore, maxSize: nat) returns (rc: int, rec: Record)
      requires Valid(store)
      modifies this`ncut, cutter, portal, store`mem, store`held
      ensures Valid(store) && fresh(rec) && fresh(rec.Repr())
      ensures Undisturbed(old(portal.Snap(store)), portal.Snap(store))
      ensures rc == match CutRecord(old(Remaining(store)), maxSize)
                    case NeedMore => 0 case Corrupt(_, _) => -1 case Cut(_, _, _) => 1
      ensures rc == 0 ==> Remaining(store) == old(Remaining(store)) && ncut == old(ncut)
      ensures rc == -1 ==> ncut >= old(ncut)
                           && CutRecord(old(Remaining(store)), maxSize) == Corrupt(ncut - old(ncut), Remaining(store))
      ensures rc == 1 ==>
                && ncut >= old(ncut) && rec.Beside(store.mem, store.held, RefsOf(portal.view))
                && CutRecord(old(Remaining(store)), maxSize)
                   == Cut(rec.Value(store.mem), ncut - old(ncut), Remaining(store))
    {
      hide Balanced, Kept, Shares, Bytes, RefsOk, RefsOf, Shaped, Solid, Total, MemOk, SharedFrom, FromNet, SizeOf,
           Valid, Remaining, MoreOf, SizeChecksum, CutBody, Reversed, CutPayload, Undisturbed, Uniform, Refusals;
      Viewable(store);
      ghost var s := portal.Snap(store);
      rec := new Record();
      var word;
      rc, word := LookAtHead(store, maxSize);
      if rc != 1 {
        return;
      }
      Viewable(store);
      ghost var s1 := portal.Snap(store);
      Drop(store, HEAD_SIZE);
      Viewable(store);
      ghost var s2 := portal.Snap(store);
      UndisturbedTransitive(s, s1, s2);
      var consumed;
      ghost var scan;
      rc, consumed, scan := CutMetas(store, rec, SizeOf(word), MoreOf(word), Reversed(ToNet(word)), old(ncut));
      Viewable(store);
      ghost var s3 := portal.Snap(store);
      UndisturbedTransitive(s, s2, s3);
      if rc == 1 {
        CutRest(store, rec, SizeOf(word), consumed, scan, old(ncut));
        Viewable(store);
        UndisturbedTransitive(s, s3, portal.Snap(store));
      }
    }

    /** The payload is what is left of the record. */
    method CutRest(store: BlockStore, rec: Record, size: nat, consumed: nat, ghost scan: Scan, ghost start: nat)
      requires Valid(store) && consumed == scan.consumed <= size && scan.bytes == Remaining(store)
      requires start <= ncut && scan.ncut == ncut - start && Holds(store, rec, scan.metas)
      requires rec.payload.view == EMPTY_VIEW && forall i | 0 <= i < |rec.metas| :: rec.metas[i].data != rec.payload
      modifies this`ncut, cutter, portal, store`mem, store`held, rec.payload
      ensures Valid(store) && ncut >= start && rec.Beside(store.mem, store.held, RefsOf(portal.view))
      ensures CutPayload(scan, size) == Cut(rec.Value(store.mem), ncut - start, Remaining(store))
      ensures Undisturbed(old(portal.Snap(store)), portal.Snap(store))
    {
      hide Balanced, Kept, Shares, Bytes, RefsOk, RefsOf, Shaped, Solid, Total, MemOk, SharedFrom, AllBeside, Named,
           Texts, Text, Record.Value, Record.Beside, ViewsOf, Valid, Remaining, Undisturbed, Uniform, Refusals;
      ghost var views := ViewsOf(rec.metas);
      ViewsAre(rec.metas);
      var cut := CutInto(store, rec.payload, size - consumed, views);
      ncut := ncut + cut;
      SameViews(rec.metas, views);
      Viewable(store);
      RecordIs(rec, portal.Snap(store));
    }

    /** Drops whole windows until a magic starts the rest or the bytes run out. */
    method SkipWindows(store: BlockStore) returns (found: bool)
      requires Valid(store)
      modifies this`ncut, cutter, portal, store`mem, store`held
      ensures Valid(store) && SkippedIn(old(Remaining(store)), found, Remaining(store))
      ensures Undisturbed(old(portal.Snap(store)), portal.Snap(store))
      ensures ncut == old(ncut) + |old(Remaining(store))| - |Remaining(store)|
    {
      hide Balanced, Kept, Shares, Bytes, RefsOk, RefsOf, Shaped, Solid, Total, MemOk, MagicAt, Valid, Remaining,
           Undisturbed, Uniform, Refusals;
      ghost var from, k := Remaining(store), 0;
      Viewable(store);
      ghost var s := portal.Snap(store);
      UndisturbedReflexive(s);
      assert from[0..] == from;
      while true
        invariant Valid(store) && 0 <= k <= |from| && Remaining(store) == from[k..] && (0 < k ==> k + 3 <= |from|)
        invariant ViewOk(portal.view) && Shaped(portal.view) && Undisturbed(s, portal.Snap(store))
        invariant ncut == old(ncut) + k
        invariant forall i: nat | i < k :: !MagicAt(from, i)
        decreases |from| - k
      {
        ghost var s1 := portal.Snap(store);
        var window := Peek(store, 512);
        Viewable(store);
        ghost var s2 := portal.Snap(store);
        UndisturbedTransitive(s, s1, s2);
        var nc := |window|;
        if nc < 4 {
          return false;
        }
        var m := nc + 1 - 4;
        var i := FindMagic(window);
        WindowScanned(from, k, window, i);
        Drop(store, i);
        Viewable(store);
        UndisturbedTransitive(s, s2, portal.Snap(store));
        assert from[k..][i..] == from[k + i..];
        k := k + i;
        if i < m {
          StartsHere(from, k);
          return true;
        }
        if nc < 512 {
          return false;
        }
      }
    }

    /**
     * Skips ahead to where the next record may start: past a magic at the beginning, to the first
     * one after it; without one, all but the last three bytes are dropped.
     */
    method CutUntilNextRecordCandidate(store: BlockStore) returns (found: bool)
      requires Valid(store)
      modifies this`ncut, cutter, portal, store`mem, store`held
      ensures Valid(store) && SkippedTo(old(Remaining(store)), found, Remaining(store))
      ensures Undisturbed(old(portal.Snap(store)), portal.Snap(store))
      ensures ncut == old(ncut) + |old(Remaining(store))| - |Remaining(store)|
    {
      hide Balanced, Kept, Shares, Bytes, RefsOk, RefsOf, Shaped, Solid, Total, MemOk, Valid, Remaining, Undisturbed,
           Uniform, Refusals;
      ghost var all := Remaining(store);
      Viewable(store);
      ghost var s := portal.Snap(store);
      var magic := Peek(store, 4);
      if |magic| != 4 {
        return false;
      }
      assert all[0..4] == magic;
      Viewable(store);
      ghost var s1 := portal.Snap(store);
      if magic == MAGIC {
        Drop(store, 4);
        Viewable(store);
        UndisturbedTransitive(s, s1, portal.Snap(store));
      }
      ghost var s2 := portal.Snap(store);
      assert Remaining(store) == AfterMagic(all);
      hide MagicAt, AfterMagic, SkippedIn;
      found := SkipWindows(store);
      Viewable(store);
      UndisturbedTransitive(s, s2, portal.Snap(store));
    }
  }

  /** The first place in a window where a magic starts, or the first place where none can. */
  method FindMagic(window: seq<Byte>) returns (i: nat)
    requires 4 <= |window|
    ensures i <= |window| - 3
    ensures i < |window| - 3 ==> MagicAt(window, i)
    ensures forall j: nat | j < i :: !MagicAt(window, j)
  {
    i := 0;
    while i < |window| + 1 - 4
      invariant i <= |window| - 3
      invariant forall j: nat | j < i :: !MagicAt(window, j)
    {
      if window[i..i + 4] == MAGIC {
        return;
      }
      i := i + 1;
    }
  }

  /** What a window shows of the bytes it was copied from. */
  lemma WindowScanned(from: seq<Byte>, k: nat, window: seq<Byte>, i: nat)
    requires k + |window| <= |from| && window == from[k..][..|window|] && i + 3 <= |window|
    requires forall j: nat | j < i :: !MagicAt(window, j)
    requires forall j: nat | j < k :: !MagicAt(from, j)
    ensures forall j: nat | j < k + i :: !MagicAt(from, j)
    ensures i + 4 <= |window| ==> (MagicAt(window, i) <==> MagicAt(from, k + i))
  {
    forall j: nat | j + 4 <= |window| ensures MagicAt(window, j) <==> MagicAt(from, k + j) {
      assert window[j..j + 4] == from[k + j..k + j + 4];
    }
    forall j: nat | j < k + i ensures !MagicAt(from, j) {
      if k <= j {
        assert !MagicAt(window, j - k);
        assert MagicAt(from, k + (j - k)) == MagicAt(window, j - k);
      }
    }
  }

  lemma StartsHere(from: seq<Byte>, k: nat)
    requires MagicAt(from, k)
    ensures MagicAt(from[k..], 0)
  {
    assert from[k..][0..4] == from[k..k + 4];
  }

  lemma EmptyBeside(mem: Mem, held: multiset<BlockId>, refs: seq<BlockRef>)
    requires Shares(refs) <= held
    ensures ViewOk(EMPTY_VIEW) && RefsOf(EMPTY_VIEW) == [] && Bytes(mem, []) == [] && RefsOk(mem, [])
    ensures Shares([]) <= held && Apart(held, refs, []) && refs + [] == refs
  {
    EmptyViewOk();
  }
}
