/** Whole files of records: written one after another, read back one after another. */
module RecordFiles {
  import opened Memory
  import opened Views
  import opened BlockStores
  import opened Sides
  import opened Areas
  import opened IOBufs
  import opened Cutters
  import opened Records
  import opened Reservations
  import opened RecordWriters
  import opened RecordReaders

  // ---- writing

  function Sizes(values: seq<Rec>): nat {
    if values == [] then 0 else Sizes(values[..|values| - 1]) + ByteSize(values[|values| - 1])
  }

  lemma SizesSnoc(values: seq<Rec>, k: nat)
    requires k < |values|
    ensures Sizes(values[..k + 1]) == Sizes(values[..k]) + ByteSize(values[k])
  {
    assert values[..k + 1][..k] == values[..k];
  }

  lemma {:induction false} SizesGrow(values: seq<Rec>, k: nat, n: nat)
    requires k < n <= |values|
    ensures Sizes(values[..k]) < Sizes(values[..n])
  {
    SizesSnoc(values, n - 1);
    if k < n - 1 {
      SizesGrow(values, k, n - 1);
    }
  }

  lemma {:induction false} EncodeAllSnoc(recs: seq<Rec>, rec: Rec)
    requires Writable(rec) && forall i | 0 <= i < |recs| :: Writable(recs[i])
    ensures EncodeAll(recs + [rec]) == EncodeAll(recs) + Encode(rec)
  {
    hide Encode, Writable;
    if recs == [] {
      assert [rec][1..] == [] && EncodeAll([]) == [];
      assert Encode(rec) + [] == Encode(rec) == [] + Encode(rec);
    } else {
      EncodeAllSnoc(recs[1..], rec);
      assert (recs + [rec])[1..] == recs[1..] + [rec];
      ConcatAssociative(Encode(recs[0]), EncodeAll(recs[1..]), Encode(rec));
    }
  }

  /** The heads of the first n records, written from position p on, are all where an area can name them. */
  ghost predicate HeadsNamed(refs: seq<BlockRef>, p: nat, values: seq<Rec>, n: nat) {
    forall k: nat | k < n <= |values| :: Nameable(refs, p + Sizes(values[..k]))
  }

  lemma HeadsStay(refs: seq<BlockRef>, refs': seq<BlockRef>, p: nat, values: seq<Rec>, n: nat)
    requires SamePlaces(refs, refs') && n <= |values| && Total(refs) == p + Sizes(values[..n])
    ensures HeadsNamed(refs', p, values, n) <==> HeadsNamed(refs, p, values, n)
  {
    hide Nameable, Total, Sizes;
    forall k: nat | k < n
      ensures Nameable(refs', p + Sizes(values[..k])) <==> Nameable(refs, p + Sizes(values[..k]))
    {
      SizesGrow(values, k, n);
    }
  }

  /** A record beside a queue stays what it is, and beside it. */
  lemma StillBeside(rec: Record, s: Side, s': Side)
    requires rec.Beside(s.mem, s.held, s.refs) && Undisturbed(s, s')
    ensures rec.Beside(s'.mem, s'.held, s'.refs) && rec.Value(s'.mem) == rec.Value(s.mem)
  {
    hide RefsOk, Apart, Bytes, RefsOf, Shaped, Solid;
  }

  /** What one more write leaves, whether or not its head could be named. */
  lemma OneMoreWritten(before: seq<Byte>, now: seq<Byte>, start: seq<Byte>, reserved: seq<Byte>, values: seq<Rec>,
                       n: nat, named: bool)
    requires n < |values| && Writable(values[n]) && forall k | 0 <= k < n :: Writable(values[k])
    requires |reserved| == HEAD_SIZE && |before| == |start| + Sizes(values[..n])
    requires now == before + if named then Encode(values[n]) else reserved + Body(values[n])
    ensures |now| == |start| + Sizes(values[..n + 1])
    ensures named && before == start + EncodeAll(values[..n]) ==> now == start + EncodeAll(values[..n + 1])
  {
    EncodedSize(values[n]);
    hide Encode, Writable, EncodeAll;
    SizesSnoc(values, n);
    assert values[..n + 1] == values[..n] + [values[n]];
    EncodeAllSnoc(values[..n], values[n]);
    ConcatAssociative(start, EncodeAll(values[..n]), Encode(values[n]));
  }

  lemma HeadsSnoc(refs: seq<BlockRef>, p: nat, values: seq<Rec>, n: nat)
    requires n < |values|
    ensures HeadsNamed(refs, p, values, n + 1) <==>
            HeadsNamed(refs, p, values, n) && Nameable(refs, p + Sizes(values[..n]))
  {
  }

  function SumTo(costs: seq<nat>, n: nat): nat
    requires n <= |costs|
  {
    if n == 0 then 0 else SumTo(costs, n - 1) + costs[n - 1]
  }

  lemma {:induction false} SumGrows(costs: seq<nat>, k: nat, n: nat)
    requires k <= n <= |costs|
    ensures SumTo(costs, k) <= SumTo(costs, n)
  {
    if k < n {
      SumGrows(costs, k, n - 1);
    }
  }

  /**
   * All the heads can be named, whatever the records hold: the buffer will have at most 2^19
   * references and blocks have at most 2^15 bytes.
   */
  predicate Roomy(blockCap: nat, refs: nat, costs: seq<nat>) {
    blockCap <= MAX_REF_OFFSET + 1 && refs + SumTo(costs, |costs|) <= MAX_REF_INDEX + 1
  }

  lemma RoomyNow(store: BlockStore, buf: IOBuf, refs: nat, costs: seq<nat>, n: nat)
    requires buf.Valid(store) && Roomy(store.blockCap, refs, costs) && n < |costs| && 0 < costs[n]
    requires |RefsOf(buf.view)| <= refs + SumTo(costs, n)
    ensures Packable(store.mem, store.chain, RefsOf(buf.view), HEAD_SIZE)
  {
    hide Balanced, Uniform, Refusals, RefsOk, RefsOf, Shaped, Solid, Shares, Packable;
    SumGrows(costs, n + 1, |costs|);
    FewPackable(store.mem, store.chain, store.held, RefsOf(buf.view), HEAD_SIZE, store.blockCap);
  }

  /** Each of these records is apart from the buffer, with its value and its cost. */
  ghost predicate Standing(recs: seq<Record>, values: seq<Rec>, costs: seq<nat>, buf: IOBuf, s: Side)
    reads set k | 0 <= k < |recs| :: recs[k]
    reads set k, b | 0 <= k < |recs| && b in recs[k].Repr() :: b
  {
    && |values| == |costs| == |recs|
    && forall k | 0 <= k < |recs| ::
         && buf !in recs[k].Repr() && recs[k].Beside(s.mem, s.held, s.refs)
         && values[k] == recs[k].Value(s.mem) && costs[k] == recs[k].References()
  }

  lemma StandingSome(recs: seq<Record>, values: seq<Rec>, costs: seq<nat>, buf: IOBuf, s: Side)
    requires Standing(recs, values, costs, buf, s)
    ensures |values| == |costs| == |recs| && forall k | 0 <= k < |recs| :: 0 < costs[k]
  {
    hide Record.Beside, Record.Value, Record.Repr;
  }

  /** Writes the next record; all of them stay as they are. */
  method WriteNext(store: BlockStore, w: RecordWriter, recs: seq<Record>, n: nat, ghost values: seq<Rec>,
                   ghost costs: seq<nat>, ghost s0: Side) returns (rc: int)
    requires w.buf.Valid(store) && n < |recs| && Standing(recs, values, costs, w.buf, w.buf.Snap(store))
    modifies w.buf, store
    ensures w.buf.Valid(store) && Undisturbed(old(w.buf.Snap(store)), w.buf.Snap(store))
    ensures Standing(recs, values, costs, w.buf, w.buf.Snap(store))
    ensures store.failed >= old(store.failed) && |RefsOf(w.buf.view)| <= old(|RefsOf(w.buf.view)|) + costs[n]
    ensures store.failed == old(store.failed) ==> (rc == 0 <==> Writable(values[n]))
    ensures store.failed == old(store.failed) && Written(s0, values, n, old(w.buf.Snap(store))) ==>
              var n' := if rc == 0 then n + 1 else n;
              && Written(s0, values, n', w.buf.Snap(store))
              && (HeadsNamed(RefsOf(w.buf.view), |s0.Bytes()|, values, n') <==>
                  && HeadsNamed(old(RefsOf(w.buf.view)), |s0.Bytes()|, values, n)
                  && (rc == 0 ==> old(Packable(store.mem, store.chain, RefsOf(w.buf.view), HEAD_SIZE))))
  {
    hide Balanced, Shares, Bytes, RefsOk, RefsOf, Shaped, Solid, Total, MemOk, Apart, Extends, Packable, Nameable,
         Unwritten, Undisturbed, SamePlaces, Writable, Encode, EncodeAll, Body, Sizes, ByteSize, HeadsNamed,
         Record.Beside, Record.Value, Uniform, Refusals, Record.References, Written;
    ghost var s := w.buf.Snap(store);
    ghost var packed := Packable(store.mem, store.chain, s.refs, HEAD_SIZE);
    ghost var reserved;
    rc, reserved := w.WriteWithoutFlush(store, recs[n]);
    ghost var s' := w.buf.Snap(store);
    forall k | 0 <= k < |recs|
      ensures recs[k].Beside(s'.mem, s'.held, s'.refs) && recs[k].Value(s'.mem) == values[k]
    {
      StillBeside(recs[k], s, s');
    }
    BalancedMem(store.mem, store.chain, store.held);
    if store.failed == old(store.failed) && Written(s0, values, n, s) {
      if rc != 0 {
        WrittenKeeps(s0, values, n, s, s');
      } else {
        WrittenMore(s0, values, n, s, s', reserved, packed);
      }
    }
  }

  /**
   * Writes records one after another, up to the first that is refused. If memory does not run out
   * and every head lies where an area can name it, the buffer then has all their encodings behind
   * what it had. In a roomy buffer every head does.
   */
  method WriteAll(store: BlockStore, w: RecordWriter, recs: seq<Record>, ghost values: seq<Rec>,
                  ghost costs: seq<nat>) returns (n: nat)
    requires w.buf.Valid(store) && Standing(recs, values, costs, w.buf, w.buf.Snap(store))
    modifies w.buf, store
    ensures w.buf.Valid(store) && n <= |recs| && Undisturbed(old(w.buf.Snap(store)), w.buf.Snap(store))
    ensures store.failed >= old(store.failed)
    ensures store.failed == old(store.failed) ==>
              (forall k | 0 <= k < n :: Writable(values[k])) && (n < |recs| ==> !Writable(values[n]))
    ensures store.failed == old(store.failed)
            && HeadsNamed(RefsOf(w.buf.view), old(|w.buf.Snap(store).Bytes()|), values, n) ==>
              w.buf.Snap(store).Bytes() == old(w.buf.Snap(store).Bytes()) + EncodeAll(values[..n])
    ensures store.failed == old(store.failed) && Roomy(store.blockCap, |old(RefsOf(w.buf.view))|, costs) ==>
              HeadsNamed(RefsOf(w.buf.view), old(|w.buf.Snap(store).Bytes()|), values, n)
  {
    hide Balanced, Shares, Bytes, RefsOk, RefsOf, Shaped, Solid, Total, MemOk, Apart, Packable, Nameable, Undisturbed,
         Writable, EncodeAll, HeadsNamed, Uniform, Refusals, Roomy, Standing, Written;
    StandingSome(recs, values, costs, w.buf, w.buf.Snap(store));
    ghost var s0 := w.buf.Snap(store);
    n := 0;
    BalancedMem(store.mem, store.chain, store.held);
    UndisturbedReflexive(s0);
    NothingWritten(s0, values);
    while n < |recs|
      invariant w.buf.Valid(store) && n <= |recs| && Undisturbed(s0, w.buf.Snap(store))
      invariant store.failed >= old(store.failed) && |RefsOf(w.buf.view)| <= |s0.refs| + SumTo(costs, n)
      invariant Standing(recs, values, costs, w.buf, w.buf.Snap(store))
      invariant store.failed == old(store.failed) ==> Written(s0, values, n, w.buf.Snap(store))
      invariant store.failed == old(store.failed) && Roomy(store.blockCap, |s0.refs|, costs) ==>
                  HeadsNamed(RefsOf(w.buf.view), |s0.Bytes()|, values, n)
    {
      ghost var s := w.buf.Snap(store);
      if Roomy(store.blockCap, |s0.refs|, costs) {
        RoomyNow(store, w.buf, |s0.refs|, costs, n);
      }
      var rc := WriteNext(store, w, recs, n, values, costs, s0);
      UndisturbedTransitive(s0, s, w.buf.Snap(store));
      if rc != 0 {
        break;
      }
      n := n + 1;
    }
    if store.failed == old(store.failed) {
      WrittenMeans(s0, values, n, w.buf.Snap(store));
    }
  }

  /** The first n records have been written since s0; their heads are right where they could be named. */
  ghost predicate Written(s0: Side, values: seq<Rec>, n: nat, s: Side) {
    && n <= |values| && (forall k | 0 <= k < n :: Writable(values[k]))
    && MemOk(s.mem) && RefsOk(s.mem, s.refs) && |s.Bytes()| == |s0.Bytes()| + Sizes(values[..n])
    && (HeadsNamed(s.refs, |s0.Bytes()|, values, n) ==> s.Bytes() == s0.Bytes() + EncodeAll(values[..n]))
  }

  lemma WrittenMeans(s0: Side, values: seq<Rec>, n: nat, s: Side)
    requires Written(s0, values, n, s)
    ensures n <= |values| && forall k | 0 <= k < n :: Writable(values[k])
    ensures HeadsNamed(s.refs, |s0.Bytes()|, values, n) ==> s.Bytes() == s0.Bytes() + EncodeAll(values[..n])
  {
  }

  /** A refused record changes nothing of that. */
  lemma WrittenKeeps(s0: Side, values: seq<Rec>, n: nat, s: Side, s': Side)
    requires Written(s0, values, n, s) && MemOk(s'.mem) && RefsOk(s'.mem, s'.refs)
    requires SamePlaces(s.refs, s'.refs) && s'.Bytes() == s.Bytes()
    ensures Written(s0, values, n, s')
    ensures HeadsNamed(s'.refs, |s0.Bytes()|, values, n) <==> HeadsNamed(s.refs, |s0.Bytes()|, values, n)
  {
    hide MemOk, RefsOk, SamePlaces, Bytes, HeadsNamed, Writable, EncodeAll, Sizes;
    BytesLength(s.mem, s.refs);
    HeadsStay(s.refs, s'.refs, |s0.Bytes()|, values, n);
  }

  lemma WrittenMore(s0: Side, values: seq<Rec>, n: nat, s: Side, s': Side, reserved: seq<Byte>, packed: bool)
    requires Written(s0, values, n, s) && MemOk(s'.mem) && RefsOk(s'.mem, s'.refs) && SamePlaces(s.refs, s'.refs)
    requires n < |values| && Writable(values[n]) && |reserved| == HEAD_SIZE
    requires s'.Bytes() == s.Bytes() + if packed then Encode(values[n]) else reserved + Body(values[n])
    requires packed <==> Nameable(s'.refs, |s.Bytes()|)
    ensures Written(s0, values, n + 1, s')
    ensures HeadsNamed(s'.refs, |s0.Bytes()|, values, n + 1) <==>
            HeadsNamed(s.refs, |s0.Bytes()|, values, n) && packed
  {
    hide MemOk, RefsOk, SamePlaces, Bytes, HeadsNamed, Writable, EncodeAll, Sizes, Encode, Body, Nameable;
    BytesLength(s.mem, s.refs);
    HeadsStay(s.refs, s'.refs, |s0.Bytes()|, values, n);
    HeadsSnoc(s'.refs, |s0.Bytes()|, values, n);
    OneMoreWritten(s.Bytes(), s'.Bytes(), s0.Bytes(), reserved, values, n, packed);
  }

  lemma NothingWritten(s0: Side, values: seq<Rec>)
    requires MemOk(s0.mem) && RefsOk(s0.mem, s0.refs)
    ensures Written(s0, values, 0, s0) && HeadsNamed(s0.refs, |s0.Bytes()|, values, 0)
  {
  }

  /** Few references, none of them long: then every head can be named. */
  lemma HeadsOfFew(refs: seq<BlockRef>, p: nat, values: seq<Rec>, n: nat)
    requires |refs| <= MAX_REF_INDEX + 1 && forall i | 0 <= i < |refs| :: refs[i].length <= MAX_REF_OFFSET + 1
    requires n <= |values| && Total(refs) == p + Sizes(values[..n])
    ensures HeadsNamed(refs, p, values, n)
  {
    hide Nameable, Total, Sizes;
    forall k: nat | k < n ensures Nameable(refs, p + Sizes(values[..k])) {
      SizesGrow(values, k, n);
      FewNameable(refs, p + Sizes(values[..k]));
    }
  }

  // ---- reading

  lemma ReadOne(bytes: seq<Byte>, maxSize: nat)
    requires CutRecord(bytes, maxSize).Cut?
    ensures var Cut(rec, ncut, rest) := CutRecord(bytes, maxSize);
            && ReadAll(bytes, maxSize) == [rec] + ReadAll(rest, maxSize) && |rest| < |bytes|
            && Writable(rec) && bytes == Encode(rec) + rest && ncut == |bytes| - |rest|
  {
    hide CutRecord;
    CutsOnlyEncodings(bytes, maxSize);
    EncodedSize(CutRecord(bytes, maxSize).rec);
  }

  /** The bytes are encodings of what is read off them, and then something that is not a record: why, the code says. */
  ghost predicate StopsAt(bytes: seq<Byte>, maxSize: nat, rc: int) {
    var values := ReadAll(bytes, maxSize);
    && (forall k | 0 <= k < |values| :: Writable(values[k]))
    && EncodeAll(values) <= bytes
    && match CutRecord(bytes[|EncodeAll(values)|..], maxSize)
       case NeedMore => rc == 0 case Corrupt(_, _) => rc == -1 case Cut(_, _, _) => false
  }

  lemma Stops(all: seq<Byte>, done: seq<Rec>, bytes: seq<Byte>, maxSize: nat, rc: int)
    requires forall k | 0 <= k < |done| :: Writable(done[k])
    requires all == EncodeAll(done) + bytes && ReadAll(all, maxSize) == done + ReadAll(bytes, maxSize)
    requires match CutRecord(bytes, maxSize)
             case NeedMore => rc == 0 case Corrupt(_, _) => rc == -1 case Cut(_, _, _) => false
    ensures ReadAll(all, maxSize) == done && StopsAt(all, maxSize, rc)
  {
    assert ReadAll(bytes, maxSize) == [];
    hide ReadAll, CutRecord, EncodeAll, Writable;
    assert done + [] == done;
    assert all[|EncodeAll(done)|..] == bytes;
  }

  /** One record more has been read. */
  lemma OneMoreRead(all: seq<Byte>, done: seq<Rec>, bytes: seq<Byte>, rec: Rec, rest: seq<Byte>, maxSize: nat)
    requires Writable(rec) && forall k | 0 <= k < |done| :: Writable(done[k])
    requires all == EncodeAll(done) + bytes && bytes == Encode(rec) + rest
    requires ReadAll(all, maxSize) == done + ReadAll(bytes, maxSize)
    requires ReadAll(bytes, maxSize) == [rec] + ReadAll(rest, maxSize)
    ensures all == EncodeAll(done + [rec]) + rest && ReadAll(all, maxSize) == (done + [rec]) + ReadAll(rest, maxSize)
  {
    hide Encode, EncodeAll, ReadAll, Writable;
    EncodeAllSnoc(done, rec);
    ConcatAssociative(EncodeAll(done), Encode(rec), rest);
    ConcatAssociative(done, [rec], ReadAll(rest, maxSize));
  }

  /** Cutting one more record leaves those cut before as they are. */
  method CutBeside(store: BlockStore, r: RecordReader, maxSize: nat, recs: seq<Record>, ghost values: seq<Rec>)
    returns (rc: int, rec: Record)
    requires r.Valid(store) && |values| == |recs|
    requires forall k | 0 <= k < |recs| ::
               && r.portal !in recs[k].Repr() && recs[k].Beside(store.mem, store.held, RefsOf(r.portal.view))
               && recs[k].Value(store.mem) == values[k]
    modifies r`ncut, r.cutter, r.portal, store`mem, store`held
    ensures r.Valid(store) && fresh(rec) && fresh(rec.Repr())
    ensures Undisturbed(old(r.portal.Snap(store)), r.portal.Snap(store))
    ensures forall k | 0 <= k < |recs| ::
              recs[k].Beside(store.mem, store.held, RefsOf(r.portal.view)) && recs[k].Value(store.mem) == values[k]
    ensures rc == match CutRecord(old(r.Remaining(store)), maxSize)
                  case NeedMore => 0 case Corrupt(_, _) => -1 case Cut(_, _, _) => 1
    ensures rc == 0 ==> r.Remaining(store) == old(r.Remaining(store)) && r.ncut == old(r.ncut)
    ensures rc == 1 ==>
              && r.ncut >= old(r.ncut) && rec.Beside(store.mem, store.held, RefsOf(r.portal.view))
              && CutRecord(old(r.Remaining(store)), maxSize)
                 == Cut(rec.Value(store.mem), r.ncut - old(r.ncut), r.Remaining(store))
  {
    hide Balanced, Shares, Bytes, RefsOk, RefsOf, Shaped, Solid, Total, MemOk, Apart, Undisturbed, CutRecord,
         Record.Beside, Record.Value, RecordReader.Valid, RecordReader.Remaining, Uniform, Refusals;
    r.Viewable(store);
    ghost var s := r.portal.Snap(store);
    rc, rec := r.CutNext(store, maxSize);
    r.Viewable(store);
    forall k | 0 <= k < |recs|
      ensures recs[k].Beside(store.mem, store.held, RefsOf(r.portal.view)) && recs[k].Value(store.mem) == values[k]
    {
      StillBeside(recs[k], s, r.portal.Snap(store));
    }
  }

  /**
   * Cuts records until one is incomplete or corrupt. What they are worth, all of them at the end, is
   * what reading the bytes gives; unless a record was corrupt, the bytes are their encodings and
   * what is left.
   */
  method ReadRecords(store: BlockStore, r: RecordReader, maxSize: nat) returns (recs: seq<Record>, rc: int)
    requires r.Valid(store)
    modifies r`ncut, r.cutter, r.portal, store`mem, store`held
    ensures r.Valid(store)
    ensures Undisturbed(old(r.portal.Snap(store)), r.portal.Snap(store))
    ensures |recs| == |ReadAll(old(r.Remaining(store)), maxSize)|
    ensures forall k | 0 <= k < |recs| ::
              && fresh(recs[k]) && fresh(recs[k].Repr())
              && recs[k].Beside(store.mem, store.held, RefsOf(r.portal.view))
              && recs[k].Value(store.mem) == ReadAll(old(r.Remaining(store)), maxSize)[k]
    ensures StopsAt(old(r.Remaining(store)), maxSize, rc)
    ensures rc == 0 ==>
              && old(r.Remaining(store)) == EncodeAll(ReadAll(old(r.Remaining(store)), maxSize)) + r.Remaining(store)
              && r.ncut - old(r.ncut) == |old(r.Remaining(store))| - |r.Remaining(store)|
  {
    hide Balanced, Shares, Bytes, RefsOk, RefsOf, Shaped, Solid, Total, MemOk, Apart, Undisturbed, Writable, Encode,
         EncodeAll, ReadAll, CutRecord, StopsAt, Record.Beside, Record.Value, RecordReader.Valid,
         RecordReader.Remaining, Uniform, Refusals;
    ghost var all, done := r.Remaining(store), [];
    r.Viewable(store);
    ghost var s0 := r.portal.Snap(store);
    UndisturbedReflexive(s0);
    NothingRead(all, maxSize);
    recs := [];
    while true
      invariant r.Valid(store) && ViewOk(r.portal.view) && Shaped(r.portal.view)
      invariant Undisturbed(s0, r.portal.Snap(store)) && |done| == |recs|
      invariant forall k | 0 <= k < |recs| ::
                  && fresh(recs[k]) && fresh(recs[k].Repr())
                  && recs[k].Beside(store.mem, store.held, RefsOf(r.portal.view))
                  && recs[k].Value(store.mem) == done[k]
      invariant forall k | 0 <= k < |done| :: Writable(done[k])
      invariant all == EncodeAll(done) + r.Remaining(store)
      invariant ReadAll(all, maxSize) == done + ReadAll(r.Remaining(store), maxSize)
      invariant r.ncut - old(r.ncut) == |all| - |r.Remaining(store)|
      decreases |r.Remaining(store)|
    {
      ghost var s, bytes := r.portal.Snap(store), r.Remaining(store);
      var rec;
      rc, rec := CutBeside(store, r, maxSize, recs, done);
      r.Viewable(store);
      UndisturbedTransitive(s0, s, r.portal.Snap(store));
      if rc != 1 {
        Stops(all, done, bytes, maxSize, rc);
        return;
      }
      ReadOne(bytes, maxSize);
      OneMoreRead(all, done, bytes, rec.Value(store.mem), r.Remaining(store), maxSize);
      recs, done := recs + [rec], done + [rec.Value(store.mem)];
    }
  }

  lemma NothingRead(bytes: seq<Byte>, maxSize: nat)
    ensures EncodeAll([]) + bytes == bytes && [] + ReadAll(bytes, maxSize) == ReadAll(bytes, maxSize)
  {
    hide ReadAll;
  }

  // ---- both

  lemma NewReader(r: RecordReader, store: BlockStore)
    requires r.portal.Valid(store) && r.cutter.buf == r.portal && r.cutter.block == NULL
    requires r.cutter.data == r.cutter.dataEnd == 0
    ensures r.Valid(store) && r.Remaining(store) == r.portal.Snap(store).Bytes()
  {
    hide Balanced, Shares, Bytes, RefsOk, RefsOf, Shaped, Solid, Total, MemOk, Uniform, Refusals;
  }

  /** Reads a buffer's records from a copy of it that shares its blocks. */
  method ReadBack(store: BlockStore, buf: IOBuf, maxSize: nat) returns (back: seq<Record>, rc: int)
    requires buf.Valid(store)
    modifies store`mem, store`held
    ensures buf.Valid(store)
    ensures Undisturbed(old(Side(store.mem, store.held, [])), Side(store.mem, store.held, []))
    ensures StopsAt(old(buf.Snap(store).Bytes()), maxSize, rc)
    ensures |back| == |ReadAll(old(buf.Snap(store).Bytes()), maxSize)|
    ensures forall k | 0 <= k < |back| ::
              && fresh(back[k]) && fresh(back[k].Repr())
              && back[k].Value(store.mem) == ReadAll(old(buf.Snap(store).Bytes()), maxSize)[k]
  {
    hide Balanced, Kept, Shares, Bytes, RefsOk, RefsOf, Shaped, Solid, Total, MemOk, Apart, Undisturbed, ReadAll,
         StopsAt, Extends, Cells, Record.Beside, Record.Value, RecordReader.Valid, RecordReader.Remaining, Uniform,
         Refusals;
    var portal := new IOBuf();
    EmptyIn(store.mem, store.held);
    NothingBeside(store.held, RefsOf(buf.view));
    ghost var s := portal.Snap(store);
    BalancedMem(store.mem, store.chain, store.held);
    portal.AppendOther(store, buf);
    ghost var s1 := portal.Snap(store);
    KeptUndisturbed(s, s1, store.chain);
    var r := new RecordReader(portal);
    NewReader(r, store);
    assert r.Remaining(store) == s1.Bytes();
    NothingBefore(old(buf.Snap(store).Bytes()));
    back, rc := ReadRecords(store, r, maxSize);
    r.Viewable(store);
    UndisturbedTransitive(s, s1, r.portal.Snap(store));
    StillHeld(s, r.portal.Snap(store), RefsOf(buf.view));
    StoreThere(r, store);
  }

  lemma NothingBefore(bytes: seq<Byte>)
    ensures [] + bytes == bytes
  {
  }

  lemma StoreThere(r: RecordReader, store: BlockStore)
    requires r.Valid(store)
    ensures store.Valid()
  {
  }

  lemma StillHeld(s: Side, s': Side, other: seq<BlockRef>)
    requires s.refs == [] && Undisturbed(s, s')
    ensures Undisturbed(s, Side(s'.mem, s'.held, []))
    ensures RefsOk(s.mem, other) && Shares(other) <= s.held ==> RefsOk(s'.mem, other) && Shares(other) <= s'.held
  {
  }

  /**
   * Records written one after another into an empty buffer are, from a reader over the same bytes, cut
   * off again with the same values and in the same order, provided they can be read at all, memory
   * did not run out and every head lies where an area can name it, which it does in a roomy buffer.
   * The records written keep their values.
   */
  method WriteAndReadBack(store: BlockStore, w: RecordWriter, recs: seq<Record>, ghost values: seq<Rec>,
                          ghost costs: seq<nat>, maxSize: nat) returns (n: nat, back: seq<Record>, rc: int)
    requires store.Valid() && w.buf.view == EMPTY_VIEW
    requires Standing(recs, values, costs, w.buf, Side(store.mem, store.held, []))
    modifies w.buf, store
    ensures w.buf.Valid(store)
    ensures forall k | 0 <= k < |recs| :: recs[k].Value(store.mem) == values[k]
    ensures forall k | 0 <= k < |back| :: fresh(back[k])
    ensures && store.failed == old(store.failed)
            && (HeadsNamed(RefsOf(w.buf.view), 0, values, |recs|) || Roomy(store.blockCap, 0, costs))
            && (forall k | 0 <= k < |recs| :: Writable(values[k]) && Readable(values[k], maxSize)) ==>
              && n == |recs| == |back| && rc == 0
              && forall k | 0 <= k < |back| :: back[k].Value(store.mem) == values[k]
  {
    hide Balanced, Shares, Bytes, RefsOk, RefsOf, Shaped, Solid, Total, MemOk, Apart, Undisturbed, Writable, Encode,
         EncodeAll, ReadAll, StopsAt, Readable, HeadsNamed, Record.Beside, Record.Value, RecordReader.Valid,
         RecordReader.Remaining, Uniform, Refusals, Roomy, Record.References;
    EmptyIn(store.mem, store.held);
    ghost var s0 := w.buf.Snap(store);
    n := WriteAll(store, w, recs, values, costs);
    ghost var s1 := w.buf.Snap(store);
    StillHeld(s0, s1, []);
    back, rc := ReadBack(store, w.buf, maxSize);
    UndisturbedTransitive(s0, Side(s1.mem, s1.held, []), Side(store.mem, store.held, []));
    forall k | 0 <= k < |recs| ensures recs[k].Value(store.mem) == values[k] {
      StillBeside(recs[k], s0, Side(store.mem, store.held, []));
    }
    if n == |recs| && forall k | 0 <= k < |recs| :: Writable(values[k]) && Readable(values[k], maxSize) {
      assert values[..n] == values;
      ReadWhole(values, maxSize, rc);
    }
  }

  lemma ReadWhole(values: seq<Rec>, maxSize: nat, rc: int)
    requires forall k | 0 <= k < |values| :: Writable(values[k]) && Readable(values[k], maxSize)
    ensures ReadAll([] + EncodeAll(values), maxSize) == values
    ensures StopsAt([] + EncodeAll(values), maxSize, rc) ==> rc == 0
  {
    hide ReadAll, CutRecord, EncodeAll, Writable, Readable;
    var bytes := EncodeAll(values);
    assert [] + bytes == bytes && bytes[|bytes|..] == [];
    FileRoundTrip(values, maxSize);
    NothingToCut(maxSize);
  }

  lemma NothingBeside(held: multiset<BlockId>, refs: seq<BlockRef>)
    requires Shares(refs) <= held
    ensures Apart(held, [], refs) && Apart(held, refs, [])
  {
  }
}
