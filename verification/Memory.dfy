/** Blocks of bytes, references into them, and the byte sequence a queue of references denotes. */
module Memory {
  type Byte = x: int | 0 <= x < 256

  type BlockId = nat

  /** The null block pointer. */
  const NULL: BlockId := 0

  /** The top bit of an offset is the small/big discriminator, so a block stays below it. */
  const OFFSET_LIMIT: nat := 0x8000_0000

  /** The most a caller's own memory may have. */
  const MAX_USER_DATA: nat := 0xFFFF_FFFF - 100

  datatype Block = Block(nshared: nat, size: nat, cap: nat, data: seq<Byte>, userData: bool) {
    predicate Full() {
      size >= cap
    }

    ghost predicate WellFormed() {
      0 < nshared && size <= cap == |data| && cap < OFFSET_LIMIT
    }
  }

  /** All blocks alive, and the id the next allocation gets. An id names one allocation for ever. */
  datatype Mem = Mem(blocks: map<BlockId, Block>, next: BlockId)

  datatype BlockRef = BlockRef(offset: nat, length: nat, block: BlockId)

  const EMPTY_REF: BlockRef := BlockRef(0, 0, NULL)

  ghost predicate MemOk(mem: Mem) {
    && 0 < mem.next
    && forall b | b in mem.blocks :: 0 < b < mem.next && mem.blocks[b].WellFormed()
  }

  ghost predicate RefOk(mem: Mem, r: BlockRef) {
    && r.block in mem.blocks
    && 0 < r.length
    && r.offset + r.length <= mem.blocks[r.block].size
  }

  ghost predicate RefsOk(mem: Mem, refs: seq<BlockRef>) {
    forall i | 0 <= i < |refs| :: RefOk(mem, refs[i])
  }

  function Piece(mem: Mem, r: BlockRef): seq<Byte> {
    if r.block in mem.blocks && r.offset + r.length <= |mem.blocks[r.block].data|
    then mem.blocks[r.block].data[r.offset..r.offset + r.length]
    else []
  }

  ghost function Bytes(mem: Mem, refs: seq<BlockRef>): seq<Byte> {
    if refs == [] then [] else Piece(mem, refs[0]) + Bytes(mem, refs[1..])
  }

  ghost function Total(refs: seq<BlockRef>): nat {
    if refs == [] then 0 else refs[0].length + Total(refs[1..])
  }

  function Ids(refs: seq<BlockRef>): seq<BlockId> {
    seq(|refs|, i requires 0 <= i < |refs| => refs[i].block)
  }

  /** The blocks a queue refers to, with multiplicity: its share of the reference counts. */
  ghost function Shares(refs: seq<BlockRef>): multiset<BlockId> {
    multiset(Ids(refs))
  }

  ghost predicate Grown(x: Block, y: Block) {
    && x.cap == y.cap && x.userData == y.userData && |x.data| == |y.data|
    && x.size <= y.size && x.size <= |x.data|
    && x.data[..x.size] == y.data[..x.size]
  }

  /** What running any operation may do to memory: free blocks, add fresh ones, append to others. */
  ghost predicate Evolves(m: Mem, m': Mem) {
    && m.next <= m'.next
    && forall b | b in m'.blocks ::
      if b in m.blocks then Grown(m.blocks[b], m'.blocks[b]) else m.next <= b
  }

  lemma RefAlive(mem: Mem, r: BlockRef)
    requires MemOk(mem) && RefOk(mem, r)
    ensures r.block in mem.blocks && r.block != NULL && 0 < r.length
  {}

  lemma EvolvesReflexive(m: Mem)
    requires MemOk(m)
    ensures Evolves(m, m)
  {}

  lemma EvolvesTransitive(m0: Mem, m1: Mem, m2: Mem)
    requires MemOk(m0) && MemOk(m1) && Evolves(m0, m1) && Evolves(m1, m2)
    ensures Evolves(m0, m2)
  {
    forall b | b in m2.blocks
      ensures if b in m0.blocks then Grown(m0.blocks[b], m2.blocks[b]) else m0.next <= b
    {
      if b in m0.blocks {
        var x, y, z := m0.blocks[b], m1.blocks[b], m2.blocks[b];
        assert z.data[..x.size] == z.data[..y.size][..x.size];
        assert y.data[..x.size] == y.data[..y.size][..x.size];
      }
    }
  }

  lemma ConcatAssociative<T>(a: seq<T>, b: seq<T>, c: seq<T>)
    ensures (a + b) + c == a + (b + c)
  {}

  lemma {:induction false} BytesConcat(mem: Mem, a: seq<BlockRef>, b: seq<BlockRef>)
    ensures Bytes(mem, a + b) == Bytes(mem, a) + Bytes(mem, b)
  {
    if a == [] {
      assert a + b == b;
    } else {
      BytesConcat(mem, a[1..], b);
      assert (a + b)[1..] == a[1..] + b && (a + b)[0] == a[0];
      ConcatAssociative(Piece(mem, a[0]), Bytes(mem, a[1..]), Bytes(mem, b));
    }
  }

  lemma BytesSnoc(mem: Mem, refs: seq<BlockRef>, r: BlockRef)
    ensures Bytes(mem, refs + [r]) == Bytes(mem, refs) + Piece(mem, r)
  {
    BytesConcat(mem, refs, [r]);
    assert [r][1..] == [];
    assert Bytes(mem, [r]) == Piece(mem, r) + [];
  }

  lemma {:induction false} TotalConcat(a: seq<BlockRef>, b: seq<BlockRef>)
    ensures Total(a + b) == Total(a) + Total(b)
  {
    if a == [] {
      assert a + b == b;
    } else {
      TotalConcat(a[1..], b);
      assert (a + b)[1..] == a[1..] + b;
    }
  }

  lemma TotalSnoc(refs: seq<BlockRef>, r: BlockRef)
    ensures Total(refs + [r]) == Total(refs) + r.length
  {
    TotalConcat(refs, [r]);
  }

  lemma TotalBack(refs: seq<BlockRef>)
    requires refs != []
    ensures Total(refs) == Total(refs[..|refs| - 1]) + refs[|refs| - 1].length
  {
    var n := |refs| - 1;
    TotalSnoc(refs[..n], refs[n]);
    assert refs[..n] + [refs[n]] == refs;
  }

  lemma SharesConcat(a: seq<BlockRef>, b: seq<BlockRef>)
    ensures Shares(a + b) == Shares(a) + Shares(b)
  {
    assert Ids(a + b) == Ids(a) + Ids(b);
  }

  lemma SharesSnoc(refs: seq<BlockRef>, r: BlockRef)
    ensures Shares(refs + [r]) == Shares(refs) + multiset{r.block}
  {
    assert Ids(refs + [r]) == Ids(refs) + [r.block];
  }

  lemma SharesMember(refs: seq<BlockRef>, i: nat)
    requires i < |refs|
    ensures refs[i].block in Shares(refs)
  {
    assert Ids(refs)[i] == refs[i].block;
  }

  lemma SharesFront(refs: seq<BlockRef>)
    requires refs != []
    ensures Shares(refs) == multiset{refs[0].block} + Shares(refs[1..])
  {
    SharesConcat([refs[0]], refs[1..]);
    assert [refs[0]] + refs[1..] == refs;
    assert Ids([refs[0]]) == [refs[0].block];
  }

  lemma SharesBack(refs: seq<BlockRef>)
    requires refs != []
    ensures Shares(refs) == Shares(refs[..|refs| - 1]) + multiset{refs[|refs| - 1].block}
  {
    var n := |refs| - 1;
    SharesConcat(refs[..n], [refs[n]]);
    assert refs[..n] + [refs[n]] == refs;
    assert Ids([refs[n]]) == [refs[n].block];
  }

  lemma RefsTail(mem: Mem, refs: seq<BlockRef>)
    requires RefsOk(mem, refs) && refs != []
    ensures RefOk(mem, refs[0]) && RefsOk(mem, refs[1..])
  {}

  lemma {:induction false} BytesLength(mem: Mem, refs: seq<BlockRef>)
    requires MemOk(mem) && RefsOk(mem, refs)
    ensures |Bytes(mem, refs)| == Total(refs)
    ensures refs != [] ==> Total(refs) > 0
  {
    if refs != [] {
      assert RefOk(mem, refs[0]);
      BytesLength(mem, refs[1..]);
    }
  }

  lemma PieceFrame(m: Mem, m': Mem, r: BlockRef)
    requires MemOk(m) && MemOk(m') && RefOk(m, r) && Evolves(m, m') && r.block in m'.blocks
    ensures RefOk(m', r) && Piece(m', r) == Piece(m, r)
  {
    var x, y := m.blocks[r.block], m'.blocks[r.block];
    assert Grown(x, y);
    SliceOfPrefix(x.data, x.size, r.offset, r.offset + r.length);
    SliceOfPrefix(y.data, x.size, r.offset, r.offset + r.length);
  }

  lemma SliceOfPrefix<T>(s: seq<T>, n: nat, i: nat, j: nat)
    requires i <= j <= n <= |s|
    ensures s[..n][i..j] == s[i..j]
  {}

  /** A queue whose blocks are all still alive reads the same bytes after memory evolves. */
  lemma {:induction false} BytesFrame(m: Mem, m': Mem, refs: seq<BlockRef>)
    requires MemOk(m) && MemOk(m') && RefsOk(m, refs) && Evolves(m, m')
    requires forall i | 0 <= i < |refs| :: refs[i].block in m'.blocks
    ensures RefsOk(m', refs)
    ensures Bytes(m', refs) == Bytes(m, refs)
  {
    if refs != [] {
      PieceFrame(m, m', refs[0]);
      BytesFrame(m, m', refs[1..]);
      assert refs == [refs[0]] + refs[1..];
    }
  }

  /** The back of the queue absorbs a reference that continues it in the same block. */
  predicate Merges(refs: seq<BlockRef>, r: BlockRef) {
    refs != [] && var back := refs[|refs| - 1];
    back.block == r.block && back.offset + back.length == r.offset
  }

  ghost function Push(refs: seq<BlockRef>, r: BlockRef): seq<BlockRef> {
    if Merges(refs, r)
    then refs[|refs| - 1 := refs[|refs| - 1].(length := refs[|refs| - 1].length + r.length)]
    else refs + [r]
  }

  lemma PieceSplit(mem: Mem, r: BlockRef, n: nat)
    requires MemOk(mem) && RefOk(mem, r) && n <= r.length
    ensures |Piece(mem, r)| == r.length
    ensures Piece(mem, r) == Piece(mem, r.(length := n))
                             + Piece(mem, BlockRef(r.offset + n, r.length - n, r.block))
  {}

  lemma MergePiece(mem: Mem, back: BlockRef, r: BlockRef)
    requires MemOk(mem) && RefOk(mem, back) && RefOk(mem, r)
    requires back.block == r.block && back.offset + back.length == r.offset
    ensures var wide := back.(length := back.length + r.length);
            RefOk(mem, wide) && Piece(mem, wide) == Piece(mem, back) + Piece(mem, r)
  {
    PieceSplit(mem, back.(length := back.length + r.length), back.length);
  }

  lemma WidenBytes(mem: Mem, front: seq<BlockRef>, back: BlockRef, wide: BlockRef, r: BlockRef)
    requires Piece(mem, wide) == Piece(mem, back) + Piece(mem, r)
    ensures Bytes(mem, front + [wide]) == Bytes(mem, front + [back]) + Piece(mem, r)
  {
    BytesSnoc(mem, front, back);
    BytesSnoc(mem, front, wide);
    ConcatAssociative(Bytes(mem, front), Piece(mem, back), Piece(mem, r));
  }

  lemma WidenTotal(front: seq<BlockRef>, back: BlockRef, wide: BlockRef)
    ensures Total(front + [wide]) - wide.length == Total(front + [back]) - back.length
  {
    TotalSnoc(front, back);
    TotalSnoc(front, wide);
  }

  /** Pushing a reference takes one share of its block, unless it merges into the back. */
  lemma PushShares(refs: seq<BlockRef>, r: BlockRef)
    ensures Shares(Push(refs, r)) ==
            Shares(refs) + (if Merges(refs, r) then multiset{} else multiset{r.block})
  {
    if Merges(refs, r) {
      assert Ids(Push(refs, r)) == Ids(refs);
    } else {
      assert Ids(refs + [r]) == Ids(refs) + [r.block];
    }
  }

  lemma PushTotal(refs: seq<BlockRef>, r: BlockRef)
    ensures Total(Push(refs, r)) == Total(refs) + r.length
  {
    if Merges(refs, r) {
      var n := |refs| - 1;
      var wide := refs[n].(length := refs[n].length + r.length);
      WidenTotal(refs[..n], refs[n], wide);
      assert refs[..n] + [refs[n]] == refs;
      assert refs[..n] + [wide] == Push(refs, r);
    } else {
      TotalSnoc(refs, r);
    }
  }

  lemma PushOk(mem: Mem, refs: seq<BlockRef>, r: BlockRef)
    requires MemOk(mem) && RefsOk(mem, refs) && RefOk(mem, r)
    ensures RefsOk(mem, Push(refs, r))
  {
    if Merges(refs, r) {
      assert RefOk(mem, refs[|refs| - 1]);
    }
  }

  /** Pushing a reference appends exactly its bytes, merged or not. */
  lemma PushBytes(mem: Mem, refs: seq<BlockRef>, r: BlockRef)
    requires MemOk(mem) && RefsOk(mem, refs) && RefOk(mem, r)
    ensures RefsOk(mem, Push(refs, r))
    ensures Bytes(mem, Push(refs, r)) == Bytes(mem, refs) + Piece(mem, r)
  {
    hide Bytes, Piece, MemOk, RefOk, RefsOk, Merges;
    PushOk(mem, refs, r);
    if Merges(refs, r) {
      PushMerged(mem, refs, r);
    } else {
      BytesSnoc(mem, refs, r);
    }
  }

  lemma PushMerged(mem: Mem, refs: seq<BlockRef>, r: BlockRef)
    requires MemOk(mem) && RefsOk(mem, refs) && RefOk(mem, r) && Merges(refs, r)
    ensures Bytes(mem, Push(refs, r)) == Bytes(mem, refs) + Piece(mem, r)
  {
    var n := |refs| - 1;
    assert RefOk(mem, refs[n]);
    hide Bytes, Piece, MemOk, RefOk, RefsOk;
    MergePiece(mem, refs[n], r);
    var wide := refs[n].(length := refs[n].length + r.length);
    LastReplaced(refs, wide);
    WidenBytes(mem, refs[..n], refs[n], wide, r);
  }

  lemma LastReplaced<T>(s: seq<T>, x: T)
    requires s != []
    ensures var n := |s| - 1; s[..n] + [s[n]] == s && s[..n] + [x] == s[n := x]
  {}

  /** Advancing into the front reference removes exactly that many leading bytes. */
  lemma BeheadBytes(mem: Mem, refs: seq<BlockRef>, n: nat)
    requires MemOk(mem) && RefsOk(mem, refs) && refs != [] && n < refs[0].length
    ensures var r := BlockRef(refs[0].offset + n, refs[0].length - n, refs[0].block);
            && RefsOk(mem, [r] + refs[1..])
            && |Bytes(mem, refs)| >= n
            && Bytes(mem, refs)[..n] == Piece(mem, refs[0].(length := n))
            && Bytes(mem, [r] + refs[1..]) == Bytes(mem, refs)[n..]
            && Shares([r] + refs[1..]) == Shares(refs)
  {
    var r := BlockRef(refs[0].offset + n, refs[0].length - n, refs[0].block);
    BeheadOk(mem, refs, n);
    BeheadSplit(mem, refs, n);
    hide MemOk, RefsOk, Shares, Piece, Bytes;
    SameShares(refs, 0, r);
    assert refs[0 := r] == [r] + refs[1..];
    var head := Piece(mem, refs[0].(length := n));
    SplitAt(head, Bytes(mem, [r] + refs[1..]));
  }

  lemma SplitAt<T>(a: seq<T>, b: seq<T>)
    ensures (a + b)[..|a|] == a && (a + b)[|a|..] == b
  {}

  lemma BeheadSplit(mem: Mem, refs: seq<BlockRef>, n: nat)
    requires MemOk(mem) && RefsOk(mem, refs) && refs != [] && n < refs[0].length
    ensures var r := BlockRef(refs[0].offset + n, refs[0].length - n, refs[0].block);
            && |Piece(mem, refs[0].(length := n))| == n
            && Bytes(mem, refs) == Piece(mem, refs[0].(length := n)) + Bytes(mem, [r] + refs[1..])
  {
    var r := BlockRef(refs[0].offset + n, refs[0].length - n, refs[0].block);
    assert RefOk(mem, refs[0]);
    PieceSplit(mem, refs[0], n);
    PieceSplit(mem, refs[0].(length := n + 1), n);
    hide MemOk, RefsOk, RefOk, Piece;
    assert ([r] + refs[1..])[1..] == refs[1..];
    ConcatAssociative(Piece(mem, refs[0].(length := n)), Piece(mem, r), Bytes(mem, refs[1..]));
  }

  lemma BeheadOk(mem: Mem, refs: seq<BlockRef>, n: nat)
    requires MemOk(mem) && RefsOk(mem, refs) && refs != [] && n < refs[0].length
    ensures RefsOk(mem, [BlockRef(refs[0].offset + n, refs[0].length - n, refs[0].block)] + refs[1..])
  {
    assert RefOk(mem, refs[0]);
  }

  lemma SameShares(refs: seq<BlockRef>, k: nat, r: BlockRef)
    requires k < |refs| && r.block == refs[k].block
    ensures Shares(refs[k := r]) == Shares(refs)
  {
    assert Ids(refs[k := r]) == Ids(refs);
  }

  /** Shortening the back reference removes exactly that many trailing bytes. */
  lemma CurtailBytes(mem: Mem, refs: seq<BlockRef>, n: nat)
    requires MemOk(mem) && RefsOk(mem, refs) && refs != [] && n < refs[|refs| - 1].length
    ensures var k := |refs| - 1;
            var r := refs[k].(length := refs[k].length - n);
            && RefsOk(mem, refs[..k] + [r])
            && |Bytes(mem, refs)| >= n
            && Bytes(mem, refs[..k] + [r]) == Bytes(mem, refs)[..|Bytes(mem, refs)| - n]
            && Shares(refs[..k] + [r]) == Shares(refs)
  {
    hide Bytes, MemOk, Shares;
    var k := |refs| - 1;
    var r := refs[k].(length := refs[k].length - n);
    assert RefOk(mem, refs[k]);
    PieceSplit(mem, refs[k], r.length);
    hide Piece;
    SameShares(refs, k, r);
    BytesSnoc(mem, refs[..k], refs[k]);
    BytesSnoc(mem, refs[..k], r);
    assert refs[..k] + [refs[k]] == refs;
    assert refs[..k] + [r] == refs[k := r];
  }
}
