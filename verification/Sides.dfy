/** One queue of references among many: what its operations owe to every other holder. */
module Sides {
  import opened Memory
  import opened Views
  import opened BlockStores

  /** A buffer's references are inside live blocks and its shares are part of what is held. */
  ghost predicate Owns(v: View, mem: Mem, held: multiset<BlockId>) {
    ViewOk(v) && RefsOk(mem, RefsOf(v)) && Shares(RefsOf(v)) <= held
  }

  /** One queue as seen from outside: memory, everything held, and the queue's own references. */
  datatype Side = Side(mem: Mem, held: multiset<BlockId>, refs: seq<BlockRef>) {
    ghost function Bytes(): seq<Byte> {
      Memory.Bytes(mem, refs)
    }
  }

  /**
   * What every operation on one queue leaves to all others: memory only evolves, and the shares
   * held change by exactly what this queue gained and lost.
   */
  ghost predicate Kept(s: Side, s': Side) {
    && Evolves(s.mem, s'.mem)
    && s'.held + Shares(s.refs) == s.held + Shares(s'.refs)
  }

  /** Counting one reference more or less, without freeing its block, changes no byte. */
  lemma RecountKeeps(m: Mem, m': Mem, refs: seq<BlockRef>)
    requires MemOk(m) && MemOk(m') && Evolves(m, m') && m'.blocks.Keys == m.blocks.Keys
    requires RefsOk(m, refs)
    ensures RefsOk(m', refs) && Bytes(m', refs) == Bytes(m, refs)
  {
    forall i | 0 <= i < |refs| ensures refs[i].block in m'.blocks {
      assert RefOk(m, refs[i]);
    }
    BytesFrame(m, m', refs);
  }

  /**
   * The frame of every operation: a queue whose shares are still held afterwards reads the same
   * bytes, whatever was appended to, popped from or freed by others.
   */
  lemma StillReads(m: Mem, m': Mem, chain': seq<BlockId>, held': multiset<BlockId>, refs: seq<BlockRef>)
    requires MemOk(m) && Balanced(m', chain', held') && Evolves(m, m')
    requires RefsOk(m, refs) && Shares(refs) <= held'
    ensures RefsOk(m', refs) && Bytes(m', refs) == Bytes(m, refs)
  {
    forall i | 0 <= i < |refs| ensures refs[i].block in m'.blocks {
      SharesMember(refs, i);
    }
    BytesFrame(m, m', refs);
  }

  /** The shares a caller brings along when it moves a reference in rather than copying it. */
  ghost function Brought(r: BlockRef, move: bool): multiset<BlockId> {
    if move then multiset{r.block} else multiset{}
  }

  /** The side a push starts from, with the share the caller brings counted in. */
  ghost function Bringing(s: Side, r: BlockRef, move: bool): Side {
    if move then s.(refs := s.refs + [r]) else s
  }

  ghost predicate Pushed(s: Side, s': Side, r: BlockRef) {
    s'.refs == Push(s.refs, r) && s'.Bytes() == s.Bytes() + Piece(s.mem, r)
  }

  lemma AfterPush(s: Side, s': Side, chain: seq<BlockId>, r: BlockRef, move: bool)
    requires MemOk(s.mem) && RefsOk(s.mem, s.refs) && RefOk(s.mem, r)
    requires Shares(s.refs) + Brought(r, move) <= s.held
    requires Balanced(s'.mem, chain, s'.held) && Evolves(s.mem, s'.mem)
    requires s'.mem.blocks.Keys == s.mem.blocks.Keys && s'.refs == Push(s.refs, r)
    requires s'.held == if Merges(s.refs, r) then s.held - Brought(r, move)
                        else if move then s.held else s.held + multiset{r.block}
    ensures RefsOk(s'.mem, s'.refs) && Shares(s'.refs) <= s'.held
    ensures Pushed(s, s', r) && Kept(Bringing(s, r, move), s')
  {
    hide Evolves, Shares, Bytes, RefsOk, RefOk, Push, Merges, Balanced;
    BalancedMem(s'.mem, chain, s'.held);
    PushAccounts(s.held, s.refs, r, move, s'.held);
    PushBytes(s.mem, s.refs, r);
    RecountKeeps(s.mem, s'.mem, s'.refs);
    SharesSnoc(s.refs, r);
  }

  /** Moving a reference in and merging it drops a share, but never the last one. */
  lemma MergedStaysHeld(held: multiset<BlockId>, refs: seq<BlockRef>, r: BlockRef)
    requires Merges(refs, r) && Shares(refs) + multiset{r.block} <= held
    ensures r.block in held - multiset{r.block}
  {
    SharesMember(refs, |refs| - 1);
  }

  lemma PushAccounts(held: multiset<BlockId>, refs: seq<BlockRef>, r: BlockRef, move: bool,
                     held': multiset<BlockId>)
    requires Shares(refs) + Brought(r, move) <= held
    requires held' == if Merges(refs, r) then held - Brought(r, move)
                      else if move then held else held + multiset{r.block}
    ensures held' + Shares(refs) + Brought(r, move) == held + Shares(Push(refs, r))
    ensures Shares(Push(refs, r)) <= held'
  {
    PushShares(refs, r);
  }

  lemma DropAccounts(held: multiset<BlockId>, all: multiset<BlockId>, rest: multiset<BlockId>, b: BlockId)
    requires all == rest + multiset{b} && all <= held
    ensures b in held && rest <= held - multiset{b} && rest <= held
    ensures (held - multiset{b}) + all == held + rest
  {}

  lemma KeptReflexive(s: Side, chain: seq<BlockId>)
    requires Balanced(s.mem, chain, s.held)
    ensures MemOk(s.mem) && Kept(s, s)
  {
    EvolvesReflexive(s.mem);
  }

  lemma KeptTransitive(s0: Side, s1: Side, s2: Side)
    requires MemOk(s0.mem) && MemOk(s1.mem) && Kept(s0, s1) && Kept(s1, s2)
    ensures Kept(s0, s2)
  {
    EvolvesTransitive(s0.mem, s1.mem, s2.mem);
    hide Evolves;
    TransferTransitive(s0.held, Shares(s0.refs), s1.held, Shares(s1.refs), s2.held, Shares(s2.refs));
  }

  lemma TransferTransitive(h0: multiset<BlockId>, a0: multiset<BlockId>, h1: multiset<BlockId>,
                           a1: multiset<BlockId>, h2: multiset<BlockId>, a2: multiset<BlockId>)
    requires h1 + a0 == h0 + a1 && h2 + a1 == h1 + a2
    ensures h2 + a0 == h0 + a2
  {
    forall b: BlockId ensures (h2 + a0)[b] == (h0 + a2)[b] {
      assert (h1 + a0)[b] == (h0 + a1)[b] && (h2 + a1)[b] == (h1 + a2)[b];
    }
  }

  ghost predicate PoppedFront(s: Side, s': Side) {
    && s.refs != [] && s'.refs == s.refs[1..]
    && s.Bytes() == Piece(s.mem, s.refs[0]) + s'.Bytes()
  }

  ghost predicate PoppedBack(s: Side, s': Side) {
    && s.refs != [] && s'.refs == s.refs[..|s.refs| - 1]
    && s.Bytes() == s'.Bytes() + Piece(s.mem, s.refs[|s.refs| - 1])
  }

  lemma FrontHeld(s: Side)
    requires s.refs != [] && Shares(s.refs) <= s.held
    ensures s.refs[0].block in s.held
  {
    SharesMember(s.refs, 0);
  }

  lemma BackHeld(s: Side)
    requires s.refs != [] && Shares(s.refs) <= s.held
    ensures s.refs[|s.refs| - 1].block in s.held
  {
    SharesMember(s.refs, |s.refs| - 1);
  }

  lemma FrontDropped(s: Side, s': Side, chain: seq<BlockId>)
    requires MemOk(s.mem) && RefsOk(s.mem, s.refs) && s.refs != [] && Shares(s.refs) <= s.held
    requires Balanced(s'.mem, chain, s'.held) && Evolves(s.mem, s'.mem)
    requires s'.refs == s.refs[1..] && s'.held == s.held - multiset{s.refs[0].block}
    ensures RefsOk(s'.mem, s'.refs) && Shares(s'.refs) <= s'.held
    ensures Kept(s, s') && PoppedFront(s, s')
  {
    hide Balanced, Evolves, Shares, MemOk;
    SharesFront(s.refs);
    DropAccounts(s.held, Shares(s.refs), Shares(s'.refs), s.refs[0].block);
    StillReads(s.mem, s'.mem, chain, s'.held, s'.refs);
  }

  lemma BackDropped(s: Side, s': Side, chain: seq<BlockId>)
    requires MemOk(s.mem) && RefsOk(s.mem, s.refs) && s.refs != [] && Shares(s.refs) <= s.held
    requires Balanced(s'.mem, chain, s'.held) && Evolves(s.mem, s'.mem)
    requires s'.refs == s.refs[..|s.refs| - 1] && s'.held == s.held - multiset{s.refs[|s.refs| - 1].block}
    ensures RefsOk(s'.mem, s'.refs) && Shares(s'.refs) <= s'.held
    ensures Kept(s, s') && PoppedBack(s, s')
  {
    hide Balanced, Evolves, Shares, MemOk, Bytes;
    SharesBack(s.refs);
    DropAccounts(s.held, Shares(s.refs), Shares(s'.refs), s.refs[|s.refs| - 1].block);
    StillReads(s.mem, s'.mem, chain, s'.held, s'.refs);
    BytesSnoc(s.mem, s'.refs, s.refs[|s.refs| - 1]);
    assert s'.refs + [s.refs[|s.refs| - 1]] == s.refs;
  }

  /** The constant-time readers of a valid queue are exact. */
  lemma Readers(v: View, mem: Mem)
    requires ViewOk(v) && MemOk(mem) && RefsOk(mem, RefsOf(v))
    ensures Length(v) == |Bytes(mem, RefsOf(v))| == Total(RefsOf(v))
    ensures Empty(v) <==> Bytes(mem, RefsOf(v)) == []
    ensures RefsOf(v) == [] <==> Bytes(mem, RefsOf(v)) == []
    ensures RefNum(v) == |RefsOf(v)|
  {
    ReadersExact(v);
    BytesLength(mem, RefsOf(v));
  }

  function Min(a: int, b: int): int {
    if a < b then a else b
  }

  /** The front reference holds the first bytes of the queue. */
  lemma FrontPiece(s: Side)
    requires MemOk(s.mem) && RefsOk(s.mem, s.refs) && s.refs != []
    ensures |Piece(s.mem, s.refs[0])| == s.refs[0].length <= |s.Bytes()|
    ensures Piece(s.mem, s.refs[0]) == s.Bytes()[..s.refs[0].length]
    ensures s.refs[0].length > 0
  {
    assert RefOk(s.mem, s.refs[0]);
  }

  /** The back reference holds the last bytes of the queue. */
  lemma BackPiece(s: Side)
    requires MemOk(s.mem) && RefsOk(s.mem, s.refs) && s.refs != []
    ensures var r := s.refs[|s.refs| - 1];
            && |Piece(s.mem, r)| == r.length <= |s.Bytes()| && r.length > 0
            && Piece(s.mem, r) == s.Bytes()[|s.Bytes()| - r.length..]
  {
    hide Bytes;
    var k := |s.refs| - 1;
    assert RefOk(s.mem, s.refs[k]);
    BytesSnoc(s.mem, s.refs[..k], s.refs[k]);
    assert s.refs[..k] + [s.refs[k]] == s.refs;
  }

  /** What a loop over the front of a queue knows at the top of its body. */
  lemma LookFront(v: View, mem: Mem, chain: seq<BlockId>, held: multiset<BlockId>)
    requires Balanced(mem, chain, held) && ViewOk(v) && RefsOk(mem, RefsOf(v))
    requires Bytes(mem, RefsOf(v)) != []
    ensures MemOk(mem) && Shaped(v) && RefsOf(v) != []
    ensures var r := RefsOf(v)[0];
            && 0 < r.length <= |Bytes(mem, RefsOf(v))| && |Piece(mem, r)| == r.length
            && Piece(mem, r) == Bytes(mem, RefsOf(v))[..r.length]
  {
    hide RefsOf, Bytes;
    EmptyCheck(v);
    Readers(v, mem);
    FrontPiece(Side(mem, held, RefsOf(v)));
  }

  lemma LookBack(v: View, mem: Mem, chain: seq<BlockId>, held: multiset<BlockId>)
    requires Balanced(mem, chain, held) && ViewOk(v) && RefsOk(mem, RefsOf(v))
    requires Bytes(mem, RefsOf(v)) != []
    ensures MemOk(mem) && Shaped(v) && RefsOf(v) != [] && RefNum(v) == |RefsOf(v)|
    ensures var r := RefsOf(v)[|RefsOf(v)| - 1];
            && 0 < r.length <= |Bytes(mem, RefsOf(v))| && |Piece(mem, r)| == r.length
            && Piece(mem, r) == Bytes(mem, RefsOf(v))[|Bytes(mem, RefsOf(v))| - r.length..]
  {
    hide RefsOf, Bytes;
    EmptyCheck(v);
    Readers(v, mem);
    BackPiece(Side(mem, held, RefsOf(v)));
  }

  ghost function FrontShrunk(s: Side, n: nat): Side
    requires s.refs != [] && n < s.refs[0].length
  {
    s.(refs := [Beheaded(s.refs[0], n)] + s.refs[1..])
  }

  lemma FrontShrinks(s: Side, n: nat)
    requires MemOk(s.mem) && RefsOk(s.mem, s.refs) && s.refs != [] && n < s.refs[0].length
    ensures var s' := FrontShrunk(s, n);
            && RefsOk(s'.mem, s'.refs) && Shares(s'.refs) == Shares(s.refs) && Kept(s, s')
            && n <= |s.Bytes()| && s'.Bytes() == s.Bytes()[n..]
            && s.Bytes()[..n] == Piece(s.mem, s.refs[0].(length := n))
  {
    hide Evolves, MemOk, RefsOk, Bytes, Shares, Piece;
    BeheadBytes(s.mem, s.refs, n);
    EvolvesReflexive(s.mem);
  }

  ghost function BackShrunk(s: Side, n: nat): Side
    requires s.refs != [] && n < s.refs[|s.refs| - 1].length
  {
    var k := |s.refs| - 1;
    s.(refs := s.refs[..k] + [s.refs[k].(length := s.refs[k].length - n)])
  }

  lemma BackShrinks(s: Side, n: nat)
    requires MemOk(s.mem) && RefsOk(s.mem, s.refs) && s.refs != [] && n < s.refs[|s.refs| - 1].length
    ensures var s' := BackShrunk(s, n);
            && RefsOk(s'.mem, s'.refs) && Shares(s'.refs) == Shares(s.refs) && Kept(s, s')
            && n <= |s.Bytes()| && s'.Bytes() == s.Bytes()[..|s.Bytes()| - n]
  {
    hide Evolves, MemOk, RefsOk, Bytes, Shares, Piece;
    CurtailBytes(s.mem, s.refs, n);
    EvolvesReflexive(s.mem);
  }

  /** Two queues at once: their shares add up, so together they are one side. */
  ghost function Both(mem: Mem, held: multiset<BlockId>, a: seq<BlockRef>, b: seq<BlockRef>): Side {
    Side(mem, held, a + b)
  }

  ghost predicate Apart(held: multiset<BlockId>, a: seq<BlockRef>, b: seq<BlockRef>) {
    Shares(a) + Shares(b) <= held
  }

  lemma ApartEach(held: multiset<BlockId>, a: seq<BlockRef>, b: seq<BlockRef>)
    requires Apart(held, a, b)
    ensures Shares(a) <= held && Shares(b) <= held && Apart(held, b, a)
  {}

  /** Moving one queue's front reference to the back of the other only moves its share. */
  lemma MovedAcross(mem: Mem, held: multiset<BlockId>, a: seq<BlockRef>, b: seq<BlockRef>,
                    mem': Mem, held': multiset<BlockId>, b': seq<BlockRef>)
    requires a != [] && Apart(held, a, b)
    requires Kept(Bringing(Side(mem, held, b), a[0], true), Side(mem', held', b'))
    ensures Apart(held', a[1..], b')
    ensures Kept(Both(mem, held, a, b), Both(mem', held', a[1..], b'))
  {
    hide Shares, Evolves;
    SharesFront(a);
    SharesSnoc(b, a[0]);
    SharesConcat(a, b);
    SharesConcat(a[1..], b');
    TransferMove(held, Shares(a[1..]), Shares(b), multiset{a[0].block}, held', Shares(b'));
  }

  lemma TransferMove(h: multiset<BlockId>, a: multiset<BlockId>, b: multiset<BlockId>,
                     x: multiset<BlockId>, h': multiset<BlockId>, b': multiset<BlockId>)
    requires h' + (b + x) == h + b' && x + a + b <= h
    ensures a + b' <= h' && h' + (x + a + b) == h + (a + b')
  {
    forall i: BlockId ensures (h' + (x + a + b))[i] == (h + (a + b'))[i] && (a + b')[i] <= h'[i] {
      assert (h' + (b + x))[i] == (h + b')[i];
      assert (x + a + b)[i] <= h[i];
    }
  }

  /** The same when the other queue takes a share of its own and the first one keeps its shares. */
  lemma CopiedAcross(mem: Mem, held: multiset<BlockId>, a: seq<BlockRef>, b: seq<BlockRef>,
                     mem': Mem, held': multiset<BlockId>, a': seq<BlockRef>, b': seq<BlockRef>)
    requires Apart(held, a, b) && Shares(a') == Shares(a)
    requires Kept(Side(mem, held, b), Side(mem', held', b'))
    ensures Apart(held', a', b')
    ensures Kept(Both(mem, held, a, b), Both(mem', held', a', b'))
  {
    hide Shares, Evolves;
    SharesConcat(a, b);
    SharesConcat(a', b');
    TransferMove(held, Shares(a), Shares(b), multiset{}, held', Shares(b'));
  }

  lemma ApartBrings(held: multiset<BlockId>, a: seq<BlockRef>, b: seq<BlockRef>)
    requires Apart(held, a, b) && a != []
    ensures Shares(b) + Brought(a[0], true) <= held
  {
    SharesFront(a);
  }

  lemma ApartCopies(held: multiset<BlockId>, a: seq<BlockRef>, b: seq<BlockRef>, r: BlockRef)
    requires Apart(held, a, b)
    ensures Shares(b) + Brought(r, false) <= held
  {}

  lemma PartOk(mem: Mem, r: BlockRef, n: nat)
    requires RefOk(mem, r) && 0 < n <= r.length
    ensures RefOk(mem, BlockRef(r.offset, n, r.block))
  {}

  /** Cutting a whole reference: the first queue loses its bytes and the second one gains them. */
  lemma CutWhole(a: Side, b: Side, b': Side, chain: seq<BlockId>)
    requires MemOk(a.mem) && RefsOk(a.mem, a.refs) && a.refs != [] && Apart(a.held, a.refs, b.refs)
    requires b.mem == a.mem && b.held == a.held && Balanced(b'.mem, chain, b'.held)
    requires Pushed(b, b', a.refs[0]) && Kept(Bringing(b, a.refs[0], true), b')
    ensures var rest := a.refs[1..];
            && RefsOk(b'.mem, rest) && Apart(b'.held, rest, b'.refs) && Shares(rest) <= b'.held
            && Kept(Both(a.mem, a.held, a.refs, b.refs), Both(b'.mem, b'.held, rest, b'.refs))
            && a.refs[0].length <= |a.Bytes()|
            && Bytes(b'.mem, rest) == a.Bytes()[a.refs[0].length..]
            && b'.Bytes() == b.Bytes() + a.Bytes()[..a.refs[0].length]
  {
    hide Balanced, Evolves, Shares, RefsOk, MemOk, Piece;
    MovedAcross(a.mem, a.held, a.refs, b.refs, b'.mem, b'.held, b'.refs);
    FrontPiece(a);
    RefsTail(a.mem, a.refs);
    StillReads(a.mem, b'.mem, chain, b'.held, a.refs[1..]);
  }

  /** Cutting part of a reference: the second queue takes a share of the same block. */
  lemma CutPart(a: Side, b: Side, b': Side, chain: seq<BlockId>, n: nat)
    requires MemOk(a.mem) && RefsOk(a.mem, a.refs) && a.refs != [] && Apart(a.held, a.refs, b.refs)
    requires b.mem == a.mem && b.held == a.held && Balanced(b'.mem, chain, b'.held) && n < a.refs[0].length
    requires Pushed(b, b', BlockRef(a.refs[0].offset, n, a.refs[0].block))
    requires Kept(Bringing(b, BlockRef(a.refs[0].offset, n, a.refs[0].block), false), b')
    ensures var rest := FrontShrunk(a, n).refs;
            && RefsOk(b'.mem, rest) && Apart(b'.held, rest, b'.refs) && Shares(rest) <= b'.held
            && Kept(Both(a.mem, a.held, a.refs, b.refs), Both(b'.mem, b'.held, rest, b'.refs))
            && n <= |a.Bytes()|
            && Bytes(b'.mem, rest) == a.Bytes()[n..]
            && b'.Bytes() == b.Bytes() + a.Bytes()[..n]
  {
    hide Balanced, Evolves, Shares, RefsOk, MemOk, Piece, Bytes;
    FrontShrinks(a, n);
    var rest := FrontShrunk(a, n).refs;
    CopiedAcross(a.mem, a.held, a.refs, b.refs, b'.mem, b'.held, rest, b'.refs);
    ApartEach(b'.held, rest, b'.refs);
    StillReads(a.mem, b'.mem, chain, b'.held, rest);
  }

  /** A store operation that leaves what is held alone leaves every queue alone. */
  lemma StoreMoved(s: Side, s': Side, chain: seq<BlockId>)
    requires MemOk(s.mem) && RefsOk(s.mem, s.refs) && Shares(s.refs) <= s.held
    requires Balanced(s'.mem, chain, s'.held) && Evolves(s.mem, s'.mem)
    requires s'.held == s.held && s'.refs == s.refs
    ensures RefsOk(s'.mem, s'.refs) && s'.Bytes() == s.Bytes() && Kept(s, s') && MemOk(s'.mem)
  {
    StillReads(s.mem, s'.mem, chain, s'.held, s.refs);
  }

  /** The other of two queues is untouched by an operation on the first. */
  lemma OtherUntouched(s: Side, s': Side, chain: seq<BlockId>, other: seq<BlockRef>)
    requires MemOk(s.mem) && RefsOk(s.mem, other) && Apart(s.held, s.refs, other)
    requires Balanced(s'.mem, chain, s'.held) && Kept(s, s')
    ensures RefsOk(s'.mem, other) && Bytes(s'.mem, other) == Bytes(s.mem, other)
    ensures Apart(s'.held, s'.refs, other) && Shares(other) <= s'.held
  {
    hide Shares, Evolves, MemOk, RefsOk, Bytes, Balanced;
    TransferMove(s.held, Shares(other), Shares(s.refs), multiset{}, s'.held, Shares(s'.refs));
    StillReads(s.mem, s'.mem, chain, s'.held, other);
  }

  /** Every queue beside this one reads what it read before, and is beside it still. */
  ghost predicate Undisturbed(s: Side, s': Side) {
    forall o | RefsOk(s.mem, o) && Apart(s.held, s.refs, o) ::
      RefsOk(s'.mem, o) && Bytes(s'.mem, o) == Bytes(s.mem, o) && Apart(s'.held, s'.refs, o)
  }

  lemma KeptUndisturbed(s: Side, s': Side, chain: seq<BlockId>)
    requires MemOk(s.mem) && Balanced(s'.mem, chain, s'.held) && Kept(s, s')
    ensures Undisturbed(s, s')
  {
    hide Kept, Apart, MemOk, RefsOk, Bytes, Balanced;
    forall o | RefsOk(s.mem, o) && Apart(s.held, s.refs, o)
      ensures RefsOk(s'.mem, o) && Bytes(s'.mem, o) == Bytes(s.mem, o) && Apart(s'.held, s'.refs, o)
    {
      OtherUntouched(s, s', chain, o);
    }
  }

  lemma UndisturbedReflexive(s: Side)
    ensures Undisturbed(s, s)
  {}

  /** What is beside two queues together is beside the first. */
  lemma FirstUndisturbed(s: Side, s': Side, b': seq<BlockRef>)
    requires Undisturbed(s, Both(s'.mem, s'.held, s'.refs, b'))
    ensures Undisturbed(s, s')
  {
    hide RefsOk, Bytes, Shares;
    SharesConcat(s'.refs, b');
    forall o | RefsOk(s.mem, o) && Apart(s.held, s.refs, o)
      ensures RefsOk(s'.mem, o) && Bytes(s'.mem, o) == Bytes(s.mem, o) && Apart(s'.held, s'.refs, o)
    {
      assert Apart(s'.held, s'.refs + b', o);
    }
  }

  lemma UndisturbedTransitive(s0: Side, s1: Side, s2: Side)
    requires Undisturbed(s0, s1) && Undisturbed(s1, s2)
    ensures Undisturbed(s0, s2)
  {
    hide Apart, RefsOk, Bytes;
  }

  lemma BringsNothing(s: Side, r: BlockRef)
    requires Shares(s.refs) <= s.held
    ensures Shares(s.refs) + Brought(r, false) <= s.held && Bringing(s, r, false) == s
  {}

  lemma PushedBytes(s: Side, s': Side, r: BlockRef)
    requires Pushed(s, s', r)
    ensures s'.Bytes() == s.Bytes() + Piece(s.mem, r) && s'.refs == Push(s.refs, r)
  {}

  lemma BytesNone(mem: Mem)
    ensures Bytes(mem, []) == []
  {}

  /** One reference of an untouched queue still denotes the bytes it did at the start. */
  lemma OneOf(s: Side, s': Side, chain: seq<BlockId>, refs: seq<BlockRef>, i: nat)
    requires i < |refs| && MemOk(s.mem) && RefsOk(s.mem, refs) && Kept(s, s')
    requires Balanced(s'.mem, chain, s'.held) && RefsOk(s'.mem, refs)
    ensures RefOk(s'.mem, refs[i]) && Piece(s'.mem, refs[i]) == Piece(s.mem, refs[i])
  {
    assert RefOk(s.mem, refs[i]) && RefOk(s'.mem, refs[i]);
    PieceFrame(s.mem, s'.mem, refs[i]);
  }

  lemma OneRef(mem: Mem, refs: seq<BlockRef>, i: nat)
    requires RefsOk(mem, refs) && i < |refs|
    ensures RefOk(mem, refs[i]) && refs[i].block in mem.blocks
  {
    assert RefOk(mem, refs[i]);
  }

  lemma CopyAccounts(held: multiset<BlockId>, refs: seq<BlockRef>, held': multiset<BlockId>)
    requires Shares(refs) <= held && held' == held + Shares(refs)
    ensures Shares(refs) <= held' && Apart(held', refs, refs)
  {}

  lemma KeptCopy(none: Side, s: Side)
    requires none.refs == [] && Evolves(none.mem, s.mem) && s.held == none.held + Shares(s.refs)
    ensures Kept(none, s)
  {
    EmptyViewOk();
  }

  lemma BothCommute(mem: Mem, held: multiset<BlockId>, a: seq<BlockRef>, b: seq<BlockRef>)
    ensures Shares(a + b) == Shares(b + a)
  {
    SharesConcat(a, b);
    SharesConcat(b, a);
  }

  lemma BothWithEmpty(mem: Mem, held: multiset<BlockId>, a: seq<BlockRef>)
    ensures [] + a == a && a + [] == a
  {}

  lemma KeptFrom(s: Side, t: Side, s': Side)
    requires Kept(s, s') && t.mem == s.mem && t.held == s.held && Shares(t.refs) == Shares(s.refs)
    ensures Kept(t, s')
  {}

  lemma BigShape(v: View)
    requires ViewOk(v) && v.Big?
    ensures |v.ring| == v.capMask + 1
  {}

  lemma KeptBeside(s: Side, s': Side, other: seq<BlockRef>)
    requires Kept(s, s')
    ensures Kept(s.(refs := s.refs + other), s'.(refs := s'.refs + other))
  {
    hide Shares;
    SharesConcat(s.refs, other);
    SharesConcat(s'.refs, other);
    forall b: BlockId
      ensures (s'.held + (Shares(s.refs) + Shares(other)))[b] == (s.held + (Shares(s'.refs) + Shares(other)))[b]
    {
      assert (s'.held + Shares(s.refs))[b] == (s.held + Shares(s'.refs))[b];
    }
  }

  lemma UserBlockAdded(s: Side, s': Side, chain: seq<BlockId>, r: BlockRef)
    requires MemOk(s.mem) && RefsOk(s.mem, s.refs) && Shares(s.refs) <= s.held
    requires Balanced(s'.mem, chain, s'.held) && Evolves(s.mem, s'.mem)
    requires s'.held == s.held + multiset{r.block} && s'.refs == s.refs
    ensures RefsOk(s'.mem, s'.refs) && s'.Bytes() == s.Bytes() && Shares(s'.refs) <= s'.held
    ensures Shares(s'.refs) + Brought(r, true) <= s'.held && MemOk(s'.mem)
  {
    StillReads(s.mem, s'.mem, chain, s'.held, s.refs);
  }

  lemma KeptUserBlock(s: Side, s1: Side, s2: Side, r: BlockRef)
    requires MemOk(s.mem) && MemOk(s1.mem) && Evolves(s.mem, s1.mem) && s1.refs == s.refs
    requires s1.held == s.held + multiset{r.block} && Kept(Bringing(s1, r, true), s2)
    ensures Kept(s, s2)
  {
    EvolvesTransitive(s.mem, s1.mem, s2.mem);
    hide Evolves, Shares;
    SharesSnoc(s.refs, r);
    TransferTransitive(s.held, Shares(s.refs), s1.held, Shares(s.refs + [r]), s2.held, Shares(s2.refs));
  }

  lemma DropConcat<T>(a: seq<T>, b: seq<T>, c: seq<T>)
    ensures ((a + b) + c)[|a|..] == b + c && (a + b)[|a|..] == b
  {}

  /** The bytes from a place in the front reference on: the rest of it, then the other references. */
  lemma BytesFrom(s: Side, k: nat)
    requires MemOk(s.mem) && RefsOk(s.mem, s.refs) && s.refs != [] && k <= s.refs[0].length
    ensures k <= |s.Bytes()| && k <= |Piece(s.mem, s.refs[0])|
    ensures var r := BlockRef(s.refs[0].offset + k, s.refs[0].length - k, s.refs[0].block);
            && |Piece(s.mem, r)| == r.length && Piece(s.mem, r) == Piece(s.mem, s.refs[0])[k..]
            && s.Bytes()[k..] == Piece(s.mem, r) + Bytes(s.mem, s.refs[1..])
  {
    assert RefOk(s.mem, s.refs[0]);
    PieceSplit(s.mem, s.refs[0], k);
    hide MemOk, RefsOk;
    var head := Piece(s.mem, s.refs[0].(length := k));
    var r := BlockRef(s.refs[0].offset + k, s.refs[0].length - k, s.refs[0].block);
    assert |head| == k;
    hide Piece;
    DropConcat(head, Piece(s.mem, r), Bytes(s.mem, s.refs[1..]));
  }

  lemma NullPiece(mem: Mem, chain: seq<BlockId>, held: multiset<BlockId>)
    requires Balanced(mem, chain, held)
    ensures forall r: BlockRef | r.block == NULL :: Piece(mem, r) == []
  {}

  /** Splitting the unread range of a reference. */
  lemma CurrentSplits(mem: Mem, r: BlockRef, data: nat, dataEnd: nat, n: nat)
    requires MemOk(mem) && RefOk(mem, r) && r.offset <= data && data + n <= dataEnd == r.offset + r.length
    ensures |Piece(mem, BlockRef(data, n, r.block))| == n
    ensures Piece(mem, BlockRef(data, dataEnd - data, r.block)) ==
            Piece(mem, BlockRef(data, n, r.block)) + Piece(mem, BlockRef(data + n, dataEnd - data - n, r.block))
  {}

  lemma InsideOk(mem: Mem, r: BlockRef, part: BlockRef)
    requires RefOk(mem, r) && part.block == r.block && 0 < part.length
    requires r.offset <= part.offset && part.offset + part.length <= r.offset + r.length
    ensures RefOk(mem, part)
  {}

  lemma KeptEvolves(s: Side, s': Side)
    requires Kept(s, s')
    ensures Evolves(s.mem, s'.mem)
  {}

  /** Shortening the front of a queue behind its byte counter's back. */
  lemma UncountedFront(v: View, v': View, mem: Mem, k: nat)
    requires ViewOk(v) && MemOk(mem) && RefsOk(mem, RefsOf(v)) && RefsOf(v) != [] && k < RefsOf(v)[0].length
    requires Shaped(v') && RefsOf(v') == [Beheaded(RefsOf(v)[0], k)] + RefsOf(v)[1..]
    requires v.Big? ==> v'.Big? && v'.nbytes == v.nbytes
    requires v.Small? ==> v'.Small?
    ensures Length(v') == Total(RefsOf(v')) + (if v.Big? then k else 0)
    ensures Total(RefsOf(v')) == |Bytes(mem, RefsOf(v'))|
    ensures ViewOk(v') <==> v.Small? || k == 0
  {
    BeheadBytes(mem, RefsOf(v), k);
    BytesLength(mem, RefsOf(v'));
    TotalFrontShrinks(RefsOf(v), Beheaded(RefsOf(v)[0], k));
    BeheadedSolid(RefsOf(v), k);
    if v'.Small? {
      SmallLength(v');
    }
  }

  lemma BeheadedSolid(refs: seq<BlockRef>, k: nat)
    requires Solid(refs) && refs != [] && k < refs[0].length
    ensures Solid([Beheaded(refs[0], k)] + refs[1..])
  {}
}
