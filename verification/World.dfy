/**
 * Any number of buffers over one store: every run of operations on them does to each what the same
 * run does to plain byte sequences, and every reference count stays exact.
 */
module Worlds {
  import opened Memory
  import opened Views
  import opened BlockStores
  import opened Sides
  import opened Areas
  import opened Delimiters
  import opened IOBufs

  /** All references of all buffers. */
  ghost function Flat(views: seq<View>): seq<BlockRef>
    requires forall i | 0 <= i < |views| :: Shaped(views[i])
  {
    if views == [] then [] else RefsOf(views[0]) + Flat(views[1..])
  }

  ghost predicate AllShaped(views: seq<View>) {
    forall i | 0 <= i < |views| :: Shaped(views[i])
  }

  /** Blocks taken out of the chain and not yet given back. */
  ghost predicate Loose(mem: Mem, chain: seq<BlockId>, loose: seq<BlockId>) {
    && (forall k | 0 <= k < |loose| :: loose[k] !in chain && loose[k] in mem.blocks && !mem.blocks[loose[k]].userData)
    && (forall k, l | 0 <= k < l < |loose| :: loose[k] != loose[l])
  }

  /** Every buffer is valid, and what is held is exactly what the buffers refer to and what was acquired. */
  ghost predicate Whole(mem: Mem, chain: seq<BlockId>, held: multiset<BlockId>, views: seq<View>, loose: seq<BlockId>) {
    && Balanced(mem, chain, held)
    && (forall i | 0 <= i < |views| :: ViewOk(views[i]) && RefsOk(mem, RefsOf(views[i])))
    && AllShaped(views)
    && held == Shares(Flat(views)) + multiset(loose)
    && Loose(mem, chain, loose)
  }

  /** In a whole world each count is the number of references and acquisitions plus the place in the chain. */
  lemma CountsExact(mem: Mem, chain: seq<BlockId>, held: multiset<BlockId>, views: seq<View>, loose: seq<BlockId>,
                    b: BlockId)
    requires Whole(mem, chain, held, views, loose)
    ensures b in mem.blocks ==>
              mem.blocks[b].nshared == multiset(Ids(Flat(views)))[b] + multiset(loose)[b] + InChain(chain, b) > 0
    ensures b in Ids(Flat(views)) || b in loose || b in chain ==> b in mem.blocks
  {
    assert b in Ids(Flat(views)) ==> b in held;
    assert b in loose ==> b in held;
  }

  ghost function AbsOf(mem: Mem, views: seq<View>): (abs: seq<seq<Byte>>)
    requires AllShaped(views)
    ensures |abs| == |views| && forall i | 0 <= i < |views| :: abs[i] == Bytes(mem, RefsOf(views[i]))
  {
    seq(|views|, i requires 0 <= i < |views| => Bytes(mem, RefsOf(views[i])))
  }

  lemma {:induction false} FlatConcat(a: seq<View>, b: seq<View>)
    requires AllShaped(a) && AllShaped(b)
    ensures AllShaped(a + b) && Flat(a + b) == Flat(a) + Flat(b)
  {
    hide RefsOf, Shaped;
    if a == [] {
      assert a + b == b;
    } else {
      FlatConcat(a[1..], b);
      assert (a + b)[1..] == a[1..] + b && (a + b)[0] == a[0];
      ConcatAssociative(RefsOf(a[0]), Flat(a[1..]), Flat(b));
    }
  }

  lemma FlatOne(v: View)
    requires Shaped(v)
    ensures Flat([v]) == RefsOf(v)
  {
    assert [v][1..] == [];
    assert Flat([v]) == RefsOf(v) + [];
  }

  /** One buffer's shares and everyone else's make up the whole. */
  lemma FlatSplit(views: seq<View>, i: nat)
    requires AllShaped(views) && i < |views|
    ensures AllShaped(views[..i]) && AllShaped(views[i + 1..])
    ensures Shares(Flat(views)) == Shares(RefsOf(views[i])) + Shares(Flat(views[..i] + views[i + 1..]))
  {
    hide Shares, RefsOf, Shaped, Flat;
    var a, b := views[..i], views[i + 1..];
    FlatConcat(a, b);
    FlatConcat(a, [views[i]]);
    FlatConcat(a + [views[i]], b);
    assert a + [views[i]] + b == views;
    FlatOne(views[i]);
    SharesOfThree(Flat(a), RefsOf(views[i]), Flat(b));
  }

  lemma SharesOfThree(a: seq<BlockRef>, x: seq<BlockRef>, b: seq<BlockRef>)
    ensures Shares(a + x + b) == Shares(x) + Shares(a + b)
  {
    hide Shares;
    SharesConcat(a, x);
    SharesConcat(a + x, b);
    SharesConcat(a, b);
  }

  lemma FlatSwap(views: seq<View>, i: nat, v: View)
    requires AllShaped(views) && i < |views| && Shaped(v)
    ensures AllShaped(views[i := v])
    ensures Shares(Flat(views[i := v])) + Shares(RefsOf(views[i])) == Shares(Flat(views)) + Shares(RefsOf(v))
  {
    hide Shares, RefsOf, Shaped;
    FlatSplit(views, i);
    FlatSplit(views[i := v], i);
    assert views[i := v][..i] == views[..i] && views[i := v][i + 1..] == views[i + 1..];
  }

  lemma FlatHolds(views: seq<View>, i: nat)
    requires AllShaped(views) && i < |views|
    ensures Shares(RefsOf(views[i])) <= Shares(Flat(views))
  {
    hide Shares, RefsOf, Shaped;
    FlatSplit(views, i);
  }

  lemma {:induction false} FlatEmpty(views: seq<View>)
    requires forall i | 0 <= i < |views| :: views[i] == EMPTY_VIEW
    ensures AllShaped(views) && Flat(views) == []
  {
    if views != [] {
      FlatEmpty(views[1..]);
    }
  }

  /** Two different buffers' shares are both within the whole. */
  lemma FlatApart(views: seq<View>, i: nat, j: nat)
    requires AllShaped(views) && i < |views| && j < |views| && i != j
    ensures Apart(Shares(Flat(views)), RefsOf(views[i]), RefsOf(views[j]))
  {
    hide Shares, RefsOf, Shaped;
    FlatSplit(views, i);
    var rest := views[..i] + views[i + 1..];
    var k := if j < i then j else j - 1;
    assert rest[k] == views[j];
    FlatHolds(rest, k);
  }

  /** What was acquired stays acquired while buffers are worked on. */
  lemma LooseStays(mem: Mem, chain: seq<BlockId>, loose: seq<BlockId>, mem': Mem, chain': seq<BlockId>,
                   held': multiset<BlockId>, shares: multiset<BlockId>)
    requires MemOk(mem) && Loose(mem, chain, loose) && Evolves(mem, mem') && Rechained(chain, mem.next, chain')
    requires Balanced(mem', chain', held') && held' == shares + multiset(loose)
    ensures Loose(mem', chain', loose)
  {
    forall k | 0 <= k < |loose|
      ensures loose[k] !in chain' && loose[k] in mem'.blocks && !mem'.blocks[loose[k]].userData
    {
      assert loose[k] in multiset(loose);
      assert loose[k] in held';
    }
  }

  /** An operation on one buffer settles: the world is whole and only that buffer's bytes changed. */
  lemma Settled(mem: Mem, chain: seq<BlockId>, held: multiset<BlockId>, views: seq<View>, loose: seq<BlockId>, i: nat,
                mem': Mem, chain': seq<BlockId>, held': multiset<BlockId>, v: View)
    requires Whole(mem, chain, held, views, loose) && i < |views| && Rechained(chain, mem.next, chain')
    requires Balanced(mem', chain', held') && ViewOk(v) && RefsOk(mem', RefsOf(v))
    requires Kept(Side(mem, held, RefsOf(views[i])), Side(mem', held', RefsOf(v)))
    ensures Whole(mem', chain', held', views[i := v], loose)
    ensures AbsOf(mem', views[i := v]) == AbsOf(mem, views)[i := Bytes(mem', RefsOf(v))]
  {
    hide Balanced, Evolves, Shares, Bytes, RefsOk, RefsOf, Shaped, Flat, MemOk, Apart, Loose, Rechained, Uniform,
         Refusals;
    BalancedMem(mem, chain, held);
    var s, s' := Side(mem, held, RefsOf(views[i])), Side(mem', held', RefsOf(v));
    FlatSwap(views, i, v);
    SameWhole(held, Shares(s.refs), held', Shares(s'.refs), Shares(Flat(views)), Shares(Flat(views[i := v])),
              multiset(loose));
    LooseStays(mem, chain, loose, mem', chain', held', Shares(Flat(views[i := v])));
    forall j | 0 <= j < |views| && j != i
      ensures RefsOk(mem', RefsOf(views[j])) && Bytes(mem', RefsOf(views[j])) == Bytes(mem, RefsOf(views[j]))
    {
      FlatApart(views, i, j);
      ApartInMore(Shares(Flat(views)), multiset(loose), RefsOf(views[i]), RefsOf(views[j]));
      OtherUntouched(s, s', chain', RefsOf(views[j]));
    }
  }

  lemma ApartInMore(held: multiset<BlockId>, more: multiset<BlockId>, a: seq<BlockRef>, b: seq<BlockRef>)
    requires Apart(held, a, b)
    ensures Apart(held + more, a, b)
  {
  }

  lemma SameWhole(h: multiset<BlockId>, a: multiset<BlockId>, h': multiset<BlockId>, a': multiset<BlockId>,
                  f: multiset<BlockId>, f': multiset<BlockId>, loose: multiset<BlockId>)
    requires h' + a == h + a' && f' + a == f + a' && h == f + loose
    ensures h' == f' + loose
  {
    forall b: BlockId ensures h'[b] == (f' + loose)[b] {
      assert (h' + a)[b] == (h + a')[b] && (f' + a)[b] == (f + a')[b];
    }
  }

  /** The same for an operation on two buffers. */
  lemma SettledTwo(mem: Mem, chain: seq<BlockId>, held: multiset<BlockId>, views: seq<View>, loose: seq<BlockId>,
                   i: nat, j: nat, mem': Mem, held': multiset<BlockId>, v: View, w: View)
    requires Whole(mem, chain, held, views, loose) && i < |views| && j < |views| && i != j
    requires Balanced(mem', chain, held')
    requires ViewOk(v) && RefsOk(mem', RefsOf(v)) && ViewOk(w) && RefsOk(mem', RefsOf(w))
    requires Kept(Both(mem, held, RefsOf(views[i]), RefsOf(views[j])), Both(mem', held', RefsOf(v), RefsOf(w)))
    ensures Whole(mem', chain, held', views[i := v][j := w], loose)
    ensures AbsOf(mem', views[i := v][j := w]) ==
            AbsOf(mem, views)[i := Bytes(mem', RefsOf(v))][j := Bytes(mem', RefsOf(w))]
  {
    hide Balanced, Evolves, Shares, Bytes, RefsOk, RefsOf, Shaped, Flat, MemOk, Apart, Loose, Rechained, Uniform,
         Refusals;
    BalancedMem(mem, chain, held);
    var s := Both(mem, held, RefsOf(views[i]), RefsOf(views[j]));
    var s' := Both(mem', held', RefsOf(v), RefsOf(w));
    FlatSwap(views, i, v);
    FlatSwap(views[i := v], j, w);
    SharesConcat(RefsOf(views[i]), RefsOf(views[j]));
    SharesConcat(RefsOf(v), RefsOf(w));
    SwapTwice(Shares(Flat(views)), Shares(RefsOf(views[i])), Shares(RefsOf(views[j])), Shares(RefsOf(v)),
              Shares(RefsOf(w)), Shares(Flat(views[i := v])), Shares(Flat(views[i := v][j := w])));
    SameWhole(held, Shares(s.refs), held', Shares(s'.refs), Shares(Flat(views)), Shares(Flat(views[i := v][j := w])),
              multiset(loose));
    RechainedReflexive(chain, mem.next);
    LooseStays(mem, chain, loose, mem', chain, held', Shares(Flat(views[i := v][j := w])));
    forall k | 0 <= k < |views| && k != i && k != j
      ensures RefsOk(mem', RefsOf(views[k])) && Bytes(mem', RefsOf(views[k])) == Bytes(mem, RefsOf(views[k]))
    {
      FlatApartThree(views, i, j, k);
      ApartInMore(Shares(Flat(views)), multiset(loose), RefsOf(views[i]) + RefsOf(views[j]), RefsOf(views[k]));
      OtherUntouched(s, s', chain, RefsOf(views[k]));
    }
  }

  /** Work on the chain alone: what everyone reads stays, whatever is acquired or given back. */
  lemma ChainSettled(mem: Mem, chain: seq<BlockId>, held: multiset<BlockId>, views: seq<View>, loose: seq<BlockId>,
                     mem': Mem, chain': seq<BlockId>, held': multiset<BlockId>, loose': seq<BlockId>)
    requires Whole(mem, chain, held, views, loose) && Evolves(mem, mem') && Balanced(mem', chain', held')
    requires held' == Shares(Flat(views)) + multiset(loose') && Loose(mem', chain', loose')
    ensures Whole(mem', chain', held', views, loose') && AbsOf(mem', views) == AbsOf(mem, views)
  {
    hide Balanced, Evolves, Shares, Bytes, RefsOk, RefsOf, Shaped, Flat, MemOk, Loose, Uniform, Refusals;
    BalancedMem(mem, chain, held);
    forall j | 0 <= j < |views|
      ensures RefsOk(mem', RefsOf(views[j])) && Bytes(mem', RefsOf(views[j])) == Bytes(mem, RefsOf(views[j]))
    {
      FlatHolds(views, j);
      StillReads(mem, mem', chain', held', RefsOf(views[j]));
    }
  }

  lemma Parts(mem: Mem, chain: seq<BlockId>, held: multiset<BlockId>, views: seq<View>, loose: seq<BlockId>)
    requires Whole(mem, chain, held, views, loose)
    ensures Balanced(mem, chain, held) && MemOk(mem) && AllShaped(views) && Loose(mem, chain, loose)
    ensures held == Shares(Flat(views)) + multiset(loose)
  {
  }

  lemma LooseSnoc(mem: Mem, chain: seq<BlockId>, held: multiset<BlockId>, loose: seq<BlockId>, b: BlockId)
    requires Balanced(mem, chain, held) && Loose(mem, chain, loose)
    requires b in held && b !in chain && !mem.blocks[b].userData && b !in loose
    ensures Loose(mem, chain, loose + [b])
  {
  }

  /** One block more is acquired: it was chained, or is new. */
  lemma Acquired(mem: Mem, chain: seq<BlockId>, loose: seq<BlockId>, mem': Mem, chain': seq<BlockId>,
                 held': multiset<BlockId>, shares: multiset<BlockId>, b: BlockId)
    requires MemOk(mem) && Loose(mem, chain, loose) && Evolves(mem, mem') && Balanced(mem', chain', held')
    requires held' == shares + multiset(loose) + multiset{b}
    requires var rest := Unfilled(mem, chain);
             if rest != [] then b == rest[0] && chain' == rest[1..] else chain' == [] && b == mem.next
    requires b !in chain' && !mem'.blocks[b].userData
    ensures held' == shares + multiset(loose + [b]) && Loose(mem', chain', loose + [b])
  {
    UnfilledWithin(mem, chain);
    assert Rechained(chain, mem.next, chain') && b !in loose;
    hide Unfilled, Balanced, Evolves, MemOk, Loose, Rechained, Uniform, Refusals;
    assert held' == shares + multiset{b} + multiset(loose);
    LooseStays(mem, chain, loose, mem', chain', held', shares + multiset{b});
    LooseSnoc(mem', chain', held', loose, b);
  }

  /** Nothing acquired; the full blocks of the chain may be gone. */
  lemma NotAcquired(mem: Mem, chain: seq<BlockId>, loose: seq<BlockId>, mem': Mem, chain': seq<BlockId>,
                    held': multiset<BlockId>, shares: multiset<BlockId>)
    requires MemOk(mem) && Loose(mem, chain, loose) && Evolves(mem, mem') && Balanced(mem', chain', held')
    requires held' == shares + multiset(loose) && chain' == []
    ensures Loose(mem', chain', loose)
  {
    LooseStays(mem, chain, loose, mem', chain', held', shares);
  }

  lemma LooseOne(mem: Mem, chain: seq<BlockId>, loose: seq<BlockId>, k: nat)
    requires Loose(mem, chain, loose) && k < |loose|
    ensures loose[k] !in chain && loose[k] in mem.blocks && !mem.blocks[loose[k]].userData
    ensures loose[k] in multiset(loose)
    ensures multiset(loose[..k] + loose[k + 1..]) == multiset(loose) - multiset{loose[k]}
  {
    assert loose == loose[..k] + [loose[k]] + loose[k + 1..];
  }

  lemma LooseWithout(mem: Mem, chain: seq<BlockId>, loose: seq<BlockId>, k: nat)
    requires Loose(mem, chain, loose) && k < |loose|
    ensures var rest := loose[..k] + loose[k + 1..];
            Loose(mem, chain, rest) && Loose(mem, [loose[k]] + chain, rest)
  {
    var rest := loose[..k] + loose[k + 1..];
    forall l | 0 <= l < |rest| ensures rest[l] == loose[if l < k then l else l + 1] {
    }
  }

  /** One of them is given back. */
  lemma Released(mem: Mem, chain: seq<BlockId>, loose: seq<BlockId>, k: nat, mem': Mem, chain': seq<BlockId>,
                 held': multiset<BlockId>, shares: multiset<BlockId>)
    requires MemOk(mem) && Loose(mem, chain, loose) && k < |loose| && Evolves(mem, mem')
    requires Balanced(mem', chain', held') && held' == shares + multiset(loose) - multiset{loose[k]}
    requires chain' == chain || chain' == [loose[k]] + chain
    ensures var rest := loose[..k] + loose[k + 1..];
            held' == shares + multiset(rest) && Loose(mem', chain', rest)
  {
    hide Loose, MemOk, Evolves, Balanced, Rechained, Uniform, Refusals;
    LooseOne(mem, chain, loose, k);
    LooseWithout(mem, chain, loose, k);
    RechainedReflexive(chain', mem.next);
    LooseStays(mem, chain', loose[..k] + loose[k + 1..], mem', chain', held', shares);
  }

  /** Each of them can be given back. */
  lemma HeldLoose(mem: Mem, chain: seq<BlockId>, held: multiset<BlockId>, views: seq<View>, loose: seq<BlockId>)
    requires Whole(mem, chain, held, views, loose)
    ensures MemOk(mem) && NULL !in mem.blocks
    ensures forall k | 0 <= k < |loose| ::
              loose[k] in mem.blocks && loose[k] !in chain && !mem.blocks[loose[k]].userData && loose[k] in held
  {
    hide Shares, Flat, RefsOf, Shaped, RefsOk;
    forall k | 0 <= k < |loose| ensures loose[k] in held {
      assert loose[k] in multiset(loose);
    }
  }

  lemma ReleasedSettled(mem: Mem, chain: seq<BlockId>, held: multiset<BlockId>, views: seq<View>, loose: seq<BlockId>,
                        k: nat, mem': Mem, chain': seq<BlockId>, held': multiset<BlockId>)
    requires Whole(mem, chain, held, views, loose) && k < |loose| && Evolves(mem, mem')
    requires Balanced(mem', chain', held') && held' == held - multiset{loose[k]}
    requires chain' == chain || chain' == [loose[k]] + chain
    ensures Whole(mem', chain', held', views, loose[..k] + loose[k + 1..]) && AbsOf(mem', views) == AbsOf(mem, views)
  {
    hide Balanced, Evolves, Shares, Bytes, RefsOk, RefsOf, Shaped, Flat, MemOk, Whole, Loose, Uniform, Refusals;
    Parts(mem, chain, held, views, loose);
    Released(mem, chain, loose, k, mem', chain', held', Shares(Flat(views)));
    ChainSettled(mem, chain, held, views, loose, mem', chain', held', loose[..k] + loose[k + 1..]);
  }

  lemma SwapTwice(h: multiset<BlockId>, a: multiset<BlockId>, b: multiset<BlockId>, a': multiset<BlockId>,
                  b': multiset<BlockId>, f1: multiset<BlockId>, f2: multiset<BlockId>)
    requires f1 + a == h + a' && f2 + b == f1 + b'
    ensures f2 + (a + b) == h + (a' + b')
  {
    forall x: BlockId ensures (f2 + (a + b))[x] == (h + (a' + b'))[x] {
      assert (f1 + a)[x] == (h + a')[x] && (f2 + b)[x] == (f1 + b')[x];
    }
  }

  lemma FlatApartThree(views: seq<View>, i: nat, j: nat, k: nat)
    requires AllShaped(views) && i < |views| && j < |views| && k < |views| && i != j && k != i && k != j
    ensures Apart(Shares(Flat(views)), RefsOf(views[i]) + RefsOf(views[j]), RefsOf(views[k]))
  {
    hide Shares, RefsOf, Shaped;
    FlatSplit(views, i);
    var rest := views[..i] + views[i + 1..];
    var j', k' := if j < i then j else j - 1, if k < i then k else k - 1;
    assert rest[j'] == views[j] && rest[k'] == views[k];
    FlatApart(rest, j', k');
    SharesConcat(RefsOf(views[i]), RefsOf(views[j]));
  }

  /** One operation, naming buffers by index, and blocks acquired by the order in which they were. */
  datatype Op =
    | Append(i: nat, data: seq<Byte>)
    | UserData(i: nat, data: seq<Byte>)
    | Reserve(i: nat, n: nat)
    | Resize(i: nat, n: nat, c: Byte)
    | Clear(i: nat)
    | PopFront(i: nat, n: nat)
    | PopBack(i: nat, n: nat)
    | Cut1(i: nat)
    | CutOut(i: nat, n: nat)
    | Cutn(i: nat, j: nat, n: nat)
    | CutUntil(i: nat, j: nat, d: seq<Byte>)
    | AppendBuf(i: nat, j: nat)
    | AppendMove(i: nat, j: nat)
    | Assign(i: nat, j: nat)
    | MoveAssign(i: nat, j: nat)
    | Swap(i: nat, j: nat)
    | Acquire
    | Release(k: nat)
    | Exit
  {
    /** On the blocks of the thread only. */
    predicate OnChain() {
      Acquire? || Release? || Exit?
    }

    predicate OnTwo() {
      Cutn? || CutUntil? || AppendBuf? || AppendMove? || Assign? || MoveAssign? || Swap?
    }

    /** May do less than asked, for lack of memory. */
    predicate Grows() {
      Append? || UserData? || Reserve? || Resize?
    }
  }

  /** What callers must observe: buffers that exist, and, but for assignments and swaps, never one into itself. */
  predicate OpOk(op: Op, count: nat) {
    op.OnChain() ||
    (&& op.i < count
     && (op.OnTwo() ==> op.j < count && (op.j != op.i || op.Assign? || op.MoveAssign? || op.Swap?))
     && (op.UserData? ==> !(OFFSET_LIMIT <= |op.data| <= MAX_USER_DATA)))
  }

  /** The operation on plain byte sequences; reserving is appending bytes nobody knows. */
  function AbsStep(abs: seq<seq<Byte>>, op: Op): (abs': seq<seq<Byte>>)
    requires OpOk(op, |abs|)
    ensures |abs'| == |abs|
  {
    if op.OnChain() || op.Reserve? then abs else
    var x := abs[op.i];
    match op
    case Append(i, data) => abs[i := x + data]
    case UserData(i, data) => abs[i := x + data]
    case Resize(i, n, c) => abs[i := Resized(x, n, c)]
    case Clear(i) => abs[i := []]
    case PopFront(i, n) => abs[i := x[Min(n, |x|)..]]
    case PopBack(i, n) => abs[i := x[..|x| - Min(n, |x|)]]
    case Cut1(i) => abs[i := x[Min(1, |x|)..]]
    case CutOut(i, n) => abs[i := x[Min(n, |x|)..]]
    case Cutn(i, j, n) => abs[i := x[Min(n, |x|)..]][j := abs[j] + x[..Min(n, |x|)]]
    case CutUntil(i, j, d) =>
      var cut := SearchedCut(x, d);
      if cut == NotFound then abs else abs[i := cut.rest][j := abs[j] + cut.before]
    case AppendBuf(i, j) => abs[i := x + abs[j]]
    case AppendMove(i, j) => abs[i := x + abs[j]][j := []]
    case Assign(i, j) => abs[i := abs[j]]
    case MoveAssign(i, j) => abs[i := abs[j]][j := []]
    case Swap(i, j) => abs[i := abs[j]][j := x]
  }

  /** The bytes an operation hands to its caller. */
  function AbsOut(abs: seq<seq<Byte>>, op: Op): seq<Byte>
    requires OpOk(op, |abs|)
  {
    if op.Cut1? then abs[op.i][..Min(1, |abs[op.i]|)]
    else if op.CutOut? then abs[op.i][..Min(op.n, |abs[op.i]|)]
    else []
  }

  /** Too long for a caller's own memory, and refused. */
  predicate TooLong(op: Op) {
    op.UserData? && |op.data| > MAX_USER_DATA
  }

  /**
   * What was done of what was asked. Reserving appends so many bytes nobody knows; everything else is
   * done as asked, unless memory ran out: then appending and growing do a proper part, and user data
   * is not taken at all.
   */
  predicate Did(asked: Op, did: Op, ranOut: bool) {
    match asked
    case Append(i, data) => if ranOut then did.Append? && did.i == i && did.data < data else did == asked
    case Resize(i, n, c) => if ranOut then did.Resize? && did.i == i && did.c == c && did.n < n else did == asked
    case UserData(i, _) => did == if ranOut || TooLong(asked) then Append(i, []) else asked
    case Reserve(i, n) => did.Append? && did.i == i && if ranOut then |did.data| < n else |did.data| == n
    case _ => did == asked
  }

  /** How often memory ran out during a run. */
  function Shortages(ranOut: seq<bool>): nat {
    if ranOut == [] then 0 else Shortages(ranOut[..|ranOut| - 1]) + if ranOut[|ranOut| - 1] then 1 else 0
  }

  lemma NoRunNoShortage()
    ensures Shortages([]) == 0
  {
  }

  lemma ShortagesSnoc(ranOut: seq<bool>, x: bool)
    ensures Shortages(ranOut + [x]) == Shortages(ranOut) + if x then 1 else 0
  {
    assert (ranOut + [x])[..|ranOut|] == ranOut;
  }

  lemma {:induction false} NoShortage(ranOut: seq<bool>, k: nat)
    requires k < |ranOut| && Shortages(ranOut) == 0
    ensures !ranOut[k]
  {
    var n := |ranOut| - 1;
    if k < n {
      NoShortage(ranOut[..n], k);
    }
  }

  function AbsRun(abs: seq<seq<Byte>>, ops: seq<Op>): (abs': seq<seq<Byte>>)
    requires forall k | 0 <= k < |ops| :: OpOk(ops[k], |abs|)
    ensures |abs'| == |abs|
  {
    if ops == [] then abs else AbsStep(AbsRun(abs, ops[..|ops| - 1]), ops[|ops| - 1])
  }

  lemma NoOut(abs: seq<seq<Byte>>, op: Op)
    requires OpOk(op, |abs|)
    ensures !op.Cut1? && !op.CutOut? ==> AbsOut(abs, op) == []
  {}

  lemma ChainReadsNothing(abs: seq<seq<Byte>>, op: Op)
    requires op.OnChain()
    ensures AbsStep(abs, op) == abs
  {}

  lemma ItselfIsNothing(abs: seq<seq<Byte>>, op: Op)
    requires OpOk(op, |abs|) && op.OnTwo() && op.i == op.j
    ensures AbsStep(abs, op) == if op.MoveAssign? then AbsStep(abs, Clear(op.i)) else abs
  {}

  lemma PrefixTaken(x: seq<Byte>, y: seq<Byte>, data: seq<Byte>)
    requires x <= y < x + data
    ensures |y| - |x| < |data| && y == x + data[..|y| - |x|]
  {}

  lemma PartlyResized(x: seq<Byte>, y: seq<Byte>, n: nat, c: Byte)
    requires x <= y < Resized(x, n, c)
    ensures |y| < n && y == Resized(x, |y|, c)
  {}

  /** All the bytes a run hands out, operation by operation. */
  function AbsOuts(abs: seq<seq<Byte>>, ops: seq<Op>): seq<seq<Byte>>
    requires forall k | 0 <= k < |ops| :: OpOk(ops[k], |abs|)
  {
    if ops == [] then [] else
    AbsOuts(abs, ops[..|ops| - 1]) + [AbsOut(AbsRun(abs, ops[..|ops| - 1]), ops[|ops| - 1])]
  }

  lemma RunNothing(abs: seq<seq<Byte>>)
    ensures AbsRun(abs, []) == abs && AbsOuts(abs, []) == []
  {}

  lemma RunSnoc(abs: seq<seq<Byte>>, ops: seq<Op>, op: Op)
    requires OpOk(op, |abs|) && forall k | 0 <= k < |ops| :: OpOk(ops[k], |abs|)
    ensures AbsRun(abs, ops + [op]) == AbsStep(AbsRun(abs, ops), op)
    ensures AbsOuts(abs, ops + [op]) == AbsOuts(abs, ops) + [AbsOut(AbsRun(abs, ops), op)]
  {
    assert (ops + [op])[..|ops|] == ops;
  }

  class World {
    const store: BlockStore
    const bufs: seq<IOBuf>
    /** Blocks acquired and not yet released, in the order of acquisition. */
    var loose: seq<BlockId>

    ghost function Views(): (views: seq<View>)
      reads bufs
      ensures |views| == |bufs| && forall i | 0 <= i < |bufs| :: views[i] == bufs[i].view
    {
      seq(|bufs|, i requires 0 <= i < |bufs| reads bufs => bufs[i].view)
    }

    ghost predicate Valid()
      reads this`loose, store, bufs
    {
      && (forall i, j | 0 <= i < j < |bufs| :: bufs[i] != bufs[j])
      && store.Valid()
      && Whole(store.mem, store.chain, store.held, Views(), loose)
    }

    /** The byte sequences the buffers stand for. */
    ghost function Now(): (abs: seq<seq<Byte>>)
      reads this`loose, store, bufs
      requires Valid()
      ensures |abs| == |bufs|
    {
      AbsOf(store.mem, Views())
    }

    /** One valid buffer among the others. */
    lemma Single(i: nat)
      requires Valid() && i < |bufs|
      ensures bufs[i].Valid(store) && Now()[i] == bufs[i].Snap(store).Bytes()
    {
      hide Balanced, Shares, Bytes, RefsOk, RefsOf, Shaped, Solid, Total, Flat, Uniform, Refusals;
      FlatHolds(Views(), i);
    }

    lemma Pair(i: nat, j: nat)
      requires Valid() && i < |bufs| && j < |bufs| && i != j
      ensures bufs[i].Valid(store) && Now()[i] == bufs[i].Snap(store).Bytes()
      ensures bufs[j].Valid(store) && Now()[j] == bufs[j].Snap(store).Bytes() && bufs[i] != bufs[j]
      ensures Apart(store.held, RefsOf(bufs[i].view), RefsOf(bufs[j].view))
    {
      hide Balanced, Shares, Bytes, RefsOk, RefsOf, Shaped, Solid, Total, Flat, Apart, Uniform, Refusals;
      FlatHolds(Views(), i);
      FlatHolds(Views(), j);
      FlatApart(Views(), i, j);
      ApartInMore(Shares(Flat(Views())), multiset(loose), RefsOf(bufs[i].view), RefsOf(bufs[j].view));
    }

    /** New buffers over a store that nobody else holds anything of. */
    constructor (store: BlockStore, bufs: seq<IOBuf>)
      requires store.Valid() && store.held == multiset{}
      requires forall i, j | 0 <= i < j < |bufs| :: bufs[i] != bufs[j]
      requires forall i | 0 <= i < |bufs| :: bufs[i].view == EMPTY_VIEW
      ensures this.store == store && this.bufs == bufs
      ensures Valid() && Now() == seq(|bufs|, _ => [])
    {
      this.store := store;
      this.bufs := bufs;
      loose := [];
      new;
      FlatEmpty(Views());
      EmptyViewOk();
    }

    lemma NeverShort()
      requires Valid()
      ensures (forall k: nat :: store.grants(k)) ==> store.failed == 0
    {
      if forall k: nat :: store.grants(k) {
        store.Plenty();
      }
    }

    method DoAppend(i: nat, data: seq<Byte>) returns (ghost did: Op, ghost ranOut: bool)
      requires Valid() && i < |bufs|
      modifies store, bufs[i]
      ensures Valid() && OpOk(did, |bufs|) && Did(Append(i, data), did, ranOut) && did.Grows()
      ensures store.failed == old(store.failed) + if ranOut then 1 else 0
      ensures Now() == AbsStep(old(Now()), did)
    {
      hide Balanced, Evolves, Shares, Bytes, RefsOk, RefsOf, Shaped, Solid, Total, Kept, Flat, MemOk, Whole, Length,
           Rechained, Uniform, Refusals;
      RechainedReflexive(store.chain, store.mem.next);
      ghost var mem, chain, held, views := store.mem, store.chain, store.held, Views();
      Single(i);
      ReadersOf(i);
      ghost var len := Length(bufs[i].view);
      var rc := bufs[i].Append(store, data);
      Settled(mem, chain, held, views, loose, i, store.mem, store.chain, store.held, bufs[i].view);
      assert Views() == views[i := bufs[i].view];
      ReadersOf(i);
      ranOut := rc != 0;
      if rc == 0 {
        did := Append(i, data);
      } else {
        PrefixTaken(old(Now())[i], Now()[i], data);
        did := Append(i, data[..Length(bufs[i].view) - len]);
      }
    }

    method DoResize(i: nat, n: nat, c: Byte) returns (ghost did: Op, ghost ranOut: bool)
      requires Valid() && i < |bufs|
      modifies store, bufs[i]
      ensures Valid() && OpOk(did, |bufs|) && Did(Resize(i, n, c), did, ranOut) && did.Grows()
      ensures store.failed == old(store.failed) + if ranOut then 1 else 0
      ensures Now() == AbsStep(old(Now()), did)
    {
      hide Balanced, Evolves, Shares, Bytes, RefsOk, RefsOf, Shaped, Solid, Total, Kept, Flat, MemOk, Whole, Length,
           Rechained, Uniform, Refusals;
      RechainedReflexive(store.chain, store.mem.next);
      ghost var mem, chain, held, views := store.mem, store.chain, store.held, Views();
      Single(i);
      var rc := bufs[i].Resize(store, n, c);
      Settled(mem, chain, held, views, loose, i, store.mem, store.chain, store.held, bufs[i].view);
      assert Views() == views[i := bufs[i].view];
      ReadersOf(i);
      ranOut := rc != 0;
      if rc == 0 {
        did := Resize(i, n, c);
      } else {
        PartlyResized(old(Now())[i], Now()[i], n, c);
        did := Resize(i, Length(bufs[i].view), c);
      }
    }

    lemma ReadersOf(i: nat)
      requires Valid() && i < |bufs|
      ensures Length(bufs[i].view) == |Now()[i]|
    {
      Single(i);
      BalancedMem(store.mem, store.chain, store.held);
      Readers(bufs[i].view, store.mem);
    }

    method DoUserData(i: nat, data: seq<Byte>) returns (ghost did: Op, ghost ranOut: bool)
      requires Valid() && OpOk(UserData(i, data), |bufs|)
      modifies store, bufs[i]
      ensures Valid() && OpOk(did, |bufs|) && Did(UserData(i, data), did, ranOut) && did.Grows()
      ensures store.failed == old(store.failed) + if ranOut then 1 else 0
      ensures Now() == AbsStep(old(Now()), did)
    {
      hide Balanced, Evolves, Shares, Bytes, RefsOk, RefsOf, Shaped, Solid, Total, Kept, Flat, MemOk, Whole, Length,
           Rechained, Uniform, Refusals;
      RechainedReflexive(store.chain, store.mem.next);
      ghost var mem, chain, held, views := store.mem, store.chain, store.held, Views();
      Single(i);
      var rc := bufs[i].AppendUserData(store, data);
      Settled(mem, chain, held, views, loose, i, store.mem, store.chain, store.held, bufs[i].view);
      assert Views() == views[i := bufs[i].view];
      did, ranOut := if rc == 0 then UserData(i, data) else Append(i, []), rc != 0 && |data| <= MAX_USER_DATA;
      assert old(Now())[i] + [] == old(Now())[i];
    }

    method DoReserve(i: nat, n: nat) returns (ghost did: Op, ghost ranOut: bool)
      requires Valid() && i < |bufs|
      modifies store, bufs[i]
      ensures Valid() && OpOk(did, |bufs|) && Did(Reserve(i, n), did, ranOut) && did.Grows()
      ensures store.failed == old(store.failed) + if ranOut then 1 else 0
      ensures Now() == AbsStep(old(Now()), did)
    {
      hide Balanced, Evolves, Shares, Bytes, RefsOk, RefsOf, Shaped, Solid, Total, Kept, Flat, MemOk, Whole, Length,
           Rechained, Unwritten, Packable, Nameable, Names, Grew, Uniform, Refusals;
      ghost var mem, chain, held, views := store.mem, store.chain, store.held, Views();
      Single(i);
      var _ := bufs[i].Reserve(store, n);
      Settled(mem, chain, held, views, loose, i, store.mem, store.chain, store.held, bufs[i].view);
      assert Views() == views[i := bufs[i].view];
      ghost var x, y := old(Now())[i], Now()[i];
      assert y == x + y[|x|..];
      did, ranOut := Append(i, y[|x|..]), |y| < |x| + n;
    }

    method DoAcquire()
      requires Valid()
      modifies this`loose, store
      ensures Valid() && Now() == old(Now())
      ensures if store.failed == old(store.failed) then exists b :: loose == old(loose) + [b]
              else loose == old(loose) && store.failed == old(store.failed) + 1
    {
      hide Balanced, Evolves, Shares, Bytes, RefsOk, RefsOf, Shaped, Flat, MemOk, Unfilled, Whole, Loose, Uniform,
           Refusals;
      ghost var mem, chain, held, views := store.mem, store.chain, store.held, Views();
      Parts(mem, chain, held, views, loose);
      var b := store.AcquireTlsBlock();
      assert Views() == views;
      if b == NULL {
        NotAcquired(mem, chain, loose, store.mem, store.chain, store.held, Shares(Flat(views)));
      } else {
        Acquired(mem, chain, loose, store.mem, store.chain, store.held, Shares(Flat(views)), b);
        loose := loose + [b];
      }
      ChainSettled(mem, chain, held, views, old(loose), store.mem, store.chain, store.held, loose);
    }

    method DoRelease(k: nat)
      requires Valid()
      modifies this`loose, store`mem, store`chain, store`numBlocks, store`held
      ensures Valid() && Now() == old(Now())
      ensures loose == if k < |old(loose)| then old(loose)[..k] + old(loose)[k + 1..] else old(loose)
    {
      hide Balanced, Evolves, Shares, Bytes, RefsOk, RefsOf, Shaped, Flat, MemOk, Whole, Loose, Unfilled, Uniform,
           Refusals;
      ghost var mem, chain, held, views := store.mem, store.chain, store.held, Views();
      HeldLoose(mem, chain, held, views, loose);
      if k >= |loose| {
        return;
      }
      store.ReleaseTlsBlock(loose[k]);
      ReleasedSettled(mem, chain, held, views, loose, k, store.mem, store.chain, store.held);
      loose := loose[..k] + loose[k + 1..];
      assert Views() == views;
    }

    /** The thread is over: its chain lets go of everything. */
    method DoExit()
      requires Valid()
      modifies store`mem, store`chain, store`numBlocks, store`held
      ensures Valid() && Now() == old(Now()) && store.chain == []
    {
      hide Balanced, Evolves, Shares, Bytes, RefsOk, RefsOf, Shaped, Flat, MemOk, Whole, Loose, Uniform, Refusals;
      ghost var mem, chain, held, views := store.mem, store.chain, store.held, Views();
      Parts(mem, chain, held, views, loose);
      store.RemoveTlsBlockChain();
      assert Views() == views;
      NotAcquired(mem, chain, loose, store.mem, store.chain, store.held, Shares(Flat(views)));
      ChainSettled(mem, chain, held, views, loose, store.mem, store.chain, store.held, loose);
    }

    method DoClear(i: nat)
      requires Valid() && OpOk(Clear(i), |bufs|)
      modifies store`mem, store`held, bufs[i]
      ensures Valid() && Now() == AbsStep(old(Now()), Clear(i))
    {
      hide Balanced, Evolves, Shares, Bytes, RefsOk, RefsOf, Shaped, Solid, Total, Kept, Flat, MemOk, Whole, Length,
           Rechained, Uniform, Refusals;
      RechainedReflexive(store.chain, store.mem.next);
      ghost var mem, chain, held, views := store.mem, store.chain, store.held, Views();
      Single(i);
      bufs[i].Clear(store);
      EmptyViewOk();
      Settled(mem, chain, held, views, loose, i, store.mem, store.chain, store.held, bufs[i].view);
      assert Views() == views[i := bufs[i].view];
    }

    method DoPopFront(i: nat, n: nat)
      requires Valid() && OpOk(PopFront(i, n), |bufs|)
      modifies store`mem, store`held, bufs[i]
      ensures Valid() && Now() == AbsStep(old(Now()), PopFront(i, n))
    {
      hide Balanced, Evolves, Shares, Bytes, RefsOk, RefsOf, Shaped, Solid, Total, Kept, Flat, MemOk, Whole, Length,
           Rechained, Uniform, Refusals;
      RechainedReflexive(store.chain, store.mem.next);
      ghost var mem, chain, held, views := store.mem, store.chain, store.held, Views();
      Single(i);
      var _ := bufs[i].PopFront(store, n);
      Settled(mem, chain, held, views, loose, i, store.mem, store.chain, store.held, bufs[i].view);
      assert Views() == views[i := bufs[i].view];
    }

    method DoPopBack(i: nat, n: nat)
      requires Valid() && OpOk(PopBack(i, n), |bufs|)
      modifies store`mem, store`held, bufs[i]
      ensures Valid() && Now() == AbsStep(old(Now()), PopBack(i, n))
    {
      hide Balanced, Evolves, Shares, Bytes, RefsOk, RefsOf, Shaped, Solid, Total, Kept, Flat, MemOk, Whole, Length,
           Rechained, Uniform, Refusals;
      RechainedReflexive(store.chain, store.mem.next);
      ghost var mem, chain, held, views := store.mem, store.chain, store.held, Views();
      Single(i);
      var _ := bufs[i].PopBack(store, n);
      Settled(mem, chain, held, views, loose, i, store.mem, store.chain, store.held, bufs[i].view);
      assert Views() == views[i := bufs[i].view];
    }

    method DoCut1(i: nat) returns (out: seq<Byte>)
      requires Valid() && OpOk(Cut1(i), |bufs|)
      modifies store`mem, store`held, bufs[i]
      ensures Valid() && Now() == AbsStep(old(Now()), Cut1(i))
      ensures out == AbsOut(old(Now()), Cut1(i))
    {
      hide Balanced, Evolves, Shares, Bytes, RefsOk, RefsOf, Shaped, Solid, Total, Kept, Flat, MemOk, Whole, Length,
           Rechained, Uniform, Refusals;
      RechainedReflexive(store.chain, store.mem.next);
      ghost var mem, chain, held, views := store.mem, store.chain, store.held, Views();
      Single(i);
      var ok, c := bufs[i].Cut1(store);
      out := if ok then [c] else [];
      Settled(mem, chain, held, views, loose, i, store.mem, store.chain, store.held, bufs[i].view);
      assert Views() == views[i := bufs[i].view];
    }

    method DoCutOut(i: nat, n: nat) returns (out: seq<Byte>)
      requires Valid() && OpOk(CutOut(i, n), |bufs|)
      modifies store`mem, store`held, bufs[i]
      ensures Valid() && Now() == AbsStep(old(Now()), CutOut(i, n))
      ensures out == AbsOut(old(Now()), CutOut(i, n))
    {
      hide Balanced, Evolves, Shares, Bytes, RefsOk, RefsOf, Shaped, Solid, Total, Kept, Flat, MemOk, Whole, Length,
           Rechained, Uniform, Refusals;
      RechainedReflexive(store.chain, store.mem.next);
      ghost var mem, chain, held, views := store.mem, store.chain, store.held, Views();
      Single(i);
      out := bufs[i].CutnBytes(store, n);
      Settled(mem, chain, held, views, loose, i, store.mem, store.chain, store.held, bufs[i].view);
      assert Views() == views[i := bufs[i].view];
    }

    method DoCutn(i: nat, j: nat, n: nat)
      requires Valid() && OpOk(Cutn(i, j, n), |bufs|) && i != j
      modifies store`mem, store`held, bufs[i], bufs[j]
      ensures Valid() && Now() == AbsStep(old(Now()), Cutn(i, j, n))
    {
      hide Balanced, Evolves, Shares, Bytes, RefsOk, RefsOf, Shaped, Solid, Total, Kept, Flat, MemOk, Whole, Length,
           Rechained, Uniform, Refusals;
      RechainedReflexive(store.chain, store.mem.next);
      ghost var mem, chain, held, views := store.mem, store.chain, store.held, Views();
      Pair(i, j);
      var _ := bufs[i].Cutn(store, bufs[j], n);
      SettledTwo(mem, chain, held, views, loose, i, j, store.mem, store.held, bufs[i].view, bufs[j].view);
      assert Views() == views[i := bufs[i].view][j := bufs[j].view];
    }

    method DoCutUntil(i: nat, j: nat, d: seq<Byte>)
      requires Valid() && OpOk(CutUntil(i, j, d), |bufs|) && i != j
      modifies store`mem, store`held, bufs[i], bufs[j]
      ensures Valid() && Now() == AbsStep(old(Now()), CutUntil(i, j, d))
    {
      hide Balanced, Evolves, Shares, Bytes, RefsOk, RefsOf, Shaped, Solid, Total, Kept, Flat, MemOk, Whole, Length,
           SearchedCut, Uniform, Refusals;
      ghost var mem, chain, held, views := store.mem, store.chain, store.held, Views();
      Pair(i, j);
      var _ := bufs[i].CutUntil(store, bufs[j], d);
      SettledTwo(mem, chain, held, views, loose, i, j, store.mem, store.held, bufs[i].view, bufs[j].view);
      assert Views() == views[i := bufs[i].view][j := bufs[j].view];
    }

    method DoAppendBuf(i: nat, j: nat)
      requires Valid() && OpOk(AppendBuf(i, j), |bufs|) && i != j
      modifies store`mem, store`held, bufs[i]
      ensures Valid() && Now() == AbsStep(old(Now()), AppendBuf(i, j))
    {
      hide Balanced, Evolves, Shares, Bytes, RefsOk, RefsOf, Shaped, Solid, Total, Kept, Flat, MemOk, Whole, Length,
           Rechained, Uniform, Refusals;
      RechainedReflexive(store.chain, store.mem.next);
      ghost var mem, chain, held, views := store.mem, store.chain, store.held, Views();
      Pair(i, j);
      bufs[i].AppendOther(store, bufs[j]);
      Settled(mem, chain, held, views, loose, i, store.mem, store.chain, store.held, bufs[i].view);
      assert Views() == views[i := bufs[i].view];
    }

    method DoAssign(i: nat, j: nat)
      requires Valid() && OpOk(Assign(i, j), |bufs|) && i != j
      modifies store`mem, store`held, bufs[i]
      ensures Valid() && Now() == AbsStep(old(Now()), Assign(i, j))
    {
      hide Balanced, Evolves, Shares, Bytes, RefsOk, RefsOf, Shaped, Solid, Total, Kept, Flat, MemOk, Whole, Length,
           Rechained, Uniform, Refusals;
      RechainedReflexive(store.chain, store.mem.next);
      ghost var mem, chain, held, views := store.mem, store.chain, store.held, Views();
      Pair(i, j);
      bufs[i].Assign(store, bufs[j]);
      Settled(mem, chain, held, views, loose, i, store.mem, store.chain, store.held, bufs[i].view);
      assert Views() == views[i := bufs[i].view];
    }

    method DoAppendMove(i: nat, j: nat)
      requires Valid() && OpOk(AppendMove(i, j), |bufs|) && i != j
      modifies store`mem, store`held, bufs[i], bufs[j]
      ensures Valid() && Now() == AbsStep(old(Now()), AppendMove(i, j))
    {
      hide Balanced, Evolves, Shares, Bytes, RefsOk, RefsOf, Shaped, Solid, Total, Kept, Flat, MemOk, Whole, Length,
           Rechained, Uniform, Refusals;
      RechainedReflexive(store.chain, store.mem.next);
      ghost var mem, chain, held, views := store.mem, store.chain, store.held, Views();
      Pair(i, j);
      bufs[i].AppendMovable(store, bufs[j]);
      EmptyViewOk();
      BothWithEmpty(store.mem, store.held, RefsOf(bufs[i].view));
      SettledTwo(mem, chain, held, views, loose, i, j, store.mem, store.held, bufs[i].view, bufs[j].view);
      assert Views() == views[i := bufs[i].view][j := bufs[j].view];
    }

    method DoMoveAssign(i: nat, j: nat)
      requires Valid() && OpOk(MoveAssign(i, j), |bufs|) && i != j
      modifies store`mem, store`held, bufs[i], bufs[j]
      ensures Valid() && Now() == AbsStep(old(Now()), MoveAssign(i, j))
    {
      hide Balanced, Evolves, Shares, Bytes, RefsOk, RefsOf, Shaped, Solid, Total, Kept, Flat, MemOk, Whole, Length,
           Rechained, Uniform, Refusals;
      RechainedReflexive(store.chain, store.mem.next);
      ghost var mem, chain, held, views := store.mem, store.chain, store.held, Views();
      Pair(i, j);
      bufs[i].MoveFrom(store, bufs[j]);
      EmptyViewOk();
      BothWithEmpty(store.mem, store.held, RefsOf(bufs[i].view));
      SettledTwo(mem, chain, held, views, loose, i, j, store.mem, store.held, bufs[i].view, bufs[j].view);
      assert Views() == views[i := bufs[i].view][j := bufs[j].view];
    }

    method DoMoveSelf(i: nat)
      requires Valid() && OpOk(Clear(i), |bufs|)
      modifies store`mem, store`held, bufs[i]
      ensures Valid() && Now() == AbsStep(old(Now()), Clear(i))
    {
      hide Balanced, Evolves, Shares, Bytes, RefsOk, RefsOf, Shaped, Solid, Total, Kept, Flat, MemOk, Whole, Length,
           Rechained, Uniform, Refusals;
      RechainedReflexive(store.chain, store.mem.next);
      ghost var mem, chain, held, views := store.mem, store.chain, store.held, Views();
      Single(i);
      bufs[i].MoveFrom(store, bufs[i]);
      EmptyIn(store.mem, store.held);
      Settled(mem, chain, held, views, loose, i, store.mem, store.chain, store.held, bufs[i].view);
      assert Views() == views[i := bufs[i].view];
    }

    method DoSwap(i: nat, j: nat)
      requires Valid() && OpOk(Swap(i, j), |bufs|) && i != j
      modifies store`mem, store`held, bufs[i], bufs[j]
      ensures Valid() && Now() == AbsStep(old(Now()), Swap(i, j))
    {
      hide Balanced, Evolves, Shares, Bytes, RefsOk, RefsOf, Shaped, Solid, Total, Kept, Flat, MemOk, Whole, Length,
           Rechained, Uniform, Refusals;
      RechainedReflexive(store.chain, store.mem.next);
      ghost var mem, chain, held, views := store.mem, store.chain, store.held, Views();
      Pair(i, j);
      bufs[i].Swap(bufs[j]);
      BothCommute(mem, held, RefsOf(views[i]), RefsOf(views[j]));
      KeptReflexive(Both(mem, held, RefsOf(views[j]), RefsOf(views[i])), chain);
      KeptFrom(Both(mem, held, RefsOf(views[j]), RefsOf(views[i])), Both(mem, held, RefsOf(views[i]), RefsOf(views[j])),
               Both(mem, held, RefsOf(views[j]), RefsOf(views[i])));
      SettledTwo(mem, chain, held, views, loose, i, j, store.mem, store.held, bufs[i].view, bufs[j].view);
      assert Views() == views[i := bufs[i].view][j := bufs[j].view];
    }

    method DoOne(op: Op) returns (out: seq<Byte>)
      requires Valid() && OpOk(op, |bufs|)
      requires op.Clear? || op.PopFront? || op.PopBack? || op.Cut1? || op.CutOut?
      modifies store`mem, store`held, bufs[op.i]
      ensures Valid() && Now() == AbsStep(old(Now()), op) && out == AbsOut(old(Now()), op)
    {
      hide Whole, AbsStep, AbsOut;
      NoOut(Now(), op);
      out := [];
      match op
      case Clear(i) => DoClear(i);
      case PopFront(i, n) => DoPopFront(i, n);
      case PopBack(i, n) => DoPopBack(i, n);
      case Cut1(i) => out := DoCut1(i);
      case CutOut(i, n) => out := DoCutOut(i, n);
    }

    method DoTwo(op: Op)
      requires Valid() && OpOk(op, |bufs|) && op.OnTwo()
      modifies store`mem, store`held, bufs[op.i], bufs[op.j]
      ensures Valid() && Now() == AbsStep(old(Now()), op)
    {
      hide Whole, AbsStep;
      if op.i == op.j {
        ItselfIsNothing(Now(), op);
        if op.MoveAssign? {
          assert OpOk(Clear(op.i), |bufs|);
          DoMoveSelf(op.i);
        }
        return;
      }
      match op
      case Cutn(i, j, n) => DoCutn(i, j, n);
      case CutUntil(i, j, d) => DoCutUntil(i, j, d);
      case AppendBuf(i, j) => DoAppendBuf(i, j);
      case AppendMove(i, j) => DoAppendMove(i, j);
      case Assign(i, j) => DoAssign(i, j);
      case MoveAssign(i, j) => DoMoveAssign(i, j);
      case Swap(i, j) => DoSwap(i, j);
    }

    method DoGrow(op: Op) returns (ghost did: Op, ghost ranOut: bool)
      requires Valid() && OpOk(op, |bufs|) && op.Grows()
      modifies store, bufs[op.i]
      ensures Valid() && OpOk(did, |bufs|) && Did(op, did, ranOut) && did.Grows()
      ensures store.failed == old(store.failed) + if ranOut then 1 else 0
      ensures Now() == AbsStep(old(Now()), did)
    {
      hide Whole, AbsStep, Did;
      match op
      case Append(i, data) => did, ranOut := DoAppend(i, data);
      case UserData(i, data) => did, ranOut := DoUserData(i, data);
      case Reserve(i, n) => did, ranOut := DoReserve(i, n);
      case Resize(i, n, c) => did, ranOut := DoResize(i, n, c);
    }

    method DoChain(op: Op) returns (ghost ranOut: bool)
      requires Valid() && op.OnChain()
      modifies this`loose, store
      ensures Valid() && Now() == old(Now())
      ensures store.failed == old(store.failed) + if ranOut then 1 else 0
    {
      hide Whole;
      ghost var failed := store.failed;
      match op {
        case Acquire => DoAcquire();
        case Release(k) => DoRelease(k);
        case Exit => DoExit();
      }
      ranOut := store.failed > failed;
    }

    /** Any operation does to the buffers what it does to plain byte sequences. */
    method Do(op: Op) returns (ghost did: Op, out: seq<Byte>, ghost ranOut: bool)
      requires Valid() && OpOk(op, |bufs|)
      modifies this`loose, store, bufs
      ensures Valid() && OpOk(did, |bufs|) && Did(op, did, ranOut)
      ensures store.failed == old(store.failed) + if ranOut then 1 else 0
      ensures Now() == AbsStep(old(Now()), did) && out == AbsOut(old(Now()), did)
    {
      hide Whole, AbsStep, AbsOut;
      did, out, ranOut := op, [], false;
      if op.OnChain() {
        NoOut(Now(), op);
        ChainReadsNothing(Now(), op);
        ranOut := DoChain(op);
      } else if op.Grows() {
        did, ranOut := DoGrow(op);
        NoOut(old(Now()), did);
      } else if op.OnTwo() {
        NoOut(Now(), op);
        DoTwo(op);
      } else {
        out := DoOne(op);
      }
    }

    /**
     * Every run: the buffers end as the same run on plain byte sequences ends, the bytes handed out
     * are the same, and the world is whole, so every count is exact. Only appends and growths that
     * ran out of memory do less than asked, and the store's counter tells how many did: where it
     * stands still, all was done as asked.
     */
    method Run(ops: seq<Op>) returns (ghost did: seq<Op>, outs: seq<seq<Byte>>, ghost ranOut: seq<bool>)
      requires Valid() && forall k | 0 <= k < |ops| :: OpOk(ops[k], |bufs|)
      modifies this`loose, store, bufs
      ensures Valid() && |did| == |outs| == |ranOut| == |ops|
      ensures forall k | 0 <= k < |ops| :: OpOk(did[k], |bufs|) && Did(ops[k], did[k], ranOut[k])
      ensures store.failed == old(store.failed) + Shortages(ranOut)
      ensures store.failed == old(store.failed) ==> forall k | 0 <= k < |ops| :: Did(ops[k], did[k], false)
      ensures (forall k: nat :: store.grants(k)) ==> store.failed == old(store.failed)
      ensures Now() == AbsRun(old(Now()), did)
      ensures outs == AbsOuts(old(Now()), did)
    {
      hide Valid, Now, AbsStep, AbsOut, AbsRun, AbsOuts, Did, OpOk, Shortages;
      did, outs, ranOut := [], [], [];
      ghost var abs := Now();
      RunNothing(abs);
      NoRunNoShortage();
      NeverShort();
      for n := 0 to |ops|
        invariant Valid() && |did| == |outs| == |ranOut| == n
        invariant forall k | 0 <= k < n :: OpOk(did[k], |bufs|) && Did(ops[k], did[k], ranOut[k])
        invariant store.failed == old(store.failed) + Shortages(ranOut)
        invariant Now() == AbsRun(abs, did) && outs == AbsOuts(abs, did)
      {
        var d, out, short := Do(ops[n]);
        RunSnoc(abs, did, d);
        ShortagesSnoc(ranOut, short);
        did, outs, ranOut := did + [d], outs + [out], ranOut + [short];
      }
      NeverShort();
      if store.failed == old(store.failed) {
        forall k | 0 <= k < |ops| ensures Did(ops[k], did[k], false) {
          NoShortage(ranOut, k);
        }
      }
    }
  }
}
