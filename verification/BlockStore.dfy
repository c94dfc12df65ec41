/** Reference counting and one thread's chain of blocks that are still being filled. */
module BlockStores {
  import opened Areas
  import opened Memory

  /** Soft limit on the length of a thread's chain. */
  const MAX_BLOCKS_PER_THREAD: nat := 8

  function InChain(chain: seq<BlockId>, b: BlockId): nat {
    if b in chain then 1 else 0
  }

  /**
   * Every count is exact: one for each holder of the block (a reference in some buffer, or a
   * caller that acquired it) and one for its place in the chain. A block is alive iff counted.
   */
  ghost predicate Balanced(mem: Mem, chain: seq<BlockId>, held: multiset<BlockId>) {
    && MemOk(mem)
    && (forall b | b in held :: b in mem.blocks)
    && (forall b | b in chain :: b in mem.blocks && !mem.blocks[b].userData)
    && (forall i, j | 0 <= i < j < |chain| :: chain[i] != chain[j])
    && (forall b | b in mem.blocks :: mem.blocks[b].nshared == held[b] + InChain(chain, b))
  }

  lemma BalancedMem(mem: Mem, chain: seq<BlockId>, held: multiset<BlockId>)
    requires Balanced(mem, chain, held)
    ensures MemOk(mem)
  {}

  lemma ChainAlive(mem: Mem, chain: seq<BlockId>, held: multiset<BlockId>, b: BlockId)
    requires Balanced(mem, chain, held) && b in chain
    ensures b in mem.blocks && b != NULL && mem.blocks[b].WellFormed()
  {}

  function Retain(mem: Mem, b: BlockId): Mem
    requires b in mem.blocks
  {
    mem.(blocks := mem.blocks[b := mem.blocks[b].(nshared := mem.blocks[b].nshared + 1)])
  }

  function Release(mem: Mem, b: BlockId): Mem
    requires b in mem.blocks && mem.blocks[b].nshared > 0
  {
    if mem.blocks[b].nshared == 1
    then mem.(blocks := mem.blocks - {b})
    else mem.(blocks := mem.blocks[b := mem.blocks[b].(nshared := mem.blocks[b].nshared - 1)])
  }

  function Allocate(mem: Mem, block: Block): Mem {
    Mem(mem.blocks[mem.next := block], mem.next + 1)
  }

  function Fill(mem: Mem, b: BlockId, bytes: seq<Byte>): Mem
    requires b in mem.blocks
    requires mem.blocks[b].size + |bytes| <= |mem.blocks[b].data|
  {
    var x := mem.blocks[b];
    var data := x.data[..x.size] + bytes + x.data[x.size + |bytes|..];
    mem.(blocks := mem.blocks[b := x.(data := data, size := x.size + |bytes|)])
  }

  lemma RetainEvolves(mem: Mem, b: BlockId)
    requires MemOk(mem) && b in mem.blocks
    ensures Evolves(mem, Retain(mem, b))
  {}

  lemma RetainBalanced(mem: Mem, chain: seq<BlockId>, held: multiset<BlockId>, b: BlockId)
    requires Balanced(mem, chain, held) && b in mem.blocks
    ensures Balanced(Retain(mem, b), chain, held + multiset{b})
  {}

  lemma ReleaseEvolves(mem: Mem, b: BlockId)
    requires MemOk(mem) && b in mem.blocks
    ensures Evolves(mem, Release(mem, b))
  {}

  /** Dropping a share frees the block exactly when nobody else holds or chains it. */
  lemma ReleaseBalanced(mem: Mem, chain: seq<BlockId>, held: multiset<BlockId>, b: BlockId)
    requires Balanced(mem, chain, held) && b in held
    ensures Balanced(Release(mem, b), chain, held - multiset{b})
    ensures b in Release(mem, b).blocks <==> b in held - multiset{b} || b in chain
  {}

  /** The same when it is the chain that lets go of its first block. */
  lemma UnchainBalanced(mem: Mem, chain: seq<BlockId>, held: multiset<BlockId>)
    requires Balanced(mem, chain, held) && chain != []
    ensures Balanced(Release(mem, chain[0]), chain[1..], held)
    ensures chain[0] in Release(mem, chain[0]).blocks <==> chain[0] in held
  {
    TailMembers(chain);
  }

  lemma TailMembers(chain: seq<BlockId>)
    requires chain != [] && forall i, j | 0 <= i < j < |chain| :: chain[i] != chain[j]
    ensures forall b :: b in chain[1..] <==> b in chain && b != chain[0]
  {
    assert chain == [chain[0]] + chain[1..];
  }

  lemma AllocateEvolves(mem: Mem, block: Block)
    requires MemOk(mem)
    ensures Evolves(mem, Allocate(mem, block))
  {}

  lemma AllocateBalanced(mem: Mem, chain: seq<BlockId>, held: multiset<BlockId>, block: Block)
    requires Balanced(mem, chain, held) && block.WellFormed() && block.nshared == 1
    ensures Balanced(Allocate(mem, block), chain, held + multiset{mem.next})
  {
    assert mem.next !in mem.blocks;
  }

  /** A holder's share becomes the chain's: the count does not move. */
  lemma EnchainBalanced(mem: Mem, chain: seq<BlockId>, held: multiset<BlockId>, b: BlockId)
    requires Balanced(mem, chain, held) && b in held && b !in chain && !mem.blocks[b].userData
    ensures Balanced(mem, [b] + chain, held - multiset{b})
  {}

  ghost predicate Spare(mem: Mem, chain: seq<BlockId>, bs: seq<BlockId>) {
    && (forall i | 0 <= i < |bs| :: bs[i] !in chain && bs[i] in mem.blocks && !mem.blocks[bs[i]].userData)
    && (forall i, j | 0 <= i < j < |bs| :: bs[i] != bs[j])
  }

  /** So do the shares of a whole list of blocks. */
  lemma {:induction false} SpliceBalanced(mem: Mem, chain: seq<BlockId>, held: multiset<BlockId>, bs: seq<BlockId>)
    requires Balanced(mem, chain, held) && Spare(mem, chain, bs) && multiset(bs) <= held
    ensures Balanced(mem, bs + chain, held - multiset(bs))
  {
    hide Balanced;
    if bs == [] {
      assert bs + chain == chain && held - multiset(bs) == held;
    } else {
      var b, rest := bs[0], bs[1..];
      FirstOfMany(held, bs);
      FirstApart(mem, chain, bs);
      SpliceBalanced(mem, chain, held, rest);
      EnchainBalanced(mem, rest + chain, held - multiset(rest), b);
      assert [b] + (rest + chain) == bs + chain;
    }
  }

  lemma FirstOfMany(held: multiset<BlockId>, bs: seq<BlockId>)
    requires bs != [] && multiset(bs) <= held
    ensures multiset(bs[1..]) <= held && bs[0] in held - multiset(bs[1..])
    ensures held - multiset(bs[1..]) - multiset{bs[0]} == held - multiset(bs)
  {
    assert bs == [bs[0]] + bs[1..];
    assert multiset(bs) == multiset{bs[0]} + multiset(bs[1..]);
  }

  /** What is held once the first i of these have been let go. */
  ghost function HeldStill(held: multiset<BlockId>, bs: seq<BlockId>, i: nat): multiset<BlockId>
    requires i <= |bs|
  {
    held - multiset(bs[..i])
  }

  lemma HeldEnds(held: multiset<BlockId>, bs: seq<BlockId>)
    ensures HeldStill(held, bs, 0) == held && HeldStill(held, bs, |bs|) == held - multiset(bs)
  {
    assert bs[..0] == [] && bs[..|bs|] == bs;
  }

  lemma NextHeld(held: multiset<BlockId>, bs: seq<BlockId>, i: nat)
    requires i < |bs| && multiset(bs) <= held
    ensures bs[i] in HeldStill(held, bs, i)
    ensures HeldStill(held, bs, i) - multiset{bs[i]} == HeldStill(held, bs, i + 1)
  {
    assert bs == bs[..i] + [bs[i]] + bs[i + 1..];
    assert bs[..i + 1] == bs[..i] + [bs[i]];
  }

  lemma FirstApart(mem: Mem, chain: seq<BlockId>, bs: seq<BlockId>)
    requires Spare(mem, chain, bs) && bs != []
    ensures bs[0] !in bs[1..] + chain && bs[0] in mem.blocks && !mem.blocks[bs[0]].userData
    ensures Spare(mem, chain, bs[1..])
  {
  }

  lemma DechainBalanced(mem: Mem, chain: seq<BlockId>, held: multiset<BlockId>)
    requires Balanced(mem, chain, held) && chain != []
    ensures Balanced(mem, chain[1..], held + multiset{chain[0]})
  {
    TailMembers(chain);
  }

  lemma Dechained(mem: Mem, chain: seq<BlockId>, held: multiset<BlockId>)
    requires Balanced(mem, chain, held) && chain != []
    ensures Balanced(mem, chain[1..], held + multiset{chain[0]})
    ensures chain[0] in mem.blocks && chain[0] != NULL && !mem.blocks[chain[0]].userData && chain[0] !in chain[1..]
  {
    DechainBalanced(mem, chain, held);
    TailMembers(chain);
  }

  /** Filling writes at the block's size only, so nothing already referenced changes. */
  lemma FillEvolves(mem: Mem, b: BlockId, bytes: seq<Byte>)
    requires MemOk(mem) && b in mem.blocks
    requires mem.blocks[b].size + |bytes| <= mem.blocks[b].cap
    ensures Evolves(mem, Fill(mem, b, bytes)) && MemOk(Fill(mem, b, bytes))
    ensures Piece(Fill(mem, b, bytes), BlockRef(mem.blocks[b].size, |bytes|, b)) == bytes
  {
    var x, y := mem.blocks[b], Fill(mem, b, bytes).blocks[b];
    assert x.data[..x.size] == y.data[..x.size];
    assert y.data[x.size..x.size + |bytes|] == bytes;
  }

  lemma FillBalanced(mem: Mem, chain: seq<BlockId>, held: multiset<BlockId>, b: BlockId, bytes: seq<Byte>)
    requires Balanced(mem, chain, held) && b in mem.blocks
    requires mem.blocks[b].size + |bytes| <= mem.blocks[b].cap
    ensures Balanced(Fill(mem, b, bytes), chain, held)
  {
    FillEvolves(mem, b, bytes);
  }

  lemma PokeBalanced(mem: Mem, chain: seq<BlockId>, held: multiset<BlockId>, b: BlockId, pos: nat, data: seq<Byte>)
    requires Balanced(mem, chain, held) && b in mem.blocks && pos + |data| <= |mem.blocks[b].data|
    ensures Balanced(Overwrite(mem, b, pos, data), chain, held)
    ensures forall refs | RefsOk(mem, refs) :: RefsOk(Overwrite(mem, b, pos, data), refs)
  {
    forall refs | RefsOk(mem, refs) ensures RefsOk(Overwrite(mem, b, pos, data), refs) {
      forall i | 0 <= i < |refs| ensures RefOk(Overwrite(mem, b, pos, data), refs[i]) {
        assert RefOk(mem, refs[i]);
      }
    }
  }

  /** A chain from its first block that is not full. */
  ghost function Unfilled(mem: Mem, chain: seq<BlockId>): seq<BlockId> {
    if chain != [] && chain[0] in mem.blocks && mem.blocks[chain[0]].Full() then Unfilled(mem, chain[1..]) else chain
  }

  lemma {:induction false} UnfilledSame(mem: Mem, mem': Mem, chain: seq<BlockId>)
    requires forall b | b in chain :: b in mem.blocks && b in mem'.blocks && mem'.blocks[b] == mem.blocks[b]
    ensures Unfilled(mem', chain) == Unfilled(mem, chain)
  {
    if chain != [] {
      assert chain[0] in chain;
      UnfilledSame(mem, mem', chain[1..]);
    }
  }

  /** Letting go of a full first block leaves the rest of the chain, and which of it is full. */
  lemma UnchainFull(mem: Mem, chain: seq<BlockId>, held: multiset<BlockId>)
    requires Balanced(mem, chain, held) && chain != [] && mem.blocks[chain[0]].Full()
    ensures Unfilled(Release(mem, chain[0]), chain[1..]) == Unfilled(mem, chain)
    ensures forall b | b in chain[1..] ::
              b in chain && b in mem.blocks && b in Release(mem, chain[0]).blocks
              && Release(mem, chain[0]).blocks[b] == mem.blocks[b]
  {
    TailMembers(chain);
    UnfilledSame(mem, Release(mem, chain[0]), chain[1..]);
  }

  /** All an operation may chain is blocks of its own making. */
  ghost predicate Rechained(chain: seq<BlockId>, next: BlockId, chain': seq<BlockId>) {
    forall b | b in chain' :: b in chain || next <= b
  }

  lemma RechainedTransitive(mem: Mem, c0: seq<BlockId>, mem1: Mem, c1: seq<BlockId>, c2: seq<BlockId>)
    requires Evolves(mem, mem1) && Rechained(c0, mem.next, c1) && Rechained(c1, mem1.next, c2)
    ensures Rechained(c0, mem.next, c2)
  {
  }

  lemma SharedRechained(mem: Mem, chain: seq<BlockId>, chain': seq<BlockId>)
    requires chain' == Unfilled(mem, chain) || chain' == [mem.next]
    ensures Rechained(chain, mem.next, chain')
  {
    UnfilledWithin(mem, chain);
  }

  lemma RechainedReflexive(chain: seq<BlockId>, next: BlockId)
    ensures Rechained(chain, next, chain)
  {
  }

  /** Where the next bytes go: to the end of the first block that is not full, or into a new one. */
  ghost predicate Lands(mem: Mem, chain: seq<BlockId>, r: BlockRef) {
    var rest := Unfilled(mem, chain);
    if rest != [] then r.block == rest[0] && r.block in mem.blocks && r.offset == mem.blocks[r.block].size
    else r.block == mem.next
  }

  /** What the block they go to has there already. */
  ghost function Unwritten(mem: Mem, chain: seq<BlockId>, n: nat): seq<Byte> {
    var rest := Unfilled(mem, chain);
    if rest != [] && rest[0] in mem.blocks && mem.blocks[rest[0]].WellFormed()
    then var x := mem.blocks[rest[0]]; x.data[x.size..if n < x.cap - x.size then x.size + n else x.cap]
    else []
  }

  lemma UnwrittenSame(mem: Mem, mem': Mem, chain: seq<BlockId>, n: nat)
    requires forall b | b in chain :: b in mem.blocks && b in mem'.blocks && mem'.blocks[b] == mem.blocks[b]
    ensures Unwritten(mem', chain, n) == Unwritten(mem, chain, n)
  {
    UnfilledSame(mem, mem', chain);
    UnfilledWithin(mem, chain);
    hide Unfilled;
  }

  lemma {:induction false} UnfilledWithin(mem: Mem, chain: seq<BlockId>)
    ensures forall b | b in Unfilled(mem, chain) :: b in chain
  {
    if chain != [] {
      UnfilledWithin(mem, chain[1..]);
    }
  }

  /** The queue ends where the next bytes go. */
  ghost predicate Continues(mem: Mem, chain: seq<BlockId>, refs: seq<BlockRef>) {
    var rest := Unfilled(mem, chain);
    && refs != [] && rest != []
    && var back := refs[|refs| - 1];
       back.block == rest[0] && back.block in mem.blocks && back.offset + back.length == mem.blocks[back.block].size
  }

  /** Sizes are passed on in 32 bits. */
  function Narrow(n: nat): nat {
    n % 0x1_0000_0000
  }

  /** The index, offset and size of the next n bytes fit in an area, and are not what stands for none. */
  ghost predicate Packable(mem: Mem, chain: seq<BlockId>, refs: seq<BlockRef>, n: nat) {
    && 0 < n && Narrow(n) <= MAX_AREA_SIZE
    && if Continues(mem, chain, refs)
       then |refs| - 1 <= MAX_REF_INDEX && refs[|refs| - 1].length <= MAX_REF_OFFSET
       else |refs| <= MAX_REF_INDEX && (refs != [] || Narrow(n) > 0)
  }

  /** A block nobody has referred to yet continues no queue. */
  lemma NewNeverMerges(mem: Mem, refs: seq<BlockRef>, r: BlockRef)
    requires RefsOk(mem, refs) && r.block !in mem.blocks
    ensures !Merges(refs, r)
  {
    if refs != [] {
      assert RefOk(mem, refs[|refs| - 1]);
    }
  }

  lemma NothingPacked(mem: Mem, chain: seq<BlockId>, refs: seq<BlockRef>)
    ensures !Packable(mem, chain, refs, 0) && Unwritten(mem, chain, 0) == [] && Narrow(0) == 0
  {
  }

  lemma TooManyRefs(mem: Mem, chain: seq<BlockId>, refs: seq<BlockRef>, n: nat)
    requires |refs| > MAX_REF_INDEX + 1
    ensures !Packable(mem, chain, refs, n)
  {
  }

  lemma MergesWhenContinued(mem: Mem, chain: seq<BlockId>, refs: seq<BlockRef>, r: BlockRef)
    requires MemOk(mem) && RefsOk(mem, refs) && Lands(mem, chain, r)
    ensures Merges(refs, r) <==> Continues(mem, chain, refs)
  {
    hide Unfilled;
    if refs != [] {
      assert RefOk(mem, refs[|refs| - 1]);
    }
  }

  /** The area made at the first push is invalid exactly when it cannot be packed. */
  lemma PacksExactly(mem: Mem, chain: seq<BlockId>, refs: seq<BlockRef>, r: BlockRef, n: nat)
    requires MemOk(mem) && RefsOk(mem, refs) && Lands(mem, chain, r) && 0 < n
    ensures var refs' := Push(refs, r);
            var k := |refs'| - 1;
            0 <= k && r.length <= refs'[k].length
            && (MakeArea(k, refs'[k].length - r.length, Narrow(n)) != INVALID_AREA <==> Packable(mem, chain, refs, n))
  {
    MergesWhenContinued(mem, chain, refs, r);
    hide Lands, Continues, MemOk, Narrow;
    if refs != [] {
      assert RefOk(mem, refs[|refs| - 1]);
    }
  }

  /** Where blocks are small, few references are all it takes for the next bytes to be packable. */
  lemma FewPackable(mem: Mem, chain: seq<BlockId>, held: multiset<BlockId>, refs: seq<BlockRef>, n: nat, cap: nat)
    requires Balanced(mem, chain, held) && Uniform(mem, cap) && cap <= MAX_REF_OFFSET + 1
    requires RefsOk(mem, refs) && |refs| <= MAX_REF_INDEX && 0 < n <= MAX_AREA_SIZE
    ensures Packable(mem, chain, refs, n)
  {
    if Continues(mem, chain, refs) {
      UnfilledWithin(mem, chain);
      UnfilledOpen(mem, chain);
      var back := refs[|refs| - 1];
      assert RefOk(mem, back) && back.block in chain;
    }
  }

  lemma {:induction false} UnfilledOpen(mem: Mem, chain: seq<BlockId>)
    ensures var rest := Unfilled(mem, chain);
            rest != [] && rest[0] in mem.blocks ==> !mem.blocks[rest[0]].Full()
  {
    if chain != [] {
      UnfilledOpen(mem, chain[1..]);
    }
  }

  /** How many of the first n requests for memory are refused. */
  ghost function Refusals(grants: nat -> bool, n: nat): nat {
    if n == 0 then 0 else Refusals(grants, n - 1) + if grants(n - 1) then 0 else 1
  }

  lemma {:induction false} NoRefusals(grants: nat -> bool, n: nat)
    requires forall k: nat :: grants(k)
    ensures Refusals(grants, n) == 0
  {
    if n > 0 {
      NoRefusals(grants, n - 1);
    }
  }

  /** Blocks that are not a caller's own memory are all of the default size. */
  ghost predicate Uniform(mem: Mem, cap: nat) {
    forall b | b in mem.blocks && !mem.blocks[b].userData :: mem.blocks[b].cap == cap
  }

  lemma UniformEvolves(mem: Mem, mem': Mem, cap: nat)
    requires MemOk(mem') && Uniform(mem, cap) && Evolves(mem, mem') && mem'.next == mem.next
    ensures Uniform(mem', cap)
  {
  }

  lemma UniformAllocates(mem: Mem, block: Block, cap: nat)
    requires Uniform(mem, cap) && (block.userData || block.cap == cap)
    ensures Uniform(Allocate(mem, block), cap)
  {
  }

  /** One turn of the loops that let go of the chain's first block. */
  lemma Unchained(mem0: Mem, mem: Mem, chain: seq<BlockId>, held: multiset<BlockId>, cap: nat)
    requires MemOk(mem0) && Evolves(mem0, mem) && Balanced(mem, chain, held) && chain != [] && Uniform(mem, cap)
    ensures chain[0] in mem.blocks && mem.blocks[chain[0]].nshared > 0
    ensures var mem' := Release(mem, chain[0]);
            && mem'.next == mem.next && Balanced(mem', chain[1..], held) && Uniform(mem', cap) && Evolves(mem0, mem')
  {
    UnchainBalanced(mem, chain, held);
    ReleaseEvolves(mem, chain[0]);
    EvolvesTransitive(mem0, mem, Release(mem, chain[0]));
    hide Evolves, Balanced, Uniform, MemOk;
    BalancedMem(Release(mem, chain[0]), chain[1..], held);
    UniformEvolves(mem, Release(mem, chain[0]), cap) by {
      ReleaseEvolves(mem, chain[0]);
    }
  }

  /** The blocks of a chain are as they were. */
  ghost predicate SameBlocks(mem: Mem, mem': Mem, chain: seq<BlockId>) {
    forall b | b in chain :: b in mem.blocks && b in mem'.blocks && mem'.blocks[b] == mem.blocks[b]
  }

  lemma SameBlocksUnchained(mem0: Mem, mem: Mem, chain: seq<BlockId>, held: multiset<BlockId>)
    requires Balanced(mem, chain, held) && chain != [] && mem.blocks[chain[0]].Full() && SameBlocks(mem0, mem, chain)
    ensures SameBlocks(mem0, Release(mem, chain[0]), chain[1..])
    ensures Unfilled(Release(mem, chain[0]), chain[1..]) == Unfilled(mem, chain)
  {
    UnchainFull(mem, chain, held);
    hide Balanced, Unfilled;
  }

  lemma ChainThere(mem: Mem, chain: seq<BlockId>, held: multiset<BlockId>)
    requires Balanced(mem, chain, held)
    ensures MemOk(mem) && SameBlocks(mem, mem, chain)
    ensures chain != [] ==> chain[0] in mem.blocks
  {
  }

  lemma NobodyChained(mem: Mem, held: multiset<BlockId>)
    requires Balanced(mem, [], held)
    ensures forall b | b in mem.blocks :: mem.blocks[b].nshared == held[b]
  {
  }

  lemma HeldAlive(mem: Mem, chain: seq<BlockId>, held: multiset<BlockId>, b: BlockId)
    requires Balanced(mem, chain, held) && b in held
    ensures MemOk(mem) && b in mem.blocks && mem.blocks[b].nshared > 0
  {
  }

  lemma NextUnused(mem: Mem, chain: seq<BlockId>, held: multiset<BlockId>)
    requires Balanced(mem, chain, held)
    ensures MemOk(mem) && mem.next !in mem.blocks && mem.next !in chain
  {
  }

  lemma NotFull(mem: Mem, chain: seq<BlockId>)
    requires chain == [] || (chain[0] in mem.blocks && !mem.blocks[chain[0]].Full())
    ensures Unfilled(mem, chain) == chain
  {
  }

  lemma UniformOverwrites(mem: Mem, b: BlockId, pos: nat, data: seq<Byte>, cap: nat)
    requires Uniform(mem, cap) && b in mem.blocks && pos + |data| <= |mem.blocks[b].data|
    ensures Uniform(Overwrite(mem, b, pos, data), cap)
  {
  }

  class BlockStore {
    var mem: Mem
    /** The thread's chain, head first, as linked through the blocks' next pointers. */
    var chain: seq<BlockId>
    var numBlocks: int
    /** Payload bytes of a default block. */
    const blockCap: nat
    /** Memory's answers, one for each request, and how many requests there were. */
    const grants: nat -> bool
    var asked: nat
    /** What everyone outside the chain holds. */
    ghost var held: multiset<BlockId>
    /** How often memory has run out. */
    ghost var failed: nat

    ghost predicate Valid()
      reads this
    {
      && Balanced(mem, chain, held)
      && numBlocks == |chain|
      && 0 < blockCap < OFFSET_LIMIT
      && Uniform(mem, blockCap)
      && failed == Refusals(grants, asked)
    }

    constructor (blockCap: nat, grants: nat -> bool)
      requires 0 < blockCap < OFFSET_LIMIT
      ensures Valid() && fresh(this) && this.blockCap == blockCap && this.grants == grants
      ensures mem.blocks == map[] && chain == [] && held == multiset{} && failed == 0
    {
      this.blockCap, this.grants := blockCap, grants;
      asked, failed := 0, 0;
      mem := Mem(map[], 1);
      chain, numBlocks := [], 0;
      held := multiset{};
    }

    /** Memory that never refuses never runs out. */
    lemma Plenty()
      requires Valid() && forall k: nat :: grants(k)
      ensures failed == 0
    {
      NoRefusals(grants, asked);
    }

    method IncRef(b: BlockId)
      requires Valid() && b in mem.blocks
      modifies this`mem, this`held
      ensures Valid() && mem == Retain(old(mem), b) && held == old(held) + multiset{b}
      ensures Evolves(old(mem), mem) && mem.blocks.Keys == old(mem.blocks.Keys)
    {
      RetainBalanced(mem, chain, held, b);
      RetainEvolves(mem, b);
      UniformEvolves(mem, Retain(mem, b), blockCap);
      mem := Retain(mem, b);
      held := held + multiset{b};
    }

    method DecRef(b: BlockId)
      requires Valid() && b in held
      modifies this`mem, this`held
      ensures Valid() && mem == Release(old(mem), b) && held == old(held) - multiset{b}
      ensures Evolves(old(mem), mem)
      ensures b in mem.blocks <==> b in held || b in chain
      ensures mem.blocks.Keys == old(mem.blocks.Keys) - (if b in mem.blocks then {} else {b})
    {
      hide Uniform, Balanced, Evolves, Refusals;
      HeldAlive(mem, chain, held, b);
      ReleaseBalanced(mem, chain, held, b);
      ReleaseEvolves(mem, b);
      BalancedMem(Release(mem, b), chain, held - multiset{b});
      UniformEvolves(mem, Release(mem, b), blockCap);
      mem := Release(mem, b);
      held := held - multiset{b};
    }

    /** Memory may run out; fresh memory holds garbage. */
    method CreateBlock() returns (b: BlockId)
      requires Valid()
      modifies this`mem, this`held, this`asked, this`failed
      ensures Valid() && Evolves(old(mem), mem) && failed == old(failed) + (if b == NULL then 1 else 0)
      ensures b == NULL ==> mem == old(mem) && held == old(held)
      ensures b != NULL ==>
                && b == old(mem.next) && b !in chain && mem.blocks.Keys == old(mem.blocks.Keys) + {b}
                && held == old(held) + multiset{b}
                && mem.blocks[b].size == 0 && mem.blocks[b].cap == blockCap && !mem.blocks[b].userData
    {
      hide Uniform, Balanced, Evolves;
      NextUnused(mem, chain, held);
      EvolvesReflexive(mem);
      var granted := grants(asked);
      asked := asked + 1;
      if !granted {
        failed := failed + 1;
        return NULL;
      }
      b := mem.next;
      ghost var zeros: seq<Byte> := seq(blockCap, _ => 0);
      assert |zeros| == blockCap;
      var garbage: seq<Byte> :| |garbage| == blockCap;
      var block := Block(1, 0, blockCap, garbage, false);
      AllocateBalanced(mem, chain, held, block);
      AllocateEvolves(mem, block);
      UniformAllocates(mem, block, blockCap);
      mem := Allocate(mem, block);
      held := held + multiset{b};
    }

    /** Puts a block its caller holds at the head of the chain. */
    method Enchain(b: BlockId)
      requires Valid() && b in held && b !in chain && !mem.blocks[b].userData
      modifies this`chain, this`numBlocks, this`held
      ensures Valid() && chain == [b] + old(chain) && held == old(held) - multiset{b}
    {
      EnchainBalanced(mem, chain, held, b);
      chain := [b] + chain;
      numBlocks := numBlocks + 1;
      held := held - multiset{b};
    }

    /** Lets go of the full blocks at the head of the chain. */
    method DropFullBlocks()
      requires Valid()
      modifies this`mem, this`chain, this`numBlocks
      ensures Valid() && Evolves(old(mem), mem) && mem.next == old(mem.next)
      ensures chain == Unfilled(old(mem), old(chain)) && SameBlocks(old(mem), mem, chain)
      ensures chain != [] ==> !mem.blocks[chain[0]].Full()
    {
      hide Balanced, Evolves, MemOk, Uniform, Refusals, Unfilled, SameBlocks, Release;
      ChainThere(mem, chain, held);
      EvolvesReflexive(mem);
      while chain != [] && mem.blocks[chain[0]].Full()
        invariant Valid() && Evolves(old(mem), mem) && mem.next == old(mem.next)
        invariant Unfilled(mem, chain) == Unfilled(old(mem), old(chain)) && SameBlocks(old(mem), mem, chain)
        invariant chain != [] ==> chain[0] in mem.blocks
        decreases |chain|
      {
        Unchained(old(mem), mem, chain, held, blockCap);
        SameBlocksUnchained(old(mem), mem, chain, held);
        mem := Release(mem, chain[0]);
        chain := chain[1..];
        numBlocks := numBlocks - 1;
        ChainThere(mem, chain, held);
      }
      NotFull(mem, chain);
    }

    /**
     * A non-full block that stays in the chain: its first one, the full ones before it gone, or a new
     * one when there is none. NULL when memory runs out.
     */
    method ShareTlsBlock() returns (b: BlockId)
      requires Valid()
      modifies this
      ensures Valid() && held == old(held) && Evolves(old(mem), mem)
      ensures failed == old(failed) + (if b == NULL then 1 else 0)
      ensures b != NULL ==> b in chain && !mem.blocks[b].Full()
      ensures b == NULL ==> chain == [] == Unfilled(old(mem), old(chain))
      ensures var rest := Unfilled(old(mem), old(chain));
              b != NULL ==>
                if rest != []
                then b == rest[0] && chain == rest && b in old(mem).blocks && mem.blocks[b] == old(mem).blocks[b]
                else b == old(mem.next) && chain == [b] && mem.blocks[b].size == 0
    {
      hide Evolves, Balanced, Unfilled, Uniform, Refusals;
      BalancedMem(mem, chain, held);
      DropFullBlocks();
      BalancedMem(mem, chain, held);
      if chain != [] {
        ChainAlive(mem, chain, held, chain[0]);
        assert chain[0] in old(mem).blocks && mem.blocks[chain[0]] == old(mem).blocks[chain[0]];
        return chain[0];
      }
      ghost var m1 := mem;
      b := CreateBlock();
      EvolvesTransitive(old(mem), m1, mem);
      BalancedMem(mem, chain, held);
      if b != NULL {
        Enchain(b);
        assert held == old(held);
      }
    }

    /** Takes a non-full block out of the chain; the caller then holds it. */
    method AcquireTlsBlock() returns (b: BlockId)
      requires Valid()
      modifies this
      ensures Valid() && Evolves(old(mem), mem) && failed == old(failed) + (if b == NULL then 1 else 0)
      ensures b == NULL ==> held == old(held) && chain == []
      ensures b != NULL ==>
                && held == old(held) + multiset{b} && b !in chain && !mem.blocks[b].Full() && !mem.blocks[b].userData
      ensures var rest := Unfilled(old(mem), old(chain));
              if rest != [] then b == rest[0] && chain == rest[1..]
              else chain == [] && (b == NULL || b == old(mem.next))
    {
      hide Unfilled, Uniform, Refusals, Balanced, Evolves, MemOk;
      BalancedMem(mem, chain, held);
      DropFullBlocks();
      BalancedMem(mem, chain, held);
      if chain == [] {
        ghost var m1 := mem;
        b := CreateBlock();
        EvolvesTransitive(old(mem), m1, mem);
        return;
      }
      b := chain[0];
      Dechained(mem, chain, held);
      chain := chain[1..];
      numBlocks := numBlocks - 1;
      held := held + multiset{b};
    }

    /** Appends bytes to a block of the chain. */
    method Write(b: BlockId, bytes: seq<Byte>) returns (r: BlockRef)
      requires Valid() && b in chain && 0 < |bytes|
      requires mem.blocks[b].size + |bytes| <= mem.blocks[b].cap
      modifies this`mem
      ensures Valid() && Evolves(old(mem), mem)
      ensures r == BlockRef(old(mem.blocks[b].size), |bytes|, b)
      ensures RefOk(mem, r) && Piece(mem, r) == bytes
    {
      hide Uniform;
      FillBalanced(mem, chain, held, b, bytes);
      FillEvolves(mem, b, bytes);
      UniformEvolves(mem, Fill(mem, b, bytes), blockCap);
      r := BlockRef(mem.blocks[b].size, |bytes|, b);
      mem := Fill(mem, b, bytes);
    }

    /** Copies bytes over part of what a reference covers. */
    method Poke(r: BlockRef, offset: nat, data: seq<Byte>)
      requires Valid() && RefOk(mem, r) && offset + |data| <= r.length
      modifies this`mem
      ensures Valid()
      ensures Assigned(old(mem), mem, RefCells(BlockRef(r.offset + offset, |data|, r.block)), data)
      ensures forall refs | RefsOk(old(mem), refs) :: RefsOk(mem, refs)
    {
      hide Assigned, Uniform;
      UniformOverwrites(mem, r.block, r.offset + offset, data, blockCap);
      OverwriteAssigns(mem, r.block, r.offset + offset, data);
      PokeBalanced(mem, chain, held, r.block, r.offset + offset, data);
      mem := Overwrite(mem, r.block, r.offset + offset, data);
    }

    /** A block around the caller's own memory: full from the start and never chained. NULL when memory runs out. */
    method AddUserBlock(bytes: seq<Byte>) returns (b: BlockId)
      requires Valid() && 0 < |bytes| < OFFSET_LIMIT
      modifies this`mem, this`held, this`asked, this`failed
      ensures Valid() && Evolves(old(mem), mem) && failed == old(failed) + (if b == NULL then 1 else 0)
      ensures b == NULL ==> mem == old(mem) && held == old(held)
      ensures b != NULL ==>
                && b == old(mem.next) && b !in old(mem.blocks) && held == old(held) + multiset{b}
                && RefOk(mem, BlockRef(0, |bytes|, b)) && Piece(mem, BlockRef(0, |bytes|, b)) == bytes
                && forall x | x in old(mem.blocks) :: x in mem.blocks && mem.blocks[x] == old(mem).blocks[x]
    {
      hide Uniform, Balanced, Evolves;
      NextUnused(mem, chain, held);
      EvolvesReflexive(mem);
      var granted := grants(asked);
      asked := asked + 1;
      if !granted {
        failed := failed + 1;
        return NULL;
      }
      var block := Block(1, |bytes|, |bytes|, bytes, true);
      AllocateBalanced(mem, chain, held, block);
      AllocateEvolves(mem, block);
      UniformAllocates(mem, block, blockCap);
      b := mem.next;
      mem := Allocate(mem, block);
      held := held + multiset{b};
    }

    /** Gives a held block back to the chain, or lets go of it when it is full or the chain is long. */
    method ReleaseTlsBlock(b: BlockId)
      requires Valid() && (b != NULL ==> b in held && b !in chain && !mem.blocks[b].userData)
      modifies this`mem, this`chain, this`numBlocks, this`held
      ensures Valid() && Evolves(old(mem), mem)
      ensures held == if b == NULL then old(held) else old(held) - multiset{b}
      ensures chain == if old(b != NULL && !mem.blocks[b].Full() && numBlocks < MAX_BLOCKS_PER_THREAD)
                       then [b] + old(chain) else old(chain)
    {
      if b == NULL {
        return;
      }
      if mem.blocks[b].Full() || numBlocks >= MAX_BLOCKS_PER_THREAD {
        DecRef(b);
      } else {
        Enchain(b);
      }
    }

    /** Gives a list of blocks back: all of them to the chain, or to nobody when the chain is long. */
    method ReleaseTlsBlockChain(bs: seq<BlockId>)
      requires Valid() && bs != [] && Spare(mem, chain, bs) && multiset(bs) <= held
      requires forall i | 0 <= i < |bs| :: !mem.blocks[bs[i]].Full()
      modifies this`mem, this`chain, this`numBlocks, this`held
      ensures Valid() && Evolves(old(mem), mem) && held == old(held) - multiset(bs)
      ensures chain == if old(numBlocks) >= MAX_BLOCKS_PER_THREAD then old(chain) else bs + old(chain)
    {
      if numBlocks >= MAX_BLOCKS_PER_THREAD {
        DropAll(bs);
      } else {
        SpliceBalanced(mem, chain, held, bs);
        EvolvesReflexive(mem);
        chain := bs + chain;
        numBlocks := numBlocks + |bs|;
        held := held - multiset(bs);
      }
    }

    method DropAll(bs: seq<BlockId>)
      requires Valid() && multiset(bs) <= held
      modifies this`mem, this`held
      ensures Valid() && Evolves(old(mem), mem) && held == old(held) - multiset(bs)
    {
      hide Balanced, Evolves, Uniform, Refusals, MemOk, Release, HeldStill;
      BalancedMem(mem, chain, held);
      EvolvesReflexive(mem);
      HeldEnds(held, bs);
      for i := 0 to |bs|
        invariant Valid() && MemOk(mem) && Evolves(old(mem), mem) && held == HeldStill(old(held), bs, i)
      {
        ghost var m1 := mem;
        NextHeld(old(held), bs, i);
        DecRef(bs[i]);
        BalancedMem(mem, chain, held);
        EvolvesTransitive(old(mem), m1, mem);
      }
    }

    /** At thread exit: the chain lets go of every block it still has. */
    method RemoveTlsBlockChain()
      requires Valid()
      modifies this`mem, this`chain, this`numBlocks
      ensures Valid() && chain == [] && Evolves(old(mem), mem)
      ensures forall b | b in mem.blocks :: mem.blocks[b].nshared == held[b]
    {
      hide Balanced, Evolves, MemOk, Uniform, Refusals, Release;
      ChainThere(mem, chain, held);
      EvolvesReflexive(mem);
      while chain != []
        invariant Valid() && Evolves(old(mem), mem)
        decreases |chain|
      {
        Unchained(old(mem), mem, chain, held, blockCap);
        mem := Release(mem, chain[0]);
        chain := chain[1..];
        numBlocks := numBlocks - 1;
      }
      NobodyChained(mem, held);
    }
  }
}
