/**
 * The resource pool: threads take and give back objects named by numbers. Objects live in blocks,
 * blocks in groups; both tables grow under concurrent atomic operations. Free ids are kept per
 * thread and exchanged in chunks through a global list.
 *
 * Threads are interleaved one atomic step at a time, as in the asynchronous logger.
 */
module ResourcePool {
  type Tid = nat
  type Id = nat
  type BlockId = nat

  const GROUP_NBLOCK: nat := 65536
  const MAX_NGROUP: nat := 65536

  datatype Option<T> = None | Some(value: T)

  /** Where an object is: the block and the item in it. */
  datatype Item = Item(block: BlockId, offset: nat)

  datatype Group = Group(nblock: nat, blocks: map<nat, BlockId>)

  datatype Pc =
    | Idle
    // LocalPool::get
    | PopTest
    | PopLocked
    | TryLocal
    | Construct
    // add_block
    | NewBlock
    | LoadGroups(b: BlockId)
    | FetchAdd(b: BlockId, ng: nat)
    | Store(b: BlockId, ng: nat, slot: nat)
    | FetchSub(b: BlockId, ng: nat)
    | DropBlock(b: BlockId)
    // add_block_group
    | WantLock(b: BlockId, ng: nat)
    | Check(b: BlockId, ng: nat)
    | StoreGroup(b: BlockId, ng: nat)
    | StoreCount(b: BlockId, ng: nat)
    | Unlock(b: BlockId, ok: bool)
    // LocalPool::return_resource and ~LocalPool
    | Push(id: Id, item: Item)
    | ExitPush

  datatype Thread = Thread(pc: Pc, block: Option<BlockId>, index: nat, free: seq<Id>)

  datatype Lock = Free | Held(t: Tid)

  /** Items in a block, and the largest local free list asked for. */
  datatype Sizes = Sizes(nitem: nat, maxFree: nat)

  type Config = c: Sizes | 0 < c.nitem witness Sizes(1, 1)

  /** Ids a local free list holds at most. */
  function FreeChunkNitem(cfg: Config): nat {
    if cfg.maxFree < cfg.nitem then cfg.maxFree else cfg.nitem
  }

  datatype State = State(
    groups: seq<Group>,
    ngroup: nat,
    lock: Lock,
    items: map<BlockId, nat>,
    chunks: seq<seq<Id>>,
    threads: map<Tid, Thread>,
    inUse: map<Id, Item>,
    lost: set<Id>,
    fault: bool)

  datatype Call = NoCall | Get | Return(id: Id) | Exit

  /** What a step takes from outside: the next call, a fresh address, allocation and validation results. */
  datatype Choice = Choice(call: Call, spare: BlockId, ok: bool)

  const NEW_THREAD: Thread := Thread(Idle, None, 0, [])

  function ThreadOf(threads: map<Tid, Thread>, t: Tid): Thread {
    if t in threads then threads[t] else NEW_THREAD
  }

  const INITIAL: State := State([], 0, Free, map[], [], map[], map[], {}, false)

  // ---- addressing

  /** The block stored at an index over all groups. */
  function SlotAt(groups: seq<Group>, index: nat): Option<BlockId> {
    var g, slot := index / GROUP_NBLOCK, index % GROUP_NBLOCK;
    if g < |groups| && slot in groups[g].blocks then Some(groups[g].blocks[slot]) else None
  }

  /** Checked addressing: NULL unless group, block and item are there. */
  function Address(cfg: Config, groups: seq<Group>, items: map<BlockId, nat>, id: Id): Option<Item> {
    var index := id / cfg.nitem;
    if index / GROUP_NBLOCK >= MAX_NGROUP then None
    else
      match SlotAt(groups, index)
      case None => None
      case Some(b) =>
        var offset := id - index * cfg.nitem;
        if b in items && offset < items[b] then Some(Item(b, offset)) else None
  }

  /** Unchecked addressing; None stands for following a null pointer. */
  function UnsafeAddress(cfg: Config, s: State, id: Id): Option<Item> {
    var index := id / cfg.nitem;
    match SlotAt(s.groups, index)
    case None => None
    case Some(b) => Some(Item(b, id - index * cfg.nitem))
  }

  // ---- steps

  function Fault(s: State): State {
    s.(fault := true)
  }

  function With(s: State, t: Tid, th: Thread): State {
    s.(threads := s.threads[t := th])
  }

  function Goto(s: State, t: Tid, pc: Pc): State {
    With(s, t, ThreadOf(s.threads, t).(pc := pc))
  }

  /** An id and its object are given to the caller. */
  function HandOut(s: State, id: Id, item: Option<Item>): State {
    if item.None? || id in s.inUse then Fault(s) else s.(inUse := s.inUse[id := item.value])
  }

  /** The last id of a non-empty local free list is given out. */
  function TakeFree(cfg: Config, s: State, t: Tid, free: seq<Id>): State
    requires free != []
  {
    var id := free[|free| - 1];
    HandOut(With(s, t, ThreadOf(s.threads, t).(pc := Idle, free := free[..|free| - 1])), id, UnsafeAddress(cfg, s, id))
  }

  function StepGet(cfg: Config, s: State, t: Tid): State {
    var th := ThreadOf(s.threads, t);
    if th.free != [] then TakeFree(cfg, s, t, th.free) else Goto(s, t, PopTest)
  }

  /** Popping a chunk is one critical section; an empty chunk would make the count wrap around. */
  function StepPop(cfg: Config, s: State, t: Tid): State {
    if s.chunks == [] then Goto(s, t, TryLocal)
    else
      var chunk := s.chunks[|s.chunks| - 1];
      if chunk == [] || |chunk| > cfg.nitem then Fault(s)
      else TakeFree(cfg, s.(chunks := s.chunks[..|s.chunks| - 1]), t, chunk)
  }

  /** The id of an item: its block's index over all groups, and the item in the block. */
  function IdOf(cfg: Config, index: nat, offset: nat): Id {
    index * cfg.nitem + offset
  }

  /** Constructs the next item of the thread's own block. */
  function StepConstruct(cfg: Config, s: State, t: Tid, ok: bool): State {
    var th := ThreadOf(s.threads, t);
    if th.block.None? || th.block.value !in s.items || s.items[th.block.value] >= cfg.nitem then Fault(s)
    else
      var b := th.block.value;
      var k := s.items[b];
      if !ok then Goto(s, t, Idle)
      else HandOut(Goto(s.(items := s.items[b := k + 1]), t, Idle), IdOf(cfg, th.index, k), Some(Item(b, k)))
  }

  function StepReturn(cfg: Config, s: State, t: Tid, id: Id): State {
    var th := ThreadOf(s.threads, t);
    if id !in s.inUse then s
    else
      var item := s.inUse[id];
      var s' := s.(inUse := s.inUse - {id});
      if |th.free| < FreeChunkNitem(cfg) then With(s', t, th.(free := th.free + [id])) else Goto(s', t, Push(id, item))
  }

  function StepIdle(cfg: Config, s: State, t: Tid, c: Choice): State {
    match c.call
    case NoCall => s
    case Get => StepGet(cfg, s, t)
    case Return(id) => StepReturn(cfg, s, t, id)
    case Exit => if ThreadOf(s.threads, t).free != [] then Goto(s, t, ExitPush) else With(s, t, NEW_THREAD)
  }

  function StepPush(s: State, t: Tid, ok: bool): State {
    var th := ThreadOf(s.threads, t);
    match th.pc
    case Push(id, item) =>
      if ok then With(s.(chunks := s.chunks + [th.free]), t, th.(pc := Idle, free := [id]))
      else HandOut(Goto(s, t, Idle), id, Some(item))
    case ExitPush =>
      if ok then With(s.(chunks := s.chunks + [th.free]), t, NEW_THREAD)
      else With(s.(lost := s.lost + set x | x in th.free), t, NEW_THREAD)
    case _ => s
  }

  function StepAddBlock(s: State, t: Tid, c: Choice): State {
    var th := ThreadOf(s.threads, t);
    match th.pc
    case NewBlock =>
      if !c.ok then With(s, t, th.(pc := Idle, block := None))
      else if c.spare in s.items then s
      else Goto(s.(items := s.items[c.spare := 0]), t, LoadGroups(c.spare))
    case LoadGroups(b) => Goto(s, t, if s.ngroup >= 1 then FetchAdd(b, s.ngroup) else WantLock(b, 0))
    case FetchAdd(b, ng) =>
      if !(1 <= ng <= |s.groups|) then Fault(s)
      else
        var slot := s.groups[ng - 1].nblock;
        Goto(s.(groups := s.groups[ng - 1 := s.groups[ng - 1].(nblock := slot + 1)]), t,
             if slot < GROUP_NBLOCK then Store(b, ng, slot) else FetchSub(b, ng))
    case Store(b, ng, slot) =>
      if !(1 <= ng <= |s.groups|) || slot in s.groups[ng - 1].blocks then Fault(s)
      else
        var g := s.groups[ng - 1];
        With(s.(groups := s.groups[ng - 1 := g.(blocks := g.blocks[slot := b])]), t,
             th.(pc := Construct, block := Some(b), index := (ng - 1) * GROUP_NBLOCK + slot))
    case FetchSub(b, ng) =>
      if !(1 <= ng <= |s.groups|) || s.groups[ng - 1].nblock == 0 then Fault(s)
      else Goto(s.(groups := s.groups[ng - 1 := s.groups[ng - 1].(nblock := s.groups[ng - 1].nblock - 1)]), t,
                WantLock(b, ng))
    case DropBlock(b) => With(s.(items := s.items - {b}), t, th.(pc := Idle, block := None))
    case _ => s
  }

  function StepAddGroup(s: State, t: Tid, ok: bool): State {
    match ThreadOf(s.threads, t).pc
    case WantLock(b, ng) => if s.lock == Free then Goto(s.(lock := Held(t)), t, Check(b, ng)) else s
    case Check(b, ng) =>
      Goto(s, t, if s.ngroup != ng then Unlock(b, true)
                 else if s.ngroup < MAX_NGROUP && ok then StoreGroup(b, ng) else Unlock(b, false))
    case StoreGroup(b, ng) =>
      if |s.groups| != ng then Fault(s)
      else Goto(s.(groups := s.groups + [Group(0, map[])]), t, StoreCount(b, ng))
    case StoreCount(b, ng) => Goto(s.(ngroup := ng + 1), t, Unlock(b, true))
    case Unlock(b, ok) => Goto(s.(lock := Free), t, if ok then LoadGroups(b) else DropBlock(b))
    case _ => s
  }

  function Step(cfg: Config, s: State, t: Tid, c: Choice): State {
    var th := ThreadOf(s.threads, t);
    match th.pc
    case Idle => StepIdle(cfg, s, t, c)
    case PopTest => Goto(s, t, if s.chunks == [] then TryLocal else PopLocked)
    case PopLocked => StepPop(cfg, s, t)
    case TryLocal =>
      Goto(s, t, if th.block.Some? && th.block.value in s.items && s.items[th.block.value] < cfg.nitem
                 then Construct else NewBlock)
    case Construct => StepConstruct(cfg, s, t, c.ok)
    case Push(_, _) => StepPush(s, t, c.ok)
    case ExitPush => StepPush(s, t, c.ok)
    case WantLock(_, _) => StepAddGroup(s, t, c.ok)
    case Check(_, _) => StepAddGroup(s, t, c.ok)
    case StoreGroup(_, _) => StepAddGroup(s, t, c.ok)
    case StoreCount(_, _) => StepAddGroup(s, t, c.ok)
    case Unlock(_, _) => StepAddGroup(s, t, c.ok)
    case _ => StepAddBlock(s, t, c)
  }

  /** A schedule: who moves, and what the outside answers. */
  function Run(cfg: Config, s: State, schedule: seq<(Tid, Choice)>): State {
    if schedule == [] then s
    else
      var last := schedule[|schedule| - 1];
      Step(cfg, Run(cfg, s, schedule[..|schedule| - 1]), last.0, last.1)
  }

  // ---- the invariant

  /** Where an id is. */
  datatype Place = InUse | Returning(t: Tid) | Local(t: Tid, pos: nat) | Global(chunk: nat, pos: nat) | Lost

  /** Where a block is: in the table, or with the thread that is adding it. */
  datatype Home = Slot(index: nat) | Owner(t: Tid)

  /** What a state means: slots claimed and overflows to be undone per group, homes and places. */
  datatype Ledger = Ledger(claimed: seq<nat>, pending: seq<set<Tid>>, home: map<BlockId, Home>, place: map<Id, Place>)

  predicate NeedsLock(pc: Pc) {
    pc.Check? || pc.StoreGroup? || pc.StoreCount? || pc.Unlock?
  }

  predicate GroupOk(g: Group, claimed: nat, pending: set<Tid>) {
    && g.nblock == claimed + |pending|
    && claimed <= GROUP_NBLOCK
    && (pending != {} ==> claimed == GROUP_NBLOCK)
    && forall slot | slot in g.blocks :: slot < claimed
  }

  predicate LockPcOk(pc: Pc, size: nat, ngroup: nat) {
    match pc
    case StoreGroup(_, ng) => ng == ngroup == size < MAX_NGROUP
    case StoreCount(_, ng) => ng == ngroup
    case _ => true
  }

  /** The group table grows under the lock only. */
  ghost predicate LockOk(size: nat, ngroup: nat, lock: Lock, threads: map<Tid, Thread>) {
    && size <= MAX_NGROUP
    && (forall t :: NeedsLock(ThreadOf(threads, t).pc) <==> lock == Held(t))
    && size == ngroup + (if lock.Held? && ThreadOf(threads, lock.t).pc.StoreCount? then 1 else 0)
    && (forall t :: LockPcOk(ThreadOf(threads, t).pc, size, ngroup))
  }

  predicate CountPcOk(pc: Pc, t: Tid, groups: seq<Group>, led: Ledger) {
    match pc
    case FetchAdd(_, ng) => 1 <= ng <= |groups|
    case FetchSub(_, ng) => 1 <= ng <= |groups| && ng <= |led.pending| && t in led.pending[ng - 1]
    case Store(_, ng, slot) =>
      1 <= ng <= |groups| && ng <= |led.claimed| && slot < led.claimed[ng - 1] && slot !in groups[ng - 1].blocks
    case _ => true
  }

  ghost predicate CountsOk(groups: seq<Group>, threads: map<Tid, Thread>, led: Ledger) {
    && |led.claimed| == |led.pending| == |groups|
    && (forall g | 0 <= g < |groups| :: GroupOk(groups[g], led.claimed[g], led.pending[g]))
    && (forall g, t | 0 <= g < |groups| && t in led.pending[g] ::
          ThreadOf(threads, t).pc.FetchSub? && ThreadOf(threads, t).pc.ng == g + 1)
    && (forall t :: CountPcOk(ThreadOf(threads, t).pc, t, groups, led))
    && (forall t, u | t != u :: !SameSlot(ThreadOf(threads, t).pc, ThreadOf(threads, u).pc))
  }

  ghost predicate TablesOk(groups: seq<Group>, ngroup: nat, lock: Lock, threads: map<Tid, Thread>, led: Ledger) {
    LockOk(|groups|, ngroup, lock, threads) && CountsOk(groups, threads, led)
  }

  predicate SameSlot(pc: Pc, pc': Pc) {
    pc.Store? && pc'.Store? && pc.ng == pc'.ng && pc.slot == pc'.slot
  }

  /** The block a thread is adding. */
  function Carried(pc: Pc): Option<BlockId> {
    match pc
    case LoadGroups(b) => Some(b)
    case FetchAdd(b, _) => Some(b)
    case Store(b, _, _) => Some(b)
    case FetchSub(b, _) => Some(b)
    case DropBlock(b) => Some(b)
    case WantLock(b, _) => Some(b)
    case Check(b, _) => Some(b)
    case StoreGroup(b, _) => Some(b)
    case StoreCount(b, _) => Some(b)
    case Unlock(b, _) => Some(b)
    case _ => None
  }

  predicate ThreadBlocksOk(cfg: Config, th: Thread, t: Tid, items: map<BlockId, nat>, home: map<BlockId, Home>) {
    && (Carried(th.pc).Some? ==>
          var b := Carried(th.pc).value; b in home && home[b] == Owner(t) && b in items && items[b] == 0)
    && (th.block.Some? ==> th.block.value in home && home[th.block.value] == Slot(th.index))
    && (th.pc == Construct ==> th.block.Some? && th.block.value in items && items[th.block.value] < cfg.nitem)
  }

  ghost predicate BlocksOk(cfg: Config, groups: seq<Group>, items: map<BlockId, nat>, threads: map<Tid, Thread>,
                           home: map<BlockId, Home>) {
    && home.Keys == items.Keys
    && (forall b | b in items :: items[b] <= cfg.nitem)
    && (forall b, i | b in home && home[b] == Slot(i) :: SlotAt(groups, i) == Some(b))
    && (forall i: nat | SlotAt(groups, i).Some? ::
          SlotAt(groups, i).value in home && home[SlotAt(groups, i).value] == Slot(i))
    && (forall b, t | b in home && home[b] == Owner(t) :: Carried(ThreadOf(threads, t).pc) == Some(b))
    && (forall t :: ThreadBlocksOk(cfg, ThreadOf(threads, t), t, items, home))
    && (forall t, u | t != u && ThreadOf(threads, t).block.Some? ::
          ThreadOf(threads, t).block != ThreadOf(threads, u).block)
  }

  /** The id is at that place. */
  predicate IsAt(s: State, id: Id, p: Place) {
    match p
    case InUse => id in s.inUse
    case Returning(t) => ThreadOf(s.threads, t).pc.Push? && ThreadOf(s.threads, t).pc.id == id
    case Local(t, i) => i < |ThreadOf(s.threads, t).free| && ThreadOf(s.threads, t).free[i] == id
    case Global(k, i) => k < |s.chunks| && i < |s.chunks[k]| && s.chunks[k][i] == id
    case Lost => id in s.lost
  }

  ghost predicate PlacesOk(s: State, place: map<Id, Place>) {
    forall id, p :: IsAt(s, id, p) <==> id in place && place[id] == p
  }

  ghost predicate ListsOk(cfg: Config, chunks: seq<seq<Id>>, threads: map<Tid, Thread>) {
    && (forall k | 0 <= k < |chunks| :: 0 < |chunks[k]| <= FreeChunkNitem(cfg))
    && (forall t :: |ThreadOf(threads, t).free| <= FreeChunkNitem(cfg))
    && (forall t | ThreadOf(threads, t).pc == ExitPush :: ThreadOf(threads, t).free != [])
    && (forall t | ThreadOf(threads, t).pc.Push? :: |ThreadOf(threads, t).free| == FreeChunkNitem(cfg))
    && (forall t | ThreadOf(threads, t).pc == PopTest || ThreadOf(threads, t).pc == PopLocked ::
          ThreadOf(threads, t).free == [])
  }

  ghost predicate IdsOk(cfg: Config, s: State, place: map<Id, Place>) {
    && (forall id: nat :: id in place <==> Address(cfg, s.groups, s.items, id).Some?)
    && (forall id | id in s.inUse :: Address(cfg, s.groups, s.items, id) == Some(s.inUse[id]))
    && (forall t | ThreadOf(s.threads, t).pc.Push? ::
          Address(cfg, s.groups, s.items, ThreadOf(s.threads, t).pc.id) == Some(ThreadOf(s.threads, t).pc.item))
  }

  /** The part of the invariant that is about groups and blocks: it does not look at free lists. */
  ghost predicate Core(cfg: Config, s: State, led: Ledger) {
    && TablesOk(s.groups, s.ngroup, s.lock, s.threads, led)
    && BlocksOk(cfg, s.groups, s.items, s.threads, led.home)
  }

  ghost predicate Inv(cfg: Config, s: State, led: Ledger) {
    && !s.fault
    && Core(cfg, s, led)
    && PlacesOk(s, led.place)
    && ListsOk(cfg, s.chunks, s.threads)
    && IdsOk(cfg, s, led.place)
  }

  // ---- how each part survives a step

  lemma ThreadSet(threads: map<Tid, Thread>, t: Tid, th: Thread)
    ensures ThreadOf(threads[t := th], t) == th
    ensures forall u | u != t :: ThreadOf(threads[t := th], u) == ThreadOf(threads, u)
  {
  }

  lemma LockPlain(size: nat, ngroup: nat, lock: Lock, threads: map<Tid, Thread>, t: Tid, th: Thread)
    requires LockOk(size, ngroup, lock, threads)
    requires !NeedsLock(ThreadOf(threads, t).pc) && !NeedsLock(th.pc)
    ensures LockOk(size, ngroup, lock, threads[t := th])
  {
    assert LockPcOk(th.pc, size, ngroup);
    var threads' := threads[t := th];
    assert forall u | u != t :: ThreadOf(threads', u) == ThreadOf(threads, u);
    assert ThreadOf(threads', t) == th;
    hide ThreadOf, NeedsLock, LockPcOk;
  }

  /** The thread that holds the lock, takes it or gives it back moves on. */
  lemma LockMoves(size: nat, ngroup: nat, lock: Lock, threads: map<Tid, Thread>, t: Tid, th: Thread,
                  size': nat, ngroup': nat, lock': Lock)
    requires LockOk(size, ngroup, lock, threads)
    requires (if NeedsLock(ThreadOf(threads, t).pc) then lock == Held(t) else lock == Free)
    requires lock' == if NeedsLock(th.pc) then Held(t) else Free
    requires size' == ngroup' + (if th.pc.StoreCount? then 1 else 0) && size' <= MAX_NGROUP
    requires LockPcOk(th.pc, size', ngroup')
    ensures LockOk(size', ngroup', lock', threads[t := th])
  {
    var threads' := threads[t := th];
    assert forall u | u != t :: ThreadOf(threads', u) == ThreadOf(threads, u);
    assert ThreadOf(threads', t) == th;
    hide ThreadOf;
    forall u | u != t ensures LockPcOk(ThreadOf(threads', u).pc, size', ngroup') {
      assert !NeedsLock(ThreadOf(threads, u).pc);
    }
    assert th.pc.StoreCount? ==> NeedsLock(th.pc);
    hide NeedsLock, LockPcOk;
  }

  lemma CountsPlain(groups: seq<Group>, threads: map<Tid, Thread>, led: Ledger, t: Tid, th: Thread)
    requires CountsOk(groups, threads, led)
    requires !ThreadOf(threads, t).pc.FetchSub? && !th.pc.Store? && CountPcOk(th.pc, t, groups, led)
    ensures CountsOk(groups, threads[t := th], led)
  {
    var threads' := threads[t := th];
    assert forall u | u != t :: ThreadOf(threads', u) == ThreadOf(threads, u);
    assert ThreadOf(threads', t) == th;
    hide ThreadOf, CountPcOk, GroupOk;
  }

  /** Nothing of the tables and their lock is involved. */
  lemma TablesPlain(groups: seq<Group>, ngroup: nat, lock: Lock, threads: map<Tid, Thread>, led: Ledger, t: Tid,
                    th: Thread)
    requires TablesOk(groups, ngroup, lock, threads, led)
    requires !NeedsLock(ThreadOf(threads, t).pc) && !NeedsLock(th.pc)
    requires !ThreadOf(threads, t).pc.FetchSub? && !th.pc.Store?
    requires CountPcOk(th.pc, t, groups, led)
    ensures TablesOk(groups, ngroup, lock, threads[t := th], led)
  {
    hide ThreadOf, NeedsLock, CountPcOk, LockOk, CountsOk;
    LockPlain(|groups|, ngroup, lock, threads, t, th);
    CountsPlain(groups, threads, led, t, th);
  }

  lemma BlocksPlain(cfg: Config, groups: seq<Group>, items: map<BlockId, nat>, threads: map<Tid, Thread>,
                    home: map<BlockId, Home>, t: Tid, th: Thread)
    requires BlocksOk(cfg, groups, items, threads, home)
    requires Carried(th.pc) == Carried(ThreadOf(threads, t).pc)
    requires th.block.None? || (th.block == ThreadOf(threads, t).block && th.index == ThreadOf(threads, t).index)
    requires th.pc == Construct ==> th.block.Some? && th.block.value in items && items[th.block.value] < cfg.nitem
    ensures BlocksOk(cfg, groups, items, threads[t := th], home)
  {
    var threads' := threads[t := th];
    assert forall u | u != t :: ThreadOf(threads', u) == ThreadOf(threads, u);
    assert ThreadOf(threads', t) == th;
    assert ThreadBlocksOk(cfg, ThreadOf(threads, t), t, items, home);
    assert ThreadBlocksOk(cfg, th, t, items, home);
    hide ThreadOf, Carried, SlotAt, ThreadBlocksOk;
  }

  lemma ListsPlain(cfg: Config, chunks: seq<seq<Id>>, threads: map<Tid, Thread>, t: Tid, th: Thread)
    requires ListsOk(cfg, chunks, threads)
    requires |th.free| <= FreeChunkNitem(cfg)
    requires th.pc == ExitPush ==> th.free != []
    requires th.pc.Push? ==> |th.free| == FreeChunkNitem(cfg)
    requires th.pc == PopTest || th.pc == PopLocked ==> th.free == []
    ensures ListsOk(cfg, chunks, threads[t := th])
  {
    var threads' := threads[t := th];
    assert forall u | u != t :: ThreadOf(threads', u) == ThreadOf(threads, u);
    assert ThreadOf(threads', t) == th;
    hide ThreadOf;
  }

  /** No id changes its place. */
  lemma PlacesPlain(s: State, s': State, place: map<Id, Place>, t: Tid)
    requires PlacesOk(s, place)
    requires s'.inUse == s.inUse && s'.chunks == s.chunks && s'.lost == s.lost
    requires forall u | u != t :: ThreadOf(s'.threads, u) == ThreadOf(s.threads, u)
    requires ThreadOf(s'.threads, t).free == ThreadOf(s.threads, t).free
    requires !ThreadOf(s.threads, t).pc.Push? && !ThreadOf(s'.threads, t).pc.Push?
    ensures PlacesOk(s', place)
  {
    hide ThreadOf;
    forall id, p ensures IsAt(s', id, p) == IsAt(s, id, p) {
    }
  }

  lemma IdsPlain(cfg: Config, s: State, s': State, place: map<Id, Place>, t: Tid)
    requires IdsOk(cfg, s, place)
    requires forall id: nat :: Address(cfg, s'.groups, s'.items, id) == Address(cfg, s.groups, s.items, id)
    requires s'.inUse == s.inUse
    requires forall u | u != t :: ThreadOf(s'.threads, u) == ThreadOf(s.threads, u)
    requires !ThreadOf(s'.threads, t).pc.Push?
    ensures IdsOk(cfg, s', place)
  {
    hide ThreadOf, Address;
  }

  lemma InvCore(cfg: Config, s: State, led: Ledger)
    requires Inv(cfg, s, led)
    ensures Core(cfg, s, led)
  {
  }

  lemma InvInitially(cfg: Config)
    ensures Inv(cfg, INITIAL, Ledger([], [], map[], map[]))
  {
    assert forall t :: ThreadOf(INITIAL.threads, t) == NEW_THREAD;
    assert forall i: nat :: SlotAt(INITIAL.groups, i) == None;
    hide ThreadOf, SlotAt;
  }

  /** Only thread t moves; tables, blocks and lists stay. */
  lemma PlainStep(cfg: Config, s: State, led: Ledger, t: Tid, th: Thread)
    requires Inv(cfg, s, led)
    requires !NeedsLock(ThreadOf(s.threads, t).pc) && !NeedsLock(th.pc)
    requires !ThreadOf(s.threads, t).pc.FetchSub? && !th.pc.Store? && CountPcOk(th.pc, t, s.groups, led)
    requires Carried(th.pc) == Carried(ThreadOf(s.threads, t).pc)
    requires th.block.None? || (th.block == ThreadOf(s.threads, t).block && th.index == ThreadOf(s.threads, t).index)
    requires th.pc == Construct ==> th.block.Some? && th.block.value in s.items && s.items[th.block.value] < cfg.nitem
    requires th.free == ThreadOf(s.threads, t).free
    requires !ThreadOf(s.threads, t).pc.Push? && !th.pc.Push?
    requires th.pc == ExitPush ==> th.free != []
    requires th.pc == PopTest || th.pc == PopLocked ==> th.free == []
    ensures Inv(cfg, With(s, t, th), led)
  {
    hide TablesOk, BlocksOk, ListsOk, PlacesOk, IdsOk, Carried, CountPcOk, NeedsLock, ThreadOf, Address;
    var s' := With(s, t, th);
    ThreadSet(s.threads, t, th);
    FreeFits(cfg, s.chunks, s.threads, t);
    TablesPlain(s.groups, s.ngroup, s.lock, s.threads, led, t, th);
    BlocksPlain(cfg, s.groups, s.items, s.threads, led.home, t, th);
    ListsPlain(cfg, s.chunks, s.threads, t, th);
    PlacesPlain(s, s', led.place, t);
    IdsPlain(cfg, s, s', led.place, t);
  }

  lemma FreeFits(cfg: Config, chunks: seq<seq<Id>>, threads: map<Tid, Thread>, t: Tid)
    requires ListsOk(cfg, chunks, threads)
    ensures |ThreadOf(threads, t).free| <= FreeChunkNitem(cfg)
    ensures ThreadOf(threads, t).pc == PopTest || ThreadOf(threads, t).pc == PopLocked ==>
            ThreadOf(threads, t).free == []
    ensures ThreadOf(threads, t).pc == ExitPush ==> ThreadOf(threads, t).free != []
    ensures ThreadOf(threads, t).pc.Push? ==> |ThreadOf(threads, t).free| == FreeChunkNitem(cfg)
    ensures forall k | 0 <= k < |chunks| :: 0 < |chunks[k]| <= FreeChunkNitem(cfg)
  {
    hide ThreadOf;
  }

  // ---- ids change places

  function ToLocal(place: map<Id, Place>, chunk: nat, t: Tid): map<Id, Place> {
    map id | id in place :: if place[id].Global? && place[id].chunk == chunk then Local(t, place[id].pos) else place[id]
  }

  function ToGlobal(place: map<Id, Place>, t: Tid, chunk: nat): map<Id, Place> {
    map id | id in place :: if place[id].Local? && place[id].t == t then Global(chunk, place[id].pos) else place[id]
  }

  function ToLost(place: map<Id, Place>, t: Tid): map<Id, Place> {
    map id | id in place :: if place[id].Local? && place[id].t == t then Lost else place[id]
  }

  lemma PlacesTakeFree(s: State, s': State, place: map<Id, Place>, t: Tid)
    requires PlacesOk(s, place)
    requires ThreadOf(s.threads, t).free != [] && !ThreadOf(s.threads, t).pc.Push?
    requires forall u | u != t :: ThreadOf(s'.threads, u) == ThreadOf(s.threads, u)
    requires ThreadOf(s'.threads, t).free == ThreadOf(s.threads, t).free[..|ThreadOf(s.threads, t).free| - 1]
    requires !ThreadOf(s'.threads, t).pc.Push?
    requires s'.chunks == s.chunks && s'.lost == s.lost
    requires var free := ThreadOf(s.threads, t).free;
             forall id :: id in s'.inUse <==> id in s.inUse || id == free[|free| - 1]
    ensures PlacesOk(s', place[ThreadOf(s.threads, t).free[|ThreadOf(s.threads, t).free| - 1] := InUse])
  {
    var free := ThreadOf(s.threads, t).free;
    var last := free[|free| - 1];
    assert IsAt(s, last, Local(t, |free| - 1));
    hide ThreadOf;
    forall id, p ensures IsAt(s', id, p) <==> id in place[last := InUse] && place[last := InUse][id] == p {
      assert IsAt(s, id, p) <==> id in place && place[id] == p;
    }
  }

  lemma PlacesPop(s: State, s': State, place: map<Id, Place>, t: Tid)
    requires PlacesOk(s, place) && s.chunks != [] && s.chunks[|s.chunks| - 1] != []
    requires ThreadOf(s.threads, t).free == [] && !ThreadOf(s.threads, t).pc.Push?
    requires forall u | u != t :: ThreadOf(s'.threads, u) == ThreadOf(s.threads, u)
    requires
      var chunk := s.chunks[|s.chunks| - 1];
      && ThreadOf(s'.threads, t).free == chunk[..|chunk| - 1]
      && forall id :: id in s'.inUse <==> id in s.inUse || id == chunk[|chunk| - 1]
    requires !ThreadOf(s'.threads, t).pc.Push?
    requires s'.chunks == s.chunks[..|s.chunks| - 1] && s'.lost == s.lost
    ensures
      var chunk := s.chunks[|s.chunks| - 1];
      PlacesOk(s', ToLocal(place, |s.chunks| - 1, t)[chunk[|chunk| - 1] := InUse])
  {
    var k := |s.chunks| - 1;
    var chunk := s.chunks[k];
    var last := chunk[|chunk| - 1];
    assert IsAt(s, last, Global(k, |chunk| - 1));
    hide ThreadOf;
    var place' := ToLocal(place, k, t)[last := InUse];
    forall id, p ensures IsAt(s', id, p) <==> id in place' && place'[id] == p {
      assert IsAt(s, id, p) <==> id in place && place[id] == p;
      if p.Local? && p.t == t {
        assert IsAt(s, id, Global(k, p.pos)) <==> id in place && place[id] == Global(k, p.pos);
      }
    }
  }

  lemma PlacesReturn(s: State, s': State, place: map<Id, Place>, t: Tid, id: Id)
    requires PlacesOk(s, place) && id in s.inUse && !ThreadOf(s.threads, t).pc.Push?
    requires s'.inUse == s.inUse - {id} && s'.chunks == s.chunks && s'.lost == s.lost
    requires forall u | u != t :: ThreadOf(s'.threads, u) == ThreadOf(s.threads, u)
    requires ThreadOf(s'.threads, t).free == ThreadOf(s.threads, t).free + [id] && !ThreadOf(s'.threads, t).pc.Push?
    ensures PlacesOk(s', place[id := Local(t, |ThreadOf(s.threads, t).free|)])
  {
    hide ThreadOf;
    assert IsAt(s, id, InUse);
    var place' := place[id := Local(t, |ThreadOf(s.threads, t).free|)];
    forall x, p ensures IsAt(s', x, p) <==> x in place' && place'[x] == p {
      assert IsAt(s, x, p) <==> x in place && place[x] == p;
    }
  }

  lemma PlacesPushing(s: State, s': State, place: map<Id, Place>, t: Tid, id: Id)
    requires PlacesOk(s, place) && id in s.inUse && !ThreadOf(s.threads, t).pc.Push?
    requires s'.inUse == s.inUse - {id} && s'.chunks == s.chunks && s'.lost == s.lost
    requires forall u | u != t :: ThreadOf(s'.threads, u) == ThreadOf(s.threads, u)
    requires ThreadOf(s'.threads, t).free == ThreadOf(s.threads, t).free
    requires ThreadOf(s'.threads, t).pc.Push? && ThreadOf(s'.threads, t).pc.id == id
    ensures PlacesOk(s', place[id := Returning(t)])
  {
    hide ThreadOf;
    assert IsAt(s, id, InUse);
    var place' := place[id := Returning(t)];
    forall x, p ensures IsAt(s', x, p) <==> x in place' && place'[x] == p {
      assert IsAt(s, x, p) <==> x in place && place[x] == p;
    }
  }

  lemma PlacesPushed(s: State, s': State, place: map<Id, Place>, t: Tid)
    requires PlacesOk(s, place) && ThreadOf(s.threads, t).pc.Push?
    requires s'.inUse == s.inUse && s'.chunks == s.chunks + [ThreadOf(s.threads, t).free] && s'.lost == s.lost
    requires forall u | u != t :: ThreadOf(s'.threads, u) == ThreadOf(s.threads, u)
    requires ThreadOf(s'.threads, t).free == [ThreadOf(s.threads, t).pc.id] && !ThreadOf(s'.threads, t).pc.Push?
    ensures PlacesOk(s', ToGlobal(place, t, |s.chunks|)[ThreadOf(s.threads, t).pc.id := Local(t, 0)])
  {
    hide ThreadOf;
    var k, id := |s.chunks|, ThreadOf(s.threads, t).pc.id;
    assert IsAt(s, id, Returning(t));
    var place' := ToGlobal(place, t, k)[id := Local(t, 0)];
    forall x, p ensures IsAt(s', x, p) <==> x in place' && place'[x] == p {
      assert IsAt(s, x, p) <==> x in place && place[x] == p;
      if p.Global? && p.chunk == k {
        assert IsAt(s, x, Local(t, p.pos)) <==> x in place && place[x] == Local(t, p.pos);
      }
    }
  }

  lemma PlacesRefused(s: State, s': State, place: map<Id, Place>, t: Tid)
    requires PlacesOk(s, place) && ThreadOf(s.threads, t).pc.Push?
    requires forall id :: id in s'.inUse <==> id in s.inUse || id == ThreadOf(s.threads, t).pc.id
    requires s'.chunks == s.chunks && s'.lost == s.lost
    requires forall u | u != t :: ThreadOf(s'.threads, u) == ThreadOf(s.threads, u)
    requires ThreadOf(s'.threads, t).free == ThreadOf(s.threads, t).free && !ThreadOf(s'.threads, t).pc.Push?
    ensures PlacesOk(s', place[ThreadOf(s.threads, t).pc.id := InUse])
  {
    hide ThreadOf;
    var id := ThreadOf(s.threads, t).pc.id;
    assert IsAt(s, id, Returning(t));
    var place' := place[id := InUse];
    forall x, p ensures IsAt(s', x, p) <==> x in place' && place'[x] == p {
      assert IsAt(s, x, p) <==> x in place && place[x] == p;
    }
  }

  lemma PlacesExit(s: State, s': State, place: map<Id, Place>, t: Tid, ok: bool)
    requires PlacesOk(s, place) && !ThreadOf(s.threads, t).pc.Push?
    requires s'.inUse == s.inUse
    requires s'.chunks == if ok then s.chunks + [ThreadOf(s.threads, t).free] else s.chunks
    requires s'.lost == if ok then s.lost else s.lost + set x | x in ThreadOf(s.threads, t).free
    requires forall u | u != t :: ThreadOf(s'.threads, u) == ThreadOf(s.threads, u)
    requires ThreadOf(s'.threads, t) == NEW_THREAD
    ensures PlacesOk(s', if ok then ToGlobal(place, t, |s.chunks|) else ToLost(place, t))
  {
    hide ThreadOf;
    var free := ThreadOf(s.threads, t).free;
    forall i | 0 <= i < |free| ensures free[i] in place && place[free[i]] == Local(t, i) {
      assert IsAt(s, free[i], Local(t, i));
    }
    var place' := if ok then ToGlobal(place, t, |s.chunks|) else ToLost(place, t);
    forall x, p ensures IsAt(s', x, p) <==> x in place' && place'[x] == p {
      assert IsAt(s, x, p) <==> x in place && place[x] == p;
      if p.Global? && p.chunk == |s.chunks| {
        assert IsAt(s, x, Local(t, p.pos)) <==> x in place && place[x] == Local(t, p.pos);
      }
      if p.Lost? && x in place && place[x].Local? && place[x].t == t {
        assert IsAt(s, x, Local(t, place[x].pos));
      }
    }
  }

  lemma PlacesConstruct(s: State, s': State, place: map<Id, Place>, t: Tid, id: Id)
    requires PlacesOk(s, place) && id !in place && !ThreadOf(s.threads, t).pc.Push?
    requires forall x :: x in s'.inUse <==> x in s.inUse || x == id
    requires s'.chunks == s.chunks && s'.lost == s.lost
    requires forall u | u != t :: ThreadOf(s'.threads, u) == ThreadOf(s.threads, u)
    requires ThreadOf(s'.threads, t).free == ThreadOf(s.threads, t).free && !ThreadOf(s'.threads, t).pc.Push?
    ensures PlacesOk(s', place[id := InUse])
  {
    hide ThreadOf;
    var place' := place[id := InUse];
    forall x, p ensures IsAt(s', x, p) <==> x in place' && place'[x] == p {
      assert IsAt(s, x, p) <==> x in place && place[x] == p;
    }
  }

  // ---- addresses

  lemma Quotient(i: nat, k: nat, n: nat)
    requires k < n
    ensures (i * n + k) / n == i
  {
    var q, r := (i * n + k) / n, (i * n + k) % n;
    assert i * n + k == q * n + r;
    assert q > i ==> q * n >= (i + 1) * n;
    assert q < i ==> i * n >= (q + 1) * n;
  }

  lemma Remainder(id: nat, n: nat)
    requires 0 < n
    ensures 0 <= id - (id / n) * n < n
  {
    assert id == (id / n) * n + id % n;
  }

  lemma AddressSame(cfg: Config, groups: seq<Group>, items: map<BlockId, nat>, groups': seq<Group>,
                    items': map<BlockId, nat>)
    requires forall i: nat :: SlotAt(groups', i) == SlotAt(groups, i)
    requires forall i: nat | SlotAt(groups, i).Some? ::
               SlotAt(groups, i).value in items && SlotAt(groups, i).value in items'
               && items'[SlotAt(groups, i).value] == items[SlotAt(groups, i).value]
    ensures forall id: nat :: Address(cfg, groups', items', id) == Address(cfg, groups, items, id)
  {
    hide SlotAt;
    forall id: nat ensures Address(cfg, groups', items', id) == Address(cfg, groups, items, id) {
      var i := id / cfg.nitem;
      assert SlotAt(groups', i) == SlotAt(groups, i);
    }
  }

  /** A block without items adds no address. */
  lemma AddressStored(cfg: Config, groups: seq<Group>, items: map<BlockId, nat>, groups': seq<Group>, index: nat,
                      b: BlockId)
    requires forall i: nat | i != index :: SlotAt(groups', i) == SlotAt(groups, i)
    requires SlotAt(groups, index) == None && SlotAt(groups', index) == Some(b) && b in items && items[b] == 0
    ensures forall id: nat :: Address(cfg, groups', items, id) == Address(cfg, groups, items, id)
  {
    hide SlotAt;
    forall id: nat ensures Address(cfg, groups', items, id) == Address(cfg, groups, items, id) {
      var i := id / cfg.nitem;
      Remainder(id, cfg.nitem);
      if i != index {
        assert SlotAt(groups', i) == SlotAt(groups, i);
      }
    }
  }

  /** Constructing an item adds exactly its own address. */
  lemma AddressConstructed(cfg: Config, groups: seq<Group>, items: map<BlockId, nat>, index: nat, b: BlockId, id: nat)
    requires SlotAt(groups, index) == Some(b) && |groups| <= MAX_NGROUP
    requires forall i: nat | SlotAt(groups, i) == Some(b) :: i == index
    requires b in items && items[b] < cfg.nitem
    ensures Address(cfg, groups, items[b := items[b] + 1], id)
         == if id == IdOf(cfg, index, items[b]) then Some(Item(b, items[b])) else Address(cfg, groups, items, id)
    ensures Address(cfg, groups, items, IdOf(cfg, index, items[b])) == None
  {
    var n, k := cfg.nitem, items[b];
    Quotient(index, k, n);
    Remainder(id, n);
    assert index / GROUP_NBLOCK < MAX_NGROUP;
    hide SlotAt;
    var i := id / n;
    if SlotAt(groups, i) == Some(b) {
      assert i == index;
    }
  }

  lemma AddressesConstructed(cfg: Config, groups: seq<Group>, items: map<BlockId, nat>, index: nat, b: BlockId)
    requires SlotAt(groups, index) == Some(b) && |groups| <= MAX_NGROUP
    requires forall i: nat | SlotAt(groups, i) == Some(b) :: i == index
    requires b in items && items[b] < cfg.nitem
    ensures forall id :: Address(cfg, groups, items[b := items[b] + 1], id)
                      == if id == IdOf(cfg, index, items[b]) then Some(Item(b, items[b]))
                         else Address(cfg, groups, items, id)
    ensures Address(cfg, groups, items, IdOf(cfg, index, items[b])) == None
  {
    hide SlotAt, Address, IdOf;
    forall id ensures Address(cfg, groups, items[b := items[b] + 1], id)
                   == if id == IdOf(cfg, index, items[b]) then Some(Item(b, items[b]))
                      else Address(cfg, groups, items, id)
    {
      AddressConstructed(cfg, groups, items, index, b, id);
    }
    AddressConstructed(cfg, groups, items, index, b, 0);
  }

  lemma UnsafeIsSafe(cfg: Config, s: State, id: Id)
    requires Address(cfg, s.groups, s.items, id).Some?
    ensures UnsafeAddress(cfg, s, id) == Address(cfg, s.groups, s.items, id)
  {
  }

  lemma SlotStored(groups: seq<Group>, ng: nat, slot: nat, b: BlockId, i: nat)
    requires 1 <= ng <= |groups| && slot < GROUP_NBLOCK
    ensures SlotAt(groups[ng - 1 := groups[ng - 1].(blocks := groups[ng - 1].blocks[slot := b])], i)
         == if i == (ng - 1) * GROUP_NBLOCK + slot then Some(b) else SlotAt(groups, i)
  {
  }

  lemma SlotAtIndex(groups: seq<Group>, ng: nat, slot: nat)
    requires 1 <= ng <= |groups| && slot < GROUP_NBLOCK
    ensures SlotAt(groups, (ng - 1) * GROUP_NBLOCK + slot)
         == if slot in groups[ng - 1].blocks then Some(groups[ng - 1].blocks[slot]) else None
  {
  }

  // ---- the ledger after a step

  function NextLedger(cfg: Config, s: State, led: Ledger, t: Tid, c: Choice): Ledger {
    var th := ThreadOf(s.threads, t);
    match th.pc
    case Idle =>
      (match c.call
       case Get => if th.free == [] then led else led.(place := led.place[th.free[|th.free| - 1] := InUse])
       case Return(id) =>
         if id !in s.inUse then led
         else
           led.(place := led.place[id := if |th.free| < FreeChunkNitem(cfg) then Local(t, |th.free|) else Returning(t)])
       case _ => led)
    case PopLocked =>
      if s.chunks == [] || s.chunks[|s.chunks| - 1] == [] then led
      else
        var chunk := s.chunks[|s.chunks| - 1];
        led.(place := ToLocal(led.place, |s.chunks| - 1, t)[chunk[|chunk| - 1] := InUse])
    case Construct =>
      if !c.ok || th.block.None? || th.block.value !in s.items then led
      else led.(place := led.place[IdOf(cfg, th.index, s.items[th.block.value]) := InUse])
    case Push(id, _) =>
      led.(place := if c.ok then ToGlobal(led.place, t, |s.chunks|)[id := Local(t, 0)] else led.place[id := InUse])
    case ExitPush => led.(place := if c.ok then ToGlobal(led.place, t, |s.chunks|) else ToLost(led.place, t))
    case NewBlock => if c.ok && c.spare !in s.items then led.(home := led.home[c.spare := Owner(t)]) else led
    case FetchAdd(_, ng) =>
      if !(1 <= ng <= |s.groups| && ng <= |led.claimed| && ng <= |led.pending|) then led
      else
        var slot := s.groups[ng - 1].nblock;
        if slot < GROUP_NBLOCK then led.(claimed := led.claimed[ng - 1 := slot + 1])
        else led.(pending := led.pending[ng - 1 := led.pending[ng - 1] + {t}])
    case FetchSub(_, ng) =>
      if 1 <= ng <= |led.pending| then led.(pending := led.pending[ng - 1 := led.pending[ng - 1] - {t}]) else led
    case Store(b, ng, slot) =>
      if 1 <= ng then led.(home := led.home[b := Slot((ng - 1) * GROUP_NBLOCK + slot)]) else led
    case DropBlock(b) => led.(home := led.home - {b})
    case StoreGroup(_, _) => led.(claimed := led.claimed + [0], pending := led.pending + [{}])
    case _ => led
  }

  // ---- each step keeps the invariant

  /** A thread outside the block tables moves on: tables and blocks stay. */
  lemma TablesAndBlocks(cfg: Config, s: State, led: Ledger, t: Tid, th: Thread)
    requires Core(cfg, s, led)
    requires Quiet(ThreadOf(s.threads, t).pc) && Quiet(th.pc)
    requires th.block.None? || (th.block == ThreadOf(s.threads, t).block && th.index == ThreadOf(s.threads, t).index)
    ensures TablesOk(s.groups, s.ngroup, s.lock, s.threads[t := th], led)
    ensures BlocksOk(cfg, s.groups, s.items, s.threads[t := th], led.home)
  {
    hide TablesOk, BlocksOk, ListsOk, PlacesOk, IdsOk, ThreadOf;
    TablesPlain(s.groups, s.ngroup, s.lock, s.threads, led, t, th);
    BlocksPlain(cfg, s.groups, s.items, s.threads, led.home, t, th);
  }

  predicate Quiet(pc: Pc) {
    pc == Idle || pc == PopTest || pc == PopLocked || pc.Push? || pc == ExitPush
  }

  lemma OneClaim(s: State, place: map<Id, Place>, id: Id, p: Place)
    requires PlacesOk(s, place) && IsAt(s, id, p)
    ensures id in place && place[id] == p
    ensures id in s.inUse ==> p == InUse
  {
    assert IsAt(s, id, InUse) <==> id in place && place[id] == InUse;
  }

  /** The caller gets an id that was free, and the object it names. */
  lemma IdsHandOut(cfg: Config, s: State, s': State, place: map<Id, Place>, place': map<Id, Place>, t: Tid, id: Id)
    requires IdsOk(cfg, s, place) && id in place
    requires forall x :: x in place' <==> x in place
    requires s'.groups == s.groups && s'.items == s.items
    requires Address(cfg, s.groups, s.items, id).Some?
    requires s'.inUse == s.inUse[id := Address(cfg, s.groups, s.items, id).value]
    requires forall u | u != t :: ThreadOf(s'.threads, u) == ThreadOf(s.threads, u)
    requires !ThreadOf(s'.threads, t).pc.Push?
    ensures IdsOk(cfg, s', place')
  {
    hide ThreadOf, Address;
  }

  lemma IdsMove(cfg: Config, s: State, s': State, place: map<Id, Place>, place': map<Id, Place>, t: Tid)
    requires IdsOk(cfg, s, place)
    requires forall x :: x in place' <==> x in place
    requires s'.groups == s.groups && s'.items == s.items
    requires forall x | x in s'.inUse :: x in s.inUse && s'.inUse[x] == s.inUse[x]
    requires forall u | u != t :: ThreadOf(s'.threads, u) == ThreadOf(s.threads, u)
    requires var pc := ThreadOf(s'.threads, t).pc;
             pc.Push? ==> pc.id in s.inUse && pc.item == s.inUse[pc.id]
    ensures IdsOk(cfg, s', place')
  {
    hide ThreadOf, Address;
  }

  lemma Addressed(cfg: Config, s: State, place: map<Id, Place>, id: Id)
    requires IdsOk(cfg, s, place) && id in place
    ensures Address(cfg, s.groups, s.items, id).Some?
    ensures UnsafeAddress(cfg, s, id) == Address(cfg, s.groups, s.items, id)
  {
    hide Address, UnsafeAddress, ThreadOf;
    UnsafeIsSafe(cfg, s, id);
  }

  lemma StepGetKeeps(cfg: Config, s: State, led: Ledger, t: Tid)
    requires Inv(cfg, s, led) && ThreadOf(s.threads, t).pc == Idle && ThreadOf(s.threads, t).free != []
    ensures var free := ThreadOf(s.threads, t).free;
            Inv(cfg, StepGet(cfg, s, t), led.(place := led.place[free[|free| - 1] := InUse]))
  {
    hide TablesOk, BlocksOk, ListsOk, PlacesOk, IdsOk, ThreadOf, Address, UnsafeAddress;
    var th := ThreadOf(s.threads, t);
    var id := th.free[|th.free| - 1];
    OneClaim(s, led.place, id, Local(t, |th.free| - 1));
    Addressed(cfg, s, led.place, id);
    var th' := th.(pc := Idle, free := th.free[..|th.free| - 1]);
    var s' := StepGet(cfg, s, t);
    ThreadSet(s.threads, t, th');
    var place' := led.place[id := InUse];
    TablesAndBlocks(cfg, s, led, t, th');
    TablesForget(s'.groups, s'.ngroup, s'.lock, s'.threads, led, place');
    FreeFits(cfg, s.chunks, s.threads, t);
    ListsPlain(cfg, s.chunks, s.threads, t, th');
    PlacesTakeFree(s, s', led.place, t);
    IdsHandOut(cfg, s, s', led.place, place', t, id);
  }

  /** The tables do not depend on where ids are. */
  lemma TablesForget(groups: seq<Group>, ngroup: nat, lock: Lock, threads: map<Tid, Thread>, led: Ledger,
                     place: map<Id, Place>)
    requires TablesOk(groups, ngroup, lock, threads, led)
    ensures TablesOk(groups, ngroup, lock, threads, led.(place := place))
  {
    hide ThreadOf, GroupOk, LockOk, SameSlot;
    assert forall t, pc :: CountPcOk(pc, t, groups, led) ==> CountPcOk(pc, t, groups, led.(place := place));
    hide CountPcOk;
  }

  lemma ListsPop(cfg: Config, chunks: seq<seq<Id>>, threads: map<Tid, Thread>)
    requires ListsOk(cfg, chunks, threads) && chunks != []
    ensures ListsOk(cfg, chunks[..|chunks| - 1], threads)
  {
    hide ThreadOf;
  }

  lemma ListsPush(cfg: Config, chunks: seq<seq<Id>>, threads: map<Tid, Thread>, chunk: seq<Id>)
    requires ListsOk(cfg, chunks, threads) && 0 < |chunk| <= FreeChunkNitem(cfg)
    ensures ListsOk(cfg, chunks + [chunk], threads)
  {
    hide ThreadOf;
  }

  lemma StepPopKeeps(cfg: Config, s: State, led: Ledger, t: Tid)
    requires Inv(cfg, s, led) && ThreadOf(s.threads, t).pc == PopLocked && s.chunks != []
    ensures var chunk := s.chunks[|s.chunks| - 1];
            && chunk != []
            && Inv(cfg, StepPop(cfg, s, t),
                   led.(place := ToLocal(led.place, |s.chunks| - 1, t)[chunk[|chunk| - 1] := InUse]))
  {
    hide TablesOk, BlocksOk, ListsOk, PlacesOk, IdsOk, ThreadOf, Address, UnsafeAddress;
    FreeFits(cfg, s.chunks, s.threads, t);
    var th, k := ThreadOf(s.threads, t), |s.chunks| - 1;
    var chunk := s.chunks[k];
    var id := chunk[|chunk| - 1];
    OneClaim(s, led.place, id, Global(k, |chunk| - 1));
    Addressed(cfg, s, led.place, id);
    UnsafeLocal(cfg, s, s.(chunks := s.chunks[..k]), id);
    var th' := th.(pc := Idle, free := chunk[..|chunk| - 1]);
    var s' := StepPop(cfg, s, t);
    ThreadSet(s.threads, t, th');
    var place' := ToLocal(led.place, k, t)[id := InUse];
    TablesAndBlocks(cfg, s, led, t, th');
    TablesForget(s'.groups, s'.ngroup, s'.lock, s'.threads, led, place');
    ListsPop(cfg, s.chunks, s.threads);
    ListsPlain(cfg, s.chunks[..k], s.threads, t, th');
    PlacesPop(s, s', led.place, t);
    IdsHandOut(cfg, s, s', led.place, place', t, id);
  }

  lemma UnsafeLocal(cfg: Config, s: State, s': State, id: Id)
    requires s'.groups == s.groups
    ensures UnsafeAddress(cfg, s', id) == UnsafeAddress(cfg, s, id)
  {
  }

  lemma StepReturnKeeps(cfg: Config, s: State, led: Ledger, t: Tid, id: Id)
    requires Inv(cfg, s, led) && ThreadOf(s.threads, t).pc == Idle && id in s.inUse
    ensures var th := ThreadOf(s.threads, t);
            var p := if |th.free| < FreeChunkNitem(cfg) then Local(t, |th.free|) else Returning(t);
            Inv(cfg, StepReturn(cfg, s, t, id), led.(place := led.place[id := p]))
  {
    hide TablesOk, BlocksOk, ListsOk, PlacesOk, IdsOk, ThreadOf;
    FreeFits(cfg, s.chunks, s.threads, t);
    var th := ThreadOf(s.threads, t);
    var s' := StepReturn(cfg, s, t, id);
    OneClaim(s, led.place, id, InUse);
    var stays := |th.free| < FreeChunkNitem(cfg);
    var th' := if stays then th.(free := th.free + [id]) else th.(pc := Push(id, s.inUse[id]));
    var place' := led.place[id := if stays then Local(t, |th.free|) else Returning(t)];
    ThreadSet(s.threads, t, th');
    TablesAndBlocks(cfg, s, led, t, th');
    TablesForget(s'.groups, s'.ngroup, s'.lock, s'.threads, led, place');
    ListsPlain(cfg, s.chunks, s.threads, t, th');
    if stays {
      PlacesReturn(s, s', led.place, t, id);
    } else {
      PlacesPushing(s, s', led.place, t, id);
    }
    IdsMove(cfg, s, s', led.place, place', t);
  }

  lemma StepPushKeeps(cfg: Config, s: State, led: Ledger, t: Tid, ok: bool)
    requires Inv(cfg, s, led) && ThreadOf(s.threads, t).pc.Push? && 0 < FreeChunkNitem(cfg)
    ensures var id := ThreadOf(s.threads, t).pc.id;
            Inv(cfg, StepPush(s, t, ok),
                led.(place := if ok then ToGlobal(led.place, t, |s.chunks|)[id := Local(t, 0)]
                              else led.place[id := InUse]))
  {
    hide TablesOk, BlocksOk, ListsOk, PlacesOk, IdsOk, ThreadOf, Address;
    FreeFits(cfg, s.chunks, s.threads, t);
    var th := ThreadOf(s.threads, t);
    var id := th.pc.id;
    OneClaim(s, led.place, id, Returning(t));
    var s' := StepPush(s, t, ok);
    var th' := if ok then th.(pc := Idle, free := [id]) else th.(pc := Idle);
    var place' := if ok then ToGlobal(led.place, t, |s.chunks|)[id := Local(t, 0)] else led.place[id := InUse];
    ThreadSet(s.threads, t, th');
    TablesAndBlocks(cfg, s, led, t, th');
    TablesForget(s'.groups, s'.ngroup, s'.lock, s'.threads, led, place');
    ListsPlain(cfg, s.chunks, s.threads, t, th');
    PushedAddress(cfg, s, led.place, t);
    if ok {
      ListsPush(cfg, s.chunks, s'.threads, th.free);
      PlacesPushed(s, s', led.place, t);
      IdsMove(cfg, s, s', led.place, place', t);
    } else {
      PlacesRefused(s, s', led.place, t);
      IdsHandOut(cfg, s, s', led.place, place', t, id);
    }
  }

  lemma PushedAddress(cfg: Config, s: State, place: map<Id, Place>, t: Tid)
    requires IdsOk(cfg, s, place) && ThreadOf(s.threads, t).pc.Push?
    ensures Address(cfg, s.groups, s.items, ThreadOf(s.threads, t).pc.id) == Some(ThreadOf(s.threads, t).pc.item)
  {
    hide Address, ThreadOf;
  }

  lemma StepExitKeeps(cfg: Config, s: State, led: Ledger, t: Tid, ok: bool)
    requires Inv(cfg, s, led) && ThreadOf(s.threads, t).pc == ExitPush
    ensures Inv(cfg, StepPush(s, t, ok),
                led.(place := if ok then ToGlobal(led.place, t, |s.chunks|) else ToLost(led.place, t)))
  {
    hide TablesOk, BlocksOk, ListsOk, PlacesOk, IdsOk, ThreadOf;
    FreeFits(cfg, s.chunks, s.threads, t);
    var s' := StepPush(s, t, ok);
    var place' := if ok then ToGlobal(led.place, t, |s.chunks|) else ToLost(led.place, t);
    ThreadSet(s.threads, t, NEW_THREAD);
    TablesAndBlocks(cfg, s, led, t, NEW_THREAD);
    TablesForget(s'.groups, s'.ngroup, s'.lock, s'.threads, led, place');
    ListsPlain(cfg, s.chunks, s.threads, t, NEW_THREAD);
    if ok {
      ListsPush(cfg, s.chunks, s'.threads, ThreadOf(s.threads, t).free);
    }
    PlacesExit(s, s', led.place, t, ok);
    IdsMove(cfg, s, s', led.place, place', t);
  }

  lemma BlocksConstruct(cfg: Config, s: State, home: map<BlockId, Home>, t: Tid, th': Thread, items': map<BlockId, nat>)
    requires BlocksOk(cfg, s.groups, s.items, s.threads, home) && ThreadOf(s.threads, t).pc == Construct
    requires th' == ThreadOf(s.threads, t).(pc := Idle)
    requires ThreadOf(s.threads, t).block.Some?
    requires var b := ThreadOf(s.threads, t).block.value;
             b in s.items && s.items[b] < cfg.nitem && items' == s.items[b := s.items[b] + 1]
    ensures BlocksOk(cfg, s.groups, items', s.threads[t := th'], home)
  {
    var threads' := s.threads[t := th'];
    assert forall u | u != t :: ThreadOf(threads', u) == ThreadOf(s.threads, u);
    assert ThreadOf(threads', t) == th';
    var b := th'.block.value;
    hide ThreadOf, SlotAt;
    assert home[b].Slot? by { assert ThreadBlocksOk(cfg, ThreadOf(s.threads, t), t, s.items, home); }
    forall u ensures ThreadBlocksOk(cfg, ThreadOf(threads', u), u, items', home) {
      assert ThreadBlocksOk(cfg, ThreadOf(s.threads, u), u, s.items, home);
    }
    assert Carried(th'.pc) == Carried(ThreadOf(s.threads, t).pc);
    hide Carried, ThreadBlocksOk;
  }

  lemma OwnSlot(cfg: Config, s: State, led: Ledger, t: Tid)
    requires Core(cfg, s, led) && ThreadOf(s.threads, t).pc == Construct
    ensures ThreadOf(s.threads, t).block.Some? && ThreadOf(s.threads, t).block.value in s.items
    ensures var b := ThreadOf(s.threads, t).block.value;
            && s.items[b] < cfg.nitem
            && SlotAt(s.groups, ThreadOf(s.threads, t).index) == Some(b)
            && forall i: nat | SlotAt(s.groups, i) == Some(b) :: i == ThreadOf(s.threads, t).index
    ensures |s.groups| <= MAX_NGROUP
  {
    hide ListsOk, PlacesOk, IdsOk, SlotAt, Carried, ThreadOf, CountsOk, LockPcOk, NeedsLock;
    assert ThreadBlocksOk(cfg, ThreadOf(s.threads, t), t, s.items, led.home);
  }

  lemma StepConstructKeeps(cfg: Config, s: State, led: Ledger, t: Tid)
    requires Inv(cfg, s, led) && ThreadOf(s.threads, t).pc == Construct
    ensures ThreadOf(s.threads, t).block.Some? && ThreadOf(s.threads, t).block.value in s.items
    ensures var th := ThreadOf(s.threads, t);
            Inv(cfg, StepConstruct(cfg, s, t, true),
                led.(place := led.place[IdOf(cfg, th.index, s.items[th.block.value]) := InUse]))
  {
    hide TablesOk, BlocksOk, ListsOk, PlacesOk, IdsOk, ThreadOf, Address, SlotAt, IdOf;
    OwnSlot(cfg, s, led, t);
    var th := ThreadOf(s.threads, t);
    var b := th.block.value;
    var k := s.items[b];
    var id := IdOf(cfg, th.index, k);
    AddressesConstructed(cfg, s.groups, s.items, th.index, b);
    NewId(cfg, s, led.place, id);
    var th' := th.(pc := Idle);
    var s' := StepConstruct(cfg, s, t, true);
    var place' := led.place[id := InUse];
    assert s'.inUse == s.inUse[id := Item(b, k)] && s'.threads == s.threads[t := th'];
    ThreadSet(s.threads, t, th');
    TablesPlain(s.groups, s.ngroup, s.lock, s.threads, led, t, th');
    TablesForget(s'.groups, s'.ngroup, s'.lock, s'.threads, led, place');
    BlocksConstruct(cfg, s, led.home, t, th', s'.items);
    FreeFits(cfg, s.chunks, s.threads, t);
    ListsPlain(cfg, s.chunks, s.threads, t, th');
    PlacesConstruct(s, s', led.place, t, id);
    IdsConstruct(cfg, s, s', led.place, t, id, Item(b, k));
  }

  lemma NewId(cfg: Config, s: State, place: map<Id, Place>, id: Id)
    requires IdsOk(cfg, s, place) && PlacesOk(s, place) && Address(cfg, s.groups, s.items, id) == None
    ensures id !in place && id !in s.inUse
  {
    hide Address, ThreadOf;
    assert IsAt(s, id, InUse) ==> id in place;
  }

  lemma IdsConstruct(cfg: Config, s: State, s': State, place: map<Id, Place>, t: Tid, id: Id, item: Item)
    requires IdsOk(cfg, s, place) && id !in place
    requires forall x :: Address(cfg, s'.groups, s'.items, x)
                      == if x == id then Some(item) else Address(cfg, s.groups, s.items, x)
    requires s'.inUse == s.inUse[id := item]
    requires forall u | u != t :: ThreadOf(s'.threads, u) == ThreadOf(s.threads, u)
    requires !ThreadOf(s'.threads, t).pc.Push?
    ensures IdsOk(cfg, s', place[id := InUse])
  {
    hide ThreadOf, Address;
  }

  /** Slots and their blocks' items did not change: neither did any address or place. */
  lemma IdsAndPlaces(cfg: Config, s: State, s': State, place: map<Id, Place>, t: Tid)
    requires IdsOk(cfg, s, place) && PlacesOk(s, place) && ListsOk(cfg, s.chunks, s.threads)
    requires forall id: nat :: Address(cfg, s'.groups, s'.items, id) == Address(cfg, s.groups, s.items, id)
    requires s'.inUse == s.inUse && s'.chunks == s.chunks && s'.lost == s.lost
    requires s'.threads == s.threads[t := ThreadOf(s'.threads, t)]
    requires var pc := ThreadOf(s.threads, t).pc; !pc.Push?
    requires var pc := ThreadOf(s'.threads, t).pc; !pc.Push? && pc != ExitPush && pc != PopTest && pc != PopLocked
    requires ThreadOf(s'.threads, t).free == ThreadOf(s.threads, t).free
    ensures IdsOk(cfg, s', place) && PlacesOk(s', place) && ListsOk(cfg, s'.chunks, s'.threads)
  {
    hide IdsOk, PlacesOk, ListsOk, Address, ThreadOf;
    ThreadSet(s.threads, t, ThreadOf(s'.threads, t));
    FreeFits(cfg, s.chunks, s.threads, t);
    IdsPlain(cfg, s, s', place, t);
    PlacesPlain(s, s', place, t);
    ListsPlain(cfg, s.chunks, s.threads, t, ThreadOf(s'.threads, t));
  }

  lemma BlocksNew(cfg: Config, groups: seq<Group>, items: map<BlockId, nat>, threads: map<Tid, Thread>,
                  home: map<BlockId, Home>, t: Tid, th: Thread, b: BlockId)
    requires BlocksOk(cfg, groups, items, threads, home) && b !in items
    requires Carried(ThreadOf(threads, t).pc) == None && Carried(th.pc) == Some(b) && th.pc != Construct
    requires th.block == ThreadOf(threads, t).block && th.index == ThreadOf(threads, t).index
    ensures BlocksOk(cfg, groups, items[b := 0], threads[t := th], home[b := Owner(t)])
  {
    var threads', items', home' := threads[t := th], items[b := 0], home[b := Owner(t)];
    assert forall u | u != t :: ThreadOf(threads', u) == ThreadOf(threads, u);
    assert ThreadOf(threads', t) == th;
    hide ThreadOf, SlotAt, Carried;
    forall u ensures ThreadBlocksOk(cfg, ThreadOf(threads', u), u, items', home') {
      assert ThreadBlocksOk(cfg, ThreadOf(threads, u), u, items, home);
    }
    hide ThreadBlocksOk;
  }

  lemma SlotsAlive(cfg: Config, groups: seq<Group>, items: map<BlockId, nat>, threads: map<Tid, Thread>,
                   home: map<BlockId, Home>, t: Tid)
    requires BlocksOk(cfg, groups, items, threads, home)
    ensures forall i: nat | SlotAt(groups, i).Some? :: SlotAt(groups, i).value in items
    ensures Carried(ThreadOf(threads, t).pc).Some? ==>
              var b := Carried(ThreadOf(threads, t).pc).value;
              && b in items && items[b] == 0 && b in home && home[b] == Owner(t)
              && forall i: nat :: SlotAt(groups, i) != Some(b)
  {
    hide ThreadOf, SlotAt, Carried;
    assert ThreadBlocksOk(cfg, ThreadOf(threads, t), t, items, home);
  }

  lemma StepNewBlockKeeps(cfg: Config, s: State, led: Ledger, t: Tid, b: BlockId)
    requires Inv(cfg, s, led) && ThreadOf(s.threads, t).pc == NewBlock && b !in s.items
    ensures Inv(cfg, Goto(s.(items := s.items[b := 0]), t, LoadGroups(b)), led.(home := led.home[b := Owner(t)]))
  {
    hide TablesOk, BlocksOk, ListsOk, PlacesOk, IdsOk, ThreadOf, Address, SlotAt;
    var th := ThreadOf(s.threads, t).(pc := LoadGroups(b));
    var s' := With(s.(items := s.items[b := 0]), t, th);
    ThreadSet(s.threads, t, th);
    SlotsAlive(cfg, s.groups, s.items, s.threads, led.home, t);
    AddressSame(cfg, s.groups, s.items, s'.groups, s'.items);
    TablesPlain(s.groups, s.ngroup, s.lock, s.threads, led, t, th);
    TablesMoved(s'.groups, s'.ngroup, s'.lock, s'.threads, led, led.home[b := Owner(t)]);
    BlocksNew(cfg, s.groups, s.items, s.threads, led.home, t, th, b);
    IdsAndPlaces(cfg, s, s', led.place, t);
  }

  lemma TablesMoved(groups: seq<Group>, ngroup: nat, lock: Lock, threads: map<Tid, Thread>, led: Ledger,
                    home: map<BlockId, Home>)
    requires TablesOk(groups, ngroup, lock, threads, led)
    ensures TablesOk(groups, ngroup, lock, threads, led.(home := home))
  {
    hide ThreadOf, GroupOk, LockOk, SameSlot;
    assert forall t, pc :: CountPcOk(pc, t, groups, led) ==> CountPcOk(pc, t, groups, led.(home := home));
    hide CountPcOk;
  }

  lemma BlocksDrop(cfg: Config, groups: seq<Group>, items: map<BlockId, nat>, threads: map<Tid, Thread>,
                   home: map<BlockId, Home>, t: Tid, th: Thread, b: BlockId)
    requires BlocksOk(cfg, groups, items, threads, home)
    requires Carried(ThreadOf(threads, t).pc) == Some(b) && Carried(th.pc) == None && th.pc != Construct
    requires th.block == None
    ensures BlocksOk(cfg, groups, items - {b}, threads[t := th], home - {b})
  {
    var threads', items', home' := threads[t := th], items - {b}, home - {b};
    assert forall u | u != t :: ThreadOf(threads', u) == ThreadOf(threads, u);
    assert ThreadOf(threads', t) == th;
    SlotsAlive(cfg, groups, items, threads, home, t);
    hide ThreadOf, SlotAt, Carried;
    forall u ensures ThreadBlocksOk(cfg, ThreadOf(threads', u), u, items', home') {
      assert ThreadBlocksOk(cfg, ThreadOf(threads, u), u, items, home);
    }
    hide ThreadBlocksOk;
  }

  lemma StepDropKeeps(cfg: Config, s: State, led: Ledger, t: Tid)
    requires Inv(cfg, s, led) && ThreadOf(s.threads, t).pc.DropBlock?
    ensures var b := ThreadOf(s.threads, t).pc.b;
            Inv(cfg, With(s.(items := s.items - {b}), t, ThreadOf(s.threads, t).(pc := Idle, block := None)),
                led.(home := led.home - {b}))
  {
    hide TablesOk, BlocksOk, ListsOk, PlacesOk, IdsOk, ThreadOf, Address, SlotAt;
    var b := ThreadOf(s.threads, t).pc.b;
    var th := ThreadOf(s.threads, t).(pc := Idle, block := None);
    var s' := With(s.(items := s.items - {b}), t, th);
    ThreadSet(s.threads, t, th);
    SlotsAlive(cfg, s.groups, s.items, s.threads, led.home, t);
    AddressSame(cfg, s.groups, s.items, s'.groups, s'.items);
    TablesPlain(s.groups, s.ngroup, s.lock, s.threads, led, t, th);
    TablesMoved(s'.groups, s'.ngroup, s'.lock, s'.threads, led, led.home - {b});
    BlocksDrop(cfg, s.groups, s.items, s.threads, led.home, t, th, b);
    IdsAndPlaces(cfg, s, s', led.place, t);
  }

  lemma BlocksRegroup(cfg: Config, groups: seq<Group>, groups': seq<Group>, items: map<BlockId, nat>,
                      threads: map<Tid, Thread>, home: map<BlockId, Home>)
    requires BlocksOk(cfg, groups, items, threads, home)
    requires forall i: nat :: SlotAt(groups', i) == SlotAt(groups, i)
    ensures BlocksOk(cfg, groups', items, threads, home)
  {
    hide SlotAt, ThreadOf, Carried, ThreadBlocksOk;
  }

  /** A step that changes no slot: only counters, the group table's length or the lock. */
  ghost predicate CountersMove(cfg: Config, s: State, led: Ledger, t: Tid, th: Thread, s': State, led': Ledger) {
    && TablesOk(s'.groups, s'.ngroup, s'.lock, s'.threads, led')
    && (forall i: nat :: SlotAt(s'.groups, i) == SlotAt(s.groups, i))
    && s' == s.(groups := s'.groups, ngroup := s'.ngroup, lock := s'.lock, threads := s.threads[t := th])
    && led'.home == led.home && led'.place == led.place
    && th == ThreadOf(s.threads, t).(pc := th.pc)
    && Carried(th.pc).Some? && Carried(th.pc) == Carried(ThreadOf(s.threads, t).pc)
  }

  lemma CounterCore(cfg: Config, s: State, led: Ledger, t: Tid, th: Thread, s': State, led': Ledger)
    requires Core(cfg, s, led) && CountersMove(cfg, s, led, t, th, s', led')
    ensures Core(cfg, s', led')
  {
    CarrierQuiet(th.pc);
    hide TablesOk, BlocksOk, ThreadOf, SlotAt, Carried;
    BlocksPlain(cfg, s.groups, s.items, s.threads, led.home, t, th);
    BlocksRegroup(cfg, s.groups, s'.groups, s.items, s'.threads, led.home);
  }

  lemma CounterStep(cfg: Config, s: State, led: Ledger, t: Tid, th: Thread, s': State, led': Ledger)
    requires Inv(cfg, s, led) && CountersMove(cfg, s, led, t, th, s', led')
    ensures Inv(cfg, s', led')
  {
    CounterCore(cfg, s, led, t, th, s', led');
    CarrierQuiet(th.pc);
    CarrierQuiet(ThreadOf(s.threads, t).pc);
    hide TablesOk, BlocksOk, ListsOk, PlacesOk, IdsOk, ThreadOf, Address, SlotAt, Carried;
    ThreadSet(s.threads, t, th);
    SlotsAlive(cfg, s.groups, s.items, s.threads, led.home, t);
    AddressSame(cfg, s.groups, s.items, s'.groups, s'.items);
    IdsAndPlaces(cfg, s, s', led.place, t);
  }

  lemma CarrierQuiet(pc: Pc)
    requires Carried(pc).Some?
    ensures !pc.Push? && pc != ExitPush && pc != PopTest && pc != PopLocked && pc != Construct
  {
  }

  /** The counter returned a free slot: it is this thread's alone. */
  lemma CountsClaim(groups: seq<Group>, threads: map<Tid, Thread>, led: Ledger,
                    t: Tid, th: Thread, ng: nat, groups': seq<Group>, led': Ledger)
    requires CountsOk(groups, threads, led)
    requires ThreadOf(threads, t).pc.FetchAdd? && ThreadOf(threads, t).pc.ng == ng && 1 <= ng <= |groups|
    requires groups[ng - 1].nblock < GROUP_NBLOCK
    requires groups' == groups[ng - 1 := groups[ng - 1].(nblock := groups[ng - 1].nblock + 1)]
    requires led' == led.(claimed := led.claimed[ng - 1 := groups[ng - 1].nblock + 1])
    requires th.pc == Store(ThreadOf(threads, t).pc.b, ng, groups[ng - 1].nblock)
    ensures CountsOk(groups', threads[t := th], led')
  {
    var threads' := threads[t := th];
    assert forall u | u != t :: ThreadOf(threads', u) == ThreadOf(threads, u);
    assert ThreadOf(threads', t) == th;
    hide ThreadOf;
    assert GroupOk(groups[ng - 1], led.claimed[ng - 1], led.pending[ng - 1]);
    assert led.claimed[ng - 1] == groups[ng - 1].nblock && led.pending[ng - 1] == {};
    forall u | u != t ensures CountPcOk(ThreadOf(threads', u).pc, u, groups', led') {
      assert CountPcOk(ThreadOf(threads, u).pc, u, groups, led);
    }
    forall u | u != t ensures !SameSlot(th.pc, ThreadOf(threads, u).pc) {
      assert CountPcOk(ThreadOf(threads, u).pc, u, groups, led);
    }
    assert CountPcOk(th.pc, t, groups', led');
    assert GroupOk(groups'[ng - 1], led'.claimed[ng - 1], led'.pending[ng - 1]);
    hide CountPcOk, GroupOk;
  }

  /** The counter ran over: the group is full and the overflow is still to be undone. */
  lemma CountsOverflow(groups: seq<Group>, threads: map<Tid, Thread>, led: Ledger,
                       t: Tid, th: Thread, ng: nat, groups': seq<Group>, led': Ledger)
    requires CountsOk(groups, threads, led)
    requires ThreadOf(threads, t).pc.FetchAdd? && ThreadOf(threads, t).pc.ng == ng && 1 <= ng <= |groups|
    requires groups[ng - 1].nblock >= GROUP_NBLOCK
    requires groups' == groups[ng - 1 := groups[ng - 1].(nblock := groups[ng - 1].nblock + 1)]
    requires |led.pending| == |groups| && led' == led.(pending := led.pending[ng - 1 := led.pending[ng - 1] + {t}])
    requires th.pc == FetchSub(ThreadOf(threads, t).pc.b, ng)
    ensures CountsOk(groups', threads[t := th], led')
  {
    var threads' := threads[t := th];
    assert forall u | u != t :: ThreadOf(threads', u) == ThreadOf(threads, u);
    assert ThreadOf(threads', t) == th;
    hide ThreadOf;
    assert GroupOk(groups[ng - 1], led.claimed[ng - 1], led.pending[ng - 1]);
    assert t !in led.pending[ng - 1];
    assert |led.pending[ng - 1] + {t}| == |led.pending[ng - 1]| + 1;
    forall u | u != t ensures CountPcOk(ThreadOf(threads', u).pc, u, groups', led') {
      assert CountPcOk(ThreadOf(threads, u).pc, u, groups, led);
    }
    assert CountPcOk(th.pc, t, groups', led');
    assert GroupOk(groups'[ng - 1], led'.claimed[ng - 1], led'.pending[ng - 1]);
    hide CountPcOk, GroupOk;
  }

  lemma CountsUndo(groups: seq<Group>, threads: map<Tid, Thread>, led: Ledger,
                   t: Tid, th: Thread, ng: nat, groups': seq<Group>, led': Ledger)
    requires CountsOk(groups, threads, led)
    requires ThreadOf(threads, t).pc.FetchSub? && ThreadOf(threads, t).pc.ng == ng && 1 <= ng <= |groups|
    requires |led.pending| == |groups| && led' == led.(pending := led.pending[ng - 1 := led.pending[ng - 1] - {t}])
    requires groups[ng - 1].nblock > 0 ==>
               groups' == groups[ng - 1 := groups[ng - 1].(nblock := groups[ng - 1].nblock - 1)]
    requires th.pc == WantLock(ThreadOf(threads, t).pc.b, ng)
    ensures groups[ng - 1].nblock > 0
    ensures CountsOk(groups', threads[t := th], led')
  {
    var threads' := threads[t := th];
    assert forall u | u != t :: ThreadOf(threads', u) == ThreadOf(threads, u);
    assert ThreadOf(threads', t) == th;
    hide ThreadOf;
    assert GroupOk(groups[ng - 1], led.claimed[ng - 1], led.pending[ng - 1]);
    assert CountPcOk(ThreadOf(threads, t).pc, t, groups, led);
    assert |led.pending[ng - 1] - {t}| == |led.pending[ng - 1]| - 1;
    forall u | u != t ensures CountPcOk(ThreadOf(threads', u).pc, u, groups', led') {
      assert CountPcOk(ThreadOf(threads, u).pc, u, groups, led);
    }
    assert CountPcOk(th.pc, t, groups', led');
    assert GroupOk(groups'[ng - 1], led'.claimed[ng - 1], led'.pending[ng - 1]);
    hide CountPcOk, GroupOk;
  }

  lemma CountsStore(groups: seq<Group>, threads: map<Tid, Thread>, led: Ledger,
                    t: Tid, th: Thread, ng: nat, slot: nat, b: BlockId, groups': seq<Group>)
    requires CountsOk(groups, threads, led)
    requires ThreadOf(threads, t).pc == Store(b, ng, slot) && th.pc == Construct
    requires 1 <= ng <= |groups| ==>
               groups' == groups[ng - 1 := groups[ng - 1].(blocks := groups[ng - 1].blocks[slot := b])]
    ensures 1 <= ng <= |groups| && slot < GROUP_NBLOCK && slot !in groups[ng - 1].blocks
    ensures CountsOk(groups', threads[t := th], led)
  {
    var threads' := threads[t := th];
    assert forall u | u != t :: ThreadOf(threads', u) == ThreadOf(threads, u);
    assert ThreadOf(threads', t) == th;
    hide ThreadOf;
    assert CountPcOk(ThreadOf(threads, t).pc, t, groups, led);
    assert GroupOk(groups[ng - 1], led.claimed[ng - 1], led.pending[ng - 1]);
    forall u | u != t ensures CountPcOk(ThreadOf(threads', u).pc, u, groups', led) {
      assert CountPcOk(ThreadOf(threads, u).pc, u, groups, led);
      assert !SameSlot(ThreadOf(threads, t).pc, ThreadOf(threads, u).pc);
    }
    assert CountPcOk(th.pc, t, groups', led);
    assert GroupOk(groups'[ng - 1], led.claimed[ng - 1], led.pending[ng - 1]);
    hide CountPcOk, GroupOk;
  }

  lemma BlocksStore(cfg: Config, groups: seq<Group>, items: map<BlockId, nat>, threads: map<Tid, Thread>,
                    home: map<BlockId, Home>, t: Tid, th: Thread, groups': seq<Group>, index: nat, b: BlockId)
    requires BlocksOk(cfg, groups, items, threads, home)
    requires Carried(ThreadOf(threads, t).pc) == Some(b)
    requires th.pc == Construct && th.block == Some(b) && th.index == index
    requires forall i: nat :: SlotAt(groups', i) == if i == index then Some(b) else SlotAt(groups, i)
    requires SlotAt(groups, index) == None
    ensures BlocksOk(cfg, groups', items, threads[t := th], home[b := Slot(index)])
  {
    var threads', home' := threads[t := th], home[b := Slot(index)];
    assert forall u | u != t :: ThreadOf(threads', u) == ThreadOf(threads, u);
    assert ThreadOf(threads', t) == th && Carried(th.pc) == None;
    SlotsAlive(cfg, groups, items, threads, home, t);
    hide ThreadOf, SlotAt, Carried;
    forall u ensures ThreadBlocksOk(cfg, ThreadOf(threads', u), u, items, home') {
      assert ThreadBlocksOk(cfg, ThreadOf(threads, u), u, items, home);
    }
    forall u | u != t ensures ThreadOf(threads, u).block != Some(b) {
      assert ThreadBlocksOk(cfg, ThreadOf(threads, u), u, items, home);
    }
    hide ThreadBlocksOk;
  }

  lemma TableFacts(cfg: Config, s: State, led: Ledger, t: Tid)
    requires Core(cfg, s, led)
    ensures |led.claimed| == |led.pending| == |s.groups| <= MAX_NGROUP
    ensures NeedsLock(ThreadOf(s.threads, t).pc) <==> s.lock == Held(t)
    ensures |s.groups| == s.ngroup + (if s.lock.Held? && ThreadOf(s.threads, s.lock.t).pc.StoreCount? then 1 else 0)
    ensures LockPcOk(ThreadOf(s.threads, t).pc, |s.groups|, s.ngroup)
    ensures CountPcOk(ThreadOf(s.threads, t).pc, t, s.groups, led)
  {
    hide BlocksOk, ListsOk, PlacesOk, IdsOk, ThreadOf, NeedsLock, LockPcOk, CountPcOk, GroupOk, SameSlot;
  }

  lemma StepFetchAddMoves(cfg: Config, s: State, led: Ledger, t: Tid, c: Choice) returns (th: Thread)
    requires Core(cfg, s, led) && ThreadOf(s.threads, t).pc.FetchAdd?
    ensures CountersMove(cfg, s, led, t, th, Step(cfg, s, t, c), NextLedger(cfg, s, led, t, c))
  {
    hide LockOk, CountsOk, BlocksOk, ThreadOf;
    TableFacts(cfg, s, led, t);
    var s', led' := Step(cfg, s, t, c), NextLedger(cfg, s, led, t, c);
    var b, ng := ThreadOf(s.threads, t).pc.b, ThreadOf(s.threads, t).pc.ng;
    var slot := s.groups[ng - 1].nblock;
    th := ThreadOf(s.threads, t).(pc := if slot < GROUP_NBLOCK then Store(b, ng, slot) else FetchSub(b, ng));
    ThreadSet(s.threads, t, th);
    LockPlain(|s.groups|, s.ngroup, s.lock, s.threads, t, th);
    if slot < GROUP_NBLOCK {
      CountsClaim(s.groups, s.threads, led, t, th, ng, s'.groups, led');
    } else {
      CountsOverflow(s.groups, s.threads, led, t, th, ng, s'.groups, led');
    }
    SlotsCounted(s.groups, ng, s'.groups);
  }

  lemma StepFetchAddKeeps(cfg: Config, s: State, led: Ledger, t: Tid, c: Choice)
    requires Inv(cfg, s, led) && ThreadOf(s.threads, t).pc.FetchAdd?
    ensures Inv(cfg, Step(cfg, s, t, c), NextLedger(cfg, s, led, t, c))
  {
    hide Inv, ThreadOf, Step, NextLedger, CountersMove;
    InvCore(cfg, s, led);
    var th := StepFetchAddMoves(cfg, s, led, t, c);
    CounterStep(cfg, s, led, t, th, Step(cfg, s, t, c), NextLedger(cfg, s, led, t, c));
  }

  lemma SlotsCounted(groups: seq<Group>, ng: nat, groups': seq<Group>)
    requires 1 <= ng <= |groups| == |groups'|
    requires forall g | 0 <= g < |groups| :: groups'[g].blocks == groups[g].blocks
    ensures forall i: nat :: SlotAt(groups', i) == SlotAt(groups, i)
  {
  }

  lemma StepFetchSubMoves(cfg: Config, s: State, led: Ledger, t: Tid, c: Choice) returns (th: Thread)
    requires Core(cfg, s, led) && ThreadOf(s.threads, t).pc.FetchSub?
    ensures CountersMove(cfg, s, led, t, th, Step(cfg, s, t, c), NextLedger(cfg, s, led, t, c))
  {
    hide LockOk, CountsOk, BlocksOk, ThreadOf;
    TableFacts(cfg, s, led, t);
    var s', led' := Step(cfg, s, t, c), NextLedger(cfg, s, led, t, c);
    var b, ng := ThreadOf(s.threads, t).pc.b, ThreadOf(s.threads, t).pc.ng;
    th := ThreadOf(s.threads, t).(pc := WantLock(b, ng));
    ThreadSet(s.threads, t, th);
    LockPlain(|s.groups|, s.ngroup, s.lock, s.threads, t, th);
    CountsUndo(s.groups, s.threads, led, t, th, ng, s'.groups, led');
    SlotsCounted(s.groups, ng, s'.groups);
  }

  lemma StepFetchSubKeeps(cfg: Config, s: State, led: Ledger, t: Tid, c: Choice)
    requires Inv(cfg, s, led) && ThreadOf(s.threads, t).pc.FetchSub?
    ensures Inv(cfg, Step(cfg, s, t, c), NextLedger(cfg, s, led, t, c))
  {
    hide Inv, ThreadOf, Step, NextLedger, CountersMove;
    InvCore(cfg, s, led);
    var th := StepFetchSubMoves(cfg, s, led, t, c);
    CounterStep(cfg, s, led, t, th, Step(cfg, s, t, c), NextLedger(cfg, s, led, t, c));
  }

  /** The thread stores its block in a slot that is free, and makes it its own. */
  ghost predicate StoresAt(s: State, led: Ledger, t: Tid, th: Thread, groups': seq<Group>, index: nat, b: BlockId) {
    && ThreadOf(s.threads, t).pc.Store? && ThreadOf(s.threads, t).pc.b == b
    && th == ThreadOf(s.threads, t).(pc := Construct, block := Some(b), index := index)
    && CountsOk(groups', s.threads[t := th], led) && |groups'| == |s.groups|
    && SlotAt(s.groups, index) == None
    && forall i: nat :: SlotAt(groups', i) == if i == index then Some(b) else SlotAt(s.groups, i)
  }

  lemma StepStoreMoves(cfg: Config, s: State, led: Ledger, t: Tid, c: Choice)
    returns (th: Thread, groups': seq<Group>, index: nat, b: BlockId)
    requires Core(cfg, s, led) && ThreadOf(s.threads, t).pc.Store?
    ensures StoresAt(s, led, t, th, groups', index, b)
    ensures Step(cfg, s, t, c) == With(s.(groups := groups'), t, th)
    ensures NextLedger(cfg, s, led, t, c) == led.(home := led.home[b := Slot(index)])
  {
    hide LockOk, CountsOk, BlocksOk, ThreadOf, SlotAt;
    TableFacts(cfg, s, led, t);
    b := ThreadOf(s.threads, t).pc.b;
    var ng, slot := ThreadOf(s.threads, t).pc.ng, ThreadOf(s.threads, t).pc.slot;
    index := (ng - 1) * GROUP_NBLOCK + slot;
    th := ThreadOf(s.threads, t).(pc := Construct, block := Some(b), index := index);
    groups' := s.groups[ng - 1 := s.groups[ng - 1].(blocks := s.groups[ng - 1].blocks[slot := b])];
    CountsStore(s.groups, s.threads, led, t, th, ng, slot, b, groups');
    SlotAtIndex(s.groups, ng, slot);
    forall i: nat ensures SlotAt(groups', i) == if i == index then Some(b) else SlotAt(s.groups, i) {
      SlotStored(s.groups, ng, slot, b, i);
    }
  }

  lemma StoreCore(cfg: Config, s: State, led: Ledger, t: Tid, th: Thread, groups': seq<Group>, index: nat, b: BlockId)
    requires Core(cfg, s, led) && StoresAt(s, led, t, th, groups', index, b)
    ensures Core(cfg, With(s.(groups := groups'), t, th), led.(home := led.home[b := Slot(index)]))
  {
    hide LockOk, CountsOk, BlocksOk, ThreadOf, SlotAt;
    LockPlain(|s.groups|, s.ngroup, s.lock, s.threads, t, th);
    TablesMoved(groups', s.ngroup, s.lock, s.threads[t := th], led, led.home[b := Slot(index)]);
    BlocksStore(cfg, s.groups, s.items, s.threads, led.home, t, th, groups', index, b);
  }

  lemma StepStoreKeeps(cfg: Config, s: State, led: Ledger, t: Tid, c: Choice)
    requires Inv(cfg, s, led) && ThreadOf(s.threads, t).pc.Store?
    ensures Inv(cfg, Step(cfg, s, t, c), NextLedger(cfg, s, led, t, c))
  {
    hide Inv, ThreadOf, Step, NextLedger, StoresAt;
    InvCore(cfg, s, led);
    var th, groups', index, b := StepStoreMoves(cfg, s, led, t, c);
    StoresBlock(cfg, s, led, t, th, groups', index, b);
  }

  lemma StoresBlock(cfg: Config, s: State, led: Ledger, t: Tid, th: Thread, groups': seq<Group>, index: nat, b: BlockId)
    requires Inv(cfg, s, led) && StoresAt(s, led, t, th, groups', index, b)
    ensures Inv(cfg, With(s.(groups := groups'), t, th), led.(home := led.home[b := Slot(index)]))
  {
    StoreCore(cfg, s, led, t, th, groups', index, b);
    hide TablesOk, CountsOk, BlocksOk, ListsOk, PlacesOk, IdsOk, ThreadOf, Address, SlotAt;
    var s' := With(s.(groups := groups'), t, th);
    ThreadSet(s.threads, t, th);
    SlotsAlive(cfg, s.groups, s.items, s.threads, led.home, t);
    AddressStored(cfg, s.groups, s.items, groups', index, b);
    IdsAndPlaces(cfg, s, s', led.place, t);
  }

  /** Steps under the lock, or to take it, that leave the group table alone. */
  lemma LockStep(cfg: Config, s: State, led: Ledger, t: Tid, pc: Pc, ngroup': nat, lock': Lock) returns (th: Thread)
    requires Core(cfg, s, led) && Carried(pc).Some? && Carried(pc) == Carried(ThreadOf(s.threads, t).pc)
    requires (if NeedsLock(ThreadOf(s.threads, t).pc) then s.lock == Held(t) else s.lock == Free)
    requires lock' == if NeedsLock(pc) then Held(t) else Free
    requires |s.groups| == ngroup' + (if pc.StoreCount? then 1 else 0)
    requires LockPcOk(pc, |s.groups|, ngroup') && CountPcOk(pc, t, s.groups, led)
    requires !ThreadOf(s.threads, t).pc.FetchSub? && !pc.Store?
    ensures CountersMove(cfg, s, led, t, th, Goto(s.(ngroup := ngroup', lock := lock'), t, pc), led)
  {
    hide LockOk, CountsOk, BlocksOk, ThreadOf, SlotAt, Carried, NeedsLock, LockPcOk, CountPcOk;
    TableFacts(cfg, s, led, t);
    th := ThreadOf(s.threads, t).(pc := pc);
    LockMoves(|s.groups|, s.ngroup, s.lock, s.threads, t, th, |s.groups|, ngroup', lock');
    CountsPlain(s.groups, s.threads, led, t, th);
  }

  lemma StepLockMoves(cfg: Config, s: State, led: Ledger, t: Tid, c: Choice) returns (th: Thread)
    requires Core(cfg, s, led)
    requires var pc := ThreadOf(s.threads, t).pc; pc.WantLock? || pc.Check? || pc.StoreCount? || pc.Unlock?
    ensures var s', led' := Step(cfg, s, t, c), NextLedger(cfg, s, led, t, c);
            (s' == s && led' == led) || CountersMove(cfg, s, led, t, th, s', led')
  {
    hide Core, ThreadOf, CountersMove;
    TableFacts(cfg, s, led, t);
    th := ThreadOf(s.threads, t);
    match th.pc
    case WantLock(b, ng) => if s.lock == Free { th := LockStep(cfg, s, led, t, Check(b, ng), s.ngroup, Held(t)); }
    case Check(b, ng) =>
      th := LockStep(cfg, s, led, t,
                     if s.ngroup != ng then Unlock(b, true)
                     else if s.ngroup < MAX_NGROUP && c.ok then StoreGroup(b, ng) else Unlock(b, false),
                     s.ngroup, s.lock);
    case StoreCount(b, ng) => th := LockStep(cfg, s, led, t, Unlock(b, true), ng + 1, s.lock);
    case Unlock(b, ok) => th := LockStep(cfg, s, led, t, if ok then LoadGroups(b) else DropBlock(b), s.ngroup, Free);
  }

  lemma StepLockKeeps(cfg: Config, s: State, led: Ledger, t: Tid, c: Choice)
    requires Inv(cfg, s, led)
    requires var pc := ThreadOf(s.threads, t).pc; pc.WantLock? || pc.Check? || pc.StoreCount? || pc.Unlock?
    ensures Inv(cfg, Step(cfg, s, t, c), NextLedger(cfg, s, led, t, c))
  {
    hide Inv, ThreadOf, Step, NextLedger, CountersMove;
    InvCore(cfg, s, led);
    var th := StepLockMoves(cfg, s, led, t, c);
    if Step(cfg, s, t, c) != s || NextLedger(cfg, s, led, t, c) != led {
      CounterStep(cfg, s, led, t, th, Step(cfg, s, t, c), NextLedger(cfg, s, led, t, c));
    }
  }

  lemma CountsGrow(groups: seq<Group>, threads: map<Tid, Thread>, led: Ledger, t: Tid, th: Thread)
    requires CountsOk(groups, threads, led)
    requires ThreadOf(threads, t).pc.StoreGroup? && th.pc.StoreCount?
    ensures CountsOk(groups + [Group(0, map[])], threads[t := th],
                     led.(claimed := led.claimed + [0], pending := led.pending + [{}]))
  {
    var groups', led' := groups + [Group(0, map[])], led.(claimed := led.claimed + [0], pending := led.pending + [{}]);
    var threads' := threads[t := th];
    assert forall u | u != t :: ThreadOf(threads', u) == ThreadOf(threads, u);
    assert ThreadOf(threads', t) == th;
    hide ThreadOf;
    forall u | u != t ensures CountPcOk(ThreadOf(threads', u).pc, u, groups', led') {
      assert CountPcOk(ThreadOf(threads, u).pc, u, groups, led);
    }
    assert GroupOk(Group(0, map[]), 0, {});
    hide GroupOk;
  }

  lemma StepGroupMoves(cfg: Config, s: State, led: Ledger, t: Tid, c: Choice) returns (th: Thread)
    requires Core(cfg, s, led) && ThreadOf(s.threads, t).pc.StoreGroup?
    ensures CountersMove(cfg, s, led, t, th, Step(cfg, s, t, c), NextLedger(cfg, s, led, t, c))
  {
    hide LockOk, CountsOk, BlocksOk, ThreadOf;
    TableFacts(cfg, s, led, t);
    var s', led' := Step(cfg, s, t, c), NextLedger(cfg, s, led, t, c);
    var b, ng := ThreadOf(s.threads, t).pc.b, ThreadOf(s.threads, t).pc.ng;
    th := ThreadOf(s.threads, t).(pc := StoreCount(b, ng));
    ThreadSet(s.threads, t, th);
    LockMoves(|s.groups|, s.ngroup, s.lock, s.threads, t, th, |s.groups| + 1, s.ngroup, s.lock);
    CountsGrow(s.groups, s.threads, led, t, th);
  }

  lemma StepGroupKeeps(cfg: Config, s: State, led: Ledger, t: Tid, c: Choice)
    requires Inv(cfg, s, led) && ThreadOf(s.threads, t).pc.StoreGroup?
    ensures Inv(cfg, Step(cfg, s, t, c), NextLedger(cfg, s, led, t, c))
  {
    hide Inv, ThreadOf, Step, NextLedger, CountersMove;
    InvCore(cfg, s, led);
    var th := StepGroupMoves(cfg, s, led, t, c);
    CounterStep(cfg, s, led, t, th, Step(cfg, s, t, c), NextLedger(cfg, s, led, t, c));
  }

  lemma StepPlainKeeps(cfg: Config, s: State, led: Ledger, t: Tid, c: Choice)
    requires Inv(cfg, s, led)
    requires var pc := ThreadOf(s.threads, t).pc; pc == PopTest || pc == TryLocal || pc.LoadGroups?
    ensures Inv(cfg, Step(cfg, s, t, c), NextLedger(cfg, s, led, t, c))
  {
    hide Inv, ThreadOf;
    InvCore(cfg, s, led);
    TableFacts(cfg, s, led, t);
    var th := ThreadOf(s.threads, t);
    if th.pc == PopTest {
      PopsEmpty(cfg, s, led, t);
      PlainStep(cfg, s, led, t, th.(pc := if s.chunks == [] then TryLocal else PopLocked));
    } else if th.pc == TryLocal {
      var own := th.block.Some? && th.block.value in s.items && s.items[th.block.value] < cfg.nitem;
      PlainStep(cfg, s, led, t, th.(pc := if own then Construct else NewBlock));
    } else {
      PlainStep(cfg, s, led, t, th.(pc := if s.ngroup >= 1 then FetchAdd(th.pc.b, s.ngroup) else WantLock(th.pc.b, 0)));
    }
  }

  lemma PopsEmpty(cfg: Config, s: State, led: Ledger, t: Tid)
    requires Inv(cfg, s, led) && (ThreadOf(s.threads, t).pc == PopTest || ThreadOf(s.threads, t).pc == PopLocked)
    ensures ThreadOf(s.threads, t).free == []
  {
    hide TablesOk, BlocksOk, PlacesOk, IdsOk, ThreadOf;
  }

  lemma StepIdleKeeps(cfg: Config, s: State, led: Ledger, t: Tid, c: Choice)
    requires Inv(cfg, s, led) && ThreadOf(s.threads, t).pc == Idle
    ensures Inv(cfg, Step(cfg, s, t, c), NextLedger(cfg, s, led, t, c))
  {
    hide Inv, ThreadOf;
    var th := ThreadOf(s.threads, t);
    match c.call
    case NoCall =>
    case Get =>
      if th.free != [] {
        StepGetKeeps(cfg, s, led, t);
      } else {
        PlainStep(cfg, s, led, t, th.(pc := PopTest));
      }
    case Return(id) =>
      if id in s.inUse {
        StepReturnKeeps(cfg, s, led, t, id);
      }
    case Exit =>
      PlainStep(cfg, s, led, t, if th.free != [] then th.(pc := ExitPush) else NEW_THREAD);
  }

  lemma StepFailsKeeps(cfg: Config, s: State, led: Ledger, t: Tid, c: Choice)
    requires Inv(cfg, s, led) && !c.ok
    requires var pc := ThreadOf(s.threads, t).pc; pc == Construct || pc == NewBlock
    ensures Inv(cfg, Step(cfg, s, t, c), NextLedger(cfg, s, led, t, c))
  {
    hide Inv, ThreadOf, SlotAt;
    InvCore(cfg, s, led);
    var th := ThreadOf(s.threads, t);
    if th.pc == Construct {
      OwnSlot(cfg, s, led, t);
      PlainStep(cfg, s, led, t, th.(pc := Idle));
    } else {
      PlainStep(cfg, s, led, t, th.(pc := Idle, block := None));
    }
  }

  lemma StepListsKeeps(cfg: Config, s: State, led: Ledger, t: Tid, c: Choice)
    requires Inv(cfg, s, led) && 0 < FreeChunkNitem(cfg)
    requires var pc := ThreadOf(s.threads, t).pc; pc == PopLocked || pc.Push? || pc == ExitPush
    ensures Inv(cfg, Step(cfg, s, t, c), NextLedger(cfg, s, led, t, c))
  {
    hide Inv, ThreadOf, FreeChunkNitem;
    var th := ThreadOf(s.threads, t);
    if th.pc.Push? {
      StepPushKeeps(cfg, s, led, t, c.ok);
    } else if th.pc == ExitPush {
      StepExitKeeps(cfg, s, led, t, c.ok);
    } else if s.chunks == [] {
      PopsEmpty(cfg, s, led, t);
      PlainStep(cfg, s, led, t, th.(pc := TryLocal));
    } else {
      StepPopKeeps(cfg, s, led, t);
    }
  }

  lemma StepMakesKeeps(cfg: Config, s: State, led: Ledger, t: Tid, c: Choice)
    requires Inv(cfg, s, led) && c.ok
    requires var pc := ThreadOf(s.threads, t).pc; pc == Construct || pc == NewBlock
    ensures Inv(cfg, Step(cfg, s, t, c), NextLedger(cfg, s, led, t, c))
  {
    hide Inv, ThreadOf;
    if ThreadOf(s.threads, t).pc == Construct {
      StepConstructKeeps(cfg, s, led, t);
    } else if c.spare !in s.items {
      StepNewBlockKeeps(cfg, s, led, t, c.spare);
    }
  }

  lemma StepDropsKeeps(cfg: Config, s: State, led: Ledger, t: Tid, c: Choice)
    requires Inv(cfg, s, led) && ThreadOf(s.threads, t).pc.DropBlock?
    ensures Inv(cfg, Step(cfg, s, t, c), NextLedger(cfg, s, led, t, c))
  {
    hide Inv, ThreadOf;
    StepDropKeeps(cfg, s, led, t);
  }

  // ---- every run

  /** Every atomic step keeps the invariant, as long as a local free list may hold an id. */
  lemma StepKeeps(cfg: Config, s: State, led: Ledger, t: Tid, c: Choice)
    requires Inv(cfg, s, led) && 0 < FreeChunkNitem(cfg)
    ensures Inv(cfg, Step(cfg, s, t, c), NextLedger(cfg, s, led, t, c))
  {
    hide Inv, Step, NextLedger, FreeChunkNitem;
    match ThreadOf(s.threads, t).pc
    case Idle => StepIdleKeeps(cfg, s, led, t, c);
    case PopTest => StepPlainKeeps(cfg, s, led, t, c);
    case PopLocked => StepListsKeeps(cfg, s, led, t, c);
    case TryLocal => StepPlainKeeps(cfg, s, led, t, c);
    case Construct => if c.ok { StepMakesKeeps(cfg, s, led, t, c); } else { StepFailsKeeps(cfg, s, led, t, c); }
    case NewBlock => if c.ok { StepMakesKeeps(cfg, s, led, t, c); } else { StepFailsKeeps(cfg, s, led, t, c); }
    case LoadGroups(_) => StepPlainKeeps(cfg, s, led, t, c);
    case FetchAdd(_, _) => StepFetchAddKeeps(cfg, s, led, t, c);
    case Store(_, _, _) => StepStoreKeeps(cfg, s, led, t, c);
    case FetchSub(_, _) => StepFetchSubKeeps(cfg, s, led, t, c);
    case DropBlock(_) => StepDropsKeeps(cfg, s, led, t, c);
    case WantLock(_, _) => StepLockKeeps(cfg, s, led, t, c);
    case Check(_, _) => StepLockKeeps(cfg, s, led, t, c);
    case StoreGroup(_, _) => StepGroupKeeps(cfg, s, led, t, c);
    case StoreCount(_, _) => StepLockKeeps(cfg, s, led, t, c);
    case Unlock(_, _) => StepLockKeeps(cfg, s, led, t, c);
    case Push(_, _) => StepListsKeeps(cfg, s, led, t, c);
    case ExitPush => StepListsKeeps(cfg, s, led, t, c);
  }

  lemma {:induction false} RunKeeps(cfg: Config, schedule: seq<(Tid, Choice)>) returns (led: Ledger)
    requires 0 < FreeChunkNitem(cfg)
    ensures Inv(cfg, Run(cfg, INITIAL, schedule), led)
  {
    hide Inv, Step, NextLedger, FreeChunkNitem;
    if schedule == [] {
      led := Ledger([], [], map[], map[]);
      InvInitially(cfg);
    } else {
      var n := |schedule| - 1;
      var led0 := RunKeeps(cfg, schedule[..n]);
      var s := Run(cfg, INITIAL, schedule[..n]);
      led := NextLedger(cfg, s, led0, schedule[n].0, schedule[n].1);
      StepKeeps(cfg, s, led0, schedule[n].0, schedule[n].1);
    }
  }

  /** Every id that names an object is in exactly one place, and no other id is anywhere. */
  lemma OnePlace(cfg: Config, schedule: seq<(Tid, Choice)>, id: Id)
    requires 0 < cfg.maxFree
    ensures var s := Run(cfg, INITIAL, schedule);
            && (Address(cfg, s.groups, s.items, id).Some? <==> exists p :: IsAt(s, id, p))
            && forall p, q | IsAt(s, id, p) && IsAt(s, id, q) :: p == q
  {
    var led := RunKeeps(cfg, schedule);
    var s := Run(cfg, INITIAL, schedule);
    hide TablesOk, BlocksOk, ListsOk, Run, Address, IsAt, ThreadOf;
    forall p ensures IsAt(s, id, p) <==> id in led.place && led.place[id] == p {
    }
    if id in led.place {
      assert IsAt(s, id, led.place[id]);
    }
  }

  /** What a caller holds is the object both lookups find. */
  lemma AddressesRight(cfg: Config, schedule: seq<(Tid, Choice)>)
    requires 0 < cfg.maxFree
    ensures var s := Run(cfg, INITIAL, schedule);
            forall id | id in s.inUse ::
              Address(cfg, s.groups, s.items, id) == UnsafeAddress(cfg, s, id) == Some(s.inUse[id])
  {
    var led := RunKeeps(cfg, schedule);
    var s := Run(cfg, INITIAL, schedule);
    hide Run, TablesOk, ListsOk, PlacesOk, ThreadOf, SlotAt, Carried, ThreadBlocksOk;
    forall id | id in s.inUse
      ensures Address(cfg, s.groups, s.items, id) == UnsafeAddress(cfg, s, id) == Some(s.inUse[id])
    {
      UnsafeIsSafe(cfg, s, id);
    }
  }

  /** No two ids name the same object, in any configuration. */
  lemma ObjectsDistinct(cfg: Config, schedule: seq<(Tid, Choice)>, x: Id, y: Id)
    requires var s := Run(cfg, INITIAL, schedule); x != y && Address(cfg, s.groups, s.items, x).Some?
    ensures var s := Run(cfg, INITIAL, schedule);
            Address(cfg, s.groups, s.items, x) != Address(cfg, s.groups, s.items, y)
  {
    var led := RunCore(cfg, schedule);
    hide Run, Address, TablesOk, BlocksOk;
    Apart(cfg, Run(cfg, INITIAL, schedule), led, x, y);
  }

  lemma Apart(cfg: Config, s: State, led: Ledger, x: nat, y: nat)
    requires BlocksOk(cfg, s.groups, s.items, s.threads, led.home) && x != y
    requires Address(cfg, s.groups, s.items, x).Some?
    ensures Address(cfg, s.groups, s.items, x) != Address(cfg, s.groups, s.items, y)
  {
    hide ThreadOf, SlotAt, Carried, ThreadBlocksOk;
    var i, j := x / cfg.nitem, y / cfg.nitem;
    assert SlotAt(s.groups, i).Some?;
    if SlotAt(s.groups, i) == SlotAt(s.groups, j) {
      assert led.home[SlotAt(s.groups, i).value] == Slot(i) && led.home[SlotAt(s.groups, j).value] == Slot(j);
    }
  }

  /** Threads that overran a group's counter and have still to undo it. */
  predicate Overrunning(s: State, t: Tid, g: nat) {
    ThreadOf(s.threads, t).pc.FetchSub? && ThreadOf(s.threads, t).pc.ng == g + 1
  }

  // ---- groups and blocks, however many ids a free list may hold

  /** Outside the tables: groups, blocks and their homes stay. */
  ghost predicate Calm(cfg: Config, s: State, led: Ledger, t: Tid, th: Thread, s': State, led': Ledger) {
    && s'.groups == s.groups && s'.ngroup == s.ngroup && s'.lock == s.lock && s'.items == s.items
    && (s'.threads == s.threads || s'.threads == s.threads[t := th])
    && led' == led.(place := led'.place)
    && Calms(ThreadOf(s.threads, t).pc) && Calms(th.pc)
    && (th.block.None? || (th.block == ThreadOf(s.threads, t).block && th.index == ThreadOf(s.threads, t).index))
    && (th.pc == Construct ==> th.block.Some? && th.block.value in s.items && s.items[th.block.value] < cfg.nitem)
  }

  predicate Calms(pc: Pc) {
    Quiet(pc) || pc == TryLocal || pc == NewBlock || pc == Construct
  }

  lemma CalmCore(cfg: Config, s: State, led: Ledger, t: Tid, th: Thread, s': State, led': Ledger)
    requires Core(cfg, s, led) && Calm(cfg, s, led, t, th, s', led')
    ensures Core(cfg, s', led')
  {
    hide TablesOk, BlocksOk, ThreadOf;
    TablesPlain(s.groups, s.ngroup, s.lock, s.threads, led, t, th);
    BlocksPlain(cfg, s.groups, s.items, s.threads, led.home, t, th);
    TablesForget(s.groups, s.ngroup, s.lock, s'.threads, led, led'.place);
  }

  lemma GetCalm(cfg: Config, s: State, led: Ledger, t: Tid, c: Choice) returns (th: Thread)
    requires ThreadOf(s.threads, t).pc == Idle && c.call == Get
    ensures Calm(cfg, s, led, t, th, Step(cfg, s, t, c), NextLedger(cfg, s, led, t, c))
  {
    hide ThreadOf, UnsafeAddress;
    th := ThreadOf(s.threads, t);
    th := if th.free != [] then th.(free := th.free[..|th.free| - 1]) else th.(pc := PopTest);
  }

  lemma CallCalm(cfg: Config, s: State, led: Ledger, t: Tid, c: Choice) returns (th: Thread)
    requires ThreadOf(s.threads, t).pc == Idle && c.call != Get
    ensures Calm(cfg, s, led, t, th, Step(cfg, s, t, c), NextLedger(cfg, s, led, t, c))
  {
    hide ThreadOf, FreeChunkNitem;
    th := ThreadOf(s.threads, t);
    match c.call
    case Return(id) =>
      if id in s.inUse {
        th := if |th.free| < FreeChunkNitem(cfg) then th.(free := th.free + [id]) else th.(pc := Push(id, s.inUse[id]));
      }
    case Exit => th := if th.free != [] then th.(pc := ExitPush) else NEW_THREAD;
    case _ =>
  }

  lemma PopCalm(cfg: Config, s: State, led: Ledger, t: Tid, c: Choice) returns (th: Thread)
    requires ThreadOf(s.threads, t).pc == PopTest || ThreadOf(s.threads, t).pc == PopLocked
    ensures Calm(cfg, s, led, t, th, Step(cfg, s, t, c), NextLedger(cfg, s, led, t, c))
  {
    hide ThreadOf, UnsafeAddress, ToLocal;
    th := ThreadOf(s.threads, t);
    if s.chunks == [] {
      th := th.(pc := TryLocal);
    } else if th.pc == PopTest {
      th := th.(pc := PopLocked);
    } else {
      var chunk := s.chunks[|s.chunks| - 1];
      if chunk != [] {
        th := th.(pc := Idle, free := chunk[..|chunk| - 1]);
      }
    }
  }

  lemma PushCalm(cfg: Config, s: State, led: Ledger, t: Tid, c: Choice) returns (th: Thread)
    requires ThreadOf(s.threads, t).pc.Push? || ThreadOf(s.threads, t).pc == ExitPush
    ensures Calm(cfg, s, led, t, th, Step(cfg, s, t, c), NextLedger(cfg, s, led, t, c))
  {
    hide ThreadOf, ToGlobal, ToLost;
    th := ThreadOf(s.threads, t);
    if th.pc == ExitPush {
      th := NEW_THREAD;
    } else {
      th := if c.ok then th.(pc := Idle, free := [th.pc.id]) else th.(pc := Idle);
    }
  }

  lemma LocalCalm(cfg: Config, s: State, led: Ledger, t: Tid, c: Choice) returns (th: Thread)
    requires Core(cfg, s, led)
    requires var pc := ThreadOf(s.threads, t).pc; pc == TryLocal || ((pc == NewBlock || pc == Construct) && !c.ok)
    ensures Calm(cfg, s, led, t, th, Step(cfg, s, t, c), NextLedger(cfg, s, led, t, c))
  {
    hide Core, ThreadOf, SlotAt;
    th := ThreadOf(s.threads, t);
    if th.pc == TryLocal {
      var own := th.block.Some? && th.block.value in s.items && s.items[th.block.value] < cfg.nitem;
      th := th.(pc := if own then Construct else NewBlock);
    } else if th.pc == Construct {
      OwnSlot(cfg, s, led, t);
      th := th.(pc := Idle);
    } else {
      th := th.(pc := Idle, block := None);
    }
  }

  lemma ConstructCore(cfg: Config, s: State, led: Ledger, t: Tid, c: Choice)
    requires Core(cfg, s, led) && ThreadOf(s.threads, t).pc == Construct && c.ok
    ensures Core(cfg, Step(cfg, s, t, c), NextLedger(cfg, s, led, t, c))
  {
    hide TablesOk, BlocksOk, ThreadOf, SlotAt, IdOf;
    OwnSlot(cfg, s, led, t);
    var th := ThreadOf(s.threads, t).(pc := Idle);
    var s', led' := Step(cfg, s, t, c), NextLedger(cfg, s, led, t, c);
    TablesPlain(s.groups, s.ngroup, s.lock, s.threads, led, t, th);
    TablesForget(s'.groups, s'.ngroup, s'.lock, s'.threads, led, led'.place);
    BlocksConstruct(cfg, s, led.home, t, th, s'.items);
  }

  lemma NewBlockCore(cfg: Config, s: State, led: Ledger, t: Tid, c: Choice)
    requires Core(cfg, s, led) && ThreadOf(s.threads, t).pc == NewBlock && c.ok
    ensures Core(cfg, Step(cfg, s, t, c), NextLedger(cfg, s, led, t, c))
  {
    hide TablesOk, BlocksOk, ThreadOf;
    if c.spare !in s.items {
      var b := c.spare;
      var th := ThreadOf(s.threads, t).(pc := LoadGroups(b));
      TablesPlain(s.groups, s.ngroup, s.lock, s.threads, led, t, th);
      TablesMoved(s.groups, s.ngroup, s.lock, s.threads[t := th], led, led.home[b := Owner(t)]);
      BlocksNew(cfg, s.groups, s.items, s.threads, led.home, t, th, b);
    }
  }

  lemma DropCore(cfg: Config, s: State, led: Ledger, t: Tid, c: Choice)
    requires Core(cfg, s, led) && ThreadOf(s.threads, t).pc.DropBlock?
    ensures Core(cfg, Step(cfg, s, t, c), NextLedger(cfg, s, led, t, c))
  {
    hide TablesOk, BlocksOk, ThreadOf;
    var b := ThreadOf(s.threads, t).pc.b;
    var th := ThreadOf(s.threads, t).(pc := Idle, block := None);
    TablesPlain(s.groups, s.ngroup, s.lock, s.threads, led, t, th);
    TablesMoved(s.groups, s.ngroup, s.lock, s.threads[t := th], led, led.home - {b});
    BlocksDrop(cfg, s.groups, s.items, s.threads, led.home, t, th, b);
  }

  lemma LoadCore(cfg: Config, s: State, led: Ledger, t: Tid, c: Choice)
    requires Core(cfg, s, led) && ThreadOf(s.threads, t).pc.LoadGroups?
    ensures Core(cfg, Step(cfg, s, t, c), NextLedger(cfg, s, led, t, c))
  {
    TableFacts(cfg, s, led, t);
    hide TablesOk, BlocksOk, ThreadOf;
    var b := ThreadOf(s.threads, t).pc.b;
    var th := ThreadOf(s.threads, t).(pc := if s.ngroup >= 1 then FetchAdd(b, s.ngroup) else WantLock(b, 0));
    TablesPlain(s.groups, s.ngroup, s.lock, s.threads, led, t, th);
    BlocksPlain(cfg, s.groups, s.items, s.threads, led.home, t, th);
  }

  lemma CalmStep(cfg: Config, s: State, led: Ledger, t: Tid, c: Choice)
    requires Core(cfg, s, led)
    requires var pc := ThreadOf(s.threads, t).pc; Calms(pc) && (pc == NewBlock || pc == Construct ==> !c.ok)
    ensures Core(cfg, Step(cfg, s, t, c), NextLedger(cfg, s, led, t, c))
  {
    hide Core, Step, NextLedger, Calm, ThreadOf;
    var pc, s' := ThreadOf(s.threads, t).pc, Step(cfg, s, t, c);
    var th;
    if pc == Idle {
      if c.call == Get {
        th := GetCalm(cfg, s, led, t, c);
      } else {
        th := CallCalm(cfg, s, led, t, c);
      }
    } else if pc == PopTest || pc == PopLocked {
      th := PopCalm(cfg, s, led, t, c);
    } else if Quiet(pc) {
      th := PushCalm(cfg, s, led, t, c);
    } else {
      th := LocalCalm(cfg, s, led, t, c);
    }
    CalmCore(cfg, s, led, t, th, s', NextLedger(cfg, s, led, t, c));
  }

  lemma CounterMoves(cfg: Config, s: State, led: Ledger, t: Tid, c: Choice)
    requires Core(cfg, s, led)
    requires var pc := ThreadOf(s.threads, t).pc;
             || pc.FetchAdd? || pc.FetchSub? || pc.WantLock? || pc.Check? || pc.StoreGroup? || pc.StoreCount?
             || pc.Unlock?
    ensures Core(cfg, Step(cfg, s, t, c), NextLedger(cfg, s, led, t, c))
  {
    hide Core, Step, NextLedger, CountersMove, ThreadOf;
    var pc, s', led' := ThreadOf(s.threads, t).pc, Step(cfg, s, t, c), NextLedger(cfg, s, led, t, c);
    var th;
    if pc.FetchAdd? {
      th := StepFetchAddMoves(cfg, s, led, t, c);
    } else if pc.FetchSub? {
      th := StepFetchSubMoves(cfg, s, led, t, c);
    } else if pc.StoreGroup? {
      th := StepGroupMoves(cfg, s, led, t, c);
    } else {
      th := StepLockMoves(cfg, s, led, t, c);
    }
    if s' != s || led' != led {
      CounterCore(cfg, s, led, t, th, s', led');
    }
  }

  /** Every atomic step, also one that faults, keeps groups and blocks as they should be. */
  lemma StepCore(cfg: Config, s: State, led: Ledger, t: Tid, c: Choice)
    requires Core(cfg, s, led)
    ensures Core(cfg, Step(cfg, s, t, c), NextLedger(cfg, s, led, t, c))
  {
    hide Core, Step, NextLedger, ThreadOf, StoresAt;
    var pc := ThreadOf(s.threads, t).pc;
    if pc == Construct && c.ok {
      ConstructCore(cfg, s, led, t, c);
    } else if pc == NewBlock && c.ok {
      NewBlockCore(cfg, s, led, t, c);
    } else if pc.LoadGroups? {
      LoadCore(cfg, s, led, t, c);
    } else if pc.DropBlock? {
      DropCore(cfg, s, led, t, c);
    } else if pc.Store? {
      var th, groups', index, b := StepStoreMoves(cfg, s, led, t, c);
      StoreCore(cfg, s, led, t, th, groups', index, b);
    } else if Calms(pc) {
      CalmStep(cfg, s, led, t, c);
    } else {
      CounterMoves(cfg, s, led, t, c);
    }
  }

  lemma {:induction false} RunCore(cfg: Config, schedule: seq<(Tid, Choice)>) returns (led: Ledger)
    ensures Core(cfg, Run(cfg, INITIAL, schedule), led)
  {
    hide Core, Step, NextLedger;
    if schedule == [] {
      led := Ledger([], [], map[], map[]);
      InvInitially(cfg);
      InvCore(cfg, INITIAL, led);
    } else {
      var n := |schedule| - 1;
      var led0 := RunCore(cfg, schedule[..n]);
      var s := Run(cfg, INITIAL, schedule[..n]);
      led := NextLedger(cfg, s, led0, schedule[n].0, schedule[n].1);
      StepCore(cfg, s, led0, schedule[n].0, schedule[n].1);
    }
  }

  /**
   * In every configuration, each group's counter is the number of slots claimed plus the overflows
   * not yet undone; there are such overflows only when the group is full; no stored slot lies beyond
   * the claimed ones, and no two threads own the same index.
   */
  lemma CountersExact(cfg: Config, schedule: seq<(Tid, Choice)>) returns (claimed: seq<nat>, pending: seq<set<Tid>>)
    ensures var s := Run(cfg, INITIAL, schedule);
            && |claimed| == |pending| == |s.groups|
            && (forall g | 0 <= g < |s.groups| :: GroupOk(s.groups[g], claimed[g], pending[g]))
            && (forall g: nat, t | g < |s.groups| :: t in pending[g] <==> Overrunning(s, t, g))
    ensures var s := Run(cfg, INITIAL, schedule);
            forall t, u | t != u && ThreadOf(s.threads, t).block.Some? && ThreadOf(s.threads, u).block.Some? ::
              ThreadOf(s.threads, t).index != ThreadOf(s.threads, u).index
  {
    hide Core, Run, GroupOk, Overrunning, ThreadOf;
    var led := RunCore(cfg, schedule);
    var s := Run(cfg, INITIAL, schedule);
    claimed, pending := led.claimed, led.pending;
    GroupsCounted(cfg, s, led);
    forall t, u | t != u && ThreadOf(s.threads, t).block.Some? && ThreadOf(s.threads, u).block.Some?
      ensures ThreadOf(s.threads, t).index != ThreadOf(s.threads, u).index
    {
      OwnIndex(cfg, s, led, t, u);
    }
  }

  lemma GroupsCounted(cfg: Config, s: State, led: Ledger)
    requires Core(cfg, s, led)
    ensures |led.claimed| == |led.pending| == |s.groups|
    ensures forall g | 0 <= g < |s.groups| :: GroupOk(s.groups[g], led.claimed[g], led.pending[g])
    ensures forall g: nat, t | g < |s.groups| :: t in led.pending[g] <==> Overrunning(s, t, g)
  {
    hide BlocksOk, ListsOk, PlacesOk, IdsOk, ThreadOf, LockOk, GroupOk, SameSlot;
    forall g: nat, t | g < |s.groups| ensures t in led.pending[g] <==> Overrunning(s, t, g) {
      assert CountPcOk(ThreadOf(s.threads, t).pc, t, s.groups, led);
    }
  }

  lemma OwnIndex(cfg: Config, s: State, led: Ledger, t: Tid, u: Tid)
    requires Core(cfg, s, led) && t != u
    requires ThreadOf(s.threads, t).block.Some? && ThreadOf(s.threads, u).block.Some?
    ensures ThreadOf(s.threads, t).index != ThreadOf(s.threads, u).index
  {
    hide TablesOk, ListsOk, PlacesOk, IdsOk, ThreadOf, Carried, SlotAt;
    assert ThreadBlocksOk(cfg, ThreadOf(s.threads, t), t, s.items, led.home);
    assert ThreadBlocksOk(cfg, ThreadOf(s.threads, u), u, s.items, led.home);
    hide ThreadBlocksOk;
  }

  /** Every chunk in the global list holds an id and fits a free list. */
  lemma ChunksFit(cfg: Config, schedule: seq<(Tid, Choice)>)
    requires 0 < cfg.maxFree
    ensures forall chunk | chunk in Run(cfg, INITIAL, schedule).chunks ::
              0 < |chunk| <= FreeChunkNitem(cfg) <= cfg.nitem
  {
    var led := RunKeeps(cfg, schedule);
    hide Run, TablesOk, BlocksOk, PlacesOk, IdsOk, ThreadOf;
  }

  // ---- an id keeps its object

  /** Slots keep their block and their blocks lose no item. */
  ghost predicate Keeps(groups: seq<Group>, items: map<BlockId, nat>, groups': seq<Group>, items': map<BlockId, nat>) {
    forall i: nat | SlotAt(groups, i).Some? && SlotAt(groups, i).value in items ::
      && SlotAt(groups', i) == SlotAt(groups, i)
      && SlotAt(groups, i).value in items'
      && items[SlotAt(groups, i).value] <= items'[SlotAt(groups, i).value]
  }

  lemma KeepsAddress(cfg: Config, groups: seq<Group>, items: map<BlockId, nat>, groups': seq<Group>,
                     items': map<BlockId, nat>, id: Id)
    requires Keeps(groups, items, groups', items') && Address(cfg, groups, items, id).Some?
    ensures Address(cfg, groups', items', id) == Address(cfg, groups, items, id)
  {
    hide SlotAt;
    assert SlotAt(groups, id / cfg.nitem).Some?;
  }

  lemma SameTables(s: State, s': State)
    requires s'.groups == s.groups && s'.items == s.items
    ensures Keeps(s.groups, s.items, s'.groups, s'.items)
  {
  }

  lemma CallsKeepSlots(cfg: Config, s: State, t: Tid, c: Choice)
    requires ThreadOf(s.threads, t).pc == Idle
    ensures Step(cfg, s, t, c).groups == s.groups && Step(cfg, s, t, c).items == s.items
  {
    hide ThreadOf, UnsafeAddress;
  }

  lemma ListsKeepSlots(cfg: Config, s: State, t: Tid, c: Choice)
    requires var pc := ThreadOf(s.threads, t).pc;
             pc == PopTest || pc == PopLocked || pc == TryLocal || pc.Push? || pc == ExitPush
    ensures Step(cfg, s, t, c).groups == s.groups && Step(cfg, s, t, c).items == s.items
  {
    hide ThreadOf, UnsafeAddress;
  }

  lemma LocksKeepSlots(cfg: Config, s: State, t: Tid, c: Choice)
    requires var pc := ThreadOf(s.threads, t).pc;
             pc.LoadGroups? || pc.WantLock? || pc.Check? || pc.StoreCount? || pc.Unlock?
    ensures Step(cfg, s, t, c).groups == s.groups && Step(cfg, s, t, c).items == s.items
  {
    hide ThreadOf;
  }

  lemma MakesKeepSlots(cfg: Config, s: State, led: Ledger, t: Tid, c: Choice)
    requires Core(cfg, s, led)
    requires var pc := ThreadOf(s.threads, t).pc; pc == Construct || pc == NewBlock || pc.DropBlock?
    ensures Keeps(s.groups, s.items, Step(cfg, s, t, c).groups, Step(cfg, s, t, c).items)
  {
    hide TablesOk, BlocksOk, ThreadOf, SlotAt, IdOf;
    SlotsAlive(cfg, s.groups, s.items, s.threads, led.home, t);
  }

  lemma CountsKeepSlots(cfg: Config, s: State, led: Ledger, t: Tid, c: Choice)
    requires Core(cfg, s, led)
    requires var pc := ThreadOf(s.threads, t).pc; pc.FetchAdd? || pc.FetchSub? || pc.StoreGroup?
    ensures Keeps(s.groups, s.items, Step(cfg, s, t, c).groups, Step(cfg, s, t, c).items)
  {
    hide Core, ThreadOf, SlotAt, NeedsLock, LockPcOk, Step, CountPcOk;
    TableFacts(cfg, s, led, t);
    CountsTouch(cfg, s, t, c);
    SlotsExtend(s.groups, Step(cfg, s, t, c).groups);
  }

  lemma CountsTouch(cfg: Config, s: State, t: Tid, c: Choice)
    requires var pc := ThreadOf(s.threads, t).pc; pc.FetchAdd? || pc.FetchSub? || pc.StoreGroup?
    ensures var s' := Step(cfg, s, t, c);
            && s'.items == s.items && |s.groups| <= |s'.groups|
            && forall g | 0 <= g < |s.groups| :: s'.groups[g].blocks == s.groups[g].blocks
  {
    hide ThreadOf;
  }

  lemma SlotsExtend(groups: seq<Group>, groups': seq<Group>)
    requires |groups| <= |groups'|
    requires forall g | 0 <= g < |groups| :: groups'[g].blocks == groups[g].blocks
    ensures forall i: nat | SlotAt(groups, i).Some? :: SlotAt(groups', i) == SlotAt(groups, i)
  {
  }

  lemma StoreKeepsSlots(cfg: Config, s: State, led: Ledger, t: Tid, c: Choice)
    requires Core(cfg, s, led) && ThreadOf(s.threads, t).pc.Store?
    ensures Keeps(s.groups, s.items, Step(cfg, s, t, c).groups, Step(cfg, s, t, c).items)
  {
    hide LockOk, BlocksOk, ThreadOf, SlotAt;
    TableFacts(cfg, s, led, t);
    var b, ng, slot := ThreadOf(s.threads, t).pc.b, ThreadOf(s.threads, t).pc.ng, ThreadOf(s.threads, t).pc.slot;
    assert GroupOk(s.groups[ng - 1], led.claimed[ng - 1], led.pending[ng - 1]);
    hide CountsOk;
    SlotAtIndex(s.groups, ng, slot);
    var s' := Step(cfg, s, t, c);
    forall i: nat | SlotAt(s.groups, i).Some? ensures SlotAt(s'.groups, i) == SlotAt(s.groups, i) {
      SlotStored(s.groups, ng, slot, b, i);
    }
  }

  lemma StepKeepsSlots(cfg: Config, s: State, led: Ledger, t: Tid, c: Choice)
    requires Core(cfg, s, led)
    ensures Keeps(s.groups, s.items, Step(cfg, s, t, c).groups, Step(cfg, s, t, c).items)
  {
    hide Core, Step, Keeps;
    var pc := ThreadOf(s.threads, t).pc;
    if pc == Construct || pc == NewBlock || pc.DropBlock? {
      MakesKeepSlots(cfg, s, led, t, c);
    } else if pc.FetchAdd? || pc.FetchSub? || pc.StoreGroup? {
      CountsKeepSlots(cfg, s, led, t, c);
    } else if pc.Store? {
      StoreKeepsSlots(cfg, s, led, t, c);
    } else {
      if pc == Idle {
        CallsKeepSlots(cfg, s, t, c);
      } else if pc == PopTest || pc == PopLocked || pc == TryLocal || pc.Push? || pc == ExitPush {
        ListsKeepSlots(cfg, s, t, c);
      } else {
        LocksKeepSlots(cfg, s, t, c);
      }
      SameTables(s, Step(cfg, s, t, c));
    }
  }

  /** Once an id names an object, it names that object for the rest of the run. */
  lemma {:induction false} IdKeepsItsObject(cfg: Config, schedule: seq<(Tid, Choice)>, k: nat, id: Id)
    requires k <= |schedule|
    requires var s := Run(cfg, INITIAL, schedule[..k]); Address(cfg, s.groups, s.items, id).Some?
    ensures var s, s' := Run(cfg, INITIAL, schedule[..k]), Run(cfg, INITIAL, schedule);
            Address(cfg, s'.groups, s'.items, id) == Address(cfg, s.groups, s.items, id)
    decreases |schedule|
  {
    hide Core, Step, Keeps, Address;
    if k == |schedule| {
      assert schedule[..k] == schedule;
    } else {
      var n := |schedule| - 1;
      assert schedule[..n][..k] == schedule[..k];
      IdKeepsItsObject(cfg, schedule[..n], k, id);
      var led := RunCore(cfg, schedule[..n]);
      var s := Run(cfg, INITIAL, schedule[..n]);
      StepKeepsSlots(cfg, s, led, schedule[n].0, schedule[n].1);
      var s' := Run(cfg, INITIAL, schedule);
      KeepsAddress(cfg, s.groups, s.items, s'.groups, s'.items, id);
    }
  }

  // ---- a free list must be able to hold an id

  lemma RunOne(cfg: Config, schedule: seq<(Tid, Choice)>, t: Tid, c: Choice)
    ensures Run(cfg, INITIAL, schedule + [(t, c)]) == Step(cfg, Run(cfg, INITIAL, schedule), t, c)
  {
    assert (schedule + [(t, c)])[..|schedule|] == schedule;
  }

  const CALL_GET: Choice := Choice(Get, 0, true)
  const GO_ON: Choice := Choice(NoCall, 0, true)
  const GIVE_BACK: Choice := Choice(Return(0), 0, true)

  /** Thread 0, working alone, has come to this point with this local free list. */
  predicate Alone(s: State, pc: Pc, free: seq<Id>) {
    && !s.fault && s.lost == {}
    && ThreadOf(s.threads, 0).pc == pc && ThreadOf(s.threads, 0).free == free
  }

  /** Its first block is still outside the table. */
  predicate BlockMade(s: State) {
    0 in s.items && s.items[0] == 0 && s.chunks == [] && s.inUse == map[]
  }

  lemma Moves(cfg: Config, schedule: seq<(Tid, Choice)>, c: Choice) returns (more: seq<(Tid, Choice)>)
    ensures Run(cfg, INITIAL, more) == Step(cfg, Run(cfg, INITIAL, schedule), 0, c)
  {
    hide Step, Run;
    more := schedule + [(0, c)];
    RunOne(cfg, schedule, 0, c);
  }

  lemma MakesBlock(cfg: Config) returns (schedule: seq<(Tid, Choice)>)
    ensures var s := Run(cfg, INITIAL, schedule);
            Alone(s, LoadGroups(0), []) && BlockMade(s) && s.groups == [] && s.ngroup == 0 && s.lock == Free
  {
    schedule := [];
    assert Run(cfg, INITIAL, schedule) == INITIAL;
    hide Run;
    schedule := Moves(cfg, schedule, CALL_GET);
    assert Alone(Run(cfg, INITIAL, schedule), PopTest, []);
    schedule := Moves(cfg, schedule, GO_ON);
    assert Alone(Run(cfg, INITIAL, schedule), TryLocal, []);
    schedule := Moves(cfg, schedule, GO_ON);
    assert Alone(Run(cfg, INITIAL, schedule), NewBlock, []);
    schedule := Moves(cfg, schedule, GO_ON);
  }

  lemma MakesGroup(cfg: Config) returns (schedule: seq<(Tid, Choice)>)
    ensures var s := Run(cfg, INITIAL, schedule);
            Alone(s, LoadGroups(0), []) && BlockMade(s) && s.groups == [Group(0, map[])] && s.ngroup == 1
  {
    schedule := MakesBlock(cfg);
    hide Run;
    schedule := Moves(cfg, schedule, GO_ON);
    assert Alone(Run(cfg, INITIAL, schedule), WantLock(0, 0), []);
    schedule := Moves(cfg, schedule, GO_ON);
    assert Alone(Run(cfg, INITIAL, schedule), Check(0, 0), []);
    schedule := Moves(cfg, schedule, GO_ON);
    assert Alone(Run(cfg, INITIAL, schedule), StoreGroup(0, 0), []);
    schedule := Moves(cfg, schedule, GO_ON);
    assert Alone(Run(cfg, INITIAL, schedule), StoreCount(0, 0), []);
    schedule := Moves(cfg, schedule, GO_ON);
    assert Alone(Run(cfg, INITIAL, schedule), Unlock(0, true), []);
    schedule := Moves(cfg, schedule, GO_ON);
  }

  /** The first object of all is taken from a new block in a new group. */
  lemma FirstGet(cfg: Config) returns (schedule: seq<(Tid, Choice)>)
    ensures var s := Run(cfg, INITIAL, schedule);
            Alone(s, Idle, []) && s.chunks == [] && s.inUse.Keys == {0} && SlotAt(s.groups, 0).Some?
  {
    schedule := MakesGroup(cfg);
    hide Run;
    schedule := Moves(cfg, schedule, GO_ON);
    assert Alone(Run(cfg, INITIAL, schedule), FetchAdd(0, 1), []);
    schedule := Moves(cfg, schedule, GO_ON);
    assert Alone(Run(cfg, INITIAL, schedule), Store(0, 1, 0), []);
    schedule := Moves(cfg, schedule, GO_ON);
    assert Alone(Run(cfg, INITIAL, schedule), Construct, []);
    schedule := Moves(cfg, schedule, GO_ON);
  }

  /** Giving the object back puts an empty chunk into the global list. */
  lemma PushesEmpty(cfg: Config) returns (schedule: seq<(Tid, Choice)>)
    requires cfg.maxFree == 0
    ensures var s := Run(cfg, INITIAL, schedule);
            Alone(s, Idle, [0]) && s.chunks == [[]] && s.inUse.Keys == {} && SlotAt(s.groups, 0).Some?
  {
    schedule := FirstGet(cfg);
    hide Run, SlotAt;
    schedule := Moves(cfg, schedule, GIVE_BACK);
    assert ThreadOf(Run(cfg, INITIAL, schedule).threads, 0).pc.Push?;
    schedule := Moves(cfg, schedule, GO_ON);
  }

  /**
   * With room for no id at all, one thread that gets, returns and gets again pops an empty chunk
   * and counts below zero.
   */
  lemma EmptyChunkFaults(cfg: Config) returns (schedule: seq<(Tid, Choice)>)
    requires cfg.maxFree == 0
    ensures Run(cfg, INITIAL, schedule).fault
  {
    schedule := PushesEmpty(cfg);
    hide Run, SlotAt;
    assert 0 / cfg.nitem == 0;
    schedule := Moves(cfg, schedule, CALL_GET);
    assert Alone(Run(cfg, INITIAL, schedule), Idle, []) && Run(cfg, INITIAL, schedule).chunks == [[]];
    schedule := Moves(cfg, schedule, CALL_GET);
    schedule := Moves(cfg, schedule, GO_ON);
    assert Alone(Run(cfg, INITIAL, schedule), PopLocked, []) && Run(cfg, INITIAL, schedule).chunks == [[]];
    schedule := Moves(cfg, schedule, GO_ON);
  }

  /**
   * No run stores over a slot, gives out an id twice, follows a null pointer, overfills a free
   * list or counts below zero: exactly when the configured free list may hold an id.
   */
  lemma NeverFaults(cfg: Config)
    ensures (forall schedule :: !Run(cfg, INITIAL, schedule).fault) <==> 0 < cfg.maxFree
  {
    hide Inv, Run;
    if cfg.maxFree == 0 {
      var schedule := EmptyChunkFaults(cfg);
      assert Run(cfg, INITIAL, schedule).fault;
    } else {
      forall schedule ensures !Run(cfg, INITIAL, schedule).fault {
        var led := RunKeeps(cfg, schedule);
        InvNoFault(cfg, Run(cfg, INITIAL, schedule), led);
      }
    }
  }

  lemma InvNoFault(cfg: Config, s: State, led: Ledger)
    requires Inv(cfg, s, led)
    ensures !s.fault
  {
  }
}
