/** How the resource pool uses what it has: blocks are filled, and free ids taken first. */
module PoolUse {
  import opened ResourcePool

  // ---- what one step does to the thread that makes it

  /** Inside add_block. */
  predicate Adding(pc: Pc) {
    pc == NewBlock || Carried(pc).Some?
  }

  /** Inside a get, past the free lists. */
  predicate Past(pc: Pc) {
    pc == TryLocal || pc == Construct || Adding(pc)
  }

  predicate Getting(pc: Pc) {
    pc == PopTest || pc == PopLocked || Past(pc)
  }

  /** The thread has a block and the block has room. */
  predicate Room(cfg: Config, th: Thread, items: map<BlockId, nat>) {
    th.block.Some? && th.block.value in items && items[th.block.value] < cfg.nitem
  }

  /** The thread, idle, is told to exit. */
  predicate Exiting(th: Thread, c: Choice) {
    th.pc == Idle && c.call == Exit
  }

  predicate Goes(th: Thread, th': Thread, room: bool, empty: bool, exiting: bool) {
    && (Past(th'.pc) ==> Past(th.pc) || ((th.pc == PopTest || th.pc == PopLocked) && empty))
    && (Getting(th'.pc) ==> (Getting(th.pc) && th'.free == th.free) || (th.pc == Idle && th'.free == []))
    && (th'.block == th.block || Adding(th.pc) || th.pc == ExitPush || exiting)
    && (Adding(th'.pc) ==> th'.block == th.block && (Adding(th.pc) || (th'.pc == NewBlock && !room)))
    && (th'.pc == ExitPush ==> th'.block == th.block && (th.pc == ExitPush || exiting))
  }

  /** Only this thread changes, and this way. */
  ghost predicate Moved(cfg: Config, s: State, t: Tid, c: Choice, s': State) {
    && (forall u | u != t :: ThreadOf(s'.threads, u) == ThreadOf(s.threads, u))
    && var th := ThreadOf(s.threads, t);
       Goes(th, ThreadOf(s'.threads, t), Room(cfg, th, s.items), s.chunks == [], Exiting(th, c))
  }

  lemma MovedTo(cfg: Config, s: State, t: Tid, c: Choice, s': State, th': Thread)
    requires s'.threads == s.threads || s'.threads == s.threads[t := th']
    requires var th := ThreadOf(s.threads, t); Goes(th, th', Room(cfg, th, s.items), s.chunks == [], Exiting(th, c))
    ensures Moved(cfg, s, t, c, s')
  {
    ThreadSet(s.threads, t, th');
  }

  lemma GetMoves(cfg: Config, s: State, t: Tid, c: Choice)
    requires ThreadOf(s.threads, t).pc == Idle && c.call == Get
    ensures Moved(cfg, s, t, c, Step(cfg, s, t, c))
  {
    hide ThreadOf, UnsafeAddress, Moved;
    var th := ThreadOf(s.threads, t);
    MovedTo(cfg, s, t, c, Step(cfg, s, t, c),
            if th.free != [] then th.(free := th.free[..|th.free| - 1]) else th.(pc := PopTest));
  }

  lemma CallMoves(cfg: Config, s: State, t: Tid, c: Choice)
    requires ThreadOf(s.threads, t).pc == Idle && c.call != Get
    ensures Moved(cfg, s, t, c, Step(cfg, s, t, c))
  {
    hide ThreadOf, FreeChunkNitem, Moved;
    var th := ThreadOf(s.threads, t);
    match c.call
    case Return(id) =>
      if id in s.inUse {
        MovedTo(cfg, s, t, c, Step(cfg, s, t, c),
                if |th.free| < FreeChunkNitem(cfg) then th.(free := th.free + [id])
                else th.(pc := Push(id, s.inUse[id])));
      } else {
        MovedTo(cfg, s, t, c, s, th);
      }
    case Exit => MovedTo(cfg, s, t, c, Step(cfg, s, t, c), if th.free != [] then th.(pc := ExitPush) else NEW_THREAD);
    case NoCall => MovedTo(cfg, s, t, c, s, th);
  }

  lemma PopMoves(cfg: Config, s: State, t: Tid, c: Choice)
    requires ThreadOf(s.threads, t).pc == PopTest || ThreadOf(s.threads, t).pc == PopLocked
    ensures Moved(cfg, s, t, c, Step(cfg, s, t, c))
  {
    hide ThreadOf, UnsafeAddress, Moved;
    var th := ThreadOf(s.threads, t);
    var s' := Step(cfg, s, t, c);
    if s.chunks == [] {
      MovedTo(cfg, s, t, c, s', th.(pc := TryLocal));
    } else if th.pc == PopTest {
      MovedTo(cfg, s, t, c, s', th.(pc := PopLocked));
    } else {
      var chunk := s.chunks[|s.chunks| - 1];
      MovedTo(cfg, s, t, c, s', if chunk != [] then th.(pc := Idle, free := chunk[..|chunk| - 1]) else th);
    }
  }

  lemma PushMoves(cfg: Config, s: State, t: Tid, c: Choice)
    requires ThreadOf(s.threads, t).pc.Push? || ThreadOf(s.threads, t).pc == ExitPush
    ensures Moved(cfg, s, t, c, Step(cfg, s, t, c))
  {
    hide ThreadOf, Moved;
    var th := ThreadOf(s.threads, t);
    var th' := if th.pc == ExitPush then NEW_THREAD
               else if c.ok then th.(pc := Idle, free := [th.pc.id]) else th.(pc := Idle);
    MovedTo(cfg, s, t, c, Step(cfg, s, t, c), th');
  }

  lemma LocalMoves(cfg: Config, s: State, t: Tid, c: Choice)
    requires ThreadOf(s.threads, t).pc == TryLocal || ThreadOf(s.threads, t).pc == Construct
    ensures Moved(cfg, s, t, c, Step(cfg, s, t, c))
  {
    hide ThreadOf, IdOf, Moved;
    var th := ThreadOf(s.threads, t);
    var s' := Step(cfg, s, t, c);
    if th.pc == TryLocal {
      MovedTo(cfg, s, t, c, s', th.(pc := if Room(cfg, th, s.items) then Construct else NewBlock));
    } else {
      MovedTo(cfg, s, t, c, s', th.(pc := Idle));
    }
  }

  lemma BlockMoves(cfg: Config, s: State, t: Tid, c: Choice)
    requires var pc := ThreadOf(s.threads, t).pc; pc == NewBlock || pc.LoadGroups? || pc.DropBlock?
    ensures Moved(cfg, s, t, c, Step(cfg, s, t, c))
  {
    hide ThreadOf, Moved;
    var th := ThreadOf(s.threads, t);
    var s' := Step(cfg, s, t, c);
    match th.pc
    case NewBlock =>
      MovedTo(cfg, s, t, c, s', if c.ok then th.(pc := LoadGroups(c.spare)) else th.(pc := Idle, block := None));
    case LoadGroups(b) =>
      MovedTo(cfg, s, t, c, s', th.(pc := if s.ngroup >= 1 then FetchAdd(b, s.ngroup) else WantLock(b, 0)));
    case _ =>
      MovedTo(cfg, s, t, c, s', th.(pc := Idle, block := None));
  }

  lemma CountMoves(cfg: Config, s: State, t: Tid, c: Choice)
    requires var pc := ThreadOf(s.threads, t).pc; pc.FetchAdd? || pc.FetchSub?
    ensures Moved(cfg, s, t, c, Step(cfg, s, t, c))
  {
    hide ThreadOf, Moved;
    var th := ThreadOf(s.threads, t);
    var ng, b, s' := th.pc.ng, th.pc.b, Step(cfg, s, t, c);
    if !(1 <= ng <= |s.groups|) {
      MovedTo(cfg, s, t, c, s', th);
    } else if th.pc.FetchAdd? {
      var slot := s.groups[ng - 1].nblock;
      MovedTo(cfg, s, t, c, s', th.(pc := if slot < GROUP_NBLOCK then Store(b, ng, slot) else FetchSub(b, ng)));
    } else {
      MovedTo(cfg, s, t, c, s', th.(pc := WantLock(b, ng)));
    }
  }

  lemma StoreMoves(cfg: Config, s: State, t: Tid, c: Choice)
    requires ThreadOf(s.threads, t).pc.Store?
    ensures Moved(cfg, s, t, c, Step(cfg, s, t, c))
  {
    hide ThreadOf, Moved;
    var th := ThreadOf(s.threads, t);
    var b, ng, slot := th.pc.b, th.pc.ng, th.pc.slot;
    if 1 <= ng {
      MovedTo(cfg, s, t, c, Step(cfg, s, t, c),
              th.(pc := Construct, block := Some(b), index := (ng - 1) * GROUP_NBLOCK + slot));
    } else {
      MovedTo(cfg, s, t, c, Step(cfg, s, t, c), th);
    }
  }

  lemma GroupMoves(cfg: Config, s: State, t: Tid, c: Choice)
    requires var pc := ThreadOf(s.threads, t).pc;
             pc.WantLock? || pc.Check? || pc.StoreGroup? || pc.StoreCount? || pc.Unlock?
    ensures Moved(cfg, s, t, c, Step(cfg, s, t, c))
  {
    hide ThreadOf, Moved;
    var th := ThreadOf(s.threads, t);
    var s' := Step(cfg, s, t, c);
    match th.pc
    case WantLock(b, ng) => MovedTo(cfg, s, t, c, s', th.(pc := Check(b, ng)));
    case Check(b, ng) =>
      MovedTo(cfg, s, t, c, s',
              th.(pc := if s.ngroup != ng then Unlock(b, true)
                        else if s.ngroup < MAX_NGROUP && c.ok then StoreGroup(b, ng) else Unlock(b, false)));
    case StoreGroup(b, ng) => MovedTo(cfg, s, t, c, s', th.(pc := StoreCount(b, ng)));
    case StoreCount(b, ng) => MovedTo(cfg, s, t, c, s', th.(pc := Unlock(b, true)));
    case Unlock(b, ok) => MovedTo(cfg, s, t, c, s', th.(pc := if ok then LoadGroups(b) else DropBlock(b)));
    case _ =>
  }

  lemma StepMoves(cfg: Config, s: State, t: Tid, c: Choice)
    ensures Moved(cfg, s, t, c, Step(cfg, s, t, c))
  {
    hide Moved, Step;
    match ThreadOf(s.threads, t).pc
    case Idle =>
      if c.call == Get {
        GetMoves(cfg, s, t, c);
      } else {
        CallMoves(cfg, s, t, c);
      }
    case PopTest => PopMoves(cfg, s, t, c);
    case PopLocked => PopMoves(cfg, s, t, c);
    case TryLocal => LocalMoves(cfg, s, t, c);
    case Construct => LocalMoves(cfg, s, t, c);
    case Push(_, _) => PushMoves(cfg, s, t, c);
    case ExitPush => PushMoves(cfg, s, t, c);
    case NewBlock => BlockMoves(cfg, s, t, c);
    case LoadGroups(_) => BlockMoves(cfg, s, t, c);
    case DropBlock(_) => BlockMoves(cfg, s, t, c);
    case FetchAdd(_, _) => CountMoves(cfg, s, t, c);
    case FetchSub(_, _) => CountMoves(cfg, s, t, c);
    case Store(_, _, _) => StoreMoves(cfg, s, t, c);
    case _ => GroupMoves(cfg, s, t, c);
  }

  // ---- a get makes something new only when it found nothing free

  /** Since its current call began, the thread saw the global list empty, its own list being empty too. */
  ghost predicate FoundNothing(cfg: Config, schedule: seq<(Tid, Choice)>, t: Tid, k: nat) {
    && k < |schedule| && schedule[k].0 == t
    && (var s := Run(cfg, INITIAL, schedule[..k]); s.chunks == [] && ThreadOf(s.threads, t).free == [])
    && forall j | k <= j <= |schedule| :: ThreadOf(Run(cfg, INITIAL, schedule[..j]).threads, t).pc != Idle
  }

  lemma {:induction false} EmptyHanded(cfg: Config, schedule: seq<(Tid, Choice)>, t: Tid)
    ensures var th := ThreadOf(Run(cfg, INITIAL, schedule).threads, t); Getting(th.pc) ==> th.free == []
  {
    hide Step, Getting;
    if schedule == [] {
      IdleThread();
    } else {
      var n := |schedule| - 1;
      EmptyHanded(cfg, schedule[..n], t);
      MovedMeans(cfg, Run(cfg, INITIAL, schedule[..n]), schedule[n].0, schedule[n].1, t);
    }
  }

  lemma IdleThread()
    ensures !Getting(NEW_THREAD.pc) && !Past(NEW_THREAD.pc) && !Adding(NEW_THREAD.pc)
  {
  }

  lemma MovedMeans(cfg: Config, s: State, t: Tid, c: Choice, u: Tid)
    ensures var th, th' := ThreadOf(s.threads, u), ThreadOf(Step(cfg, s, t, c).threads, u);
            && (Getting(th'.pc) ==> (Getting(th.pc) && th'.free == th.free) || th'.free == [])
            && (Past(th'.pc) ==> Past(th.pc) || (u == t && (th.pc == PopTest || th.pc == PopLocked) && s.chunks == []))
  {
    hide Step, Getting, Past, Adding, Room, Exiting;
    StepMoves(cfg, s, t, c);
  }

  lemma {:induction false} PastMeans(cfg: Config, schedule: seq<(Tid, Choice)>, t: Tid) returns (k: nat)
    requires Past(ThreadOf(Run(cfg, INITIAL, schedule).threads, t).pc)
    ensures FoundNothing(cfg, schedule, t, k)
  {
    hide Step;
    if schedule == [] {
      IdleThread();
      assert false;
    } else {
      var n := |schedule| - 1;
      var s, s' := Run(cfg, INITIAL, schedule[..n]), Run(cfg, INITIAL, schedule);
      var u := schedule[n].0;
      MovedMeans(cfg, s, u, schedule[n].1, t);
      assert schedule[..n + 1] == schedule;
      if Past(ThreadOf(s.threads, t).pc) {
        k := PastMeans(cfg, schedule[..n], t);
        StillNothing(cfg, schedule, t, k);
      } else {
        k := n;
        EmptyHanded(cfg, schedule[..n], t);
      }
    }
  }

  lemma StillNothing(cfg: Config, schedule: seq<(Tid, Choice)>, t: Tid, k: nat)
    requires schedule != [] && FoundNothing(cfg, schedule[..|schedule| - 1], t, k)
    requires ThreadOf(Run(cfg, INITIAL, schedule).threads, t).pc != Idle
    ensures FoundNothing(cfg, schedule, t, k)
  {
    hide Run;
    var before := schedule[..|schedule| - 1];
    assert before[..k] == schedule[..k];
    forall j | k <= j <= |schedule| ensures ThreadOf(Run(cfg, INITIAL, schedule[..j]).threads, t).pc != Idle {
      if j < |schedule| {
        assert before[..j] == schedule[..j];
      } else {
        assert schedule[..j] == schedule;
      }
    }
  }

  lemma ItemsTouched(cfg: Config, s: State, t: Tid, c: Choice)
    requires Step(cfg, s, t, c).items != s.items
    ensures Past(ThreadOf(s.threads, t).pc)
  {
    var pc := ThreadOf(s.threads, t).pc;
    if pc == Idle {
      CallsKeepSlots(cfg, s, t, c);
    } else if pc == PopTest || pc == PopLocked || pc.Push? || pc == ExitPush {
      ListsKeepSlots(cfg, s, t, c);
    }
  }

  /**
   * A step that constructs an item or makes a block belongs to a get that found its own free list
   * and, since it began, the global list empty.
   */
  lemma NewOnlyWhenNothingFree(cfg: Config, schedule: seq<(Tid, Choice)>, t: Tid, c: Choice) returns (k: nat)
    requires var s := Run(cfg, INITIAL, schedule); Step(cfg, s, t, c).items != s.items
    ensures FoundNothing(cfg, schedule, t, k)
  {
    hide Run, Step, FoundNothing;
    ItemsTouched(cfg, Run(cfg, INITIAL, schedule), t, c);
    k := PastMeans(cfg, schedule, t);
  }

  // ---- what was given back last is taken first

  lemma InUseAddressed(cfg: Config, s: State, led: Ledger, id: Id)
    requires Inv(cfg, s, led) && id in s.inUse
    ensures UnsafeAddress(cfg, s, id) == Some(s.inUse[id])
  {
    hide Core, PlacesOk, ListsOk, Address, UnsafeAddress;
    UnsafeIsSafe(cfg, s, id);
  }

  /** Giving an id back and getting one right away undo each other, the free list having room. */
  lemma ReturnThenGet(cfg: Config, schedule: seq<(Tid, Choice)>, t: Tid, id: Id, c: Choice, c': Choice)
    requires 0 < cfg.maxFree && c.call == Return(id) && c'.call == Get
    requires var s := Run(cfg, INITIAL, schedule);
             && ThreadOf(s.threads, t).pc == Idle && id in s.inUse
             && |ThreadOf(s.threads, t).free| < FreeChunkNitem(cfg)
    ensures var s := Run(cfg, INITIAL, schedule);
            var s1 := Step(cfg, s, t, c);
            var s2 := Step(cfg, s1, t, c');
            && id !in s1.inUse && s2 == s.(threads := s2.threads)
            && forall u :: ThreadOf(s2.threads, u) == ThreadOf(s.threads, u)
  {
    hide Run, Step, UnsafeAddress, Inv, ThreadOf, FreeChunkNitem;
    var s := Run(cfg, INITIAL, schedule);
    ChunkHolds(cfg);
    var led := RunKeeps(cfg, schedule);
    InUseAddressed(cfg, s, led, id);
    var s1 := Step(cfg, s, t, c);
    Returns(cfg, s, t, id, c);
    UnsafeLocal(cfg, s, s1, id);
    var th := ThreadOf(s.threads, t);
    var free := th.free + [id];
    assert free[..|free| - 1] == th.free;
    ThreadSet(s.threads, t, th.(free := free));
    TakesLast(cfg, s1, t, c');
    ThreadSet(s1.threads, t, th);
    assert (s.inUse - {id})[id := s.inUse[id]] == s.inUse;
  }

  lemma ChunkHolds(cfg: Config)
    ensures 0 < cfg.maxFree ==> 0 < FreeChunkNitem(cfg)
  {
  }

  lemma Returns(cfg: Config, s: State, t: Tid, id: Id, c: Choice)
    requires var th := ThreadOf(s.threads, t); th.pc == Idle && id in s.inUse && |th.free| < FreeChunkNitem(cfg)
    requires c.call == Return(id)
    ensures var th := ThreadOf(s.threads, t);
            Step(cfg, s, t, c) == s.(inUse := s.inUse - {id}, threads := s.threads[t := th.(free := th.free + [id])])
  {
    hide ThreadOf, FreeChunkNitem;
  }

  lemma TakesLast(cfg: Config, s: State, t: Tid, c: Choice)
    requires var th := ThreadOf(s.threads, t); th.pc == Idle && th.free != [] && c.call == Get
    requires var th := ThreadOf(s.threads, t);
             var id := th.free[|th.free| - 1]; id !in s.inUse && UnsafeAddress(cfg, s, id).Some?
    ensures var th := ThreadOf(s.threads, t);
            var id := th.free[|th.free| - 1];
            Step(cfg, s, t, c) == s.(inUse := s.inUse[id := UnsafeAddress(cfg, s, id).value],
                                     threads := s.threads[t := th.(free := th.free[..|th.free| - 1])])
  {
    hide ThreadOf, UnsafeAddress;
  }

  // ---- every block is filled, unless its thread leaves

  /** The blocks of threads that were told to exit. */
  function Left(cfg: Config, schedule: seq<(Tid, Choice)>): set<BlockId> {
    if schedule == [] then {}
    else
      var n := |schedule| - 1;
      var th := ThreadOf(Run(cfg, INITIAL, schedule[..n]).threads, schedule[n].0);
      if Exiting(th, schedule[n].1) && th.block.Some? then Left(cfg, schedule[..n]) + {th.block.value}
      else Left(cfg, schedule[..n])
  }

  /** The block is full, some thread's current one, or was that of a thread that left. */
  ghost predicate Accounted(cfg: Config, s: State, left: set<BlockId>, b: BlockId) {
    || b in left
    || (b in s.items && s.items[b] >= cfg.nitem)
    || exists t :: ThreadOf(s.threads, t).block == Some(b)
  }

  predicate ThreadUses(cfg: Config, th: Thread, items: map<BlockId, nat>, left: set<BlockId>) {
    && (Adding(th.pc) ==> !Room(cfg, th, items))
    && (th.pc == ExitPush && th.block.Some? ==> th.block.value in left)
  }

  ghost predicate Used(cfg: Config, s: State, left: set<BlockId>) {
    && (forall t :: ThreadUses(cfg, ThreadOf(s.threads, t), s.items, left))
    && (forall i: nat | SlotAt(s.groups, i).Some? :: Accounted(cfg, s, left, SlotAt(s.groups, i).value))
  }

  /** What the invariant of the tables says about a thread's own block. */
  lemma OwnBlock(cfg: Config, s: State, led: Ledger, t: Tid)
    requires Core(cfg, s, led) && ThreadOf(s.threads, t).block.Some?
    ensures var th := ThreadOf(s.threads, t);
            th.block.value in s.items && SlotAt(s.groups, th.index) == th.block
  {
    hide TablesOk, ThreadOf, Carried, SlotAt;
    assert ThreadBlocksOk(cfg, ThreadOf(s.threads, t), t, s.items, led.home);
  }

  lemma NoRoomStays(cfg: Config, s: State, led: Ledger, t: Tid, u: Tid, c: Choice)
    requires Core(cfg, s, led) && !Room(cfg, ThreadOf(s.threads, u), s.items)
    ensures !Room(cfg, ThreadOf(s.threads, u), Step(cfg, s, t, c).items)
    ensures ThreadOf(s.threads, u).block.Some? ==>
              var b := ThreadOf(s.threads, u).block.value;
              b in Step(cfg, s, t, c).items && Step(cfg, s, t, c).items[b] >= cfg.nitem
  {
    hide Core, Step, ThreadOf, SlotAt;
    if ThreadOf(s.threads, u).block.Some? {
      OwnBlock(cfg, s, led, u);
      StepKeepsSlots(cfg, s, led, t, c);
    }
  }

  lemma SlotsCalm(cfg: Config, s: State, t: Tid, c: Choice)
    requires !ThreadOf(s.threads, t).pc.Store?
    ensures forall i: nat | SlotAt(Step(cfg, s, t, c).groups, i).Some? ::
              SlotAt(s.groups, i) == SlotAt(Step(cfg, s, t, c).groups, i)
  {
    hide Step;
    var pc, s' := ThreadOf(s.threads, t).pc, Step(cfg, s, t, c);
    if pc.FetchAdd? || pc.FetchSub? || pc.StoreGroup? {
      NewGroupsEmpty(cfg, s, t, c);
      CountsTouch(cfg, s, t, c);
    } else if pc == Idle {
      CallsKeepSlots(cfg, s, t, c);
    } else if pc == PopTest || pc == PopLocked || pc == TryLocal || pc.Push? || pc == ExitPush {
      ListsKeepSlots(cfg, s, t, c);
    } else if pc == Construct || pc == NewBlock || pc.DropBlock? {
      MakesNoSlots(cfg, s, t, c);
    } else {
      LocksKeepSlots(cfg, s, t, c);
    }
  }

  lemma MakesNoSlots(cfg: Config, s: State, t: Tid, c: Choice)
    requires var pc := ThreadOf(s.threads, t).pc; pc == Construct || pc == NewBlock || pc.DropBlock?
    ensures Step(cfg, s, t, c).groups == s.groups
  {
    hide ThreadOf, IdOf;
  }

  lemma NewGroupsEmpty(cfg: Config, s: State, t: Tid, c: Choice)
    requires var pc := ThreadOf(s.threads, t).pc; pc.FetchAdd? || pc.FetchSub? || pc.StoreGroup?
    ensures var groups' := Step(cfg, s, t, c).groups;
            forall g | |s.groups| <= g < |groups'| :: groups'[g].blocks == map[]
  {
    hide ThreadOf;
  }

  lemma StoresOwn(cfg: Config, s: State, t: Tid, c: Choice, i: nat)
    requires ThreadOf(s.threads, t).pc.Store?
    requires var slot' := SlotAt(Step(cfg, s, t, c).groups, i); slot'.Some? && slot' != SlotAt(s.groups, i)
    ensures ThreadOf(Step(cfg, s, t, c).threads, t).block == SlotAt(Step(cfg, s, t, c).groups, i)
  {
    hide SlotAt;
    var pc := ThreadOf(s.threads, t).pc;
    if 1 <= pc.ng <= |s.groups| && pc.slot !in s.groups[pc.ng - 1].blocks {
      SlotOnce(s.groups, pc.ng, pc.slot, pc.b, i);
    }
  }

  lemma SlotOnce(groups: seq<Group>, ng: nat, slot: nat, b: BlockId, i: nat)
    requires 1 <= ng <= |groups|
    ensures var g := groups[ng - 1];
            var groups' := groups[ng - 1 := g.(blocks := g.blocks[slot := b])];
            SlotAt(groups', i) == SlotAt(groups, i) || SlotAt(groups', i) == Some(b)
  {
  }

  lemma NewSlotIsOwn(cfg: Config, s: State, t: Tid, c: Choice, i: nat)
    requires var slot' := SlotAt(Step(cfg, s, t, c).groups, i); slot'.Some? && slot' != SlotAt(s.groups, i)
    ensures ThreadOf(Step(cfg, s, t, c).threads, t).block == SlotAt(Step(cfg, s, t, c).groups, i)
  {
    hide Step, SlotAt;
    if ThreadOf(s.threads, t).pc.Store? {
      StoresOwn(cfg, s, t, c, i);
    } else {
      SlotsCalm(cfg, s, t, c);
    }
  }

  /** The blocks left behind after one more step. */
  function LeftAfter(s: State, left: set<BlockId>, t: Tid, c: Choice): set<BlockId> {
    var th := ThreadOf(s.threads, t);
    if Exiting(th, c) && th.block.Some? then left + {th.block.value} else left
  }

  lemma ThreadsUse(cfg: Config, s: State, led: Ledger, left: set<BlockId>, t: Tid, c: Choice, u: Tid)
    requires Core(cfg, s, led) && Used(cfg, s, left)
    ensures var s' := Step(cfg, s, t, c);
            ThreadUses(cfg, ThreadOf(s'.threads, u), s'.items, LeftAfter(s, left, t, c))
  {
    hide Core, Step, ThreadOf, Adding, Past, Getting, SlotAt, Accounted;
    assert ThreadUses(cfg, ThreadOf(s.threads, u), s.items, left);
    StepMoves(cfg, s, t, c);
    if !Room(cfg, ThreadOf(s.threads, u), s.items) {
      NoRoomStays(cfg, s, led, t, u, c);
    }
  }

  lemma OldSlotAccounted(cfg: Config, s: State, led: Ledger, left: set<BlockId>, t: Tid, c: Choice, i: nat)
    requires Core(cfg, s, led) && Used(cfg, s, left) && SlotAt(s.groups, i).Some?
    ensures Accounted(cfg, Step(cfg, s, t, c), LeftAfter(s, left, t, c), SlotAt(s.groups, i).value)
  {
    hide Core, Step, ThreadOf, Adding, Past, Getting, SlotAt;
    var b, s', left' := SlotAt(s.groups, i).value, Step(cfg, s, t, c), LeftAfter(s, left, t, c);
    assert Accounted(cfg, s, left, b);
    if b !in left {
      if b in s.items && s.items[b] >= cfg.nitem {
        StepKeepsSlots(cfg, s, led, t, c);
      } else {
        var u :| ThreadOf(s.threads, u).block == Some(b);
        StepMoves(cfg, s, t, c);
        assert ThreadUses(cfg, ThreadOf(s.threads, u), s.items, left);
        if ThreadOf(s'.threads, u).block != Some(b) {
          OwnBlock(cfg, s, led, u);
        }
      }
    }
  }

  lemma StepUses(cfg: Config, s: State, led: Ledger, left: set<BlockId>, t: Tid, c: Choice)
    requires Core(cfg, s, led) && Used(cfg, s, left)
    ensures Used(cfg, Step(cfg, s, t, c), LeftAfter(s, left, t, c))
  {
    var s', left' := Step(cfg, s, t, c), LeftAfter(s, left, t, c);
    hide Core, Step, ThreadOf, SlotAt, Accounted, ThreadUses, LeftAfter;
    forall u ensures ThreadUses(cfg, ThreadOf(s'.threads, u), s'.items, left') {
      ThreadsUse(cfg, s, led, left, t, c, u);
    }
    forall i: nat | SlotAt(s'.groups, i).Some? ensures Accounted(cfg, s', left', SlotAt(s'.groups, i).value) {
      if SlotAt(s.groups, i) == SlotAt(s'.groups, i) {
        OldSlotAccounted(cfg, s, led, left, t, c, i);
      } else {
        NewSlotIsOwn(cfg, s, t, c, i);
        HolderAccounts(cfg, s', left', t);
      }
    }
  }

  lemma HolderAccounts(cfg: Config, s: State, left: set<BlockId>, t: Tid)
    requires ThreadOf(s.threads, t).block.Some?
    ensures Accounted(cfg, s, left, ThreadOf(s.threads, t).block.value)
  {
  }

  lemma UsedInitially(cfg: Config)
    ensures Used(cfg, INITIAL, {})
  {
  }

  lemma {:induction false} RunUses(cfg: Config, schedule: seq<(Tid, Choice)>)
    ensures Used(cfg, Run(cfg, INITIAL, schedule), Left(cfg, schedule))
  {
    hide Core, Step, Used;
    if schedule == [] {
      UsedInitially(cfg);
    } else {
      var n := |schedule| - 1;
      RunUses(cfg, schedule[..n]);
      var led := RunCore(cfg, schedule[..n]);
      StepUses(cfg, Run(cfg, INITIAL, schedule[..n]), led, Left(cfg, schedule[..n]), schedule[n].0, schedule[n].1);
    }
  }

  /**
   * In every run and every configuration, a block in the table that is not full is the current
   * block of some thread, or was that of a thread that was told to exit.
   */
  lemma BlocksFilled(cfg: Config, schedule: seq<(Tid, Choice)>, i: nat)
    requires SlotAt(Run(cfg, INITIAL, schedule).groups, i).Some?
    ensures var s := Run(cfg, INITIAL, schedule);
            var b := SlotAt(s.groups, i).value;
            && b in s.items
            && (s.items[b] < cfg.nitem ==>
                  b in Left(cfg, schedule) || exists t :: ThreadOf(s.threads, t).block == Some(b))
  {
    hide Run, Left, SlotAt, ThreadOf, ThreadUses;
    var s := Run(cfg, INITIAL, schedule);
    RunUses(cfg, schedule);
    assert Accounted(cfg, s, Left(cfg, schedule), SlotAt(s.groups, i).value);
    var led := RunCore(cfg, schedule);
    hide TablesOk;
  }

  // ---- groups are filled one after another

  predicate GroupFull(groups: seq<Group>, g: nat) {
    g < |groups| && groups[g].nblock >= GROUP_NBLOCK
  }

  /** A thread on its way to a new group has seen the last one it knew full. */
  predicate SawFull(pc: Pc, groups: seq<Group>) {
    match pc
    case FetchSub(_, ng) => 1 <= ng && GroupFull(groups, ng - 1)
    case WantLock(_, ng) => ng == 0 || GroupFull(groups, ng - 1)
    case Check(_, ng) => ng == 0 || GroupFull(groups, ng - 1)
    case StoreGroup(_, ng) => ng == 0 || GroupFull(groups, ng - 1)
    case _ => true
  }

  ghost predicate Filled(s: State) {
    && (forall g: nat | g + 1 < |s.groups| :: GroupFull(s.groups, g))
    && (forall t :: SawFull(ThreadOf(s.threads, t).pc, s.groups))
  }

  /** A full group stays full: a counter is only taken back where it had been overrun. */
  lemma FullStays(cfg: Config, s: State, led: Ledger, t: Tid, c: Choice, g: nat)
    requires Core(cfg, s, led) && GroupFull(s.groups, g)
    ensures GroupFull(Step(cfg, s, t, c).groups, g)
  {
    hide Step, ThreadOf, Core, CountPcOk;
    var pc := ThreadOf(s.threads, t).pc;
    TableFacts(cfg, s, led, t);
    if pc.FetchSub? {
      OverrunHere(cfg, s, led, t);
      FetchSubCounts(cfg, s, t, c);
    } else if pc.FetchAdd? || pc.StoreGroup? || pc.Store? {
      CountsGrow(cfg, s, t, c);
    } else {
      NoGroups(cfg, s, t, c);
    }
  }

  lemma OverrunHere(cfg: Config, s: State, led: Ledger, t: Tid)
    requires Core(cfg, s, led) && ThreadOf(s.threads, t).pc.FetchSub?
    ensures var ng := ThreadOf(s.threads, t).pc.ng; 1 <= ng <= |s.groups| && s.groups[ng - 1].nblock > GROUP_NBLOCK
  {
    hide BlocksOk, LockOk, ThreadOf, SameSlot;
    var ng := ThreadOf(s.threads, t).pc.ng;
    assert CountPcOk(ThreadOf(s.threads, t).pc, t, s.groups, led);
    assert GroupOk(s.groups[ng - 1], led.claimed[ng - 1], led.pending[ng - 1]);
    assert led.pending[ng - 1] != {};
  }

  lemma FetchSubCounts(cfg: Config, s: State, t: Tid, c: Choice)
    requires ThreadOf(s.threads, t).pc.FetchSub?
    requires var ng := ThreadOf(s.threads, t).pc.ng; 1 <= ng <= |s.groups| && s.groups[ng - 1].nblock > GROUP_NBLOCK
    ensures var groups' := Step(cfg, s, t, c).groups;
            && |groups'| == |s.groups|
            && forall g | 0 <= g < |s.groups| ::
                 groups'[g].nblock == s.groups[g].nblock || groups'[g].nblock >= GROUP_NBLOCK
  {
    hide ThreadOf;
  }

  lemma CountsGrow(cfg: Config, s: State, t: Tid, c: Choice)
    requires var pc := ThreadOf(s.threads, t).pc; pc.FetchAdd? || pc.StoreGroup? || pc.Store?
    ensures var groups' := Step(cfg, s, t, c).groups;
            |groups'| >= |s.groups| && forall g | 0 <= g < |s.groups| :: groups'[g].nblock >= s.groups[g].nblock
  {
    hide ThreadOf;
  }

  lemma NoGroups(cfg: Config, s: State, t: Tid, c: Choice)
    requires var pc := ThreadOf(s.threads, t).pc; !pc.FetchAdd? && !pc.StoreGroup? && !pc.Store? && !pc.FetchSub?
    ensures Step(cfg, s, t, c).groups == s.groups
  {
    hide Step;
    var pc := ThreadOf(s.threads, t).pc;
    if pc == Idle {
      CallsKeepSlots(cfg, s, t, c);
    } else if pc == PopTest || pc == PopLocked || pc == TryLocal || pc.Push? || pc == ExitPush {
      ListsKeepSlots(cfg, s, t, c);
    } else if pc == Construct || pc == NewBlock || pc.DropBlock? {
      MakesNoSlots(cfg, s, t, c);
    } else {
      LocksKeepSlots(cfg, s, t, c);
    }
  }

  /** Where the way to a new group comes from. */
  predicate WayTo(pc: Pc, pc': Pc, groups: seq<Group>) {
    match pc'
    case FetchSub(_, ng) => pc' == pc || (1 <= ng && GroupFull(groups, ng - 1))
    case WantLock(_, ng) => pc' == pc || ng == 0 || (pc.FetchSub? && pc.ng == ng)
    case Check(_, ng) => pc' == pc || (pc.WantLock? && pc.ng == ng)
    case StoreGroup(_, ng) => pc' == pc || (pc.Check? && pc.ng == ng)
    case _ => true
  }

  lemma WayToGroup(cfg: Config, s: State, t: Tid, c: Choice)
    ensures WayTo(ThreadOf(s.threads, t).pc, ThreadOf(Step(cfg, s, t, c).threads, t).pc, s.groups)
  {
    var pc := ThreadOf(s.threads, t).pc;
    if Adding(pc) {
      if pc.WantLock? || pc.Check? || pc.StoreGroup? || pc.StoreCount? || pc.Unlock? {
        WayFromLock(cfg, s, t, c);
      } else {
        WayFromBlock(cfg, s, t, c);
      }
    } else {
      hide Step, ThreadOf;
      StepMoves(cfg, s, t, c);
    }
  }

  lemma WayFromLock(cfg: Config, s: State, t: Tid, c: Choice)
    requires var pc := ThreadOf(s.threads, t).pc;
             pc.WantLock? || pc.Check? || pc.StoreGroup? || pc.StoreCount? || pc.Unlock?
    ensures WayTo(ThreadOf(s.threads, t).pc, ThreadOf(Step(cfg, s, t, c).threads, t).pc, s.groups)
  {
  }

  lemma WayFromBlock(cfg: Config, s: State, t: Tid, c: Choice)
    requires var pc := ThreadOf(s.threads, t).pc;
             pc == NewBlock || pc.LoadGroups? || pc.DropBlock? || pc.FetchAdd? || pc.FetchSub? || pc.Store?
    ensures WayTo(ThreadOf(s.threads, t).pc, ThreadOf(Step(cfg, s, t, c).threads, t).pc, s.groups)
  {
  }

  lemma StepFills(cfg: Config, s: State, led: Ledger, t: Tid, c: Choice)
    requires Core(cfg, s, led) && Filled(s)
    ensures Filled(Step(cfg, s, t, c))
  {
    hide Core, Step, ThreadOf, GroupFull, Goes;
    var s' := Step(cfg, s, t, c);
    StepMoves(cfg, s, t, c);
    forall g: nat | g + 1 < |s'.groups| ensures GroupFull(s'.groups, g) {
      if g + 1 < |s.groups| {
        assert GroupFull(s.groups, g);
      } else {
        LastIsFull(cfg, s, led, t, c);
      }
      FullStays(cfg, s, led, t, c, g);
    }
    forall u ensures SawFull(ThreadOf(s'.threads, u).pc, s'.groups) {
      SeesFull(cfg, s, led, t, c, u);
    }
  }

  /** A group is added only behind a full one. */
  lemma LastIsFull(cfg: Config, s: State, led: Ledger, t: Tid, c: Choice)
    requires Core(cfg, s, led) && Filled(s) && |Step(cfg, s, t, c).groups| > |s.groups|
    ensures |Step(cfg, s, t, c).groups| == |s.groups| + 1
    ensures s.groups != [] ==> GroupFull(s.groups, |s.groups| - 1)
  {
    hide Core, Step, ThreadOf, GroupFull;
    OneMoreGroup(cfg, s, t, c);
    TableFacts(cfg, s, led, t);
    assert SawFull(ThreadOf(s.threads, t).pc, s.groups);
  }

  lemma OneMoreGroup(cfg: Config, s: State, t: Tid, c: Choice)
    requires |Step(cfg, s, t, c).groups| > |s.groups|
    ensures ThreadOf(s.threads, t).pc.StoreGroup? && |Step(cfg, s, t, c).groups| == |s.groups| + 1
  {
    var pc := ThreadOf(s.threads, t).pc;
    if !pc.FetchAdd? && !pc.StoreGroup? && !pc.Store? && !pc.FetchSub? {
      hide Step;
      NoGroups(cfg, s, t, c);
    } else {
      hide ThreadOf;
    }
  }

  lemma SeesFull(cfg: Config, s: State, led: Ledger, t: Tid, c: Choice, u: Tid)
    requires Core(cfg, s, led) && Filled(s)
    ensures SawFull(ThreadOf(Step(cfg, s, t, c).threads, u).pc, Step(cfg, s, t, c).groups)
  {
    hide Core, Step, ThreadOf, GroupFull, Goes;
    StepMoves(cfg, s, t, c);
    WayToGroup(cfg, s, t, c);
    var pc, pc' := ThreadOf(s.threads, u).pc, ThreadOf(Step(cfg, s, t, c).threads, u).pc;
    assert SawFull(pc, s.groups);
    if (pc'.FetchSub? || pc'.WantLock? || pc'.Check? || pc'.StoreGroup?) && 1 <= pc'.ng {
      FullStays(cfg, s, led, t, c, pc'.ng - 1);
    }
  }

  lemma FilledInitially()
    ensures Filled(INITIAL)
  {
  }

  lemma {:induction false} RunFills(cfg: Config, schedule: seq<(Tid, Choice)>)
    ensures Filled(Run(cfg, INITIAL, schedule))
  {
    hide Core, Step, Filled;
    if schedule == [] {
      FilledInitially();
    } else {
      var n := |schedule| - 1;
      RunFills(cfg, schedule[..n]);
      var led := RunCore(cfg, schedule[..n]);
      StepFills(cfg, Run(cfg, INITIAL, schedule[..n]), led, schedule[n].0, schedule[n].1);
    }
  }

  /** In every run all 65536 slots of every group but the last have been claimed. */
  lemma GroupsFilled(cfg: Config, schedule: seq<(Tid, Choice)>, g: nat)
    requires g + 1 < |Run(cfg, INITIAL, schedule).groups|
    ensures Run(cfg, INITIAL, schedule).groups[g].nblock >= 65536
  {
    hide Run;
    RunFills(cfg, schedule);
    assert GroupFull(Run(cfg, INITIAL, schedule).groups, g);
  }

  // ---- a get fails only for a reason

  /** Giving up on a new block. */
  predicate GivesUp(pc: Pc) {
    (pc.Unlock? && !pc.ok) || pc.DropBlock?
  }

  lemma GivingUp(cfg: Config, s: State, t: Tid, c: Choice)
    requires c.ok && GivesUp(ThreadOf(Step(cfg, s, t, c).threads, t).pc)
    ensures GivesUp(ThreadOf(s.threads, t).pc) || s.ngroup >= MAX_NGROUP
  {
    hide Step, ThreadOf;
    var pc := ThreadOf(s.threads, t).pc;
    if pc.WantLock? || pc.Check? || pc.StoreGroup? || pc.StoreCount? || pc.Unlock? {
      GroupsGivenUp(cfg, s, t, c);
    } else if Adding(pc) {
      BlocksNotGivenUp(cfg, s, t, c);
    } else {
      StepMoves(cfg, s, t, c);
    }
  }

  lemma GroupsGivenUp(cfg: Config, s: State, t: Tid, c: Choice)
    requires var pc := ThreadOf(s.threads, t).pc;
             pc.WantLock? || pc.Check? || pc.StoreGroup? || pc.StoreCount? || pc.Unlock?
    requires c.ok && GivesUp(ThreadOf(Step(cfg, s, t, c).threads, t).pc)
    ensures GivesUp(ThreadOf(s.threads, t).pc) || s.ngroup >= MAX_NGROUP
  {
  }

  lemma BlocksNotGivenUp(cfg: Config, s: State, t: Tid, c: Choice)
    requires var pc := ThreadOf(s.threads, t).pc;
             pc == NewBlock || pc.LoadGroups? || pc.DropBlock? || pc.FetchAdd? || pc.FetchSub? || pc.Store?
    ensures var pc' := ThreadOf(Step(cfg, s, t, c).threads, t).pc; !GivesUp(pc')
  {
  }

  lemma PushesCount(s: State, t: Tid, ok: bool)
    ensures StepPush(s, t, ok).ngroup == s.ngroup
  {
    hide ThreadOf;
  }

  lemma CallsCount(cfg: Config, s: State, t: Tid, c: Choice)
    ensures StepIdle(cfg, s, t, c).ngroup == s.ngroup
  {
    hide ThreadOf, UnsafeAddress;
  }

  lemma GetsCount(cfg: Config, s: State, t: Tid, c: Choice)
    ensures StepPop(cfg, s, t).ngroup == s.ngroup && StepConstruct(cfg, s, t, c.ok).ngroup == s.ngroup
  {
    hide ThreadOf, UnsafeAddress, IdOf;
  }

  lemma BlocksCount(s: State, t: Tid, c: Choice)
    ensures StepAddBlock(s, t, c).ngroup == s.ngroup
  {
    hide ThreadOf;
  }

  lemma GroupsCount(s: State, t: Tid, ok: bool)
    ensures var pc := ThreadOf(s.threads, t).pc;
            StepAddGroup(s, t, ok).ngroup == if pc.StoreCount? then pc.ng + 1 else s.ngroup
  {
    hide ThreadOf;
  }

  lemma CountOnlyGrows(cfg: Config, s: State, led: Ledger, t: Tid, c: Choice)
    requires Core(cfg, s, led)
    ensures Step(cfg, s, t, c).ngroup >= s.ngroup
  {
    hide Core, ThreadOf, StepIdle, StepPush, StepPop, StepConstruct, StepAddBlock, StepAddGroup;
    TableFacts(cfg, s, led, t);
    CallsCount(cfg, s, t, c);
    PushesCount(s, t, c.ok);
    GetsCount(cfg, s, t, c);
    BlocksCount(s, t, c);
    GroupsCount(s, t, c.ok);
  }

  lemma {:induction false} RunGivesUp(cfg: Config, schedule: seq<(Tid, Choice)>, t: Tid)
    requires forall i | 0 <= i < |schedule| :: schedule[i].1.ok
    requires GivesUp(ThreadOf(Run(cfg, INITIAL, schedule).threads, t).pc)
    ensures Run(cfg, INITIAL, schedule).ngroup >= MAX_NGROUP
  {
    hide Core, Step, Goes;
    if schedule != [] {
      var n := |schedule| - 1;
      var before, u, c := schedule[..n], schedule[n].0, schedule[n].1;
      var s := Run(cfg, INITIAL, before);
      var led := RunCore(cfg, before);
      CountOnlyGrows(cfg, s, led, u, c);
      StepMoves(cfg, s, u, c);
      if t == u {
        GivingUp(cfg, s, t, c);
      }
      if GivesUp(ThreadOf(s.threads, t).pc) {
        RunGivesUp(cfg, before, t);
      }
    }
  }

  /** A get that ends otherwise than by giving up has given out an id that was not in use. */
  lemma Delivers(cfg: Config, s: State, t: Tid, c: Choice)
    requires var pc := ThreadOf(s.threads, t).pc; Getting(pc) && !pc.DropBlock? && c.ok
    requires var s' := Step(cfg, s, t, c); ThreadOf(s'.threads, t).pc == Idle && !s'.fault
    ensures s.inUse.Keys < Step(cfg, s, t, c).inUse.Keys
  {
    var pc := ThreadOf(s.threads, t).pc;
    if pc.WantLock? || pc.Check? || pc.StoreGroup? || pc.StoreCount? || pc.Unlock? {
      GroupsGoOn(cfg, s, t, c);
    } else if Adding(pc) {
      BlocksGoOn(cfg, s, t, c);
    } else if pc == Construct {
      ConstructDelivers(cfg, s, t, c);
    } else {
      PopDelivers(cfg, s, t, c);
    }
  }

  lemma GroupsGoOn(cfg: Config, s: State, t: Tid, c: Choice)
    requires var pc := ThreadOf(s.threads, t).pc;
             pc.WantLock? || pc.Check? || pc.StoreGroup? || pc.StoreCount? || pc.Unlock?
    ensures ThreadOf(Step(cfg, s, t, c).threads, t).pc != Idle
  {
  }

  lemma BlocksGoOn(cfg: Config, s: State, t: Tid, c: Choice)
    requires var pc := ThreadOf(s.threads, t).pc;
             pc == NewBlock || pc.LoadGroups? || pc.FetchAdd? || pc.FetchSub? || pc.Store?
    requires c.ok
    ensures ThreadOf(Step(cfg, s, t, c).threads, t).pc != Idle
  {
  }

  lemma ConstructDelivers(cfg: Config, s: State, t: Tid, c: Choice)
    requires ThreadOf(s.threads, t).pc == Construct && c.ok && !Step(cfg, s, t, c).fault
    ensures s.inUse.Keys < Step(cfg, s, t, c).inUse.Keys
  {
    hide IdOf;
  }

  lemma PopDelivers(cfg: Config, s: State, t: Tid, c: Choice)
    requires var pc := ThreadOf(s.threads, t).pc; pc == PopTest || pc == PopLocked || pc == TryLocal
    requires var s' := Step(cfg, s, t, c); ThreadOf(s'.threads, t).pc == Idle && !s'.fault
    ensures s.inUse.Keys < Step(cfg, s, t, c).inUse.Keys
  {
    hide UnsafeAddress;
  }

  /**
   * Where no allocation and no validation fails, a get gives out an id that was not in use, unless
   * all 65536 groups are there.
   */
  lemma GetFailsForAReason(cfg: Config, schedule: seq<(Tid, Choice)>, t: Tid, c: Choice)
    requires 0 < cfg.maxFree && c.ok && forall i | 0 <= i < |schedule| :: schedule[i].1.ok
    requires var s := Run(cfg, INITIAL, schedule);
             Getting(ThreadOf(s.threads, t).pc) && ThreadOf(Step(cfg, s, t, c).threads, t).pc == Idle
    ensures var s := Run(cfg, INITIAL, schedule);
            s.inUse.Keys < Step(cfg, s, t, c).inUse.Keys || s.ngroup >= 65536
  {
    hide Step, Inv, Getting;
    var s := Run(cfg, INITIAL, schedule);
    if ThreadOf(s.threads, t).pc.DropBlock? {
      RunGivesUp(cfg, schedule, t);
    } else {
      RunOne(cfg, schedule, t, c);
      var led := RunKeeps(cfg, schedule + [(t, c)]);
      InvNoFault(cfg, Run(cfg, INITIAL, schedule + [(t, c)]), led);
      Delivers(cfg, s, t, c);
    }
  }

  // ---- no id is lost without a reason

  lemma OnlyExitsLose(cfg: Config, s: State, t: Tid, c: Choice)
    ensures StepIdle(cfg, s, t, c).lost == s.lost
    ensures c.ok ==> StepPush(s, t, c.ok).lost == s.lost
  {
    hide ThreadOf, UnsafeAddress;
  }

  lemma GetsLoseNothing(cfg: Config, s: State, t: Tid, c: Choice)
    ensures StepPop(cfg, s, t).lost == s.lost && StepConstruct(cfg, s, t, c.ok).lost == s.lost
  {
    hide ThreadOf, UnsafeAddress, IdOf;
  }

  lemma TablesLoseNothing(s: State, t: Tid, c: Choice)
    ensures StepAddBlock(s, t, c).lost == s.lost && StepAddGroup(s, t, c.ok).lost == s.lost
  {
    hide ThreadOf;
  }

  /** Where no push is refused, the free ids of threads that leave are there for the others. */
  lemma {:induction false} NothingLost(cfg: Config, schedule: seq<(Tid, Choice)>)
    requires forall i | 0 <= i < |schedule| :: schedule[i].1.ok
    ensures Run(cfg, INITIAL, schedule).lost == {}
  {
    hide ThreadOf, StepIdle, StepPush, StepPop, StepConstruct, StepAddBlock, StepAddGroup;
    if schedule != [] {
      var n := |schedule| - 1;
      var s, t, c := Run(cfg, INITIAL, schedule[..n]), schedule[n].0, schedule[n].1;
      NothingLost(cfg, schedule[..n]);
      OnlyExitsLose(cfg, s, t, c);
      GetsLoseNothing(cfg, s, t, c);
      TablesLoseNothing(s, t, c);
    }
  }
}
