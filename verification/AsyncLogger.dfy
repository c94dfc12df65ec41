/**
 * The asynchronous logger: producers push requests onto a list with one atomic exchange, and the
 * one thread that found the list empty has the right to write until it empties it again.
 *
 * Threads are interleaved one atomic step at a time; a step touches at most one location that
 * another thread may touch at the same time.
 */
module AsyncLogger {
  type Obj = nat
  type Tid = nat

  /** The background thread. */
  const RUNNER: Tid := 0

  datatype Link = Null | Unconnected | To(obj: Obj)

  /** A request; logged ones have an empty content. */
  datatype Node = Node(next: Link, content: string)

  /** Where to go on when a list has been emptied. */
  datatype Then = SyncFirst | Drain | RunLoop

  datatype Pc =
    // Log and LogImpl
    | Idle
    | Allocated(o: Obj, text: string)
    | Ready(o: Obj, text: string)
    | Linking(o: Obj, prev: Obj)
    | Won(o: Obj)
    | Deciding(o: Obj)
    | SyncLog(o: Obj)
    | WantLock(o: Obj)
    | Holding(o: Obj)
    | Handoff(o: Obj)
    | Signalling
    | Unlocking
    // IsLogComplete
    | Cas(o: Obj, k: Then)
    | Reversing(o: Obj, p: Obj, tail: Link, k: Then)
    | Splice(o: Obj, tail: Link, k: Then)
    | Completed(o: Obj, k: Then)
    // LogTask
    | TaskTop(o: Obj, k: Then)
    | TaskWalk(o: Obj, k: Then)
    | TaskLast(o: Obj, k: Then)
    // StopAndJoin
    | StopLock
    | StopSignal
    | StopUnlock
    | Joining
    // Run
    | RunLock
    | RunTest
    | RunWait(signalled: bool)
    | RunTest2
    | RunClear
    | RunUnlock
    | RunBreak
    | Exited

  datatype Mutex = Free | LockedBy(t: Tid)

  datatype State = State(
    live: map<Obj, Node>,
    head: Link,
    mutex: Mutex,
    current: Link,
    stop: bool,
    pcs: map<Tid, Pc>,
    exchanged: seq<string>,
    written: seq<string>,
    direct: seq<string>,
    fault: bool)

  datatype Call = NoCall | Log(content: string) | Stop

  /** What a step takes from outside: the caller's next call, the pool's next object, flags, wake-ups. */
  datatype Choice = Choice(call: Call, fallback: bool, obj: Obj, stale: Link, background: bool, spurious: bool)

  function PcOf(pcs: map<Tid, Pc>, t: Tid): Pc {
    if t in pcs then pcs[t] else if t == RUNNER then RunLock else Idle
  }

  const INITIAL: State := State(map[], Null, Free, Null, false, map[], [], [], [], false)

  function At(s: State, t: Tid, pc: Pc): State {
    s.(pcs := s.pcs[t := pc])
  }

  function Fault(s: State): State {
    s.(fault := true)
  }

  function SetNext(s: State, o: Obj, next: Link): State {
    if o in s.live then s.(live := s.live[o := s.live[o].(next := next)]) else Fault(s)
  }

  /** Writes a request's content to the file, unless that was done, and clears it. */
  function DoLog(s: State, o: Obj): State {
    if o !in s.live then Fault(s)
    else if s.live[o].content == "" then s
    else s.(written := s.written + [s.live[o].content], live := s.live[o := s.live[o].(content := "")])
  }

  /** Gives an object back to the pool. */
  function Return(s: State, o: Obj): State {
    if o in s.live then s.(live := s.live - {o}) else Fault(s)
  }

  function WakeRunner(s: State): State {
    if PcOf(s.pcs, RUNNER).RunWait? then At(s, RUNNER, RunWait(true)) else s
  }

  function Lock(s: State, t: Tid, pc: Pc): State {
    if s.mutex == Free then At(s.(mutex := LockedBy(t)), t, pc) else s
  }

  function Unlock(s: State, t: Tid, pc: Pc): State {
    At(s.(mutex := Free), t, pc)
  }

  function NextOf(s: State, o: Obj): Link {
    if o in s.live then s.live[o].next else Unconnected
  }

  function StepIdle(s: State, t: Tid, c: Choice): State {
    match c.call
    case NoCall => s
    case Log(content) =>
      if content == "" then s
      else if c.fallback || s.stop then s.(direct := s.direct + [content])
      else if c.obj in s.live then s
      else At(s.(live := s.live[c.obj := Node(c.stale, content)]), t, Allocated(c.obj, content))
    case Stop => At(s.(stop := true), t, if s.stop then Joining else StopLock)
  }

  /** The exchange on the head of the list. */
  function StepReady(s: State, t: Tid, o: Obj): State {
    if o !in s.live then Fault(s) else
    var s' := s.(head := To(o), exchanged := s.exchanged + [s.live[o].content]);
    At(s', t, if s.head.To? then Linking(o, s.head.obj) else Won(o))
  }

  function StepLog(s: State, t: Tid, c: Choice): State {
    match PcOf(s.pcs, t)
    case Allocated(o, text) => At(SetNext(s, o, Unconnected), t, Ready(o, text))
    case Ready(o, _) => StepReady(s, t, o)
    case Linking(o, prev) => At(SetNext(s, o, To(prev)), t, Idle)
    case Won(o) => At(SetNext(s, o, Null), t, Deciding(o))
    case Deciding(o) => At(s, t, if c.background then WantLock(o) else SyncLog(o))
    case SyncLog(o) => At(DoLog(s, o), t, Cas(o, SyncFirst))
    case WantLock(o) => Lock(s, t, Holding(o))
    case Holding(o) => At(s, t, if s.stop then TaskTop(o, Drain) else Handoff(o))
    case Handoff(o) => if s.current == Null then At(s.(current := To(o)), t, Signalling) else Fault(s)
    case Signalling => At(WakeRunner(s), t, Unlocking)
    case Unlocking => Unlock(s, t, Idle)
    case _ => s
  }

  function StepComplete(s: State, t: Tid): State {
    match PcOf(s.pcs, t)
    case Cas(o, k) =>
      if NextOf(s, o) != Null then Fault(s)
      else if s.head == To(o) then At(s.(head := Null), t, Completed(o, k))
      else if s.head.To? then At(s, t, Reversing(o, s.head.obj, Null, k))
      else Fault(s)
    case Reversing(o, p, tail, k) =>
      if p !in s.live then Fault(s) else
      var next := s.live[p].next;
      if next == Unconnected then s
      else if next == Null then Fault(s)
      else At(SetNext(s, p, tail), t,
              if next.obj == o then Splice(o, To(p), k) else Reversing(o, next.obj, To(p), k))
    case Splice(o, tail, k) => At(SetNext(s, o, tail), t, if k == SyncFirst then WantLock(o) else TaskTop(o, k))
    case Completed(o, k) =>
      At(Return(s, o), t, match k case SyncFirst => Idle case Drain => Unlocking case RunLoop => RunClear)
    case _ => s
  }

  function StepTask(s: State, t: Tid): State {
    match PcOf(s.pcs, t)
    case TaskTop(o, k) =>
      if o !in s.live || s.live[o].next == Unconnected then Fault(s)
      else if s.live[o].next.To? && s.live[o].content == ""
      then At(Return(s, o), t, TaskWalk(s.live[o].next.obj, k))
      else At(s, t, TaskWalk(o, k))
    case TaskWalk(o, k) =>
      if o !in s.live || s.live[o].next == Unconnected then Fault(s)
      else if s.live[o].next.To? then At(Return(DoLog(s, o), o), t, TaskWalk(s.live[o].next.obj, k))
      else At(s, t, TaskLast(o, k))
    case TaskLast(o, k) => At(DoLog(s, o), t, Cas(o, k))
    case _ => s
  }

  function StepStop(s: State, t: Tid): State {
    match PcOf(s.pcs, t)
    case StopLock => Lock(s, t, StopSignal)
    case StopSignal => At(WakeRunner(s), t, StopUnlock)
    case StopUnlock => Unlock(s, t, Joining)
    case Joining => if PcOf(s.pcs, RUNNER) == Exited then At(s, t, Idle) else s
    case _ => s
  }

  function StepRun(s: State, t: Tid, c: Choice): State {
    match PcOf(s.pcs, t)
    case RunLock => Lock(s, t, RunTest)
    case RunTest => if !s.stop && s.current == Null then Unlock(s, t, RunWait(false)) else At(s, t, RunTest2)
    case RunWait(signalled) => if signalled || c.spurious then Lock(s, t, RunTest) else s
    case RunTest2 =>
      if s.stop && s.current == Null then At(s, t, RunBreak)
      else if s.current.To? then At(s, t, TaskTop(s.current.obj, RunLoop))
      else Fault(s)
    case RunClear => At(s.(current := Null), t, RunUnlock)
    case RunUnlock => Unlock(s, t, RunLock)
    case RunBreak => Unlock(s, t, Exited)
    case _ => s
  }

  /** One atomic step of one thread; a blocked thread leaves the state as it is. */
  function Step(s: State, t: Tid, c: Choice): State {
    match PcOf(s.pcs, t)
    case Idle => StepIdle(s, t, c)
    case Allocated(_, _) => StepLog(s, t, c)
    case Ready(_, _) => StepLog(s, t, c)
    case Linking(_, _) => StepLog(s, t, c)
    case Won(_) => StepLog(s, t, c)
    case Deciding(_) => StepLog(s, t, c)
    case SyncLog(_) => StepLog(s, t, c)
    case WantLock(_) => StepLog(s, t, c)
    case Holding(_) => StepLog(s, t, c)
    case Handoff(_) => StepLog(s, t, c)
    case Signalling => StepLog(s, t, c)
    case Unlocking => StepLog(s, t, c)
    case Cas(_, _) => StepComplete(s, t)
    case Reversing(_, _, _, _) => StepComplete(s, t)
    case Splice(_, _, _) => StepComplete(s, t)
    case Completed(_, _) => StepComplete(s, t)
    case TaskTop(_, _) => StepTask(s, t)
    case TaskWalk(_, _) => StepTask(s, t)
    case TaskLast(_, _) => StepTask(s, t)
    case StopLock => StepStop(s, t)
    case StopSignal => StepStop(s, t)
    case StopUnlock => StepStop(s, t)
    case Joining => StepStop(s, t)
    case _ => StepRun(s, t, c)
  }

  /** A schedule: who moves, and what the outside answers. */
  function Run(s: State, schedule: seq<(Tid, Choice)>): State {
    if schedule == [] then s
    else
      var last := schedule[|schedule| - 1];
      Step(Run(s, schedule[..|schedule| - 1]), last.0, last.1)
  }

  // ---- the invariant

  datatype Holder = Nobody | Handed | Holds(t: Tid)

  /**
   * What a state means: `chain` lists the requests exchanged and not yet done with, oldest first;
   * positions from..upto are linked forwards, the others still point backwards or nowhere.
   */
  datatype Shape = Shape(chain: seq<Obj>, from: nat, upto: nat, raw: bool, holder: Holder)

  function Next(live: map<Obj, Node>, o: Obj): Link {
    if o in live then live[o].next else Unconnected
  }

  function Content(live: map<Obj, Node>, o: Obj): string {
    if o in live then live[o].content else ""
  }

  function Texts(live: map<Obj, Node>, chain: seq<Obj>): seq<string> {
    seq(|chain|, i requires 0 <= i < |chain| => Content(live, chain[i]))
  }

  /** The contents still to be written: all of the chain but a first one that was written already. */
  function Unwritten(live: map<Obj, Node>, chain: seq<Obj>): seq<string> {
    var texts := Texts(live, chain);
    if |texts| > 0 && texts[0] == "" then texts[1..] else texts
  }

  predicate ChainOk(live: map<Obj, Node>, head: Link, chain: seq<Obj>) {
    && (forall i | 0 <= i < |chain| :: chain[i] in live)
    && (forall i, j | 0 <= i < j < |chain| :: chain[i] != chain[j])
    && head == if chain == [] then Null else To(chain[|chain| - 1])
  }

  predicate LinkOk(live: map<Obj, Node>, sh: Shape, i: nat)
    requires i < |sh.chain|
  {
    var next := Next(live, sh.chain[i]);
    if sh.from <= i < sh.upto then
      next == if i + 1 < sh.upto && i + 1 < |sh.chain| then To(sh.chain[i + 1])
              else if sh.raw then Unconnected else Null
    else if i == 0 then next == Null
    else next == To(sh.chain[i - 1]) || next == Unconnected
  }

  predicate LinksOk(live: map<Obj, Node>, sh: Shape) {
    && (sh.chain != [] ==> sh.from <= sh.upto <= |sh.chain| && 0 < sh.upto)
    && (sh.raw ==> sh.chain != [] && sh.from == 0 && sh.upto == 1)
    && (forall i | 0 <= i < |sh.chain| :: LinkOk(live, sh, i))
  }

  predicate ContentsOk(live: map<Obj, Node>, chain: seq<Obj>, exchanged: seq<string>, written: seq<string>) {
    && (forall i | 1 <= i < |chain| :: Content(live, chain[i]) != "")
    && exchanged == written + Unwritten(live, chain)
  }

  /** The object only this thread can reach. */
  function Private(pc: Pc): Link {
    match pc
    case Allocated(o, _) => To(o)
    case Ready(o, _) => To(o)
    case Completed(o, _) => To(o)
    case _ => Null
  }

  predicate PrivateOk(live: map<Obj, Node>, pc: Pc) {
    match pc
    case Allocated(o, text) => Content(live, o) == text != ""
    case Ready(o, text) => Content(live, o) == text != "" && Next(live, o) == Unconnected
    case _ => true
  }

  ghost predicate OwnersOk(live: map<Obj, Node>, chain: seq<Obj>, pcs: map<Tid, Pc>) {
    && (forall o | o in live :: o in chain || exists t :: Private(PcOf(pcs, t)) == To(o))
    && (forall t | Private(PcOf(pcs, t)).To? ::
          Private(PcOf(pcs, t)).obj in live && Private(PcOf(pcs, t)).obj !in chain)
    && (forall t, u | t != u && Private(PcOf(pcs, t)).To? :: Private(PcOf(pcs, t)) != Private(PcOf(pcs, u)))
    && (forall t :: PrivateOk(live, PcOf(pcs, t)))
  }

  /** Position i was exchanged and its thread has not yet linked it. */
  predicate Dangling(live: map<Obj, Node>, sh: Shape, i: nat) {
    && 1 <= i < |sh.chain|
    && !(sh.from <= i < sh.upto)
    && Next(live, sh.chain[i]) == Unconnected
  }

  predicate LinksHere(live: map<Obj, Node>, sh: Shape, i: nat, pc: Pc) {
    Dangling(live, sh, i) && pc == Linking(sh.chain[i], sh.chain[i - 1])
  }

  /** Each linking thread has its position. */
  ghost predicate LinkersPlaced(live: map<Obj, Node>, sh: Shape, pcs: map<Tid, Pc>) {
    forall t | PcOf(pcs, t).Linking? :: exists i: nat :: LinksHere(live, sh, i, PcOf(pcs, t))
  }

  /** Each dangling position has its thread. */
  ghost predicate DanglingServed(live: map<Obj, Node>, sh: Shape, pcs: map<Tid, Pc>) {
    forall i: nat | Dangling(live, sh, i) :: exists t :: LinksHere(live, sh, i, PcOf(pcs, t))
  }

  predicate SameLink(pc: Pc, pc': Pc) {
    pc.Linking? && pc'.Linking? && pc.o == pc'.o
  }

  ghost predicate LinkersApart(pcs: map<Tid, Pc>) {
    forall t, u | t != u :: !SameLink(PcOf(pcs, t), PcOf(pcs, u))
  }

  ghost predicate LinkersOk(live: map<Obj, Node>, sh: Shape, pcs: map<Tid, Pc>) {
    LinkersPlaced(live, sh, pcs) && DanglingServed(live, sh, pcs) && LinkersApart(pcs)
  }

  predicate HasRight(pc: Pc) {
    match pc
    case Won(_) => true
    case Deciding(_) => true
    case SyncLog(_) => true
    case WantLock(_) => true
    case Holding(_) => true
    case Handoff(_) => true
    case Cas(_, _) => true
    case Reversing(_, _, _, _) => true
    case Splice(_, _, _) => true
    case TaskTop(_, _) => true
    case TaskWalk(_, _) => true
    case TaskLast(_, _) => true
    case _ => false
  }

  /** What the thread with the right to write relies on at each point. */
  predicate RightHolderOk(pc: Pc, live: map<Obj, Node>, sh: Shape)
    requires HasRight(pc) && sh.chain != []
  {
    && pc.o == sh.chain[0]
    && sh.raw == pc.Won?
    && match pc
       case Reversing(o, p, tail, k) =>
         && 2 <= sh.from <= |sh.chain|
         && p == sh.chain[sh.from - 1]
         && tail == (if sh.from < |sh.chain| && sh.from < sh.upto then To(sh.chain[sh.from]) else Null)
         && Content(live, o) == ""
       case Splice(o, tail, k) =>
         && sh.from == 1 && 2 <= sh.upto <= |sh.chain| && tail == To(sh.chain[1]) && Content(live, o) == ""
       case Cas(o, k) => sh.from == 0 && sh.upto == 1 && Content(live, o) == ""
       case TaskLast(_, _) => sh.from == 0 && sh.upto == 1
       case Won(o) => sh.from == 0 && sh.upto == 1 && Content(live, o) != ""
       case Deciding(o) => sh.from == 0 && sh.upto == 1 && Content(live, o) != ""
       case SyncLog(o) => sh.from == 0 && sh.upto == 1 && Content(live, o) != ""
       case _ => sh.from == 0
  }

  ghost predicate RightOk(live: map<Obj, Node>, sh: Shape, pcs: map<Tid, Pc>) {
    && (sh.chain == [] <==> sh.holder == Nobody)
    && (forall t :: HasRight(PcOf(pcs, t)) <==> sh.holder == Holds(t))
    && (sh.holder.Holds? ==> HasRight(PcOf(pcs, sh.holder.t)) && RightHolderOk(PcOf(pcs, sh.holder.t), live, sh))
    && (sh.holder == Handed ==> sh.from == 0 && !sh.raw)
  }

  predicate HasMutex(pc: Pc) {
    match pc
    case Holding(_) => true
    case Handoff(_) => true
    case Signalling => true
    case Unlocking => true
    case Cas(_, k) => k != SyncFirst
    case Reversing(_, _, _, k) => k != SyncFirst
    case Splice(_, _, k) => k != SyncFirst
    case Completed(_, k) => k != SyncFirst
    case TaskTop(_, _) => true
    case TaskWalk(_, _) => true
    case TaskLast(_, _) => true
    case StopSignal => true
    case StopUnlock => true
    case RunTest => true
    case RunTest2 => true
    case RunClear => true
    case RunUnlock => true
    case RunBreak => true
    case _ => false
  }

  ghost predicate MutexOk(mutex: Mutex, pcs: map<Tid, Pc>) {
    forall t :: HasMutex(PcOf(pcs, t)) <==> mutex == LockedBy(t)
  }

  /** The runner is inside LogTask, or about to clear the request it got. */
  predicate Busy(pc: Pc) {
    match pc
    case Cas(_, k) => k == RunLoop
    case Reversing(_, _, _, k) => k == RunLoop
    case Splice(_, _, k) => k == RunLoop
    case Completed(_, k) => k == RunLoop
    case TaskTop(_, k) => k == RunLoop
    case TaskWalk(_, k) => k == RunLoop
    case TaskLast(_, k) => k == RunLoop
    case RunClear => true
    case _ => false
  }

  predicate OfRunner(pc: Pc) {
    || Busy(pc) || pc == RunLock || pc == RunTest || pc.RunWait? || pc == RunTest2 || pc == RunUnlock
    || pc == RunBreak || pc == Exited
  }

  /** LogTask is entered with the lock held, so never from the first synchronous write. */
  predicate ThenOk(pc: Pc) {
    match pc
    case TaskTop(_, k) => k != SyncFirst
    case TaskWalk(_, k) => k != SyncFirst
    case TaskLast(_, k) => k != SyncFirst
    case _ => true
  }

  ghost predicate HandoverOk(current: Link, stop: bool, sh: Shape, pcs: map<Tid, Pc>) {
    && current != Unconnected
    && (current.To? <==> sh.holder == Handed || Busy(PcOf(pcs, RUNNER)))
    && (sh.holder == Handed ==> !Busy(PcOf(pcs, RUNNER)))
    && (sh.holder == Handed && sh.chain != [] ==> current == To(sh.chain[0]))
    && (forall t :: OfRunner(PcOf(pcs, t)) <==> t == RUNNER)
    && (forall t :: ThenOk(PcOf(pcs, t)))
    && (PcOf(pcs, RUNNER) == RunTest2 && current == Null ==> stop)
    && (PcOf(pcs, RUNNER) == RunBreak || PcOf(pcs, RUNNER) == Exited ==> stop && current == Null)
    && (PcOf(pcs, RUNNER) == Exited ==> forall t :: !PcOf(pcs, t).Handoff?)
  }

  predicate Stopping(pc: Pc) {
    pc == StopLock || pc == StopSignal || pc == StopUnlock || pc == Joining
  }

  /** No wake-up is lost: a waiting runner has nothing to do, or its signal is on its way. */
  ghost predicate WakeOk(current: Link, stop: bool, pcs: map<Tid, Pc>) {
    && (PcOf(pcs, RUNNER) == RunWait(false) && current.To? ==> exists t :: PcOf(pcs, t) == Signalling)
    && (PcOf(pcs, RUNNER) == RunWait(false) && stop ==>
          exists t :: PcOf(pcs, t) == StopLock || PcOf(pcs, t) == StopSignal)
    && (forall t :: Stopping(PcOf(pcs, t)) ==> stop)
  }

  /** The list and its requests. */
  ghost predicate ListOk(s: State, sh: Shape) {
    && ChainOk(s.live, s.head, sh.chain)
    && LinksOk(s.live, sh)
    && ContentsOk(s.live, sh.chain, s.exchanged, s.written)
    && OwnersOk(s.live, sh.chain, s.pcs)
    && LinkersOk(s.live, sh, s.pcs)
  }

  /** The right to write, the lock and the runner. */
  ghost predicate ControlOk(s: State, sh: Shape) {
    && RightOk(s.live, sh, s.pcs)
    && MutexOk(s.mutex, s.pcs)
    && HandoverOk(s.current, s.stop, sh, s.pcs)
    && WakeOk(s.current, s.stop, s.pcs)
  }

  ghost predicate Inv(s: State, sh: Shape) {
    !s.fault && ListOk(s, sh) && ControlOk(s, sh)
  }

  const NOTHING: Shape := Shape([], 0, 0, false, Nobody)

  /** The oldest request leaves. */
  function Dropped(sh: Shape): Shape {
    if sh.chain == [] || sh.upto == 0 then sh else sh.(chain := sh.chain[1..], upto := sh.upto - 1)
  }

  /** A new request comes in. */
  function Extended(sh: Shape, o: Obj): Shape {
    sh.(chain := sh.chain + [o])
  }

  /** The shape after a step of thread t. */
  function NextShape(s: State, sh: Shape, t: Tid): Shape {
    match PcOf(s.pcs, t)
    case Ready(o, _) => if sh.chain == [] then Shape([o], 0, 1, true, Holds(t)) else Extended(sh, o)
    case Won(_) => sh.(raw := false)
    case Handoff(_) => sh.(holder := Handed)
    case Cas(_, _) => if |sh.chain| == 1 then NOTHING else sh.(from := |sh.chain|, upto := |sh.chain|)
    case Reversing(_, p, _, _) =>
      if Next(s.live, p) == Unconnected || sh.from == 0 then sh else sh.(from := sh.from - 1)
    case Splice(_, _, _) => sh.(from := 0)
    case TaskTop(o, _) => if Next(s.live, o).To? && Content(s.live, o) == "" then Dropped(sh) else sh
    case TaskWalk(o, _) => if Next(s.live, o).To? then Dropped(sh) else sh
    case RunTest2 => if s.current.To? then sh.(holder := Holds(RUNNER)) else sh
    case _ => sh
  }

  // ---- how each part of the invariant survives a step

  lemma OwnersStay(live: map<Obj, Node>, chain: seq<Obj>, pcs: map<Tid, Pc>, t: Tid, pc: Pc)
    requires OwnersOk(live, chain, pcs)
    requires Private(PcOf(pcs, t)) == Null == Private(pc)
    ensures OwnersOk(live, chain, pcs[t := pc])
  {
    assert PrivateOk(live, pc);
    hide Private, PrivateOk;
    var pcs' := pcs[t := pc];
    assert forall u :: Private(PcOf(pcs', u)) == Private(PcOf(pcs, u));
    assert forall u :: u != t ==> PcOf(pcs', u) == PcOf(pcs, u);
  }

  /** Objects of the chain may be rewritten in place. */
  lemma OwnersRewrite(live: map<Obj, Node>, live': map<Obj, Node>, chain: seq<Obj>, pcs: map<Tid, Pc>)
    requires OwnersOk(live, chain, pcs)
    requires live'.Keys == live.Keys
    requires forall o | o in live && o !in chain :: live'[o] == live[o]
    ensures OwnersOk(live', chain, pcs)
  {
    hide Private, PcOf;
    forall t ensures PrivateOk(live', PcOf(pcs, t)) {
      assert PrivateOk(live, PcOf(pcs, t));
      SamePrivate(live, live', PcOf(pcs, t), chain);
    }
  }

  lemma SamePrivate(live: map<Obj, Node>, live': map<Obj, Node>, pc: Pc, chain: seq<Obj>)
    requires PrivateOk(live, pc)
    requires Private(pc).To? ==> Private(pc).obj in live && Private(pc).obj !in chain
    requires forall o | o in live && o !in chain :: o in live' && live'[o] == live[o]
    ensures PrivateOk(live', pc)
  {
  }

  /** The oldest request leaves the chain and the pool takes it back. */
  lemma OwnersDrop(live: map<Obj, Node>, chain: seq<Obj>, pcs: map<Tid, Pc>)
    requires OwnersOk(live, chain, pcs)
    requires chain != [] && forall j | 0 < j < |chain| :: chain[0] != chain[j]
    ensures OwnersOk(live - {chain[0]}, chain[1..], pcs)
  {
    hide Private, PcOf;
    var live' := live - {chain[0]};
    forall t ensures PrivateOk(live', PcOf(pcs, t)) {
      assert PrivateOk(live, PcOf(pcs, t));
      SamePrivate(live, live', PcOf(pcs, t), chain);
    }
  }

  lemma LinkersStay(live: map<Obj, Node>, sh: Shape, pcs: map<Tid, Pc>, t: Tid, pc: Pc)
    requires LinkersOk(live, sh, pcs)
    requires !PcOf(pcs, t).Linking? && !pc.Linking?
    ensures LinkersOk(live, sh, pcs[t := pc])
  {
    var pcs' := pcs[t := pc];
    PcSet(pcs, t, pc);
    hide PcOf, LinkersApart, DanglingServed, Dangling, LinksHere;
    ApartWithout(pcs, t, pc, pcs') by { hide LinkersPlaced; }
    StillServed(live, sh, pcs, t, pcs');
  }

  lemma StillServed(live: map<Obj, Node>, sh: Shape, pcs: map<Tid, Pc>, t: Tid, pcs': map<Tid, Pc>)
    requires DanglingServed(live, sh, pcs) && !PcOf(pcs, t).Linking?
    requires forall u | u != t :: PcOf(pcs', u) == PcOf(pcs, u)
    ensures DanglingServed(live, sh, pcs')
  {
    hide Dangling, PcOf, LinksHere;
    forall i: nat | Dangling(live, sh, i) ensures exists u :: LinksHere(live, sh, i, PcOf(pcs', u)) {
      var u :| LinksHere(live, sh, i, PcOf(pcs, u));
      HereDangles(live, sh, i, PcOf(pcs, u));
      assert LinksHere(live, sh, i, PcOf(pcs', u));
    }
  }

  lemma LinkersRewrite(live: map<Obj, Node>, sh: Shape, live': map<Obj, Node>, sh': Shape, pcs: map<Tid, Pc>)
    requires LinkersOk(live, sh, pcs)
    requires sh'.chain == sh.chain
    requires forall i: nat :: Dangling(live', sh', i) <==> Dangling(live, sh, i)
    ensures LinkersOk(live', sh', pcs)
  {
    hide PcOf;
    assert forall i: nat, pc :: LinksHere(live', sh', i, pc) <==> LinksHere(live, sh, i, pc) by { hide Dangling; }
    hide Dangling, LinksHere;
    forall i: nat | Dangling(live', sh', i) ensures exists t :: LinksHere(live', sh', i, PcOf(pcs, t)) {
      var t :| LinksHere(live, sh, i, PcOf(pcs, t));
      assert LinksHere(live', sh', i, PcOf(pcs, t));
    }
  }

  lemma MutexMoves(mutex: Mutex, pcs: map<Tid, Pc>, t: Tid, pc: Pc, mutex': Mutex)
    requires MutexOk(mutex, pcs)
    requires HasMutex(pc) ==> HasMutex(PcOf(pcs, t)) || mutex == Free
    requires mutex' == if HasMutex(pc) then LockedBy(t) else if HasMutex(PcOf(pcs, t)) then Free else mutex
    ensures MutexOk(mutex', pcs[t := pc])
  {
    hide HasMutex;
    var pcs' := pcs[t := pc];
    forall u ensures HasMutex(PcOf(pcs', u)) <==> mutex' == LockedBy(u) {
      if u != t {
        assert PcOf(pcs', u) == PcOf(pcs, u);
        assert HasMutex(PcOf(pcs, u)) <==> mutex == LockedBy(u);
        assert HasMutex(PcOf(pcs, t)) <==> mutex == LockedBy(t);
      }
    }
  }

  /** Only thread t may have the right, before and after. */
  lemma RightChanges(live: map<Obj, Node>, sh: Shape, pcs: map<Tid, Pc>, t: Tid, pc: Pc,
                     live': map<Obj, Node>, sh': Shape)
    requires RightOk(live, sh, pcs)
    requires (sh.holder == Holds(t) || !sh.holder.Holds?) && (sh'.holder == Holds(t) || !sh'.holder.Holds?)
    requires HasRight(pc) <==> sh'.holder == Holds(t)
    requires sh'.holder == Holds(t) ==> sh'.chain != [] && RightHolderOk(pc, live', sh')
    requires sh'.chain == [] <==> sh'.holder == Nobody
    requires sh'.holder == Handed ==> sh'.from == 0 && !sh'.raw
    ensures RightOk(live', sh', pcs[t := pc])
  {
    hide RightHolderOk, HasRight;
    var pcs' := pcs[t := pc];
    assert forall u :: u != t ==> PcOf(pcs', u) == PcOf(pcs, u);
  }

  /** A thread without the right moves on without it. */
  lemma RightStays(live: map<Obj, Node>, sh: Shape, pcs: map<Tid, Pc>, t: Tid, pc: Pc)
    requires RightOk(live, sh, pcs)
    requires !HasRight(PcOf(pcs, t)) && !HasRight(pc)
    ensures RightOk(live, sh, pcs[t := pc])
  {
    hide RightHolderOk, HasRight;
    var pcs' := pcs[t := pc];
    assert forall u :: u != t ==> PcOf(pcs', u) == PcOf(pcs, u);
    assert sh.holder != Holds(t);
  }

  /** A producer moves on; it neither hands over nor takes what was handed over. */
  lemma HandoverStays(current: Link, stop: bool, sh: Shape, pcs: map<Tid, Pc>, t: Tid, pc: Pc, sh': Shape)
    requires HandoverOk(current, stop, sh, pcs)
    requires t != RUNNER && !OfRunner(pc) && ThenOk(pc)
    requires sh.holder == Handed <==> sh'.holder == Handed
    requires sh'.holder == Handed ==> sh.chain != [] && sh'.chain != [] && sh'.chain[0] == sh.chain[0]
    requires pc.Handoff? ==> PcOf(pcs, RUNNER) != Exited
    ensures HandoverOk(current, stop, sh', pcs[t := pc])
  {
    hide Busy, OfRunner, ThenOk;
    var pcs' := pcs[t := pc];
    assert forall u :: u != t ==> PcOf(pcs', u) == PcOf(pcs, u);
    assert PcOf(pcs', RUNNER) == PcOf(pcs, RUNNER);
  }

  /** The runner goes on with the request it took. */
  lemma HandoverBusy(current: Link, stop: bool, sh: Shape, pcs: map<Tid, Pc>, pc: Pc, sh': Shape)
    requires HandoverOk(current, stop, sh, pcs)
    requires Busy(PcOf(pcs, RUNNER)) && Busy(pc) && ThenOk(pc)
    requires sh.holder != Handed && sh'.holder != Handed
    ensures HandoverOk(current, stop, sh', pcs[RUNNER := pc])
  {
    hide ThenOk;
    var pcs' := pcs[RUNNER := pc];
    assert forall u :: u != RUNNER ==> PcOf(pcs', u) == PcOf(pcs, u);
    assert PcOf(pcs', RUNNER) == pc;
  }

  lemma WakeStays(current: Link, stop: bool, pcs: map<Tid, Pc>, t: Tid, pc: Pc)
    requires WakeOk(current, stop, pcs)
    requires Stopping(pc) ==> stop
    requires pc == RunWait(false) ==> !current.To? && !stop
    requires
      || PcOf(pcs, RUNNER) != RunWait(false)
      || (PcOf(pcs, t) != Signalling
          && (PcOf(pcs, t) == StopLock || PcOf(pcs, t) == StopSignal ==> pc == StopLock || pc == StopSignal))
    ensures WakeOk(current, stop, pcs[t := pc])
  {
    hide Stopping;
    var pcs' := pcs[t := pc];
    assert forall u :: u != t ==> PcOf(pcs', u) == PcOf(pcs, u);
    assert PcOf(pcs', t) == pc;
    if PcOf(pcs', RUNNER) == RunWait(false) && t != RUNNER {
      if current.To? {
        var u :| PcOf(pcs, u) == Signalling;
        assert PcOf(pcs', u) == Signalling;
      }
      if stop {
        var u :| PcOf(pcs, u) == StopLock || PcOf(pcs, u) == StopSignal;
        assert PcOf(pcs', u) == StopLock || PcOf(pcs', u) == StopSignal;
      }
    }
  }

  lemma InvInitially()
    ensures Inv(INITIAL, NOTHING)
  {
    hide ChainOk, LinksOk, ContentsOk, OwnersOk, LinkersOk, RightOk, MutexOk, HandoverOk, WakeOk;
    InitialList();
    InitialControl();
  }

  lemma InitialList()
    ensures ListOk(INITIAL, NOTHING)
  {
    assert forall t :: Private(PcOf(INITIAL.pcs, t)) == Null;
  }

  lemma InitialControl()
    ensures ControlOk(INITIAL, NOTHING)
  {
    var sh := NOTHING;
    assert forall t :: PcOf(INITIAL.pcs, t) == if t == RUNNER then RunLock else Idle;
    assert RightOk(INITIAL.live, sh, INITIAL.pcs);
    assert MutexOk(INITIAL.mutex, INITIAL.pcs);
    assert WakeOk(INITIAL.current, INITIAL.stop, INITIAL.pcs);
  }

  // ---- steps of the thread that has the right to write

  lemma AtRight(s: State, sh: Shape, t: Tid)
    requires Inv(s, sh) && HasRight(PcOf(s.pcs, t))
    ensures sh.holder == Holds(t) && sh.chain != [] && RightHolderOk(PcOf(s.pcs, t), s.live, sh)
    ensures sh.chain[0] in s.live && LinkOk(s.live, sh, 0)
    ensures sh.from <= sh.upto <= |sh.chain| && 0 < sh.upto
    ensures OfRunner(PcOf(s.pcs, t)) <==> t == RUNNER
    ensures ThenOk(PcOf(s.pcs, t))
  {
    hide OwnersOk, LinkersOk, MutexOk, WakeOk, LinkOk, RightHolderOk, HasRight, ContentsOk, OfRunner, ThenOk;
  }

  /** The right holder's next point keeps the control part. */
  lemma Continues(s: State, sh: Shape, t: Tid, pc: Pc, s': State, sh': Shape)
    requires Inv(s, sh) && HasRight(PcOf(s.pcs, t)) && HasRight(pc)
    requires s'.pcs == s.pcs[t := pc] && s'.mutex == s.mutex && s'.current == s.current && s'.stop == s.stop
    requires sh'.holder == Holds(t) && sh'.chain != [] && RightHolderOk(pc, s'.live, sh')
    requires HasMutex(pc) == HasMutex(PcOf(s.pcs, t))
    requires (OfRunner(pc) <==> t == RUNNER) && ThenOk(pc)
    requires pc.Handoff? ==> PcOf(s.pcs, RUNNER) != Exited
    ensures ControlOk(s', sh')
  {
    hide RightOk, MutexOk, HandoverOk, WakeOk, ListOk, HasRight, HasMutex, OfRunner, ThenOk, Stopping, RightHolderOk,
         Busy, PcOf, LinkOk;
    AtRight(s, sh, t);
    MutexAgrees(s.mutex, s.pcs, t);
    RightPc(pc);
    RightPc(PcOf(s.pcs, t));
    RightChanges(s.live, sh, s.pcs, t, pc, s'.live, sh');
    MutexMoves(s.mutex, s.pcs, t, pc, s.mutex);
    if t == RUNNER {
      HandoverBusy(s.current, s.stop, sh, s.pcs, pc, sh');
    } else {
      HandoverStays(s.current, s.stop, sh, s.pcs, t, pc, sh');
    }
    WakeStays(s.current, s.stop, s.pcs, t, pc);
  }

  lemma RightPc(pc: Pc)
    requires HasRight(pc)
    ensures pc != Signalling && pc != StopLock && pc != StopSignal && !pc.RunWait? && !Stopping(pc)
    ensures OfRunner(pc) ==> Busy(pc)
    ensures Private(pc) == Null && !pc.Linking?
  {
  }

  lemma MutexAgrees(mutex: Mutex, pcs: map<Tid, Pc>, t: Tid)
    requires MutexOk(mutex, pcs)
    ensures HasMutex(PcOf(pcs, t)) <==> mutex == LockedBy(t)
  {
  }

  /** Only the program counter moves; the list stays as it is. */
  lemma ListStays(s: State, sh: Shape, t: Tid, pc: Pc, s': State)
    requires ListOk(s, sh)
    requires Private(PcOf(s.pcs, t)) == Null == Private(pc) && !PcOf(s.pcs, t).Linking? && !pc.Linking?
    requires s'.live == s.live && s'.head == s.head && s'.exchanged == s.exchanged && s'.written == s.written
    requires s'.pcs == s.pcs[t := pc]
    ensures ListOk(s', sh)
  {
    hide ChainOk, LinksOk, ContentsOk, OwnersOk, LinkersOk, Private;
    OwnersStay(s.live, sh.chain, s.pcs, t, pc);
    LinkersStay(s.live, sh, s.pcs, t, pc);
  }

  lemma LinksAfter(live: map<Obj, Node>, sh: Shape, i: nat, live': map<Obj, Node>, sh': Shape)
    requires LinksOk(live, sh) && i < |sh.chain| && sh'.chain == sh.chain && sh'.upto == sh.upto
    requires forall j | 0 <= j < |sh.chain| && j != i ::
               sh.chain[j] in live && sh.chain[j] in live' && live'[sh.chain[j]] == live[sh.chain[j]]
    requires sh'.from == sh.from || sh'.from == i == sh.from - 1
    requires (sh'.raw ==> sh.raw) && (sh.raw && !sh'.raw ==> i == 0)
    requires sh'.from <= sh'.upto
    requires LinkOk(live', sh', i)
    ensures LinksOk(live', sh')
  {
    forall j | 0 <= j < |sh'.chain| ensures LinkOk(live', sh', j) {
      if j != i {
        assert LinkOk(live, sh, j);
      }
    }
  }

  lemma DanglingSame(live: map<Obj, Node>, sh: Shape, i: nat, live': map<Obj, Node>, sh': Shape)
    requires i < |sh.chain| && sh'.chain == sh.chain && sh'.upto == sh.upto
    requires forall j | 0 <= j < |sh.chain| && j != i ::
               sh.chain[j] in live && sh.chain[j] in live' && live'[sh.chain[j]] == live[sh.chain[j]]
    requires sh'.from == sh.from || sh'.from == i == sh.from - 1
    requires !Dangling(live, sh, i) && !Dangling(live', sh', i)
    ensures forall j: nat :: Dangling(live', sh', j) <==> Dangling(live, sh, j)
  {
    forall j: nat | j != i ensures Dangling(live', sh', j) <==> Dangling(live, sh, j) {
    }
  }

  lemma ContentsSame(live: map<Obj, Node>, live': map<Obj, Node>, chain: seq<Obj>,
                     exchanged: seq<string>, written: seq<string>)
    requires ContentsOk(live, chain, exchanged, written)
    requires forall j | 0 <= j < |chain| ::
               chain[j] in live && chain[j] in live' && live'[chain[j]].content == live[chain[j]].content
    ensures ContentsOk(live', chain, exchanged, written)
  {
    forall j | 0 <= j < |chain| ensures Content(live', chain[j]) == Content(live, chain[j]) {
    }
    assert Texts(live', chain) == Texts(live, chain);
  }

  lemma InChain(live: map<Obj, Node>, head: Link, chain: seq<Obj>, i: nat)
    requires ChainOk(live, head, chain) && i < |chain|
    ensures chain[i] in live
  {
  }

  lemma Rewritten(live: map<Obj, Node>, head: Link, chain: seq<Obj>, i: nat, node: Node,
                  live': map<Obj, Node>)
    requires ChainOk(live, head, chain) && i < |chain|
    requires live' == live[chain[i] := node]
    ensures chain[i] in live && ChainOk(live', head, chain) && live'.Keys == live.Keys
    ensures forall j | 0 <= j < |chain| && j != i :: chain[j] in live' && live'[chain[j]] == live[chain[j]]
    ensures forall x | x in live && x !in chain :: live'[x] == live[x]
  {
  }

  /** One link of the chain is rewritten. */
  lemma Relinks(s: State, sh: Shape, i: nat, next: Link, s': State, sh': Shape)
    requires ListOk(s, sh) && i < |sh.chain| && sh'.chain == sh.chain && sh'.upto == sh.upto
    requires s' == SetNext(s, sh.chain[i], next)
    requires !sh'.raw && sh'.from <= sh'.upto && (sh.raw ==> i == 0)
    requires sh'.from == sh.from || sh'.from == i == sh.from - 1
    requires LinkOk(s'.live, sh', i)
    requires !Dangling(s.live, sh, i) && !Dangling(s'.live, sh', i)
    ensures ListOk(s', sh') && !(s'.fault && !s.fault)
  {
    hide ChainOk, LinksOk, ContentsOk, OwnersOk, LinkersOk, LinkOk, Dangling, Next, Content;
    assert sh.chain[i] in s.live by { InChain(s.live, s.head, sh.chain, i); }
    Rewritten(s.live, s.head, sh.chain, i, s.live[sh.chain[i]].(next := next), s'.live);
    LinksAfter(s.live, sh, i, s'.live, sh');
    DanglingSame(s.live, sh, i, s'.live, sh');
    LinkersRewrite(s.live, sh, s'.live, sh', s.pcs);
    OwnersRewrite(s.live, s'.live, sh.chain, s.pcs);
    ContentsSame(s.live, s'.live, sh.chain, s.exchanged, s.written);
  }

  lemma FirstWritten(live: map<Obj, Node>, chain: seq<Obj>, exchanged: seq<string>, written: seq<string>,
                     live': map<Obj, Node>, written': seq<string>)
    requires ContentsOk(live, chain, exchanged, written) && chain != []
    requires chain[0] in live && live' == live[chain[0] := live[chain[0]].(content := "")]
    requires forall j | 0 < j < |chain| :: chain[j] in live && chain[0] != chain[j]
    requires written' == if live[chain[0]].content == "" then written else written + [live[chain[0]].content]
    ensures ContentsOk(live', chain, exchanged, written')
  {
    forall j | 0 < j < |chain| ensures Content(live', chain[j]) == Content(live, chain[j]) {
    }
    var before, after := Texts(live, chain), Texts(live', chain);
    assert after == [""] + before[1..];
    assert before[0] == live[chain[0]].content;
    FirstLogged(written, before, written');
  }

  lemma FirstLogged(written: seq<string>, texts: seq<string>, written': seq<string>)
    requires texts != []
    requires written' == if texts[0] == "" then written else written + [texts[0]]
    ensures written' + texts[1..] == written + if texts[0] == "" then texts[1..] else texts
  {
    assert texts == [texts[0]] + texts[1..];
  }

  /** The oldest request is written where it stands. */
  lemma Logs(s: State, sh: Shape, s': State)
    requires ListOk(s, sh) && sh.chain != [] && s' == DoLog(s, sh.chain[0])
    ensures ListOk(s', sh) && s'.fault == s.fault && Content(s'.live, sh.chain[0]) == ""
    ensures s'.live.Keys == s.live.Keys
  {
    var o := sh.chain[0];
    hide ChainOk, LinksOk, ContentsOk, OwnersOk, LinkersOk, LinkOk, Dangling;
    InChain(s.live, s.head, sh.chain, 0);
    var live' := s.live[o := s.live[o].(content := "")];
    if s.live[o].content == "" {
      assert s' == s;
    } else {
      assert s'.live == live';
      Rewritten(s.live, s.head, sh.chain, 0, s.live[o].(content := ""), live');
      LinksSame(s.live, sh, live');
      LinkersRewrite(s.live, sh, live', sh, s.pcs);
      OwnersRewrite(s.live, live', sh.chain, s.pcs);
      ChainDistinct(s.live, s.head, sh.chain);
      FirstWritten(s.live, sh.chain, s.exchanged, s.written, live', s'.written);
    }
  }

  lemma ChainDistinct(live: map<Obj, Node>, head: Link, chain: seq<Obj>)
    requires ChainOk(live, head, chain) && chain != []
    ensures forall j | 0 < j < |chain| :: chain[j] in live && chain[0] != chain[j]
  {
  }

  lemma LinksSame(live: map<Obj, Node>, sh: Shape, live': map<Obj, Node>)
    requires LinksOk(live, sh)
    requires forall j | 0 <= j < |sh.chain| ::
               sh.chain[j] in live && sh.chain[j] in live' && live'[sh.chain[j]].next == live[sh.chain[j]].next
    ensures LinksOk(live', sh)
    ensures forall j: nat :: Dangling(live', sh, j) <==> Dangling(live, sh, j)
  {
    forall j | 0 <= j < |sh.chain| ensures LinkOk(live', sh, j) {
      assert LinkOk(live, sh, j);
    }
  }

  lemma LinksDrop(live: map<Obj, Node>, sh: Shape)
    requires LinksOk(live, sh) && 2 <= sh.upto <= |sh.chain| && sh.from == 0
    requires forall j | 0 < j < |sh.chain| :: sh.chain[j] in live && sh.chain[0] != sh.chain[j]
    ensures LinksOk(live - {sh.chain[0]}, Dropped(sh))
  {
    var live', sh' := live - {sh.chain[0]}, Dropped(sh);
    forall i | 0 <= i < |sh'.chain| ensures LinkOk(live', sh', i) {
      assert LinkOk(live, sh, i + 1);
      assert sh'.chain[i] == sh.chain[i + 1];
    }
  }

  lemma HereDrops(live: map<Obj, Node>, sh: Shape)
    requires 2 <= sh.upto <= |sh.chain| && sh.from == 0
    requires forall j | 0 < j < |sh.chain| :: sh.chain[j] in live && sh.chain[0] != sh.chain[j]
    ensures forall i: nat :: Dangling(live - {sh.chain[0]}, Dropped(sh), i) ==> Dangling(live, sh, i + 1)
    ensures forall i: nat, pc | LinksHere(live, sh, i, pc) ::
              1 <= i && LinksHere(live - {sh.chain[0]}, Dropped(sh), i - 1, pc)
  {
    var live', sh' := live - {sh.chain[0]}, Dropped(sh);
    forall i: nat ensures Dangling(live', sh', i) <==> 1 <= i && Dangling(live, sh, i + 1) {
    }
    hide Next;
    forall i: nat, pc | LinksHere(live, sh, i, pc) ensures 1 <= i && LinksHere(live', sh', i - 1, pc) {
      assert Dangling(live', sh', i - 1);
    }
  }

  lemma LinkersDrop(live: map<Obj, Node>, sh: Shape, pcs: map<Tid, Pc>)
    requires LinkersOk(live, sh, pcs) && 2 <= sh.upto <= |sh.chain| && sh.from == 0
    requires forall j | 0 < j < |sh.chain| :: sh.chain[j] in live && sh.chain[0] != sh.chain[j]
    ensures LinkersOk(live - {sh.chain[0]}, Dropped(sh), pcs)
  {
    hide PcOf, Dangling, LinksHere, LinkersApart;
    HereDrops(live, sh);
    var live', sh' := live - {sh.chain[0]}, Dropped(sh);
    forall t | PcOf(pcs, t).Linking? ensures exists i: nat :: LinksHere(live', sh', i, PcOf(pcs, t)) {
      var i: nat :| LinksHere(live, sh, i, PcOf(pcs, t));
      assert LinksHere(live', sh', i - 1, PcOf(pcs, t));
    }
    forall i: nat | Dangling(live', sh', i) ensures exists t :: LinksHere(live', sh', i, PcOf(pcs, t)) {
      var t :| LinksHere(live, sh, i + 1, PcOf(pcs, t));
      assert LinksHere(live', sh', i + 1 - 1, PcOf(pcs, t));
    }
  }

  lemma HereDangles(live: map<Obj, Node>, sh: Shape, i: nat, pc: Pc)
    requires LinksHere(live, sh, i, pc)
    ensures Dangling(live, sh, i) && 1 <= i < |sh.chain|
    ensures pc == Linking(sh.chain[i], sh.chain[i - 1]) && pc.o in sh.chain
  {
  }

  lemma ContentsDrop(live: map<Obj, Node>, chain: seq<Obj>, exchanged: seq<string>, written: seq<string>)
    requires ContentsOk(live, chain, exchanged, written) && |chain| > 1
    requires Content(live, chain[0]) == ""
    requires forall j | 0 < j < |chain| :: chain[j] in live && chain[0] != chain[j]
    ensures ContentsOk(live - {chain[0]}, chain[1..], exchanged, written)
  {
    var live', chain' := live - {chain[0]}, chain[1..];
    forall j | 0 <= j < |chain'| ensures Content(live', chain'[j]) == Content(live, chain[j + 1]) {
    }
    assert Texts(live', chain') == Texts(live, chain)[1..];
  }

  lemma ChainDrop(live: map<Obj, Node>, head: Link, chain: seq<Obj>)
    requires ChainOk(live, head, chain) && |chain| > 1
    ensures ChainOk(live - {chain[0]}, head, chain[1..])
  {
  }

  /** The oldest request, written already, goes back to the pool. */
  lemma Drops(s: State, sh: Shape, s': State)
    requires ListOk(s, sh) && 2 <= sh.upto <= |sh.chain| && sh.from == 0
    requires Content(s.live, sh.chain[0]) == ""
    requires s' == Return(s, sh.chain[0])
    ensures ListOk(s', Dropped(sh)) && s'.fault == s.fault
  {
    hide ChainOk, LinksOk, ContentsOk, OwnersOk, LinkersOk, Content;
    InChain(s.live, s.head, sh.chain, 0);
    ChainDistinct(s.live, s.head, sh.chain);
    ChainDrop(s.live, s.head, sh.chain);
    LinksDrop(s.live, sh);
    LinkersDrop(s.live, sh, s.pcs);
    OwnersDrop(s.live, sh.chain, s.pcs);
    ContentsDrop(s.live, sh.chain, s.exchanged, s.written);
  }

  lemma StepWon(s: State, sh: Shape, t: Tid, c: Choice)
    requires Inv(s, sh) && PcOf(s.pcs, t).Won?
    ensures Inv(Step(s, t, c), NextShape(s, sh, t))
  {
    hide ListOk, ControlOk;
    AtRight(s, sh, t);
    var o := sh.chain[0];
    var sh' := sh.(raw := false);
    var s1 := SetNext(s, o, Null);
    Relinks(s, sh, 0, Null, s1, sh');
    ListStays(s1, sh', t, Deciding(o), At(s1, t, Deciding(o)));
    Continues(s, sh, t, Deciding(o), At(s1, t, Deciding(o)), sh');
  }

  lemma StepPcOnly(s: State, sh: Shape, t: Tid, pc: Pc)
    requires Inv(s, sh) && HasRight(PcOf(s.pcs, t)) && HasRight(pc)
    requires sh.chain != [] ==> RightHolderOk(pc, s.live, sh)
    requires HasMutex(pc) == HasMutex(PcOf(s.pcs, t)) && OfRunner(pc) == OfRunner(PcOf(s.pcs, t)) && ThenOk(pc)
    requires pc.Handoff? ==> PcOf(s.pcs, RUNNER) != Exited
    ensures Inv(At(s, t, pc), sh)
  {
    hide ListOk, ControlOk, RightHolderOk, HasMutex, OfRunner, ThenOk, HasRight, LinkOk;
    AtRight(s, sh, t);
    RightPc(PcOf(s.pcs, t));
    RightPc(pc);
    ListStays(s, sh, t, pc, At(s, t, pc));
    Continues(s, sh, t, pc, At(s, t, pc), sh);
  }

  lemma StepDeciding(s: State, sh: Shape, t: Tid, c: Choice)
    requires Inv(s, sh) && PcOf(s.pcs, t).Deciding?
    ensures Inv(Step(s, t, c), NextShape(s, sh, t))
  {
    hide ListOk, ControlOk;
    AtRight(s, sh, t);
    StepPcOnly(s, sh, t, if c.background then WantLock(sh.chain[0]) else SyncLog(sh.chain[0]));
  }

  lemma StepHolding(s: State, sh: Shape, t: Tid, c: Choice)
    requires Inv(s, sh) && PcOf(s.pcs, t).Holding?
    ensures Inv(Step(s, t, c), NextShape(s, sh, t))
  {
    hide ListOk, ControlOk;
    ExitedMeansStopped(s, sh);
    AtRight(s, sh, t);
    StepPcOnly(s, sh, t, if s.stop then TaskTop(sh.chain[0], Drain) else Handoff(sh.chain[0]));
  }

  lemma ExitedMeansStopped(s: State, sh: Shape)
    requires Inv(s, sh)
    ensures PcOf(s.pcs, RUNNER) == Exited ==> s.stop
  {
    hide ListOk, RightOk, MutexOk, WakeOk;
  }

  lemma StepLogging(s: State, sh: Shape, t: Tid, c: Choice)
    requires Inv(s, sh) && (PcOf(s.pcs, t).SyncLog? || PcOf(s.pcs, t).TaskLast?)
    ensures Inv(Step(s, t, c), NextShape(s, sh, t))
  {
    hide ListOk, ControlOk;
    AtRight(s, sh, t);
    var o := sh.chain[0];
    var s1 := DoLog(s, o);
    var pc := Cas(o, if PcOf(s.pcs, t).SyncLog? then SyncFirst else PcOf(s.pcs, t).k);
    Logs(s, sh, s1);
    ListStays(s1, sh, t, pc, At(s1, t, pc));
    Continues(s, sh, t, pc, At(s1, t, pc), sh);
  }

  /** One turn of the reversal: the next older request joins the forward part. */
  lemma ReverseOne(live: map<Obj, Node>, sh: Shape, pc: Pc, live': map<Obj, Node>) returns (pc': Pc)
    requires pc.Reversing? && sh.chain != [] && RightHolderOk(pc, live, sh)
    requires sh.from <= sh.upto <= |sh.chain|
    requires pc.p in live && LinkOk(live, sh, sh.from - 1) && Next(live, pc.p) != Unconnected
    requires live' == live[pc.p := live[pc.p].(next := pc.tail)]
    requires pc.p != sh.chain[0]
    requires sh.chain[sh.from - 2] == sh.chain[0] <==> sh.from == 2
    ensures Next(live, pc.p) == To(sh.chain[sh.from - 2])
    ensures pc' == if sh.chain[sh.from - 2] == pc.o then Splice(pc.o, To(pc.p), pc.k)
                   else Reversing(pc.o, sh.chain[sh.from - 2], To(pc.p), pc.k)
    ensures LinkOk(live', sh.(from := sh.from - 1), sh.from - 1)
    ensures !Dangling(live, sh, sh.from - 1) && !Dangling(live', sh.(from := sh.from - 1), sh.from - 1)
    ensures HasRight(pc') && RightHolderOk(pc', live', sh.(from := sh.from - 1))
  {
    pc' := if sh.chain[sh.from - 2] == pc.o then Splice(pc.o, To(pc.p), pc.k)
           else Reversing(pc.o, sh.chain[sh.from - 2], To(pc.p), pc.k);
  }

  lemma StepReversing(s: State, sh: Shape, t: Tid, c: Choice)
    requires Inv(s, sh) && PcOf(s.pcs, t).Reversing?
    ensures Inv(Step(s, t, c), NextShape(s, sh, t))
  {
    hide Inv;
    ReversingAt(s, sh, t);
    if Next(s.live, PcOf(s.pcs, t).p) != Unconnected {
      ReverseTurn(s, sh, t);
    }
  }

  lemma ReversingHolds(pc: Pc, live: map<Obj, Node>, sh: Shape)
    requires pc.Reversing? && sh.chain != []
    ensures HasRight(pc)
    ensures RightHolderOk(pc, live, sh) ==> 2 <= sh.from <= |sh.chain| && pc.p == sh.chain[sh.from - 1]
  {
  }

  lemma ReversingAt(s: State, sh: Shape, t: Tid)
    requires Inv(s, sh) && PcOf(s.pcs, t).Reversing?
    ensures 2 <= sh.from <= |sh.chain| && PcOf(s.pcs, t).p == sh.chain[sh.from - 1] && PcOf(s.pcs, t).p in s.live
  {
    assert HasRight(PcOf(s.pcs, t)) by { hide Inv; }
    hide ListOk, ControlOk, LinkOk, RightHolderOk, HasRight, OfRunner, ThenOk, PcOf;
    AtRight(s, sh, t);
    ReversingHolds(PcOf(s.pcs, t), s.live, sh);
    LinkAt(s, sh, sh.from - 1);
  }

  lemma ReverseTurn(s: State, sh: Shape, t: Tid)
    requires Inv(s, sh) && PcOf(s.pcs, t).Reversing?
    requires 2 <= sh.from <= |sh.chain| && PcOf(s.pcs, t).p == sh.chain[sh.from - 1]
    requires Next(s.live, sh.chain[sh.from - 1]) != Unconnected
    ensures Inv(StepComplete(s, t), sh.(from := sh.from - 1))
  {
    hide ListOk, ControlOk, LinkOk, Dangling, RightHolderOk;
    AtRight(s, sh, t);
    var pc := PcOf(s.pcs, t);
    var i := sh.from - 1;
    var sh' := sh.(from := i);
    LinkAt(s, sh, i);
    Distinct(s, sh, i);
    Distinct(s, sh, i - 1);
    var s1 := SetNext(s, pc.p, pc.tail);
    var pc' := ReverseOne(s.live, sh, pc, s1.live);
    Relinks(s, sh, i, pc.tail, s1, sh');
    ListStays(s1, sh', t, pc', At(s1, t, pc'));
    Continues(s, sh, t, pc', At(s1, t, pc'), sh');
  }

  lemma LinkAt(s: State, sh: Shape, i: nat)
    requires ListOk(s, sh) && i < |sh.chain|
    ensures sh.chain[i] in s.live && LinkOk(s.live, sh, i)
  {
    hide OwnersOk, LinkersOk, ContentsOk, LinkOk;
  }

  lemma Distinct(s: State, sh: Shape, i: nat)
    requires ListOk(s, sh) && i < |sh.chain|
    ensures sh.chain[i] == sh.chain[0] <==> i == 0
  {
    hide OwnersOk, LinkersOk, ContentsOk, LinksOk;
  }

  lemma StepSplice(s: State, sh: Shape, t: Tid, c: Choice)
    requires Inv(s, sh) && PcOf(s.pcs, t).Splice?
    ensures Inv(Step(s, t, c), NextShape(s, sh, t))
  {
    hide ListOk, ControlOk;
    AtRight(s, sh, t);
    var pc := PcOf(s.pcs, t);
    var sh' := sh.(from := 0);
    var s1 := SetNext(s, pc.o, pc.tail);
    Relinks(s, sh, 0, pc.tail, s1, sh');
    var pc' := if pc.k == SyncFirst then WantLock(pc.o) else TaskTop(pc.o, pc.k);
    ListStays(s1, sh', t, pc', At(s1, t, pc'));
    Continues(s, sh, t, pc', At(s1, t, pc'), sh');
  }

  lemma StepTaskTop(s: State, sh: Shape, t: Tid, c: Choice)
    requires Inv(s, sh) && PcOf(s.pcs, t).TaskTop?
    ensures Inv(Step(s, t, c), NextShape(s, sh, t))
  {
    hide ListOk, ControlOk;
    AtRight(s, sh, t);
    var o, k := sh.chain[0], PcOf(s.pcs, t).k;
    if s.live[o].next.To? && s.live[o].content == "" {
      var s1 := Return(s, o);
      Drops(s, sh, s1);
      var sh' := Dropped(sh);
      var pc := TaskWalk(sh.chain[1], k);
      ListStays(s1, sh', t, pc, At(s1, t, pc));
      Continues(s, sh, t, pc, At(s1, t, pc), sh');
    } else {
      StepPcOnly(s, sh, t, TaskWalk(o, k));
    }
  }

  lemma StepTaskWalk(s: State, sh: Shape, t: Tid, c: Choice)
    requires Inv(s, sh) && PcOf(s.pcs, t).TaskWalk?
    ensures Inv(Step(s, t, c), NextShape(s, sh, t))
  {
    hide ListOk, ControlOk;
    AtRight(s, sh, t);
    if s.live[sh.chain[0]].next.To? {
      WalkOne(s, sh, t);
    } else {
      StepPcOnly(s, sh, t, TaskLast(sh.chain[0], PcOf(s.pcs, t).k));
    }
  }

  /** One request is written and returned. */
  lemma WalkOne(s: State, sh: Shape, t: Tid)
    requires Inv(s, sh) && PcOf(s.pcs, t).TaskWalk? && PcOf(s.pcs, t).o in s.live
    requires s.live[PcOf(s.pcs, t).o].next.To?
    ensures Inv(StepTask(s, t), Dropped(sh))
  {
    hide ListOk, ControlOk;
    AtRight(s, sh, t);
    var o := sh.chain[0];
    var s1 := DoLog(s, o);
    Logs(s, sh, s1);
    var s2 := Return(s1, o);
    Drops(s1, sh, s2);
    var pc := TaskWalk(sh.chain[1], PcOf(s.pcs, t).k);
    ListStays(s2, Dropped(sh), t, pc, At(s2, t, pc));
    Continues(s, sh, t, pc, At(s2, t, pc), Dropped(sh));
  }

  // ---- the right is given up, handed over or taken

  lemma HeadIs(s: State, sh: Shape)
    requires ListOk(s, sh) && sh.chain != []
    ensures s.head == To(sh.chain[|sh.chain| - 1])
    ensures s.head == To(sh.chain[0]) <==> |sh.chain| == 1
  {
    hide LinksOk, ContentsOk, OwnersOk, LinkersOk;
  }

  /** New requests arrived: all of them are still linked backwards. */
  lemma LinksTurn(live: map<Obj, Node>, sh: Shape, sh': Shape)
    requires LinksOk(live, sh) && sh.from == 0 && sh.upto == 1 && !sh.raw && sh.chain != []
    requires sh' == sh.(from := |sh.chain|, upto := |sh.chain|)
    ensures LinksOk(live, sh')
    ensures forall i: nat :: Dangling(live, sh', i) <==> Dangling(live, sh, i)
  {
    hide Next;
    forall i | 0 <= i < |sh.chain| ensures LinkOk(live, sh', i) {
      assert LinkOk(live, sh, i);
    }
  }

  lemma ListTurns(s: State, sh: Shape, sh': Shape)
    requires ListOk(s, sh) && sh.from == 0 && sh.upto == 1 && !sh.raw && sh.chain != []
    requires sh' == sh.(from := |sh.chain|, upto := |sh.chain|)
    ensures ListOk(s, sh')
  {
    hide ChainOk, LinksOk, ContentsOk, OwnersOk, LinkersOk, Dangling;
    LinksTurn(s.live, sh, sh');
    LinkersRewrite(s.live, sh, s.live, sh', s.pcs);
  }

  lemma StepCas(s: State, sh: Shape, t: Tid, c: Choice)
    requires Inv(s, sh) && PcOf(s.pcs, t).Cas?
    ensures Inv(Step(s, t, c), NextShape(s, sh, t))
  {
    hide ListOk, ControlOk;
    AtRight(s, sh, t);
    HeadIs(s, sh);
    if |sh.chain| == 1 {
      CasCompletes(s, sh, t);
    } else {
      CasFails(s, sh, t);
    }
  }

  lemma CasFails(s: State, sh: Shape, t: Tid)
    requires Inv(s, sh) && PcOf(s.pcs, t).Cas? && |sh.chain| > 1
    ensures Inv(StepComplete(s, t), sh.(from := |sh.chain|, upto := |sh.chain|))
  {
    hide ListOk, ControlOk;
    AtRight(s, sh, t);
    HeadIs(s, sh);
    var sh' := sh.(from := |sh.chain|, upto := |sh.chain|);
    var pc := Reversing(sh.chain[0], sh.chain[|sh.chain| - 1], Null, PcOf(s.pcs, t).k);
    ListTurns(s, sh, sh');
    ListStays(s, sh', t, pc, At(s, t, pc));
    Continues(s, sh, t, pc, At(s, t, pc), sh');
  }

  /** The list is empty: the last request belongs to its thread alone. */
  lemma ListEmptied(s: State, sh: Shape, t: Tid, pc: Pc, s': State)
    requires ListOk(s, sh) && |sh.chain| == 1
    requires Content(s.live, sh.chain[0]) == ""
    requires Private(PcOf(s.pcs, t)) == Null && !PcOf(s.pcs, t).Linking?
    requires pc.Completed? && pc.o == sh.chain[0]
    requires s' == At(s.(head := Null), t, pc)
    ensures ListOk(s', NOTHING)
  {
    hide LinkOk;
    assert ContentsOk(s'.live, [], s'.exchanged, s'.written) by {
      assert Texts(s.live, sh.chain)[0] == "";
      assert Unwritten(s.live, sh.chain) == [];
    }
    assert LinkersOk(s'.live, NOTHING, s'.pcs) by {
      forall u ensures !PcOf(s'.pcs, u).Linking? {
        assert u != t ==> PcOf(s'.pcs, u) == PcOf(s.pcs, u);
      }
    }
    hide ContentsOk, LinkersOk, LinksOk;
    OwnersEmptied(s.live, sh.chain, s.pcs, t, pc);
  }

  lemma OwnersEmptied(live: map<Obj, Node>, chain: seq<Obj>, pcs: map<Tid, Pc>, t: Tid, pc: Pc)
    requires OwnersOk(live, chain, pcs) && |chain| == 1 && chain[0] in live
    requires Private(PcOf(pcs, t)) == Null
    requires pc.Completed? && pc.o == chain[0]
    ensures OwnersOk(live, [], pcs[t := pc])
  {
    var pcs' := pcs[t := pc];
    assert PrivateOk(live, pc) && Private(pc) == To(chain[0]);
    hide Private, PrivateOk;
    assert PcOf(pcs', t) == pc;
    assert forall u :: u != t ==> PcOf(pcs', u) == PcOf(pcs, u);
    forall o | o in live ensures exists u :: Private(PcOf(pcs', u)) == To(o) {
      if o in chain {
        assert Private(PcOf(pcs', t)) == To(o);
      } else {
        var u :| Private(PcOf(pcs, u)) == To(o);
        assert Private(PcOf(pcs', u)) == To(o);
      }
    }
  }

  lemma CasCompletes(s: State, sh: Shape, t: Tid)
    requires Inv(s, sh) && PcOf(s.pcs, t).Cas? && |sh.chain| == 1
    ensures Inv(StepComplete(s, t), NOTHING)
  {
    hide ListOk, RightOk, MutexOk, HandoverOk, WakeOk;
    AtRight(s, sh, t);
    HeadIs(s, sh);
    MutexAgrees(s.mutex, s.pcs, t);
    var pc := Completed(sh.chain[0], PcOf(s.pcs, t).k);
    var s' := At(s.(head := Null), t, pc);
    ListEmptied(s, sh, t, pc, s');
    RightChanges(s.live, sh, s.pcs, t, pc, s.live, NOTHING);
    MutexMoves(s.mutex, s.pcs, t, pc, s.mutex);
    if t == RUNNER {
      HandoverBusy(s.current, s.stop, sh, s.pcs, pc, NOTHING);
    } else {
      HandoverStays(s.current, s.stop, sh, s.pcs, t, pc, NOTHING);
    }
    WakeStays(s.current, s.stop, s.pcs, t, pc);
  }

  lemma StepWantLock(s: State, sh: Shape, t: Tid, c: Choice)
    requires Inv(s, sh) && PcOf(s.pcs, t).WantLock?
    ensures Inv(Step(s, t, c), NextShape(s, sh, t))
  {
    hide ListOk, RightOk, MutexOk, HandoverOk, WakeOk;
    if s.mutex == Free {
      AtRight(s, sh, t);
      var pc := Holding(sh.chain[0]);
      var s' := At(s.(mutex := LockedBy(t)), t, pc);
      ListStays(s, sh, t, pc, s');
      RightChanges(s.live, sh, s.pcs, t, pc, s.live, sh);
      MutexMoves(s.mutex, s.pcs, t, pc, LockedBy(t));
      HandoverStays(s.current, s.stop, sh, s.pcs, t, pc, sh);
      WakeStays(s.current, s.stop, s.pcs, t, pc);
    }
  }

  /** Whoever has the lock sees no other thread where the lock is needed. */
  lemma LockExcludes(mutex: Mutex, pcs: map<Tid, Pc>, t: Tid, u: Tid)
    requires MutexOk(mutex, pcs) && HasMutex(PcOf(pcs, t)) && t != u
    ensures !HasMutex(PcOf(pcs, u)) && !Busy(PcOf(pcs, u))
    ensures !PcOf(pcs, u).Handoff? && PcOf(pcs, u) != RunTest2 && PcOf(pcs, u) != RunBreak
  {
    hide HasMutex;
    assert HasMutex(PcOf(pcs, u)) <==> mutex == LockedBy(u);
    LockNeeded(PcOf(pcs, u));
  }

  lemma LockNeeded(pc: Pc)
    requires !HasMutex(pc)
    ensures !Busy(pc) && !pc.Handoff? && pc != RunTest2 && pc != RunBreak
  {
  }

  lemma HandoverHands(stop: bool, sh: Shape, pcs: map<Tid, Pc>, t: Tid)
    requires HandoverOk(Null, stop, sh, pcs) && sh.chain != [] && t != RUNNER
    requires PcOf(pcs, RUNNER) != Exited && PcOf(pcs, RUNNER) != RunBreak
    ensures HandoverOk(To(sh.chain[0]), stop, sh.(holder := Handed), pcs[t := Signalling])
  {
    var pcs' := pcs[t := Signalling];
    hide Busy, ThenOk;
    assert forall u :: u != t ==> PcOf(pcs', u) == PcOf(pcs, u);
    assert PcOf(pcs', RUNNER) == PcOf(pcs, RUNNER);
    assert PcOf(pcs', t) == Signalling && !OfRunner(Signalling) && ThenOk(Signalling) by {
      Unremarkable();
    }
  }

  lemma Unremarkable()
    ensures !OfRunner(Signalling) && ThenOk(Signalling)
  {
  }

  lemma WakeHands(current: Link, stop: bool, pcs: map<Tid, Pc>, t: Tid, current': Link)
    requires WakeOk(current, stop, pcs) && PcOf(pcs, t).Handoff?
    ensures WakeOk(current', stop, pcs[t := Signalling])
  {
    hide Stopping;
    var pcs' := pcs[t := Signalling];
    assert !Stopping(Signalling) by { RightlessSignal(); }
    assert forall u :: u != t ==> PcOf(pcs', u) == PcOf(pcs, u);
    assert PcOf(pcs', t) == Signalling;
    if PcOf(pcs', RUNNER) == RunWait(false) && stop {
      var u :| PcOf(pcs, u) == StopLock || PcOf(pcs, u) == StopSignal;
      assert PcOf(pcs', u) == PcOf(pcs, u);
    }
  }

  lemma RightlessSignal()
    ensures !Stopping(Signalling)
  {
  }

  lemma StepHandoff(s: State, sh: Shape, t: Tid, c: Choice)
    requires Inv(s, sh) && PcOf(s.pcs, t).Handoff?
    ensures Inv(Step(s, t, c), NextShape(s, sh, t))
  {
    hide ListOk, RightOk, MutexOk, HandoverOk, WakeOk;
    AtRight(s, sh, t);
    MutexAgrees(s.mutex, s.pcs, t);
    LockExcludes(s.mutex, s.pcs, t, RUNNER);
    RunnerWaits(s, sh, t);
    var sh' := sh.(holder := Handed);
    var s' := At(s.(current := To(sh.chain[0])), t, Signalling);
    ListStays(s, sh, t, Signalling, s');
    ListForgets(s', sh, sh');
    RightChanges(s.live, sh, s.pcs, t, Signalling, s.live, sh');
    MutexMoves(s.mutex, s.pcs, t, Signalling, s.mutex);
    HandoverHands(s.stop, sh, s.pcs, t);
    WakeHands(s.current, s.stop, s.pcs, t, s'.current);
  }

  /** The list part does not depend on who has the right. */
  lemma ListForgets(s: State, sh: Shape, sh': Shape)
    requires ListOk(s, sh) && sh' == sh.(holder := sh'.holder)
    ensures ListOk(s, sh')
  {
    hide ChainOk, ContentsOk, OwnersOk;
    assert forall i: nat :: Dangling(s.live, sh', i) <==> Dangling(s.live, sh, i);
    assert forall i | 0 <= i < |sh.chain| :: LinkOk(s.live, sh, i) ==> LinkOk(s.live, sh', i);
    hide LinkOk, Dangling;
    LinkersRewrite(s.live, sh, s.live, sh', s.pcs);
  }

  lemma RunnerWaits(s: State, sh: Shape, t: Tid)
    requires Inv(s, sh) && PcOf(s.pcs, t).Handoff? && !Busy(PcOf(s.pcs, RUNNER)) && sh.holder == Holds(t)
    ensures s.current == Null && PcOf(s.pcs, RUNNER) != Exited
  {
    hide ListOk, RightOk, MutexOk, WakeOk, Busy;
  }

  /** The runner's own moves that leave it outside LogTask. */
  lemma HandoverRuns(current: Link, stop: bool, sh: Shape, pcs: map<Tid, Pc>, pc: Pc, current': Link)
    requires HandoverOk(current, stop, sh, pcs)
    requires OfRunner(pc) && !Busy(pc) && ThenOk(pc)
    requires if Busy(PcOf(pcs, RUNNER)) then current' == Null else current' == current
    requires pc == RunTest2 && current' == Null ==> stop
    requires pc == RunBreak || pc == Exited ==> stop && current' == Null
    requires pc == Exited ==> forall u | u != RUNNER :: !PcOf(pcs, u).Handoff?
    ensures HandoverOk(current', stop, sh, pcs[RUNNER := pc])
  {
    hide ThenOk, Busy;
    var pcs' := pcs[RUNNER := pc];
    assert forall u :: u != RUNNER ==> PcOf(pcs', u) == PcOf(pcs, u);
    assert PcOf(pcs', RUNNER) == pc;
  }

  lemma IsRunner(s: State, sh: Shape, t: Tid)
    requires Inv(s, sh)
    ensures OfRunner(PcOf(s.pcs, t)) <==> t == RUNNER
    ensures ThenOk(PcOf(s.pcs, t))
    ensures PcOf(s.pcs, RUNNER) == RunBreak || PcOf(s.pcs, RUNNER) == Exited ==> s.stop && s.current == Null
    ensures PcOf(s.pcs, RUNNER) == RunTest2 && s.current == Null ==> s.stop
    ensures s.current != Unconnected
  {
    hide ListOk, RightOk, MutexOk, WakeOk, OfRunner, ThenOk;
  }

  /** A step of the runner outside LogTask. */
  lemma RunnerMoves(s: State, sh: Shape, pc: Pc, mutex': Mutex, current': Link)
    requires Inv(s, sh)
    requires !HasRight(PcOf(s.pcs, RUNNER)) && !HasRight(pc)
    requires Private(PcOf(s.pcs, RUNNER)) == Null == Private(pc)
    requires OfRunner(pc) && !Busy(pc) && ThenOk(pc)
    requires if Busy(PcOf(s.pcs, RUNNER)) then current' == Null else current' == s.current
    requires pc == RunTest2 && current' == Null ==> s.stop
    requires pc == RunBreak || pc == Exited ==> s.stop && current' == Null
    requires pc == Exited ==> HasMutex(PcOf(s.pcs, RUNNER))
    requires pc == RunWait(false) ==> !current'.To? && !s.stop
    requires HasMutex(pc) ==> HasMutex(PcOf(s.pcs, RUNNER)) || s.mutex == Free
    requires mutex' == if HasMutex(pc) then LockedBy(RUNNER)
                       else if HasMutex(PcOf(s.pcs, RUNNER)) then Free else s.mutex
    ensures Inv(At(s.(mutex := mutex', current := current'), RUNNER, pc), sh)
  {
    NotLinking(pc);
    IsRunner(s, sh, RUNNER);
    NotLinking(PcOf(s.pcs, RUNNER));
    hide ListOk, RightOk, MutexOk, HandoverOk, WakeOk, HasRight, HasMutex, Private, OfRunner, Busy, ThenOk, Stopping;
    var s' := At(s.(mutex := mutex', current := current'), RUNNER, pc);
    ListStays(s, sh, RUNNER, pc, s');
    RightStays(s.live, sh, s.pcs, RUNNER, pc);
    MutexMoves(s.mutex, s.pcs, RUNNER, pc, mutex');
    if pc == Exited {
      forall u | u != RUNNER ensures !PcOf(s.pcs, u).Handoff? {
        LockExcludes(s.mutex, s.pcs, RUNNER, u);
      }
    }
    HandoverRuns(s.current, s.stop, sh, s.pcs, pc, current');
    WakeCurrent(s.current, s.stop, s.pcs, pc, current');
  }

  lemma NotLinking(pc: Pc)
    requires OfRunner(pc)
    ensures !pc.Linking? && !Stopping(pc) && pc != Signalling
  {
  }

  lemma WakeCurrent(current: Link, stop: bool, pcs: map<Tid, Pc>, pc: Pc, current': Link)
    requires WakeOk(current, stop, pcs)
    requires !Stopping(pc) && (pc == RunWait(false) ==> !current'.To? && !stop)
    ensures WakeOk(current', stop, pcs[RUNNER := pc])
  {
    hide Stopping;
    var pcs' := pcs[RUNNER := pc];
    assert forall u :: u != RUNNER ==> PcOf(pcs', u) == PcOf(pcs, u);
    assert PcOf(pcs', RUNNER) == pc;
  }

  lemma StepRunLock(s: State, sh: Shape, t: Tid, c: Choice)
    requires Inv(s, sh) && (PcOf(s.pcs, t) == RunLock || PcOf(s.pcs, t).RunWait?)
    ensures Inv(Step(s, t, c), NextShape(s, sh, t))
  {
    hide ListOk, ControlOk;
    IsRunner(s, sh, t);
    if s.mutex == Free {
      RunnerMoves(s, sh, RunTest, LockedBy(RUNNER), s.current);
    }
  }

  lemma StepRunTest(s: State, sh: Shape, t: Tid, c: Choice)
    requires Inv(s, sh) && PcOf(s.pcs, t) == RunTest
    ensures Inv(Step(s, t, c), NextShape(s, sh, t))
  {
    hide ListOk, RightOk, MutexOk, HandoverOk, WakeOk;
    IsRunner(s, sh, t);
    MutexAgrees(s.mutex, s.pcs, t);
    if !s.stop && s.current == Null {
      RunnerMoves(s, sh, RunWait(false), Free, s.current);
    } else {
      RunnerMoves(s, sh, RunTest2, s.mutex, s.current);
    }
  }

  lemma StepRunEnds(s: State, sh: Shape, t: Tid, c: Choice)
    requires Inv(s, sh)
    requires PcOf(s.pcs, t) == RunClear || PcOf(s.pcs, t) == RunUnlock || PcOf(s.pcs, t) == RunBreak
    ensures Inv(Step(s, t, c), NextShape(s, sh, t))
  {
    hide ListOk, RightOk, MutexOk, HandoverOk, WakeOk;
    IsRunner(s, sh, t);
    MutexAgrees(s.mutex, s.pcs, t);
    if PcOf(s.pcs, t) == RunClear {
      RunnerMoves(s, sh, RunUnlock, s.mutex, Null);
    } else if PcOf(s.pcs, t) == RunUnlock {
      RunnerMoves(s, sh, RunLock, Free, s.current);
    } else {
      RunnerMoves(s, sh, Exited, Free, s.current);
    }
  }

  lemma HandoverTakes(current: Link, stop: bool, sh: Shape, pcs: map<Tid, Pc>)
    requires HandoverOk(current, stop, sh, pcs) && PcOf(pcs, RUNNER) == RunTest2 && current.To?
    requires sh.chain == [] <==> sh.holder == Nobody
    ensures sh.holder == Handed && sh.chain != [] && current == To(sh.chain[0])
    ensures HandoverOk(current, stop, sh.(holder := Holds(RUNNER)), pcs[RUNNER := TaskTop(current.obj, RunLoop)])
  {
    var pcs' := pcs[RUNNER := TaskTop(current.obj, RunLoop)];
    assert forall u :: u != RUNNER ==> PcOf(pcs', u) == PcOf(pcs, u);
    assert PcOf(pcs', RUNNER) == TaskTop(current.obj, RunLoop);
  }

  lemma StepRunTest2(s: State, sh: Shape, t: Tid, c: Choice)
    requires Inv(s, sh) && PcOf(s.pcs, t) == RunTest2
    ensures Inv(Step(s, t, c), NextShape(s, sh, t))
  {
    hide ListOk, RightOk, MutexOk, HandoverOk, WakeOk;
    IsRunner(s, sh, t);
    MutexAgrees(s.mutex, s.pcs, t);
    if s.current.To? {
      RightFacts(s.live, sh, s.pcs);
      HandoverTakes(s.current, s.stop, sh, s.pcs);
      var sh' := sh.(holder := Holds(RUNNER));
      var pc := TaskTop(s.current.obj, RunLoop);
      var s' := At(s, RUNNER, pc);
      ListStays(s, sh, RUNNER, pc, s');
      ListForgets(s', sh, sh');
      RightChanges(s.live, sh, s.pcs, RUNNER, pc, s.live, sh');
      MutexMoves(s.mutex, s.pcs, RUNNER, pc, s.mutex);
      WakeCurrent(s.current, s.stop, s.pcs, pc, s.current);
    } else {
      RunnerMoves(s, sh, RunBreak, s.mutex, s.current);
    }
  }

  lemma RightFacts(live: map<Obj, Node>, sh: Shape, pcs: map<Tid, Pc>)
    requires RightOk(live, sh, pcs)
    ensures sh.chain == [] <==> sh.holder == Nobody
    ensures sh.holder == Handed ==> sh.from == 0 && !sh.raw
  {
  }

  // ---- producers without the right

  lemma ProducerControl(s: State, sh: Shape, t: Tid, pc: Pc, s': State)
    requires ControlOk(s, sh) && t != RUNNER
    requires !HasRight(PcOf(s.pcs, t)) && !HasRight(pc) && !OfRunner(pc) && ThenOk(pc)
    requires s'.pcs == s.pcs[t := pc] && s'.current == s.current && s'.stop == s.stop
    requires sh.chain != [] ==> Content(s'.live, sh.chain[0]) == Content(s.live, sh.chain[0])
    requires HasMutex(pc) ==> HasMutex(PcOf(s.pcs, t)) || s.mutex == Free
    requires s'.mutex == if HasMutex(pc) then LockedBy(t) else if HasMutex(PcOf(s.pcs, t)) then Free else s.mutex
    requires Stopping(pc) ==> s.stop
    requires PcOf(s.pcs, RUNNER) != RunWait(false) || PcOf(s.pcs, t) != Signalling
    requires PcOf(s.pcs, RUNNER) != RunWait(false) || PcOf(s.pcs, t) != StopSignal
    requires PcOf(s.pcs, t) == StopLock ==> pc == StopLock || pc == StopSignal
    ensures ControlOk(s', sh)
  {
    Rightless(pc);
    hide RightOk, MutexOk, HandoverOk, WakeOk, HasRight, HasMutex, OfRunner, ThenOk, Stopping, Content;
    RightStays(s.live, sh, s.pcs, t, pc);
    RightRewrites(s.live, sh, s'.pcs, s'.live);
    MutexMoves(s.mutex, s.pcs, t, pc, s'.mutex);
    HandoverStaysHere(s, sh, t, pc);
    WakeStays(s.current, s.stop, s.pcs, t, pc);
  }

  lemma Rightless(pc: Pc)
    requires !HasRight(pc) && !OfRunner(pc)
    ensures !pc.Handoff? && !pc.RunWait?
  {
  }

  lemma HandoverStaysHere(s: State, sh: Shape, t: Tid, pc: Pc)
    requires RightOk(s.live, sh, s.pcs) && HandoverOk(s.current, s.stop, sh, s.pcs)
    requires t != RUNNER && !OfRunner(pc) && ThenOk(pc) && !pc.Handoff?
    ensures HandoverOk(s.current, s.stop, sh, s.pcs[t := pc])
  {
    hide HandoverOk, OfRunner, ThenOk;
    HandoverStays(s.current, s.stop, sh, s.pcs, t, pc, sh);
  }

  lemma RightRewrites(live: map<Obj, Node>, sh: Shape, pcs: map<Tid, Pc>, live': map<Obj, Node>)
    requires RightOk(live, sh, pcs)
    requires sh.chain != [] ==> Content(live', sh.chain[0]) == Content(live, sh.chain[0])
    ensures RightOk(live', sh, pcs)
  {
    hide Content;
  }

  /** Objects outside the chain change: nothing of the list does. */
  lemma ListOutside(s: State, sh: Shape, live': map<Obj, Node>)
    requires ListOk(s, sh)
    requires forall i | 0 <= i < |sh.chain| && sh.chain[i] in s.live ::
               sh.chain[i] in live' && live'[sh.chain[i]] == s.live[sh.chain[i]]
    ensures ChainOk(live', s.head, sh.chain) && LinksOk(live', sh)
    ensures ContentsOk(live', sh.chain, s.exchanged, s.written) && LinkersOk(live', sh, s.pcs)
    ensures sh.chain != [] ==> Content(live', sh.chain[0]) == Content(s.live, sh.chain[0])
  {
    hide LinksOk, ContentsOk, OwnersOk, LinkersOk, LinkOk, Dangling;
    LinksSame(s.live, sh, live');
    ContentsSame(s.live, live', sh.chain, s.exchanged, s.written);
    LinkersRewrite(s.live, sh, live', sh, s.pcs);
  }

  lemma OwnersAllocate(live: map<Obj, Node>, chain: seq<Obj>, pcs: map<Tid, Pc>, t: Tid, o: Obj, node: Node)
    requires OwnersOk(live, chain, pcs) && o !in live && o !in chain && Private(PcOf(pcs, t)) == Null
    requires node.content != ""
    ensures OwnersOk(live[o := node], chain, pcs[t := Allocated(o, node.content)])
  {
    var live', pcs' := live[o := node], pcs[t := Allocated(o, node.content)];
    assert Private(Allocated(o, node.content)) == To(o) && PrivateOk(live', Allocated(o, node.content));
    assert forall u :: u != t ==> PcOf(pcs', u) == PcOf(pcs, u);
    assert PcOf(pcs', t) == Allocated(o, node.content);
    OthersPrivate(live, chain, pcs, t, o, live');
    hide Private, PrivateOk;
    forall x | x in live' ensures x in chain || exists u :: Private(PcOf(pcs', u)) == To(x) {
      if x == o {
        assert Private(PcOf(pcs', t)) == To(x);
      } else if x !in chain {
        var u :| Private(PcOf(pcs, u)) == To(x);
        assert Private(PcOf(pcs', u)) == To(x);
      }
    }
  }

  /** What one thread does to its own object leaves the other threads' objects alone. */
  lemma OthersPrivate(live: map<Obj, Node>, chain: seq<Obj>, pcs: map<Tid, Pc>, t: Tid, o: Obj, live': map<Obj, Node>)
    requires OwnersOk(live, chain, pcs)
    requires forall u | u != t && Private(PcOf(pcs, u)).To? :: Private(PcOf(pcs, u)).obj != o
    requires forall x | x in live && x != o :: x in live' && live'[x] == live[x]
    ensures forall u | u != t :: PrivateOk(live', PcOf(pcs, u))
  {
    hide PcOf;
    forall u | u != t ensures PrivateOk(live', PcOf(pcs, u)) {
      assert PrivateOk(live, PcOf(pcs, u));
      SamePrivate(live, live', PcOf(pcs, u), [o]);
    }
  }

  lemma OwnersPrepare(live: map<Obj, Node>, chain: seq<Obj>, pcs: map<Tid, Pc>, t: Tid, o: Obj, text: string)
    requires OwnersOk(live, chain, pcs) && PcOf(pcs, t) == Allocated(o, text)
    ensures o in live && o !in chain
    ensures OwnersOk(live[o := live[o].(next := Unconnected)], chain, pcs[t := Ready(o, text)])
  {
    assert Private(PcOf(pcs, t)) == To(o) && PrivateOk(live, PcOf(pcs, t));
    var live', pcs' := live[o := live[o].(next := Unconnected)], pcs[t := Ready(o, text)];
    assert Private(Ready(o, text)) == To(o) && PrivateOk(live', Ready(o, text));
    assert forall u :: u != t ==> PcOf(pcs', u) == PcOf(pcs, u);
    assert PcOf(pcs', t) == Ready(o, text);
    OthersPrivate(live, chain, pcs, t, o, live');
    hide Private, PrivateOk;
    assert forall u :: Private(PcOf(pcs', u)) == Private(PcOf(pcs, u));
  }

  lemma OwnersExchange(live: map<Obj, Node>, chain: seq<Obj>, pcs: map<Tid, Pc>, t: Tid, o: Obj, pc: Pc)
    requires OwnersOk(live, chain, pcs) && PcOf(pcs, t).Ready? && PcOf(pcs, t).o == o && Private(pc) == Null
    ensures o in live && o !in chain && Content(live, o) == PcOf(pcs, t).text != "" && Next(live, o) == Unconnected
    ensures OwnersOk(live, chain + [o], pcs[t := pc])
  {
    assert Private(PcOf(pcs, t)) == To(o) && PrivateOk(live, PcOf(pcs, t));
    var pcs' := pcs[t := pc];
    assert PrivateOk(live, pc);
    hide Private, PrivateOk;
    assert forall u :: u != t ==> PcOf(pcs', u) == PcOf(pcs, u);
    forall x | x in live ensures x in chain + [o] || exists u :: Private(PcOf(pcs', u)) == To(x) {
      if x != o && x !in chain {
        var u :| Private(PcOf(pcs, u)) == To(x);
        assert Private(PcOf(pcs', u)) == To(x);
      }
    }
  }

  lemma OwnersReturn(live: map<Obj, Node>, chain: seq<Obj>, pcs: map<Tid, Pc>, t: Tid, pc: Pc)
    requires OwnersOk(live, chain, pcs) && PcOf(pcs, t).Completed? && Private(pc) == Null
    ensures PcOf(pcs, t).o in live && PcOf(pcs, t).o !in chain
    ensures OwnersOk(live - {PcOf(pcs, t).o}, chain, pcs[t := pc])
  {
    var o := PcOf(pcs, t).o;
    assert Private(PcOf(pcs, t)) == To(o);
    var live', pcs' := live - {o}, pcs[t := pc];
    assert PrivateOk(live', pc);
    assert forall u :: u != t ==> PcOf(pcs', u) == PcOf(pcs, u);
    OthersPrivate(live, chain, pcs, t, o, live');
    hide Private, PrivateOk;
    forall x | x in live' ensures x in chain || exists u :: Private(PcOf(pcs', u)) == To(x) {
      if x !in chain {
        var u :| Private(PcOf(pcs, u)) == To(x);
        assert Private(PcOf(pcs', u)) == To(x);
      }
    }
  }

  lemma Producer(s: State, sh: Shape, t: Tid)
    requires Inv(s, sh) && !OfRunner(PcOf(s.pcs, t))
    ensures t != RUNNER && ListOk(s, sh) && ControlOk(s, sh)
  {
    hide ListOk, OfRunner;
    IsRunner(s, sh, t);
  }

  lemma StepAllocate(s: State, sh: Shape, t: Tid, content: string, o: Obj, stale: Link)
    requires Inv(s, sh) && PcOf(s.pcs, t) == Idle && content != "" && o !in s.live
    ensures Inv(At(s.(live := s.live[o := Node(stale, content)]), t, Allocated(o, content)), sh)
  {
    hide ControlOk, ChainOk, LinksOk, ContentsOk, OwnersOk, LinkersOk;
    Producer(s, sh, t);
    var s' := At(s.(live := s.live[o := Node(stale, content)]), t, Allocated(o, content));
    if o in sh.chain {
      var i :| 0 <= i < |sh.chain| && sh.chain[i] == o;
      InChain(s.live, s.head, sh.chain, i);
    }
    ListOutside(s, sh, s'.live);
    OwnersAllocate(s.live, sh.chain, s.pcs, t, o, Node(stale, content));
    LinkersStay(s'.live, sh, s.pcs, t, Allocated(o, content));
    ProducerControl(s, sh, t, Allocated(o, content), s');
  }

  lemma StepAllocated(s: State, sh: Shape, t: Tid, c: Choice)
    requires Inv(s, sh) && PcOf(s.pcs, t).Allocated?
    ensures Inv(Step(s, t, c), NextShape(s, sh, t))
  {
    hide ControlOk, ChainOk, LinksOk, ContentsOk, OwnersOk, LinkersOk;
    Producer(s, sh, t);
    var o, text := PcOf(s.pcs, t).o, PcOf(s.pcs, t).text;
    OwnersPrepare(s.live, sh.chain, s.pcs, t, o, text);
    var s' := At(SetNext(s, o, Unconnected), t, Ready(o, text));
    ListOutside(s, sh, s'.live);
    LinkersStay(s'.live, sh, s.pcs, t, Ready(o, text));
    ProducerControl(s, sh, t, Ready(o, text), s');
  }

  lemma StepCompleted(s: State, sh: Shape, t: Tid, c: Choice)
    requires Inv(s, sh) && PcOf(s.pcs, t).Completed?
    ensures Inv(Step(s, t, c), NextShape(s, sh, t))
  {
    hide ControlOk, ChainOk, LinksOk, ContentsOk, OwnersOk, LinkersOk;
    var o, k := PcOf(s.pcs, t).o, PcOf(s.pcs, t).k;
    var pc := match k case SyncFirst => Idle case Drain => Unlocking case RunLoop => RunClear;
    OwnersReturn(s.live, sh.chain, s.pcs, t, pc);
    var s' := At(Return(s, o), t, pc);
    ListOutside(s, sh, s'.live);
    LinkersStay(s'.live, sh, s.pcs, t, pc);
    CompletedControl(s, sh, t, pc, s');
  }

  lemma CompletedControl(s: State, sh: Shape, t: Tid, pc: Pc, s': State)
    requires Inv(s, sh) && PcOf(s.pcs, t).Completed?
    requires pc == match PcOf(s.pcs, t).k case SyncFirst => Idle case Drain => Unlocking case RunLoop => RunClear
    requires s' == At(s.(live := s'.live), t, pc)
    requires sh.chain != [] ==> Content(s'.live, sh.chain[0]) == Content(s.live, sh.chain[0])
    ensures ControlOk(s', sh)
  {
    hide ListOk, RightOk, MutexOk, HandoverOk, WakeOk, Content;
    IsRunner(s, sh, t);
    MutexAgrees(s.mutex, s.pcs, t);
    if t != RUNNER {
      ProducerControl(s, sh, t, pc, s');
    } else {
      RightStays(s.live, sh, s.pcs, t, pc);
      RightRewrites(s.live, sh, s'.pcs, s'.live);
      MutexMoves(s.mutex, s.pcs, t, pc, s.mutex);
      NotHanded(s, sh);
      HandoverBusy(s.current, s.stop, sh, s.pcs, pc, sh);
      WakeStays(s.current, s.stop, s.pcs, t, pc);
    }
  }

  lemma NotHanded(s: State, sh: Shape)
    requires HandoverOk(s.current, s.stop, sh, s.pcs) && Busy(PcOf(s.pcs, RUNNER))
    ensures sh.holder != Handed
  {
    hide Busy, OfRunner, ThenOk;
  }

  lemma ContentsExchange(live: map<Obj, Node>, chain: seq<Obj>, exchanged: seq<string>, written: seq<string>, o: Obj)
    requires ContentsOk(live, chain, exchanged, written) && Content(live, o) != ""
    ensures ContentsOk(live, chain + [o], exchanged + [Content(live, o)], written)
  {
    hide Content;
    var texts, added := Texts(live, chain), Content(live, o);
    assert Texts(live, chain + [o]) == texts + [added];
    assert Unwritten(live, chain + [o]) == Unwritten(live, chain) + [added] by {
      if |texts| > 0 && texts[0] == "" {
        assert (texts + [added])[1..] == texts[1..] + [added];
      }
    }
    var rest := Unwritten(live, chain);
    hide Unwritten, Texts;
    assert (written + rest) + [added] == written + (rest + [added]);
  }

  lemma LinksExchange(live: map<Obj, Node>, sh: Shape, o: Obj)
    requires LinksOk(live, sh) && sh.chain != [] && Next(live, o) == Unconnected
    ensures LinksOk(live, Extended(sh, o))
  {
    hide Next;
    var sh' := Extended(sh, o);
    forall i | 0 <= i < |sh'.chain| ensures LinkOk(live, sh', i) {
      if i < |sh.chain| {
        assert LinkOk(live, sh, i);
        assert i > 0 ==> sh'.chain[i - 1] == sh.chain[i - 1];
      }
    }
  }

  lemma LinkersExchange(live: map<Obj, Node>, sh: Shape, pcs: map<Tid, Pc>, t: Tid, o: Obj)
    requires LinkersOk(live, sh, pcs) && sh.chain != [] && sh.upto <= |sh.chain|
    requires o !in sh.chain && Next(live, o) == Unconnected && !PcOf(pcs, t).Linking?
    ensures LinkersOk(live, Extended(sh, o), pcs[t := Linking(o, sh.chain[|sh.chain| - 1])])
  {
    var pc := Linking(o, sh.chain[|sh.chain| - 1]);
    var pcs' := pcs[t := pc];
    PcSet(pcs, t, pc);
    HereExtends(live, sh, o);
    hide LinkersPlaced, DanglingServed, LinkersApart, Next, Dangling, LinksHere, PcOf;
    ExchangePlaced(live, sh, pcs, t, o, pcs');
    ExchangeServed(live, sh, pcs, t, o, pcs');
    ExchangeApart(live, sh, pcs, t, pc, pcs');
  }

  lemma PcSet(pcs: map<Tid, Pc>, t: Tid, pc: Pc)
    ensures PcOf(pcs[t := pc], t) == pc
    ensures forall u | u != t :: PcOf(pcs[t := pc], u) == PcOf(pcs, u)
  {
  }

  lemma ExchangePlaced(live: map<Obj, Node>, sh: Shape, pcs: map<Tid, Pc>, t: Tid, o: Obj, pcs': map<Tid, Pc>)
    requires LinkersPlaced(live, sh, pcs)
    requires forall u | u != t :: PcOf(pcs', u) == PcOf(pcs, u)
    requires forall i: nat, pc | LinksHere(live, sh, i, pc) :: LinksHere(live, Extended(sh, o), i, pc)
    requires LinksHere(live, Extended(sh, o), |sh.chain|, PcOf(pcs', t))
    ensures LinkersPlaced(live, Extended(sh, o), pcs')
  {
    hide LinksHere, PcOf, Extended;
    forall u | PcOf(pcs', u).Linking? ensures exists i: nat :: LinksHere(live, Extended(sh, o), i, PcOf(pcs', u)) {
      if u != t {
        var i: nat :| LinksHere(live, sh, i, PcOf(pcs, u));
        assert LinksHere(live, Extended(sh, o), i, PcOf(pcs', u));
      }
    }
  }

  lemma ExchangeServed(live: map<Obj, Node>, sh: Shape, pcs: map<Tid, Pc>, t: Tid, o: Obj, pcs': map<Tid, Pc>)
    requires DanglingServed(live, sh, pcs) && !PcOf(pcs, t).Linking?
    requires forall u | u != t :: PcOf(pcs', u) == PcOf(pcs, u)
    requires forall i: nat, pc | LinksHere(live, sh, i, pc) :: LinksHere(live, Extended(sh, o), i, pc)
    requires forall i: nat :: Dangling(live, Extended(sh, o), i) <==> i == |sh.chain| || Dangling(live, sh, i)
    requires LinksHere(live, Extended(sh, o), |sh.chain|, PcOf(pcs', t))
    ensures DanglingServed(live, Extended(sh, o), pcs')
  {
    hide LinksHere, PcOf, Extended, Dangling;
    forall i: nat | Dangling(live, Extended(sh, o), i)
      ensures exists u :: LinksHere(live, Extended(sh, o), i, PcOf(pcs', u))
    {
      if i != |sh.chain| {
        var u :| LinksHere(live, sh, i, PcOf(pcs, u));
        HereDangles(live, sh, i, PcOf(pcs, u));
        assert LinksHere(live, Extended(sh, o), i, PcOf(pcs', u));
      }
    }
  }

  lemma ExchangeApart(live: map<Obj, Node>, sh: Shape, pcs: map<Tid, Pc>, t: Tid, pc: Pc, pcs': map<Tid, Pc>)
    requires LinkersPlaced(live, sh, pcs) && LinkersApart(pcs)
    requires PcOf(pcs', t) == pc && forall u | u != t :: PcOf(pcs', u) == PcOf(pcs, u)
    requires pc.Linking? && pc.o !in sh.chain
    ensures LinkersApart(pcs')
  {
    hide LinksHere, PcOf;
    forall u | u != t ensures !SameLink(pc, PcOf(pcs, u)) && !SameLink(PcOf(pcs, u), pc) {
      if PcOf(pcs, u).Linking? {
        var i: nat :| LinksHere(live, sh, i, PcOf(pcs, u));
        HereDangles(live, sh, i, PcOf(pcs, u));
      }
    }
  }

  lemma HereExtends(live: map<Obj, Node>, sh: Shape, o: Obj)
    requires sh.chain != [] && sh.upto <= |sh.chain| && Next(live, o) == Unconnected
    ensures forall i: nat :: Dangling(live, Extended(sh, o), i) <==> i == |sh.chain| || Dangling(live, sh, i)
    ensures forall i: nat, pc | LinksHere(live, sh, i, pc) :: LinksHere(live, Extended(sh, o), i, pc)
    ensures LinksHere(live, Extended(sh, o), |sh.chain|, Linking(o, sh.chain[|sh.chain| - 1]))
  {
    hide Next;
  }

  lemma LinkerAt(live: map<Obj, Node>, sh: Shape, pcs: map<Tid, Pc>, t: Tid) returns (i: nat)
    requires LinkersOk(live, sh, pcs) && PcOf(pcs, t).Linking?
    ensures LinksHere(live, sh, i, PcOf(pcs, t))
  {
    hide LinksHere, Dangling;
    i :| LinksHere(live, sh, i, PcOf(pcs, t));
  }

  lemma ChainExchange(live: map<Obj, Node>, head: Link, chain: seq<Obj>, o: Obj)
    requires ChainOk(live, head, chain) && o in live && o !in chain
    ensures ChainOk(live, To(o), chain + [o])
  {
  }

  lemma ListExchange(s: State, sh: Shape, t: Tid)
    requires ListOk(s, sh) && PcOf(s.pcs, t).Ready? && sh.chain != []
    ensures PcOf(s.pcs, t).o !in sh.chain && s.head == To(sh.chain[|sh.chain| - 1])
    ensures ListOk(StepReady(s, t, PcOf(s.pcs, t).o), Extended(sh, PcOf(s.pcs, t).o))
  {
    var o := PcOf(s.pcs, t).o;
    HeadIs(s, sh);
    hide LinkOk, OwnersOk, LinkersOk, ContentsOk, Private, Next, Content;
    var prev := sh.chain[|sh.chain| - 1];
    OwnersExchange(s.live, sh.chain, s.pcs, t, o, Linking(o, prev)) by { LinkingIsPublic(o, prev); }
    ChainExchange(s.live, s.head, sh.chain, o);
    LinksExchange(s.live, sh, o);
    ContentsExchange(s.live, sh.chain, s.exchanged, s.written, o);
    LinkersExchange(s.live, sh, s.pcs, t, o);
    assert Content(s.live, o) == s.live[o].content by { ContentIn(s.live, o); }
  }

  lemma ContentIn(live: map<Obj, Node>, o: Obj)
    requires o in live
    ensures Content(live, o) == live[o].content
  {
  }

  lemma LinkingIsPublic(o: Obj, prev: Obj)
    ensures Private(Linking(o, prev)) == Null
  {
  }

  lemma RightExtends(live: map<Obj, Node>, sh: Shape, pcs: map<Tid, Pc>, o: Obj)
    requires RightOk(live, sh, pcs) && sh.chain != [] && sh.upto <= |sh.chain|
    ensures RightOk(live, Extended(sh, o), pcs)
  {
    hide Content, PcOf, HasRight;
  }

  lemma Bounds(s: State, sh: Shape)
    requires ListOk(s, sh) && sh.chain != []
    ensures sh.from <= sh.upto <= |sh.chain|
  {
    hide ChainOk, ContentsOk, OwnersOk, LinkersOk, LinkOk;
  }

  lemma ReadyAppends(s: State, sh: Shape, t: Tid)
    requires Inv(s, sh) && PcOf(s.pcs, t).Ready? && sh.chain != []
    ensures Inv(StepReady(s, t, PcOf(s.pcs, t).o), Extended(sh, PcOf(s.pcs, t).o))
  {
    hide ListOk, RightOk, MutexOk, HandoverOk, WakeOk;
    var o := PcOf(s.pcs, t).o;
    Producer(s, sh, t);
    ListExchange(s, sh, t);
    Bounds(s, sh);
    InUse(s, sh, t);
    var pc := Linking(o, sh.chain[|sh.chain| - 1]);
    RightStays(s.live, sh, s.pcs, t, pc);
    RightExtends(s.live, sh, s.pcs[t := pc], o);
    MutexMoves(s.mutex, s.pcs, t, pc, s.mutex) by { MutexAgrees(s.mutex, s.pcs, t); }
    HandoverStays(s.current, s.stop, sh, s.pcs, t, pc, Extended(sh, o));
    WakeStays(s.current, s.stop, s.pcs, t, pc);
  }

  lemma InUse(s: State, sh: Shape, t: Tid)
    requires ListOk(s, sh) && Private(PcOf(s.pcs, t)).To?
    ensures Private(PcOf(s.pcs, t)).obj in s.live
  {
    hide ChainOk, ContentsOk, LinksOk, LinkersOk, Private, PrivateOk;
  }

  lemma ListStarts(s: State, sh: Shape, t: Tid, sh': Shape)
    requires ListOk(s, sh) && PcOf(s.pcs, t).Ready? && sh.chain == []
    requires sh' == Shape([PcOf(s.pcs, t).o], 0, 1, true, Holds(t))
    ensures ListOk(StepReady(s, t, PcOf(s.pcs, t).o), sh')
    ensures s.head == Null && PcOf(s.pcs, t).o in s.live && Content(s.live, PcOf(s.pcs, t).o) != ""
  {
    var o := PcOf(s.pcs, t).o;
    var s' := At(s.(head := To(o), exchanged := s.exchanged + [Content(s.live, o)]), t, Won(o));
    WonIsPublic(o);
    assert [] + [o] == [o];
    assert LinkersOk(s.live, sh', s'.pcs) by {
      hide OwnersOk, ContentsOk;
      forall u ensures !PcOf(s'.pcs, u).Linking? {
        assert u != t ==> PcOf(s'.pcs, u) == PcOf(s.pcs, u);
      }
    }
    hide OwnersOk, LinkersOk, ContentsOk, Private, Content;
    OwnersExchange(s.live, sh.chain, s.pcs, t, o, Won(o));
    ChainExchange(s.live, s.head, sh.chain, o);
    ContentsExchange(s.live, sh.chain, s.exchanged, s.written, o);
    ContentIn(s.live, o);
  }

  lemma WonIsPublic(o: Obj)
    ensures Private(Won(o)) == Null
  {
  }

  lemma ReadyWins(s: State, sh: Shape, t: Tid)
    requires Inv(s, sh) && PcOf(s.pcs, t).Ready? && sh.chain == []
    ensures Inv(StepReady(s, t, PcOf(s.pcs, t).o), Shape([PcOf(s.pcs, t).o], 0, 1, true, Holds(t)))
  {
    hide ListOk, RightOk, MutexOk, HandoverOk, WakeOk;
    var o := PcOf(s.pcs, t).o;
    var sh' := Shape([o], 0, 1, true, Holds(t));
    Producer(s, sh, t);
    ListStarts(s, sh, t, sh');
    RightFacts(s.live, sh, s.pcs);
    RightChanges(s.live, sh, s.pcs, t, Won(o), s.live, sh');
    MutexMoves(s.mutex, s.pcs, t, Won(o), s.mutex) by { MutexAgrees(s.mutex, s.pcs, t); }
    HandoverStays(s.current, s.stop, sh, s.pcs, t, Won(o), sh');
    WakeStays(s.current, s.stop, s.pcs, t, Won(o));
  }

  lemma LinkersLinked(live: map<Obj, Node>, sh: Shape, pcs: map<Tid, Pc>, t: Tid, i: nat, live': map<Obj, Node>)
    requires LinkersOk(live, sh, pcs) && LinksHere(live, sh, i, PcOf(pcs, t))
    requires forall j: nat :: Dangling(live', sh, j) <==> j != i && Dangling(live, sh, j)
    requires forall j | 0 <= j < |sh.chain| && j != i :: sh.chain[j] != sh.chain[i]
    ensures LinkersOk(live', sh, pcs[t := Idle])
  {
    var pcs' := pcs[t := Idle];
    PcSet(pcs, t, Idle);
    HereLinked(live, sh, i, live');
    hide LinkersPlaced, DanglingServed, LinkersApart, Dangling, LinksHere, PcOf;
    LinkedPlaced(live, sh, pcs, t, i, live', pcs');
    LinkedServed(live, sh, pcs, t, i, live', pcs');
    ApartWithout(pcs, t, Idle, pcs');
  }

  lemma ApartWithout(pcs: map<Tid, Pc>, t: Tid, pc: Pc, pcs': map<Tid, Pc>)
    requires LinkersApart(pcs) && !pc.Linking?
    requires PcOf(pcs', t) == pc && forall u | u != t :: PcOf(pcs', u) == PcOf(pcs, u)
    ensures LinkersApart(pcs')
  {
    hide PcOf;
    forall u, v | u != v ensures !SameLink(PcOf(pcs', u), PcOf(pcs', v)) {
      assert !SameLink(PcOf(pcs, u), PcOf(pcs, v));
    }
  }

  lemma LinkedPlaced(live: map<Obj, Node>, sh: Shape, pcs: map<Tid, Pc>, t: Tid, i: nat,
                     live': map<Obj, Node>, pcs': map<Tid, Pc>)
    requires LinkersPlaced(live, sh, pcs) && LinkersApart(pcs) && LinksHere(live, sh, i, PcOf(pcs, t))
    requires PcOf(pcs', t) == Idle && forall u | u != t :: PcOf(pcs', u) == PcOf(pcs, u)
    requires forall j: nat, pc | j != i && LinksHere(live, sh, j, pc) :: LinksHere(live', sh, j, pc)
    ensures LinkersPlaced(live', sh, pcs')
  {
    hide LinksHere, PcOf;
    HereDangles(live, sh, i, PcOf(pcs, t));
    forall u | PcOf(pcs', u).Linking? ensures exists j: nat :: LinksHere(live', sh, j, PcOf(pcs', u)) {
      var j: nat :| LinksHere(live, sh, j, PcOf(pcs, u));
      HereDangles(live, sh, j, PcOf(pcs, u));
      assert !SameLink(PcOf(pcs, t), PcOf(pcs, u));
      assert LinksHere(live', sh, j, PcOf(pcs', u));
    }
  }

  lemma LinkedServed(live: map<Obj, Node>, sh: Shape, pcs: map<Tid, Pc>, t: Tid, i: nat,
                     live': map<Obj, Node>, pcs': map<Tid, Pc>)
    requires DanglingServed(live, sh, pcs) && LinksHere(live, sh, i, PcOf(pcs, t))
    requires forall u | u != t :: PcOf(pcs', u) == PcOf(pcs, u)
    requires forall j: nat :: Dangling(live', sh, j) <==> j != i && Dangling(live, sh, j)
    requires forall j: nat, pc | j != i && LinksHere(live, sh, j, pc) :: LinksHere(live', sh, j, pc)
    requires forall j | 0 <= j < |sh.chain| && j != i :: sh.chain[j] != sh.chain[i]
    ensures DanglingServed(live', sh, pcs')
  {
    hide LinksHere, PcOf, Dangling;
    HereDangles(live, sh, i, PcOf(pcs, t));
    forall j: nat | Dangling(live', sh, j) ensures exists u :: LinksHere(live', sh, j, PcOf(pcs', u)) {
      var u :| LinksHere(live, sh, j, PcOf(pcs, u));
      HereDangles(live, sh, j, PcOf(pcs, u));
      assert LinksHere(live', sh, j, PcOf(pcs', u));
    }
  }

  lemma HereLinked(live: map<Obj, Node>, sh: Shape, i: nat, live': map<Obj, Node>)
    requires forall j: nat :: Dangling(live', sh, j) <==> j != i && Dangling(live, sh, j)
    ensures forall j: nat, pc | j != i && LinksHere(live, sh, j, pc) :: LinksHere(live', sh, j, pc)
  {
    hide Dangling;
  }

  lemma DanglingLinked(live: map<Obj, Node>, sh: Shape, i: nat, live': map<Obj, Node>)
    requires i < |sh.chain| && sh.chain[i] in live' && live'[sh.chain[i]].next.To?
    requires forall j | 0 <= j < |sh.chain| && j != i ::
               sh.chain[j] in live && sh.chain[j] in live' && live'[sh.chain[j]] == live[sh.chain[j]]
    ensures forall j: nat :: Dangling(live', sh, j) <==> j != i && Dangling(live, sh, j)
  {
  }

  lemma ChainDistinctAt(live: map<Obj, Node>, head: Link, chain: seq<Obj>, i: nat)
    requires ChainOk(live, head, chain) && i < |chain|
    ensures forall j | 0 <= j < |chain| && j != i :: chain[j] != chain[i]
  {
  }

  lemma ListLinks(s: State, sh: Shape, t: Tid, i: nat, s1: State, s': State)
    requires ListOk(s, sh) && LinksHere(s.live, sh, i, PcOf(s.pcs, t))
    requires 1 <= i < |sh.chain|
    requires s1 == SetNext(s, sh.chain[i], To(sh.chain[i - 1])) && s' == At(s1, t, Idle)
    ensures ListOk(s', sh) && s'.fault == s.fault
    ensures s'.live.Keys == s.live.Keys && Content(s'.live, sh.chain[0]) == Content(s.live, sh.chain[0])
  {
    hide ChainOk, LinksOk, ContentsOk, OwnersOk, LinkersOk, Dangling, LinksHere, LinkOk;
    HereDangles(s.live, sh, i, PcOf(s.pcs, t));
    InChain(s.live, s.head, sh.chain, i);
    Rewritten(s.live, s.head, sh.chain, i, s.live[sh.chain[i]].(next := To(sh.chain[i - 1])), s1.live);
    ChainDistinctAt(s.live, s.head, sh.chain, i);
    DanglingLinked(s.live, sh, i, s1.live);
    LinksAfterSame(s.live, sh, i, s1.live);
    ContentsSame(s.live, s1.live, sh.chain, s.exchanged, s.written);
    OwnersRewrite(s.live, s1.live, sh.chain, s.pcs);
    OwnersStay(s1.live, sh.chain, s.pcs, t, Idle);
    LinkersLinked(s.live, sh, s.pcs, t, i, s1.live);
  }

  lemma LinksAfterSame(live: map<Obj, Node>, sh: Shape, i: nat, live': map<Obj, Node>)
    requires LinksOk(live, sh) && Dangling(live, sh, i)
    requires forall j | 0 <= j < |sh.chain| && j != i ::
               sh.chain[j] in live && sh.chain[j] in live' && live'[sh.chain[j]] == live[sh.chain[j]]
    requires sh.chain[i] in live' && live'[sh.chain[i]].next == To(sh.chain[i - 1])
    ensures LinksOk(live', sh)
  {
    LinksAfter(live, sh, i, live', sh);
  }

  lemma StepLinking(s: State, sh: Shape, t: Tid, c: Choice)
    requires Inv(s, sh) && PcOf(s.pcs, t).Linking?
    ensures Inv(Step(s, t, c), NextShape(s, sh, t))
  {
    hide ControlOk, ChainOk, LinksOk, ContentsOk, OwnersOk, LinkersOk;
    Producer(s, sh, t);
    var i := LinkerAt(s.live, sh, s.pcs, t);
    HereDangles(s.live, sh, i, PcOf(s.pcs, t));
    var s1 := SetNext(s, sh.chain[i], To(sh.chain[i - 1]));
    var s' := At(s1, t, Idle);
    ListLinks(s, sh, t, i, s1, s');
    InChain(s.live, s.head, sh.chain, i);
    ProducerControl(s, sh, t, Idle, s');
  }

  /** A signal only ever wakes the runner. */
  lemma WakeKeeps(s: State, sh: Shape)
    requires Inv(s, sh)
    ensures Inv(WakeRunner(s), sh) && PcOf(WakeRunner(s).pcs, RUNNER) != RunWait(false)
  {
    hide ListOk, ControlOk;
    if PcOf(s.pcs, RUNNER).RunWait? {
      RunnerMoves(s, sh, RunWait(true), s.mutex, s.current);
      assert WakeRunner(s) == At(s.(mutex := s.mutex, current := s.current), RUNNER, RunWait(true));
    }
  }

  lemma StepSignal(s: State, sh: Shape, t: Tid, c: Choice)
    requires Inv(s, sh) && (PcOf(s.pcs, t) == Signalling || PcOf(s.pcs, t) == StopSignal)
    ensures Inv(Step(s, t, c), NextShape(s, sh, t))
  {
    hide Inv;
    if PcOf(s.pcs, t) == Signalling {
      Signals(s, sh, t, Unlocking);
    } else {
      Signals(s, sh, t, StopUnlock);
    }
  }

  lemma Signals(s: State, sh: Shape, t: Tid, pc: Pc)
    requires Inv(s, sh)
    requires (PcOf(s.pcs, t) == Signalling && pc == Unlocking) || (PcOf(s.pcs, t) == StopSignal && pc == StopUnlock)
    ensures Inv(At(WakeRunner(s), t, pc), sh)
  {
    hide ListOk, ControlOk;
    Producer(s, sh, t);
    WakeKeeps(s, sh);
    var s1 := WakeRunner(s);
    assert PcOf(s1.pcs, t) == PcOf(s.pcs, t);
    StopIsKnown(s1, sh, t);
    ListStays(s1, sh, t, pc, At(s1, t, pc));
    ProducerControl(s1, sh, t, pc, At(s1, t, pc));
  }

  lemma StopIsKnown(s: State, sh: Shape, t: Tid)
    requires Inv(s, sh)
    ensures Stopping(PcOf(s.pcs, t)) ==> s.stop
    ensures HasMutex(PcOf(s.pcs, t)) <==> s.mutex == LockedBy(t)
  {
    hide ListOk, RightOk, HandoverOk, Stopping, HasMutex;
  }

  lemma StepLocks(s: State, sh: Shape, t: Tid, c: Choice)
    requires Inv(s, sh)
    requires PcOf(s.pcs, t) == Unlocking || PcOf(s.pcs, t) == StopUnlock || PcOf(s.pcs, t) == StopLock
    ensures Inv(Step(s, t, c), NextShape(s, sh, t))
  {
    hide ListOk, ControlOk;
    Producer(s, sh, t);
    StopIsKnown(s, sh, t);
    if PcOf(s.pcs, t) != StopLock || s.mutex == Free {
      var pc := match PcOf(s.pcs, t) case Unlocking => Idle case StopUnlock => Joining case _ => StopSignal;
      var s' := At(s.(mutex := if pc == StopSignal then LockedBy(t) else Free), t, pc);
      ListStays(s, sh, t, pc, s');
      ProducerControl(s, sh, t, pc, s');
    }
  }

  lemma StepJoins(s: State, sh: Shape, t: Tid, c: Choice)
    requires Inv(s, sh) && PcOf(s.pcs, t) == Joining
    ensures Inv(Step(s, t, c), NextShape(s, sh, t))
  {
    hide ListOk, ControlOk;
    Producer(s, sh, t);
    if PcOf(s.pcs, RUNNER) == Exited {
      ListStays(s, sh, t, Idle, At(s, t, Idle));
      ProducerControl(s, sh, t, Idle, At(s, t, Idle));
    }
  }

  lemma WakeStops(current: Link, stop: bool, pcs: map<Tid, Pc>, t: Tid)
    requires WakeOk(current, stop, pcs) && PcOf(pcs, t) == Idle && !stop
    ensures WakeOk(current, true, pcs[t := StopLock])
  {
    hide Stopping;
    var pcs' := pcs[t := StopLock];
    assert PcOf(pcs', t) == StopLock;
    assert forall u :: u != t ==> PcOf(pcs', u) == PcOf(pcs, u);
    if PcOf(pcs', RUNNER) == RunWait(false) && current.To? {
      var u :| PcOf(pcs, u) == Signalling;
      assert PcOf(pcs', u) == Signalling;
    }
  }

  lemma HandoverStops(current: Link, stop: bool, sh: Shape, pcs: map<Tid, Pc>)
    requires HandoverOk(current, stop, sh, pcs)
    ensures HandoverOk(current, true, sh, pcs)
  {
    hide Busy, OfRunner, ThenOk;
  }

  lemma StepStops(s: State, sh: Shape, t: Tid)
    requires Inv(s, sh) && PcOf(s.pcs, t) == Idle
    ensures Inv(At(s.(stop := true), t, if s.stop then Joining else StopLock), sh)
  {
    hide ListOk, RightOk, MutexOk, HandoverOk, WakeOk;
    Producer(s, sh, t);
    MutexAgrees(s.mutex, s.pcs, t);
    if s.stop {
      ListStays(s, sh, t, Joining, At(s, t, Joining));
      ProducerControl(s, sh, t, Joining, At(s, t, Joining));
      assert s.(stop := true) == s;
    } else {
      var s' := At(s.(stop := true), t, StopLock);
      ListStays(s, sh, t, StopLock, s');
      RightStays(s.live, sh, s.pcs, t, StopLock);
      MutexMoves(s.mutex, s.pcs, t, StopLock, s.mutex);
      HandoverStaysHere(s, sh, t, StopLock);
      HandoverStops(s.current, s.stop, sh, s'.pcs);
      WakeStops(s.current, s.stop, s.pcs, t);
    }
  }

  lemma StepCalls(s: State, sh: Shape, t: Tid, c: Choice)
    requires Inv(s, sh) && PcOf(s.pcs, t) == Idle
    ensures Inv(Step(s, t, c), NextShape(s, sh, t))
  {
    hide RightOk, MutexOk, HandoverOk, WakeOk, ChainOk, LinksOk, ContentsOk, OwnersOk, LinkersOk;
    match c.call
    case NoCall =>
    case Log(content) =>
      if content != "" && !c.fallback && !s.stop && c.obj !in s.live {
        StepAllocate(s, sh, t, content, c.obj, c.stale);
      } else {
        assert Step(s, t, c) == s.(direct := Step(s, t, c).direct);
      }
    case Stop => StepStops(s, sh, t);
  }

  lemma StepExchanges(s: State, sh: Shape, t: Tid, c: Choice)
    requires Inv(s, sh) && PcOf(s.pcs, t).Ready?
    ensures Inv(Step(s, t, c), NextShape(s, sh, t))
  {
    hide Inv;
    if sh.chain == [] {
      ReadyWins(s, sh, t);
    } else {
      ReadyAppends(s, sh, t);
    }
  }

  // ---- every run

  /** Every atomic step of every thread keeps the invariant, whatever the outside answers. */
  lemma StepKeeps(s: State, sh: Shape, t: Tid, c: Choice)
    requires Inv(s, sh)
    ensures Inv(Step(s, t, c), NextShape(s, sh, t))
  {
    hide Inv, Step, NextShape;
    match PcOf(s.pcs, t)
    case Idle => StepCalls(s, sh, t, c);
    case Allocated(_, _) => StepAllocated(s, sh, t, c);
    case Ready(_, _) => StepExchanges(s, sh, t, c);
    case Linking(_, _) => StepLinking(s, sh, t, c);
    case Won(_) => StepWon(s, sh, t, c);
    case Deciding(_) => StepDeciding(s, sh, t, c);
    case SyncLog(_) => StepLogging(s, sh, t, c);
    case WantLock(_) => StepWantLock(s, sh, t, c);
    case Holding(_) => StepHolding(s, sh, t, c);
    case Handoff(_) => StepHandoff(s, sh, t, c);
    case Signalling => StepSignal(s, sh, t, c);
    case Unlocking => StepLocks(s, sh, t, c);
    case Cas(_, _) => StepCas(s, sh, t, c);
    case Reversing(_, _, _, _) => StepReversing(s, sh, t, c);
    case Splice(_, _, _) => StepSplice(s, sh, t, c);
    case Completed(_, _) => StepCompleted(s, sh, t, c);
    case TaskTop(_, _) => StepTaskTop(s, sh, t, c);
    case TaskWalk(_, _) => StepTaskWalk(s, sh, t, c);
    case TaskLast(_, _) => StepLogging(s, sh, t, c);
    case StopLock => StepLocks(s, sh, t, c);
    case StopSignal => StepSignal(s, sh, t, c);
    case StopUnlock => StepLocks(s, sh, t, c);
    case Joining => StepJoins(s, sh, t, c);
    case RunLock => StepRunLock(s, sh, t, c);
    case RunTest => StepRunTest(s, sh, t, c);
    case RunWait(_) => StepRunLock(s, sh, t, c);
    case RunTest2 => StepRunTest2(s, sh, t, c);
    case RunClear => StepRunEnds(s, sh, t, c);
    case RunUnlock => StepRunEnds(s, sh, t, c);
    case RunBreak => StepRunEnds(s, sh, t, c);
    case Exited => StepExited(s, sh, t, c);
  }

  lemma StepExited(s: State, sh: Shape, t: Tid, c: Choice)
    requires Inv(s, sh) && PcOf(s.pcs, t) == Exited
    ensures Inv(Step(s, t, c), NextShape(s, sh, t))
  {
    hide Inv;
  }

  lemma {:induction false} RunKeeps(schedule: seq<(Tid, Choice)>) returns (sh: Shape)
    ensures Inv(Run(INITIAL, schedule), sh)
  {
    hide Inv, Step, NextShape;
    if schedule == [] {
      sh := NOTHING;
      InvInitially();
    } else {
      var n := |schedule| - 1;
      var sh0 := RunKeeps(schedule[..n]);
      var s := Run(INITIAL, schedule[..n]);
      sh := NextShape(s, sh0, schedule[n].0);
      StepKeeps(s, sh0, schedule[n].0, schedule[n].1);
    }
  }

  /**
   * In every interleaving of any number of threads: what has been written is what was exchanged onto
   * the list, in that order, each once; no object is used or returned after its return; the
   * reversal never meets the end of the list; a handed-over list is never overwritten.
   */
  lemma WrittenInOrder(schedule: seq<(Tid, Choice)>)
    ensures !Run(INITIAL, schedule).fault
    ensures Run(INITIAL, schedule).written <= Run(INITIAL, schedule).exchanged
  {
    var sh := RunKeeps(schedule);
    hide Run, ControlOk, ChainOk, LinksOk, OwnersOk, LinkersOk;
  }

  /** At most one thread has the right to write. */
  lemma OneWriter(schedule: seq<(Tid, Choice)>, t: Tid, u: Tid)
    requires HasRight(PcOf(Run(INITIAL, schedule).pcs, t))
    requires HasRight(PcOf(Run(INITIAL, schedule).pcs, u))
    ensures t == u
  {
    hide HasRight, RightHolderOk, Run, LinkOk;
    var sh := RunKeeps(schedule);
    AtRight(Run(INITIAL, schedule), sh, t);
    AtRight(Run(INITIAL, schedule), sh, u);
  }

  /** What an exchange puts in the order is the text its Log call was given. */
  lemma ExchangesItsText(schedule: seq<(Tid, Choice)>, t: Tid, c: Choice)
    requires PcOf(Run(INITIAL, schedule).pcs, t).Ready?
    ensures Step(Run(INITIAL, schedule), t, c).exchanged
         == Run(INITIAL, schedule).exchanged + [PcOf(Run(INITIAL, schedule).pcs, t).text]
  {
    hide Run;
    var sh := RunKeeps(schedule);
    var s := Run(INITIAL, schedule);
    OwnersText(s, sh, t);
  }

  lemma OwnersText(s: State, sh: Shape, t: Tid)
    requires Inv(s, sh) && PcOf(s.pcs, t).Ready?
    ensures PcOf(s.pcs, t).o in s.live && s.live[PcOf(s.pcs, t).o].content == PcOf(s.pcs, t).text
  {
    hide ControlOk, ChainOk, LinksOk, ContentsOk, LinkersOk;
    assert Private(PcOf(s.pcs, t)).To? && PrivateOk(s.live, PcOf(s.pcs, t));
  }

  // ---- no thread waits for ever

  /** The thread cannot move before another one does, unless it is given a new call. */
  predicate Blocked(s: State, t: Tid) {
    match PcOf(s.pcs, t)
    case Idle => true
    case WantLock(_) => s.mutex != Free
    case StopLock => s.mutex != Free
    case RunLock => s.mutex != Free
    case RunWait(signalled) => !signalled || s.mutex != Free
    case Reversing(_, p, _, _) => Next(s.live, p) == Unconnected
    case Joining => PcOf(s.pcs, RUNNER) != Exited
    case Exited => true
    case _ => false
  }

  ghost predicate Stuck(s: State) {
    forall t :: Blocked(s, t)
  }

  lemma ReverserServed(s: State, sh: Shape, t: Tid) returns (u: Tid)
    requires Inv(s, sh) && PcOf(s.pcs, t).Reversing? && Blocked(s, t)
    ensures PcOf(s.pcs, u).Linking?
  {
    hide ControlOk, ChainOk, ContentsOk, OwnersOk;
    ReversingAt(s, sh, t);
    assert Dangling(s.live, sh, sh.from - 1);
    hide Dangling;
    u :| LinksHere(s.live, sh, sh.from - 1, PcOf(s.pcs, u));
  }

  /** A blocked thread that is not spinning on an unlinked request sits where the lock is not held. */
  lemma BlockedWhere(s: State, t: Tid)
    requires Blocked(s, t) && !PcOf(s.pcs, t).Reversing?
    ensures !HasMutex(PcOf(s.pcs, t)) && PcOf(s.pcs, t) != Signalling && PcOf(s.pcs, t) != StopSignal
    ensures Private(PcOf(s.pcs, t)) == Null
    ensures s.mutex == Free ==>
              && !HasRight(PcOf(s.pcs, t)) && PcOf(s.pcs, t) != StopLock
              && (if OfRunner(PcOf(s.pcs, t)) then PcOf(s.pcs, t) == RunWait(false) || PcOf(s.pcs, t) == Exited
                  else PcOf(s.pcs, t) == Idle || PcOf(s.pcs, t) == Joining)
  {
  }

  lemma StuckUnlocked(s: State, sh: Shape)
    requires Inv(s, sh) && Stuck(s)
    ensures s.mutex == Free
    ensures forall t :: !PcOf(s.pcs, t).Reversing?
  {
    hide ListOk, RightOk, HandoverOk, WakeOk, Blocked, HasMutex;
    forall t ensures !PcOf(s.pcs, t).Reversing? {
      if PcOf(s.pcs, t).Reversing? {
        assert Blocked(s, t);
        var u := ReverserServed(s, sh, t);
        assert Blocked(s, u);
        LinkersMove(s, u);
      }
    }
    if s.mutex != Free {
      assert Blocked(s, s.mutex.t);
      BlockedWhere(s, s.mutex.t);
    }
  }

  lemma LinkersMove(s: State, t: Tid)
    ensures PcOf(s.pcs, t).Linking? ==> !Blocked(s, t)
  {
  }

  /**
   * When no thread can move, no producer is left inside a call, the runner has nothing to do,
   * everything exchanged is written and every object is back in the pool.
   */
  lemma StuckIsDone(s: State, sh: Shape)
    requires Inv(s, sh) && Stuck(s)
    ensures forall t | t != RUNNER :: PcOf(s.pcs, t) == Idle
    ensures PcOf(s.pcs, RUNNER) == RunWait(false) || PcOf(s.pcs, RUNNER) == Exited
    ensures s.head == Null && s.current == Null && s.mutex == Free && s.live == map[]
    ensures s.written == s.exchanged
  {
    hide ListOk, RightOk, MutexOk, HandoverOk, WakeOk, Blocked, HasMutex, HasRight, OfRunner, ThenOk, Private;
    StuckUnlocked(s, sh);
    forall t
      ensures !HasRight(PcOf(s.pcs, t)) && PcOf(s.pcs, t) != Signalling && Private(PcOf(s.pcs, t)) == Null
      ensures PcOf(s.pcs, t) != StopLock && PcOf(s.pcs, t) != StopSignal
      ensures if t == RUNNER then PcOf(s.pcs, t) == RunWait(false) || PcOf(s.pcs, t) == Exited
              else PcOf(s.pcs, t) == Idle || PcOf(s.pcs, t) == Joining
    {
      assert Blocked(s, t);
      BlockedWhere(s, t);
      IsRunner(s, sh, t);
    }
    forall t | t != RUNNER ensures PcOf(s.pcs, t) == Idle {
      assert Blocked(s, t);
      JoinerWaits(s, sh, t);
    }
    NobodyLeft(s, sh);
    ListGone(s, sh);
  }

  lemma JoinerWaits(s: State, sh: Shape, t: Tid)
    requires Inv(s, sh)
    requires PcOf(s.pcs, RUNNER) == RunWait(false) || PcOf(s.pcs, RUNNER) == Exited
    requires forall u :: PcOf(s.pcs, u) != StopLock && PcOf(s.pcs, u) != StopSignal
    ensures PcOf(s.pcs, t) == Joining ==> !Blocked(s, t)
  {
    hide ListOk, RightOk, MutexOk, HandoverOk;
    assert Stopping(PcOf(s.pcs, t)) ==> s.stop;
  }

  lemma NobodyLeft(s: State, sh: Shape)
    requires Inv(s, sh)
    requires PcOf(s.pcs, RUNNER) == RunWait(false) || PcOf(s.pcs, RUNNER) == Exited
    requires forall t :: PcOf(s.pcs, t) != Signalling
    requires forall t :: !HasRight(PcOf(s.pcs, t))
    ensures sh.chain == [] && s.current == Null
  {
    hide ListOk, MutexOk, HasRight, OfRunner, ThenOk, Stopping;
    assert !Busy(PcOf(s.pcs, RUNNER));
    hide Busy;
  }

  lemma ListGone(s: State, sh: Shape)
    requires Inv(s, sh) && sh.chain == []
    requires forall t :: Private(PcOf(s.pcs, t)) == Null
    ensures s.head == Null && s.live == map[] && s.written == s.exchanged
  {
    hide ControlOk, LinksOk, LinkersOk, Private, PrivateOk;
  }

  // ---- and none moves for ever

  /** Moves a thread may still make on its own account. */
  function Rank(pc: Pc): nat {
    match pc
    case Idle => 0
    case Allocated(_, _) => 48
    case Ready(_, _) => 47
    case Linking(_, _) => 1
    case Won(_) => 45
    case Deciding(_) => 44
    case SyncLog(_) => 32
    case WantLock(_) => 43
    case Holding(_) => 42
    case Handoff(_) => 41
    case Signalling => 7
    case Unlocking => 1
    case Cas(_, _) => 31
    case Reversing(_, _, _, _) => 10
    case Splice(_, _, _) => 24
    case Completed(_, _) => 10
    case TaskTop(_, _) => 34
    case TaskWalk(_, _) => 33
    case TaskLast(_, _) => 32
    case StopLock => 9
    case StopSignal => 8
    case StopUnlock => 2
    case Joining => 1
    case RunLock => 4
    case RunTest => 3
    case RunWait(signalled) => if signalled then 4 else 0
    case RunTest2 => 2
    case RunClear => 6
    case RunUnlock => 5
    case RunBreak => 1
    case Exited => 0
  }

  function Ranks(pcs: map<Tid, Pc>, n: nat): nat {
    if n == 0 then 0 else Ranks(pcs, n - 1) + Rank(PcOf(pcs, n - 1))
  }

  /** Moves the requests in the list will still need. */
  function Load(sh: Shape): int {
    (if sh.chain == [] then 0 else 21 * |sh.chain| - 20 * (sh.upto - sh.from)) + (if sh.holder == Handed then 33 else 0)
  }

  ghost predicate Within(pcs: map<Tid, Pc>, n: nat) {
    0 < n && forall t | n <= t :: PcOf(pcs, t) == Idle
  }

  lemma {:induction false} RanksSet(pcs: map<Tid, Pc>, t: Tid, pc: Pc, n: nat)
    ensures Ranks(pcs[t := pc], n) == Ranks(pcs, n) + if t < n then Rank(pc) - Rank(PcOf(pcs, t)) else 0
  {
    hide Rank;
    if n > 0 {
      RanksSet(pcs, t, pc, n - 1);
    }
  }

  /** The step moves only thread t, to pc, and what it and the list still need gets less. */
  ghost predicate Falls(s: State, sh: Shape, t: Tid, s': State, sh': Shape) {
    exists pc :: s'.pcs == s.pcs[t := pc] && Rank(pc) + Load(sh') < Rank(PcOf(s.pcs, t)) + Load(sh)
  }

  lemma FallsTo(s: State, sh: Shape, t: Tid, s': State, sh': Shape, pc: Pc)
    requires s'.pcs == s.pcs[t := pc] && Rank(pc) + Load(sh') < Rank(PcOf(s.pcs, t)) + Load(sh)
    ensures Falls(s, sh, t, s', sh')
  {
  }

  lemma CallFalls(s: State, sh: Shape, t: Tid, c: Choice)
    requires Inv(s, sh) && (PcOf(s.pcs, t).Allocated? || PcOf(s.pcs, t).Ready? || PcOf(s.pcs, t).Linking?)
    ensures Falls(s, sh, t, Step(s, t, c), NextShape(s, sh, t))
  {
    hide Inv;
    var s', sh' := Step(s, t, c), NextShape(s, sh, t);
    match PcOf(s.pcs, t)
    case Allocated(o, text) => FallsTo(s, sh, t, s', sh', Ready(o, text));
    case Ready(o, _) => ReadyFalls(s, sh, t);
    case Linking(_, _) => FallsTo(s, sh, t, s', sh', Idle);
  }

  lemma ReadyFalls(s: State, sh: Shape, t: Tid)
    requires Inv(s, sh) && PcOf(s.pcs, t).Ready?
    ensures Falls(s, sh, t, StepReady(s, t, PcOf(s.pcs, t).o), NextShape(s, sh, t))
  {
    hide ListOk, ControlOk;
    OwnersText(s, sh, t);
    var o := PcOf(s.pcs, t).o;
    var s' := StepReady(s, t, o);
    if sh.chain == [] {
      HeadNull(s, sh);
      FallsTo(s, sh, t, s', Shape([o], 0, 1, true, Holds(t)), Won(o));
      NotHandedYet(s, sh);
    } else {
      HeadIs(s, sh);
      FallsTo(s, sh, t, s', Extended(sh, o), Linking(o, s.head.obj));
    }
  }

  lemma HeadNull(s: State, sh: Shape)
    requires ListOk(s, sh) && sh.chain == []
    ensures s.head == Null
  {
    hide LinksOk, ContentsOk, OwnersOk, LinkersOk;
  }

  lemma NotHandedYet(s: State, sh: Shape)
    requires ControlOk(s, sh) && sh.chain == []
    ensures sh.holder == Nobody
  {
    hide MutexOk, HandoverOk, WakeOk, HasRight, RightHolderOk;
  }

  lemma RightFalls(s: State, sh: Shape, t: Tid, c: Choice)
    requires Inv(s, sh) && HasRight(PcOf(s.pcs, t)) && !Blocked(s, t) && !Step(s, t, c).fault
    ensures Falls(s, sh, t, Step(s, t, c), NextShape(s, sh, t))
  {
    hide Inv;
    match PcOf(s.pcs, t)
    case Won(_) => WriterFalls(s, sh, t, c);
    case Deciding(_) => WriterFalls(s, sh, t, c);
    case SyncLog(_) => WriterFalls(s, sh, t, c);
    case WantLock(_) => WriterFalls(s, sh, t, c);
    case Holding(_) => WriterFalls(s, sh, t, c);
    case Handoff(_) => HandoffFalls(s, sh, t, c);
    case Cas(_, _) => CasFalls(s, sh, t, c);
    case Reversing(_, _, _, _) => ReversingFalls(s, sh, t, c);
    case Splice(_, _, _) => SpliceFalls(s, sh, t, c);
    case TaskTop(_, _) => TaskFalls(s, sh, t, c);
    case TaskWalk(_, _) => TaskFalls(s, sh, t, c);
    case TaskLast(_, _) => WriterFalls(s, sh, t, c);
  }

  lemma WriterFalls(s: State, sh: Shape, t: Tid, c: Choice)
    requires !Step(s, t, c).fault && !Blocked(s, t)
    requires
      var pc := PcOf(s.pcs, t);
      pc.Won? || pc.Deciding? || pc.SyncLog? || pc.WantLock? || pc.Holding? || pc.TaskLast?
    ensures Falls(s, sh, t, Step(s, t, c), NextShape(s, sh, t))
  {
    var pc' := WriterNext(s, t, c);
    assert Load(NextShape(s, sh, t)) == Load(sh) by { hide Step, Rank, Blocked; }
    hide Load, Step, Blocked, NextShape;
    FallsTo(s, sh, t, Step(s, t, c), NextShape(s, sh, t), pc');
  }

  lemma WriterNext(s: State, t: Tid, c: Choice) returns (pc: Pc)
    requires !Blocked(s, t)
    requires
      var pc := PcOf(s.pcs, t);
      pc.Won? || pc.Deciding? || pc.SyncLog? || pc.WantLock? || pc.Holding? || pc.TaskLast?
    ensures Step(s, t, c).pcs == s.pcs[t := pc]
    ensures Rank(pc) < Rank(PcOf(s.pcs, t))
  {
    match PcOf(s.pcs, t)
    case Won(o) => pc := Deciding(o);
    case Deciding(o) => pc := if c.background then WantLock(o) else SyncLog(o);
    case SyncLog(o) => pc := Cas(o, SyncFirst);
    case WantLock(o) => pc := Holding(o);
    case Holding(o) => pc := if s.stop then TaskTop(o, Drain) else Handoff(o);
    case TaskLast(o, k) => pc := Cas(o, k);
  }

  lemma HandoffFalls(s: State, sh: Shape, t: Tid, c: Choice)
    requires Inv(s, sh) && !Step(s, t, c).fault && PcOf(s.pcs, t).Handoff?
    ensures Falls(s, sh, t, Step(s, t, c), NextShape(s, sh, t))
  {
    hide ListOk, ControlOk;
    AtRight(s, sh, t);
    FallsTo(s, sh, t, Step(s, t, c), sh.(holder := Handed), Signalling);
  }

  lemma CasFalls(s: State, sh: Shape, t: Tid, c: Choice)
    requires Inv(s, sh) && !Step(s, t, c).fault && PcOf(s.pcs, t).Cas?
    ensures Falls(s, sh, t, Step(s, t, c), NextShape(s, sh, t))
  {
    hide ListOk, ControlOk;
    AtRight(s, sh, t);
    HeadIs(s, sh);
    var s', sh' := Step(s, t, c), NextShape(s, sh, t);
    var o, k := PcOf(s.pcs, t).o, PcOf(s.pcs, t).k;
    if |sh.chain| == 1 {
      FallsTo(s, sh, t, s', sh', Completed(o, k));
    } else {
      FallsTo(s, sh, t, s', sh', Reversing(o, s.head.obj, Null, k));
    }
  }

  lemma ReversingFalls(s: State, sh: Shape, t: Tid, c: Choice)
    requires Inv(s, sh) && !Step(s, t, c).fault && PcOf(s.pcs, t).Reversing? && !Blocked(s, t)
    ensures Falls(s, sh, t, Step(s, t, c), NextShape(s, sh, t))
  {
    hide Inv;
    ReversingAt(s, sh, t);
    var s', sh' := Step(s, t, c), NextShape(s, sh, t);
    var pc := PcOf(s.pcs, t);
    var next := s.live[pc.p].next;
    assert Load(sh') == Load(sh) - 20;
    FallsTo(s, sh, t, s', sh',
            if next.obj == pc.o then Splice(pc.o, To(pc.p), pc.k) else Reversing(pc.o, next.obj, To(pc.p), pc.k));
  }

  lemma SpliceFalls(s: State, sh: Shape, t: Tid, c: Choice)
    requires Inv(s, sh) && !Step(s, t, c).fault && PcOf(s.pcs, t).Splice?
    ensures Falls(s, sh, t, Step(s, t, c), NextShape(s, sh, t))
  {
    hide ListOk, ControlOk;
    AtRight(s, sh, t);
    var o, k := PcOf(s.pcs, t).o, PcOf(s.pcs, t).k;
    FallsTo(s, sh, t, Step(s, t, c), sh.(from := 0), if k == SyncFirst then WantLock(o) else TaskTop(o, k));
  }

  lemma TaskFalls(s: State, sh: Shape, t: Tid, c: Choice)
    requires Inv(s, sh) && !Step(s, t, c).fault && (PcOf(s.pcs, t).TaskTop? || PcOf(s.pcs, t).TaskWalk?)
    ensures Falls(s, sh, t, Step(s, t, c), NextShape(s, sh, t))
  {
    hide ListOk, ControlOk;
    AtRight(s, sh, t);
    var s', sh' := Step(s, t, c), NextShape(s, sh, t);
    var o, k := PcOf(s.pcs, t).o, PcOf(s.pcs, t).k;
    if sh' != sh {
      assert 2 <= sh.upto;
      FallsTo(s, sh, t, s', sh', TaskWalk(s.live[o].next.obj, k));
    } else if PcOf(s.pcs, t).TaskTop? {
      FallsTo(s, sh, t, s', sh', TaskWalk(o, k));
    } else {
      FallsTo(s, sh, t, s', sh', TaskLast(o, k));
    }
  }

  lemma RestFalls(s: State, sh: Shape, t: Tid, c: Choice)
    requires Inv(s, sh) && !Step(s, t, c).fault && !Blocked(s, t)
    requires
      var pc := PcOf(s.pcs, t);
      || pc == Unlocking || pc.Completed? || pc == StopLock || pc == StopUnlock || pc == Joining
    ensures Falls(s, sh, t, Step(s, t, c), NextShape(s, sh, t))
  {
    hide Inv;
    var s', sh' := Step(s, t, c), NextShape(s, sh, t);
    match PcOf(s.pcs, t)
    case Unlocking => FallsTo(s, sh, t, s', sh', Idle);
    case Completed(_, k) =>
      FallsTo(s, sh, t, s', sh', match k case SyncFirst => Idle case Drain => Unlocking case RunLoop => RunClear);
    case StopLock => FallsTo(s, sh, t, s', sh', StopSignal);
    case StopUnlock => FallsTo(s, sh, t, s', sh', Joining);
    case Joining => FallsTo(s, sh, t, s', sh', Idle);
  }

  lemma RunnerFalls(s: State, sh: Shape, t: Tid, c: Choice)
    requires Inv(s, sh) && !Step(s, t, c).fault && !Blocked(s, t)
    requires
      var pc := PcOf(s.pcs, t);
      || pc == RunLock || pc == RunTest || pc.RunWait? || pc == RunTest2 || pc == RunClear || pc == RunUnlock
      || pc == RunBreak
    ensures Falls(s, sh, t, Step(s, t, c), NextShape(s, sh, t))
  {
    hide Inv;
    if PcOf(s.pcs, t) == RunTest2 {
      assert t == RUNNER by { IsRunner(s, sh, t); }
      RunTest2Falls(s, sh, c);
    } else {
      RunnerOutside(s, sh, t, c);
    }
  }

  lemma RunnerOutside(s: State, sh: Shape, t: Tid, c: Choice)
    requires !Blocked(s, t)
    requires
      var pc := PcOf(s.pcs, t);
      pc == RunLock || pc == RunTest || pc.RunWait? || pc == RunClear || pc == RunUnlock || pc == RunBreak
    ensures Falls(s, sh, t, Step(s, t, c), NextShape(s, sh, t))
  {
    assert NextShape(s, sh, t) == sh && Step(s, t, c) == StepRun(s, t, c);
    hide Step, NextShape;
    var pc' := if PcOf(s.pcs, t) == RunLock || PcOf(s.pcs, t).RunWait?
               then RunnerLocks(s, t, c) else RunnerNext(s, t, c);
    hide Load, Blocked, StepRun;
    FallsTo(s, sh, t, Step(s, t, c), sh, pc');
  }

  function RunnerLocks(s: State, t: Tid, c: Choice): (pc: Pc)
    requires !Blocked(s, t) && (PcOf(s.pcs, t) == RunLock || PcOf(s.pcs, t).RunWait?)
    ensures StepRun(s, t, c).pcs == s.pcs[t := pc] && Rank(pc) < Rank(PcOf(s.pcs, t))
  {
    RunTest
  }

  function RunnerNext(s: State, t: Tid, c: Choice): (pc: Pc)
    requires
      var pc := PcOf(s.pcs, t);
      pc == RunTest || pc == RunClear || pc == RunUnlock || pc == RunBreak
    ensures StepRun(s, t, c).pcs == s.pcs[t := pc] && Rank(pc) < Rank(PcOf(s.pcs, t))
  {
    match PcOf(s.pcs, t)
    case RunTest => if !s.stop && s.current == Null then RunWait(false) else RunTest2
    case RunClear => RunUnlock
    case RunUnlock => RunLock
    case RunBreak => Exited
  }

  lemma RunTest2Falls(s: State, sh: Shape, c: Choice)
    requires Inv(s, sh) && !Step(s, RUNNER, c).fault && PcOf(s.pcs, RUNNER) == RunTest2
    ensures Falls(s, sh, RUNNER, Step(s, RUNNER, c), NextShape(s, sh, RUNNER))
  {
    hide ListOk, RightOk, MutexOk, HandoverOk, WakeOk;
    var s', sh' := Step(s, RUNNER, c), NextShape(s, sh, RUNNER);
    if s.current.To? {
      RightFacts(s.live, sh, s.pcs);
      HandoverTakes(s.current, s.stop, sh, s.pcs);
      FallsTo(s, sh, RUNNER, s', sh', TaskTop(s.current.obj, RunLoop));
    } else {
      FallsTo(s, sh, RUNNER, s', sh', RunBreak);
    }
  }

  function Energy(s: State, sh: Shape, n: nat): int {
    Ranks(s.pcs, n) + Load(sh)
  }

  lemma FallsMeans(s: State, sh: Shape, t: Tid, s': State, sh': Shape, n: nat)
    requires Falls(s, sh, t, s', sh') && t < n
    ensures Energy(s', sh', n) < Energy(s, sh, n)
    ensures Within(s.pcs, n) ==> Within(s'.pcs, n)
  {
    hide Load, Rank;
    var pc :| s'.pcs == s.pcs[t := pc] && Rank(pc) + Load(sh') < Rank(PcOf(s.pcs, t)) + Load(sh);
    RanksSet(s.pcs, t, pc, n);
    if Within(s.pcs, n) {
      forall u | n <= u ensures PcOf(s'.pcs, u) == Idle {
        assert PcOf(s.pcs, u) == Idle;
      }
    }
  }

  lemma SignalFalls(s: State, sh: Shape, t: Tid, c: Choice, n: nat)
    requires Inv(s, sh) && (PcOf(s.pcs, t) == Signalling || PcOf(s.pcs, t) == StopSignal) && Within(s.pcs, n) && t < n
    ensures Energy(Step(s, t, c), NextShape(s, sh, t), n) < Energy(s, sh, n)
    ensures Within(Step(s, t, c).pcs, n)
  {
    assert t != RUNNER by { hide Inv; Producer(s, sh, t); }
    var pc := if PcOf(s.pcs, t) == Signalling then Unlocking else StopUnlock;
    assert Step(s, t, c) == At(WakeRunner(s), t, pc) && NextShape(s, sh, t) == sh by { hide Inv, WakeRunner, Within; }
    assert Rank(pc) + 4 < Rank(PcOf(s.pcs, t)) by { hide Inv, Within; }
    hide Inv, Load, Rank, Step, NextShape;
    SignalledFalls(s, t, pc, n);
  }

  lemma SignalledFalls(s: State, t: Tid, pc: Pc, n: nat)
    requires Within(s.pcs, n) && t < n && t != RUNNER && Rank(pc) + 4 < Rank(PcOf(s.pcs, t))
    ensures Ranks(At(WakeRunner(s), t, pc).pcs, n) < Ranks(s.pcs, n)
    ensures Within(At(WakeRunner(s), t, pc).pcs, n)
  {
    hide Rank, WakeRunner;
    WakeRaises(s, n);
    RanksSet(WakeRunner(s).pcs, t, pc, n);
    forall u | n <= u ensures PcOf(At(WakeRunner(s), t, pc).pcs, u) == Idle {
      assert PcOf(WakeRunner(s).pcs, u) == PcOf(s.pcs, u);
    }
  }

  lemma WakeRaises(s: State, n: nat)
    requires Within(s.pcs, n)
    ensures Ranks(WakeRunner(s).pcs, n) <= Ranks(s.pcs, n) + 4
    ensures forall u | u != RUNNER :: PcOf(WakeRunner(s).pcs, u) == PcOf(s.pcs, u)
  {
    RanksSet(s.pcs, RUNNER, RunWait(true), n);
  }

  lemma EnergyFalls(s: State, sh: Shape, t: Tid, c: Choice, n: nat)
    requires Inv(s, sh) && Within(s.pcs, n) && !Blocked(s, t)
    ensures Energy(Step(s, t, c), NextShape(s, sh, t), n) < Energy(s, sh, n)
    ensures Within(Step(s, t, c).pcs, n)
  {
    assert t < n by { hide Inv; }
    StepKeeps(s, sh, t, c);
    assert !Step(s, t, c).fault by { hide ListOk, ControlOk; }
    hide Inv, Step, NextShape, Energy, Within;
    var pc := PcOf(s.pcs, t);
    if pc == Signalling || pc == StopSignal {
      SignalFalls(s, sh, t, c, n);
    } else {
      SomethingFalls(s, sh, t, c);
      FallsMeans(s, sh, t, Step(s, t, c), NextShape(s, sh, t), n);
    }
  }

  lemma SomethingFalls(s: State, sh: Shape, t: Tid, c: Choice)
    requires Inv(s, sh) && !Blocked(s, t) && !Step(s, t, c).fault
    requires PcOf(s.pcs, t) != Signalling && PcOf(s.pcs, t) != StopSignal
    ensures Falls(s, sh, t, Step(s, t, c), NextShape(s, sh, t))
  {
    hide Inv, Step, NextShape, Falls;
    var pc := PcOf(s.pcs, t);
    if pc.Allocated? || pc.Ready? || pc.Linking? {
      CallFalls(s, sh, t, c);
    } else if HasRight(pc) {
      RightFalls(s, sh, t, c);
    } else if pc == Unlocking || pc.Completed? || pc == StopLock || pc == StopUnlock || pc == Joining {
      RestFalls(s, sh, t, c);
    } else {
      RunnerFalls(s, sh, t, c);
    }
  }

  /** A continuation in which every step is one its thread could make. */
  ghost predicate Productive(s: State, more: seq<(Tid, Choice)>) {
    forall i | 0 <= i < |more| :: !Blocked(Run(s, more[..i]), more[i].0)
  }

  lemma {:induction false} ProductiveEnds(s: State, sh: Shape, n: nat, more: seq<(Tid, Choice)>) returns (sh': Shape)
    requires Inv(s, sh) && Within(s.pcs, n) && Productive(s, more)
    ensures Inv(Run(s, more), sh') && Within(Run(s, more).pcs, n)
    ensures Energy(Run(s, more), sh', n) + |more| <= Energy(s, sh, n)
    decreases |more|
  {
    hide Inv, Step, NextShape, Energy, Within, Blocked;
    if more == [] {
      sh' := sh;
    } else {
      var k := |more| - 1;
      var before := more[..k];
      assert Productive(s, before) by {
        forall i | 0 <= i < k ensures !Blocked(Run(s, before[..i]), before[i].0) {
          assert before[..i] == more[..i];
        }
      }
      var sh1 := ProductiveEnds(s, sh, n, before);
      var s1 := Run(s, before);
      sh' := NextShape(s1, sh1, more[k].0);
      StepKeeps(s1, sh1, more[k].0, more[k].1);
      EnergyFalls(s1, sh1, more[k].0, more[k].1, n);
    }
  }

  lemma EnergyBounds(s: State, sh: Shape, n: nat)
    requires Inv(s, sh)
    ensures 0 <= Energy(s, sh, n)
  {
    hide ControlOk, ChainOk, ContentsOk, OwnersOk, LinkersOk, LinkOk, Ranks;
  }

  lemma KeysBelow(keys: set<Tid>) returns (n: nat)
    ensures 0 < n && forall t | t in keys :: t < n
    decreases |keys|
  {
    if keys == {} {
      n := 1;
    } else {
      var k :| k in keys;
      var m := KeysBelow(keys - {k});
      n := m + k + 1;
      assert forall t | t in keys :: t == k || t in keys - {k};
    }
  }

  lemma KeysWithin(pcs: map<Tid, Pc>, n: nat)
    requires 0 < n && forall t | t in pcs.Keys :: t < n
    ensures Within(pcs, n)
  {
    forall t | n <= t ensures PcOf(pcs, t) == Idle {
      assert t !in pcs.Keys;
    }
  }

  /**
   * From every reachable state, letting threads that can move do so, without new calls, comes to
   * an end after a bounded number of steps; and there every exchanged request has been written,
   * every call has returned and every object is back in the pool.
   */
  lemma EverythingGetsWritten(schedule: seq<(Tid, Choice)>) returns (bound: nat)
    ensures forall more | Productive(Run(INITIAL, schedule), more) ::
              && |more| <= bound
              && var s := Run(Run(INITIAL, schedule), more);
                 Stuck(s) ==>
                   && s.written == s.exchanged
                   && s.live == map[]
                   && forall t | t != RUNNER :: PcOf(s.pcs, t) == Idle
  {
    hide Inv, Step, NextShape, Energy, Within, Blocked, Productive, Stuck;
    var sh := RunKeeps(schedule);
    var s0 := Run(INITIAL, schedule);
    var n := KeysBelow(s0.pcs.Keys);
    assert Within(s0.pcs, n) by { KeysWithin(s0.pcs, n); }
    EnergyBounds(s0, sh, n);
    bound := Energy(s0, sh, n);
    forall more | Productive(s0, more)
      ensures |more| <= bound
      ensures var s := Run(s0, more);
              Stuck(s) ==>
                && s.written == s.exchanged
                && s.live == map[]
                && forall t | t != RUNNER :: PcOf(s.pcs, t) == Idle
    {
      var sh' := ProductiveEnds(s0, sh, n, more);
      EnergyBounds(Run(s0, more), sh', n);
      if Stuck(Run(s0, more)) {
        StuckIsDone(Run(s0, more), sh');
      }
    }
  }
}
