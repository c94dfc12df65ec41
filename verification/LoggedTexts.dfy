/** Every text given to the logger is accounted for, in every interleaving. */
module LoggedTexts {
  import opened AsyncLogger

  /** A Log call that was taken: who called, and what was to be logged. */
  datatype Request = Request(t: Tid, text: string)

  /** The thread makes a Log call that is not over at once. */
  predicate Calling(s: State, t: Tid, c: Choice) {
    PcOf(s.pcs, t) == Idle && c.call.Log? && c.call.content != ""
  }

  /** Stop was called. */
  function StopCalled(schedule: seq<(Tid, Choice)>): bool {
    if schedule == [] then false
    else
      var before, t, c := schedule[..|schedule| - 1], schedule[|schedule| - 1].0, schedule[|schedule| - 1].1;
      StopCalled(before) || (PcOf(Run(INITIAL, before).pcs, t) == Idle && c.call == Stop)
  }

  /** A call is not queued when the queue is full, there is no object, or the logger was stopped. */
  predicate GoesDirect(before: seq<(Tid, Choice)>, c: Choice) {
    c.fallback || StopCalled(before)
  }

  /** The pool answers a call with an object nobody has. */
  predicate Answered(before: seq<(Tid, Choice)>, c: Choice) {
    GoesDirect(before, c) || c.obj !in Run(INITIAL, before).live
  }

  /** All texts that were to be logged, in the order of the calls. */
  function Asked(schedule: seq<(Tid, Choice)>): seq<string> {
    if schedule == [] then []
    else
      var before, t, c := schedule[..|schedule| - 1], schedule[|schedule| - 1].0, schedule[|schedule| - 1].1;
      if Calling(Run(INITIAL, before), t, c) && Answered(before, c) then Asked(before) + [c.call.content]
      else Asked(before)
  }

  /** Those written by their callers at once. */
  function AskedDirect(schedule: seq<(Tid, Choice)>): seq<string> {
    if schedule == [] then []
    else
      var before, t, c := schedule[..|schedule| - 1], schedule[|schedule| - 1].0, schedule[|schedule| - 1].1;
      if Calling(Run(INITIAL, before), t, c) && GoesDirect(before, c) then AskedDirect(before) + [c.call.content]
      else AskedDirect(before)
  }

  /** Those to be queued, and by whom. */
  function AskedQueued(schedule: seq<(Tid, Choice)>): seq<Request> {
    if schedule == [] then []
    else
      var before, t, c := schedule[..|schedule| - 1], schedule[|schedule| - 1].0, schedule[|schedule| - 1].1;
      if Calling(Run(INITIAL, before), t, c) && !GoesDirect(before, c) && Answered(before, c)
      then AskedQueued(before) + [Request(t, c.call.content)]
      else AskedQueued(before)
  }

  /** Who exchanged which text onto the list. */
  function Exchanges(schedule: seq<(Tid, Choice)>): seq<Request> {
    if schedule == [] then []
    else
      var before, t := schedule[..|schedule| - 1], schedule[|schedule| - 1].0;
      var pc := PcOf(Run(INITIAL, before).pcs, t);
      if pc.Ready? then Exchanges(before) + [Request(t, pc.text)] else Exchanges(before)
  }

  function TextsOf(rs: seq<Request>): seq<string> {
    seq(|rs|, i requires 0 <= i < |rs| => rs[i].text)
  }

  /** The texts of one thread's requests. */
  function By(rs: seq<Request>, t: Tid): seq<string> {
    if rs == [] then []
    else
      var last := rs[|rs| - 1];
      if last.t == t then By(rs[..|rs| - 1], t) + [last.text] else By(rs[..|rs| - 1], t)
  }

  /** What a thread was asked to log and has not exchanged yet. */
  function Pending(pc: Pc): seq<string> {
    match pc
    case Allocated(_, text) => [text]
    case Ready(_, text) => [text]
    case _ => []
  }

  function Held(pcs: map<Tid, Pc>, n: nat): multiset<string> {
    if n == 0 then multiset{} else Held(pcs, n - 1) + multiset(Pending(PcOf(pcs, n - 1)))
  }

  /** Nothing is called, exchanged or written directly, and an ended runner stays so. */
  ghost predicate Quiet(s: State, s': State) {
    && s'.exchanged == s.exchanged && s'.direct == s.direct && s'.stop == s.stop
    && (forall u :: Pending(PcOf(s'.pcs, u)) == Pending(PcOf(s.pcs, u)))
    && (PcOf(s.pcs, RUNNER) == Exited ==> PcOf(s'.pcs, RUNNER) == Exited)
  }

  lemma QuietAt(s: State, t: Tid, pc: Pc)
    requires Pending(pc) == Pending(PcOf(s.pcs, t)) && PcOf(s.pcs, t) != Exited
    ensures Quiet(s, At(s, t, pc))
  {
  }

  lemma QuietSame(s: State, s': State)
    requires s'.exchanged == s.exchanged && s'.direct == s.direct && s'.stop == s.stop && s'.pcs == s.pcs
    ensures Quiet(s, s')
  {
  }

  lemma QuietTwice(s: State, s1: State, s2: State)
    requires Quiet(s, s1) && Quiet(s1, s2)
    ensures Quiet(s, s2)
  {
  }

  lemma QuietWake(s: State)
    ensures Quiet(s, WakeRunner(s))
  {
  }

  lemma QuietThen(s: State, s1: State, t: Tid, pc: Pc)
    requires s1.exchanged == s.exchanged && s1.direct == s.direct && s1.stop == s.stop && s1.pcs == s.pcs
    requires Pending(pc) == Pending(PcOf(s.pcs, t)) && PcOf(s.pcs, t) != Exited
    ensures Quiet(s, At(s1, t, pc))
  {
  }

  lemma QuietLog(s: State, t: Tid, c: Choice)
    requires !PcOf(s.pcs, t).Ready?
    ensures Quiet(s, StepLog(s, t, c))
  {
    hide Quiet;
    match PcOf(s.pcs, t)
    case Allocated(o, text) => QuietThen(s, SetNext(s, o, Unconnected), t, Ready(o, text));
    case Linking(o, prev) => QuietThen(s, SetNext(s, o, To(prev)), t, Idle);
    case Won(o) => QuietThen(s, SetNext(s, o, Null), t, Deciding(o));
    case Deciding(o) => QuietAt(s, t, if c.background then WantLock(o) else SyncLog(o));
    case SyncLog(o) => QuietThen(s, DoLog(s, o), t, Cas(o, SyncFirst));
    case Ready(_, _) => assert false;
    case _ => QuietLogLocked(s, t, c);
  }

  lemma QuietLogLocked(s: State, t: Tid, c: Choice)
    requires var pc := PcOf(s.pcs, t); !pc.Allocated? && !pc.Ready? && !pc.Linking? && !pc.Won? && !pc.SyncLog?
    requires !PcOf(s.pcs, t).Deciding?
    ensures Quiet(s, StepLog(s, t, c))
  {
    hide Quiet, WakeRunner;
    match PcOf(s.pcs, t)
    case WantLock(o) => QuietLock(s, t, Holding(o));
    case Holding(o) => QuietAt(s, t, if s.stop then TaskTop(o, Drain) else Handoff(o));
    case Handoff(o) =>
      QuietThen(s, s.(current := To(o)), t, Signalling);
      QuietSame(s, Fault(s));
    case Signalling => QuietSignal(s, t, Unlocking);
    case Unlocking => QuietThen(s, s.(mutex := Free), t, Idle);
    case _ => QuietSame(s, s);
  }

  lemma QuietSignal(s: State, t: Tid, pc: Pc)
    requires PcOf(s.pcs, t) == Signalling || PcOf(s.pcs, t) == StopSignal
    requires Pending(pc) == []
    ensures Quiet(s, At(WakeRunner(s), t, pc))
  {
    hide Quiet;
    QuietWake(s);
    QuietAt(WakeRunner(s), t, pc);
    QuietTwice(s, WakeRunner(s), At(WakeRunner(s), t, pc));
  }

  lemma QuietLock(s: State, t: Tid, pc: Pc)
    requires Pending(pc) == Pending(PcOf(s.pcs, t)) && PcOf(s.pcs, t) != Exited
    ensures Quiet(s, Lock(s, t, pc))
  {
    hide Quiet;
    QuietSame(s, s);
    QuietThen(s, s.(mutex := LockedBy(t)), t, pc);
  }

  lemma QuietComplete(s: State, t: Tid)
    ensures Quiet(s, StepComplete(s, t))
  {
    hide Quiet;
    QuietSame(s, Fault(s));
    QuietSame(s, s);
    match PcOf(s.pcs, t)
    case Cas(o, k) =>
      QuietThen(s, s.(head := Null), t, Completed(o, k));
      if s.head.To? {
        QuietAt(s, t, Reversing(o, s.head.obj, Null, k));
      }
    case Reversing(o, p, tail, k) =>
      if p in s.live && s.live[p].next.To? {
        var next := s.live[p].next;
        QuietThen(s, SetNext(s, p, tail), t,
                  if next.obj == o then Splice(o, To(p), k) else Reversing(o, next.obj, To(p), k));
      }
    case Splice(o, tail, k) =>
      QuietThen(s, SetNext(s, o, tail), t, if k == SyncFirst then WantLock(o) else TaskTop(o, k));
    case Completed(o, k) =>
      QuietThen(s, Return(s, o), t, Idle);
      QuietThen(s, Return(s, o), t, Unlocking);
      QuietThen(s, Return(s, o), t, RunClear);
    case _ =>
  }

  lemma QuietTask(s: State, t: Tid)
    ensures Quiet(s, StepTask(s, t))
  {
    hide Quiet;
    QuietSame(s, Fault(s));
    QuietSame(s, s);
    match PcOf(s.pcs, t)
    case TaskTop(o, k) =>
      QuietAt(s, t, TaskWalk(o, k));
      if o in s.live && s.live[o].next.To? {
        QuietThen(s, Return(s, o), t, TaskWalk(s.live[o].next.obj, k));
      }
    case TaskWalk(o, k) =>
      QuietAt(s, t, TaskLast(o, k));
      if o in s.live && s.live[o].next.To? {
        QuietThen(s, Return(DoLog(s, o), o), t, TaskWalk(s.live[o].next.obj, k));
      }
    case TaskLast(o, k) => QuietThen(s, DoLog(s, o), t, Cas(o, k));
    case _ =>
  }

  lemma QuietStop(s: State, t: Tid)
    ensures Quiet(s, StepStop(s, t))
  {
    hide Quiet, WakeRunner;
    QuietSame(s, s);
    match PcOf(s.pcs, t)
    case StopLock => QuietLock(s, t, StopSignal);
    case StopSignal => QuietSignal(s, t, StopUnlock);
    case StopUnlock => QuietThen(s, s.(mutex := Free), t, Joining);
    case Joining => QuietAt(s, t, Idle);
    case _ =>
  }

  lemma QuietRun(s: State, t: Tid, c: Choice)
    ensures Quiet(s, StepRun(s, t, c))
  {
    hide Quiet;
    QuietSame(s, s);
    QuietSame(s, Fault(s));
    match PcOf(s.pcs, t)
    case RunLock => QuietLock(s, t, RunTest);
    case RunTest =>
      QuietThen(s, s.(mutex := Free), t, RunWait(false));
      QuietAt(s, t, RunTest2);
    case RunWait(signalled) => QuietLock(s, t, RunTest);
    case RunTest2 =>
      QuietAt(s, t, RunBreak);
      if s.current.To? {
        QuietAt(s, t, TaskTop(s.current.obj, RunLoop));
      }
    case RunClear => QuietThen(s, s.(current := Null), t, RunUnlock);
    case RunUnlock => QuietThen(s, s.(mutex := Free), t, RunLock);
    case RunBreak => QuietThen(s, s.(mutex := Free), t, Exited);
    case _ =>
  }

  /** All steps but calls and exchanges are quiet. */
  lemma OthersQuiet(s: State, t: Tid, c: Choice)
    requires PcOf(s.pcs, t) != Idle && !PcOf(s.pcs, t).Ready?
    ensures Quiet(s, Step(s, t, c))
  {
    hide Quiet, StepLog, StepComplete, StepTask, StepStop, StepRun;
    QuietLog(s, t, c);
    QuietComplete(s, t);
    QuietTask(s, t);
    QuietStop(s, t);
    QuietRun(s, t, c);
  }

  /** What a call and an exchange add, and what the thread has pending afterwards; nobody else's changes. */
  lemma CallAdds(s: State, t: Tid, c: Choice)
    requires PcOf(s.pcs, t) == Idle
    ensures var s' := Step(s, t, c);
            var taken := Calling(s, t, c) && !c.fallback && !s.stop && c.obj !in s.live;
            && s'.exchanged == s.exchanged
            && s'.direct == s.direct + (if Calling(s, t, c) && (c.fallback || s.stop) then [c.call.content] else [])
            && (s'.stop <==> s.stop || c.call == Stop)
            && Pending(PcOf(s'.pcs, t)) == (if taken then [c.call.content] else [])
            && forall u | u != t :: PcOf(s'.pcs, u) == PcOf(s.pcs, u)
  {
  }

  lemma ExchangeAdds(s: State, sh: Shape, t: Tid, c: Choice)
    requires Inv(s, sh) && PcOf(s.pcs, t).Ready?
    ensures var s' := Step(s, t, c);
            && s'.exchanged == s.exchanged + [PcOf(s.pcs, t).text]
            && s'.direct == s.direct && s'.stop == s.stop
            && Pending(PcOf(s'.pcs, t)) == []
            && forall u | u != t :: PcOf(s'.pcs, u) == PcOf(s.pcs, u)
  {
    hide Inv;
    OwnersText(s, sh, t);
  }

  /** The logger is stopped exactly when somebody called Stop. */
  lemma {:induction false} StopExact(schedule: seq<(Tid, Choice)>)
    ensures Run(INITIAL, schedule).stop <==> StopCalled(schedule)
  {
    hide Step, Inv;
    if schedule != [] {
      var before, t, c := schedule[..|schedule| - 1], schedule[|schedule| - 1].0, schedule[|schedule| - 1].1;
      var s := Run(INITIAL, before);
      StopExact(before);
      if PcOf(s.pcs, t) == Idle {
        CallAdds(s, t, c);
      } else if PcOf(s.pcs, t).Ready? {
        var sh := RunKeeps(before);
        ExchangeAdds(s, sh, t, c);
      } else {
        OthersQuiet(s, t, c);
      }
    }
  }

  /** What callers wrote themselves is exactly what was to go directly, in that order. */
  lemma {:induction false} DirectExact(schedule: seq<(Tid, Choice)>)
    ensures Run(INITIAL, schedule).direct == AskedDirect(schedule)
  {
    hide Step, Inv;
    if schedule != [] {
      var before, t, c := schedule[..|schedule| - 1], schedule[|schedule| - 1].0, schedule[|schedule| - 1].1;
      var s := Run(INITIAL, before);
      DirectExact(before);
      StopExact(before);
      if PcOf(s.pcs, t) == Idle {
        CallAdds(s, t, c);
      } else if PcOf(s.pcs, t).Ready? {
        var sh := RunKeeps(before);
        ExchangeAdds(s, sh, t, c);
      } else {
        OthersQuiet(s, t, c);
      }
    }
  }

  lemma TextsSnoc(rs: seq<Request>, r: Request)
    ensures TextsOf(rs + [r]) == TextsOf(rs) + [r.text]
  {
  }

  lemma BySnoc(rs: seq<Request>, r: Request, t: Tid)
    ensures By(rs + [r], t) == if r.t == t then By(rs, t) + [r.text] else By(rs, t)
  {
    assert (rs + [r])[..|rs|] == rs;
  }

  /** The order of the list is the order of the exchanges. */
  lemma {:induction false} ExchangesExact(schedule: seq<(Tid, Choice)>)
    ensures Run(INITIAL, schedule).exchanged == TextsOf(Exchanges(schedule))
  {
    hide Step, Inv, TextsOf;
    if schedule == [] {
      NoTexts();
    } else {
      var before, t, c := schedule[..|schedule| - 1], schedule[|schedule| - 1].0, schedule[|schedule| - 1].1;
      var s := Run(INITIAL, before);
      ExchangesExact(before);
      if PcOf(s.pcs, t) == Idle {
        CallAdds(s, t, c);
      } else if PcOf(s.pcs, t).Ready? {
        var sh := RunKeeps(before);
        ExchangeAdds(s, sh, t, c);
        TextsSnoc(Exchanges(before), Request(t, PcOf(s.pcs, t).text));
      } else {
        OthersQuiet(s, t, c);
      }
    }
  }

  lemma NoTexts()
    ensures TextsOf([]) == []
  {
  }

  /**
   * Each thread's texts are exchanged whole and in the order of its calls; at most one, that of the
   * call it is in, is still to come.
   */
  lemma {:induction false} ProgramOrder(schedule: seq<(Tid, Choice)>, u: Tid)
    ensures By(AskedQueued(schedule), u)
         == By(Exchanges(schedule), u) + Pending(PcOf(Run(INITIAL, schedule).pcs, u))
  {
    hide Step, Inv, By, Pending;
    if schedule == [] {
      NothingYet(u);
    } else {
      var before, t, c := schedule[..|schedule| - 1], schedule[|schedule| - 1].0, schedule[|schedule| - 1].1;
      var s := Run(INITIAL, before);
      ProgramOrder(before, u);
      StopExact(before);
      if PcOf(s.pcs, t) == Idle {
        CallAdds(s, t, c);
        IdlePends();
        if Calling(s, t, c) {
          BySnoc(AskedQueued(before), Request(t, c.call.content), u);
        }
      } else if PcOf(s.pcs, t).Ready? {
        var sh := RunKeeps(before);
        ExchangeAdds(s, sh, t, c);
        ReadyPends(PcOf(s.pcs, t));
        BySnoc(Exchanges(before), Request(t, PcOf(s.pcs, t).text), u);
      } else {
        OthersQuiet(s, t, c);
      }
    }
  }

  lemma NothingYet(u: Tid)
    ensures By([], u) == [] && Pending(PcOf(INITIAL.pcs, u)) == []
  {
  }

  lemma IdlePends()
    ensures Pending(Idle) == []
  {
  }

  lemma ReadyPends(pc: Pc)
    requires pc.Ready?
    ensures Pending(pc) == [pc.text]
  {
  }

  lemma {:induction false} HeldSame(pcs: map<Tid, Pc>, pcs': map<Tid, Pc>, n: nat)
    requires forall u: Tid | u < n :: Pending(PcOf(pcs', u)) == Pending(PcOf(pcs, u))
    ensures Held(pcs', n) == Held(pcs, n)
  {
    if n > 0 {
      HeldSame(pcs, pcs', n - 1);
    }
  }

  lemma {:induction false} HeldSet(pcs: map<Tid, Pc>, pcs': map<Tid, Pc>, t: Tid, n: nat)
    requires t < n && forall u | u != t :: Pending(PcOf(pcs', u)) == Pending(PcOf(pcs, u))
    ensures Held(pcs', n) + multiset(Pending(PcOf(pcs, t))) == Held(pcs, n) + multiset(Pending(PcOf(pcs', t)))
  {
    hide Pending, PcOf, Held;
    HeldNext(pcs, n);
    HeldNext(pcs', n);
    if t < n - 1 {
      HeldSet(pcs, pcs', t, n - 1);
      assert Pending(PcOf(pcs', n - 1)) == Pending(PcOf(pcs, n - 1));
      Exchanged(Held(pcs, n - 1), Held(pcs', n - 1), multiset(Pending(PcOf(pcs, t))), multiset(Pending(PcOf(pcs', t))),
                multiset(Pending(PcOf(pcs, n - 1))));
    } else {
      HeldSame(pcs, pcs', n - 1);
    }
  }

  lemma HeldNext(pcs: map<Tid, Pc>, n: nat)
    requires n > 0
    ensures Held(pcs, n) == Held(pcs, n - 1) + multiset(Pending(PcOf(pcs, n - 1)))
  {
  }

  lemma Exchanged(a: multiset<string>, a': multiset<string>, x: multiset<string>, x': multiset<string>,
                  m: multiset<string>)
    requires a' + x == a + x'
    ensures a' + m + x == a + m + x'
  {
    assert a' + m + x == a' + x + m;
  }

  /** The schedule's threads are numbered below n. */
  predicate Threads(schedule: seq<(Tid, Choice)>, n: nat) {
    forall i | 0 <= i < |schedule| :: schedule[i].0 < n
  }

  /** What was asked for is what was exchanged, written directly, or is held by a thread below n. */
  ghost predicate Balanced(asked: seq<string>, s: State, n: nat) {
    multiset(asked) == multiset(s.exchanged) + multiset(s.direct) + Held(s.pcs, n)
  }

  lemma BalanceDirect(asked: seq<string>, s: State, s': State, n: nat, x: string)
    requires Balanced(asked, s, n)
    requires s'.exchanged == s.exchanged && s'.direct == s.direct + [x] && Held(s'.pcs, n) == Held(s.pcs, n)
    ensures Balanced(asked + [x], s', n)
  {
    hide Held;
  }

  lemma BalanceHeld(asked: seq<string>, s: State, s': State, n: nat, x: string)
    requires Balanced(asked, s, n)
    requires s'.exchanged == s.exchanged && s'.direct == s.direct
    requires Held(s'.pcs, n) == Held(s.pcs, n) + multiset([x])
    ensures Balanced(asked + [x], s', n)
  {
    hide Held;
    assert multiset([x]) == multiset{x};
  }

  lemma BalanceExchange(asked: seq<string>, s: State, s': State, n: nat, x: string)
    requires Balanced(asked, s, n)
    requires s'.exchanged == s.exchanged + [x] && s'.direct == s.direct
    requires Held(s.pcs, n) == Held(s'.pcs, n) + multiset([x])
    ensures Balanced(asked, s', n)
  {
    hide Held;
    assert multiset([x]) == multiset{x};
  }

  lemma BalanceSame(asked: seq<string>, s: State, s': State, n: nat)
    requires Balanced(asked, s, n)
    requires s'.exchanged == s.exchanged && s'.direct == s.direct && Held(s'.pcs, n) == Held(s.pcs, n)
    ensures Balanced(asked, s', n)
  {
  }

  lemma CallBalances(before: seq<(Tid, Choice)>, t: Tid, c: Choice, n: nat)
    requires var s := Run(INITIAL, before); Balanced(Asked(before), s, n) && PcOf(s.pcs, t) == Idle
    requires t < n
    ensures Balanced(Asked(before + [(t, c)]), Step(Run(INITIAL, before), t, c), n)
  {
    hide Run, Step, StopCalled, Pending, Held, Balanced;
    var s := Run(INITIAL, before);
    var s' := Step(s, t, c);
    assert (before + [(t, c)])[..|before|] == before;
    StopExact(before);
    CallAdds(s, t, c);
    IdlePends();
    HeldAfter(s.pcs, s'.pcs, t, n);
    if Calling(s, t, c) && GoesDirect(before, c) {
      BalanceDirect(Asked(before), s, s', n, c.call.content);
    } else if Calling(s, t, c) && c.obj !in s.live {
      BalanceHeld(Asked(before), s, s', n, c.call.content);
    } else {
      BalanceSame(Asked(before), s, s', n);
    }
  }

  /** A thread that had nothing pending adds what it has now. */
  lemma HeldAfter(pcs: map<Tid, Pc>, pcs': map<Tid, Pc>, t: Tid, n: nat)
    requires t < n && forall u | u != t :: PcOf(pcs', u) == PcOf(pcs, u)
    requires Pending(PcOf(pcs, t)) == []
    ensures Held(pcs', n) == Held(pcs, n) + multiset(Pending(PcOf(pcs', t)))
  {
    hide Pending, PcOf, Held;
    HeldSet(pcs, pcs', t, n);
  }

  lemma ExchangeBalances(asked: seq<string>, s: State, sh: Shape, t: Tid, c: Choice, n: nat)
    requires Balanced(asked, s, n) && Inv(s, sh) && PcOf(s.pcs, t).Ready? && t < n
    ensures Balanced(asked, Step(s, t, c), n)
  {
    hide Step, Inv, Pending, Held, Balanced;
    var s' := Step(s, t, c);
    ExchangeAdds(s, sh, t, c);
    ReadyPends(PcOf(s.pcs, t));
    HeldAfter(s'.pcs, s.pcs, t, n);
    BalanceExchange(asked, s, s', n, PcOf(s.pcs, t).text);
  }

  lemma QuietBalances(asked: seq<string>, s: State, s': State, n: nat)
    requires Balanced(asked, s, n) && Quiet(s, s')
    ensures Balanced(asked, s', n)
  {
    hide Pending;
    HeldSame(s.pcs, s'.pcs, n);
  }

  lemma StartBalanced(n: nat)
    ensures Balanced([], INITIAL, n)
  {
    forall u: Tid ensures Pending(PcOf(INITIAL.pcs, u)) == [] {
      NothingYet(u);
    }
    hide Pending, PcOf, Held;
    NothingHeld(INITIAL.pcs, n);
  }

  /**
   * No text is lost, made up, changed or logged twice: in every run, what was to be logged is what
   * was exchanged, what was written directly and what is still held by calls on their way.
   */
  lemma {:induction false} Conserved(schedule: seq<(Tid, Choice)>, n: nat)
    requires Threads(schedule, n)
    ensures var s := Run(INITIAL, schedule);
            multiset(Asked(schedule)) == multiset(s.exchanged) + multiset(s.direct) + Held(s.pcs, n)
  {
    Balances(schedule, n);
  }

  lemma {:induction false} Balances(schedule: seq<(Tid, Choice)>, n: nat)
    requires Threads(schedule, n)
    ensures Balanced(Asked(schedule), Run(INITIAL, schedule), n)
  {
    hide Step, Inv, Balanced, Quiet;
    if schedule == [] {
      StartBalanced(n);
    } else {
      var before, t, c := schedule[..|schedule| - 1], schedule[|schedule| - 1].0, schedule[|schedule| - 1].1;
      var s := Run(INITIAL, before);
      Balances(before, n);
      assert schedule == before + [(t, c)];
      if PcOf(s.pcs, t) == Idle {
        CallBalances(before, t, c, n);
      } else if PcOf(s.pcs, t).Ready? {
        var sh := RunKeeps(before);
        ExchangeBalances(Asked(before), s, sh, t, c, n);
      } else {
        OthersQuiet(s, t, c);
        QuietBalances(Asked(before), s, Step(s, t, c), n);
      }
    }
  }

  lemma {:induction false} NothingHeld(pcs: map<Tid, Pc>, n: nat)
    requires forall u: Tid | u < n :: Pending(PcOf(pcs, u)) == []
    ensures Held(pcs, n) == multiset{}
  {
    if n > 0 {
      NothingHeld(pcs, n - 1);
    }
  }

  lemma {:induction false} SomeBound(schedule: seq<(Tid, Choice)>) returns (n: nat)
    ensures Threads(schedule, n)
  {
    if schedule == [] {
      n := 0;
    } else {
      var m := SomeBound(schedule[..|schedule| - 1]);
      n := m + schedule[|schedule| - 1].0 + 1;
    }
  }

  /**
   * When no thread can move, every text there was a call for has been written, by the writers of the
   * list or by its caller: no more, no fewer, and each thread's own in the order of its calls.
   */
  lemma EveryCallWritten(schedule: seq<(Tid, Choice)>)
    requires Stuck(Run(INITIAL, schedule))
    ensures var s := Run(INITIAL, schedule);
            && multiset(s.written) + multiset(s.direct) == multiset(Asked(schedule))
            && s.direct == AskedDirect(schedule)
            && s.written == TextsOf(Exchanges(schedule))
            && forall t :: By(Exchanges(schedule), t) == By(AskedQueued(schedule), t)
  {
    hide Inv, Run, Stuck, TextsOf, By, Asked, AskedDirect, AskedQueued, Exchanges;
    var s := Run(INITIAL, schedule);
    var sh := RunKeeps(schedule);
    StuckIsDone(s, sh);
    var n := SomeBound(schedule);
    Conserved(schedule, n);
    NothingHeld(s.pcs, n);
    DirectExact(schedule);
    ExchangesExact(schedule);
    forall t ensures By(Exchanges(schedule), t) == By(AskedQueued(schedule), t) {
      ProgramOrder(schedule, t);
    }
  }

  // ---- stopping

  /** A Stop call has returned. */
  function Joined(schedule: seq<(Tid, Choice)>): bool {
    if schedule == [] then false
    else
      var before, t := schedule[..|schedule| - 1], schedule[|schedule| - 1].0;
      Joined(before)
      || (PcOf(Run(INITIAL, before).pcs, t) == Joining && PcOf(Run(INITIAL, schedule).pcs, t) == Idle)
  }

  lemma JoinReturns(s: State, t: Tid, c: Choice)
    requires PcOf(s.pcs, t) == Joining && PcOf(Step(s, t, c).pcs, t) == Idle
    ensures PcOf(s.pcs, RUNNER) == Exited
  {
  }

  lemma JoinerStopped(s: State, sh: Shape, t: Tid)
    requires Inv(s, sh) && PcOf(s.pcs, t) == Joining
    ensures s.stop
  {
    hide ListOk, RightOk, MutexOk, HandoverOk;
    assert Stopping(PcOf(s.pcs, t));
  }

  /** Stop returns only when it was called and the runner has ended, for good. */
  lemma {:induction false} StopReturns(schedule: seq<(Tid, Choice)>)
    requires Joined(schedule)
    ensures PcOf(Run(INITIAL, schedule).pcs, RUNNER) == Exited && StopCalled(schedule)
  {
    hide Step, Inv;
    var before, t, c := schedule[..|schedule| - 1], schedule[|schedule| - 1].0, schedule[|schedule| - 1].1;
    var s := Run(INITIAL, before);
    var sh := RunKeeps(before);
    if Joined(before) {
      StopReturns(before);
    } else {
      JoinReturns(s, t, c);
      JoinerStopped(s, sh, t);
      StopExact(before);
    }
    if PcOf(s.pcs, t) == Idle {
      CallAdds(s, t, c);
    } else if PcOf(s.pcs, t).Ready? {
      ExchangeAdds(s, sh, t, c);
    } else {
      OthersQuiet(s, t, c);
    }
  }

  // ---- who writes

  /** Inside the first, synchronous write of the thread that won the right to write. */
  predicate Sync(pc: Pc) {
    match pc
    case SyncLog(_) => true
    case Cas(_, k) => k == SyncFirst
    case Reversing(_, _, _, k) => k == SyncFirst
    case Splice(_, _, k) => k == SyncFirst
    case Completed(_, k) => k == SyncFirst
    case _ => false
  }

  lemma LogWrites(s: State, t: Tid, c: Choice)
    requires !PcOf(s.pcs, t).SyncLog?
    ensures StepLog(s, t, c).written == s.written
  {
  }

  lemma TaskWrites(s: State, t: Tid)
    requires !PcOf(s.pcs, t).TaskWalk? && !PcOf(s.pcs, t).TaskLast?
    ensures StepTask(s, t).written == s.written
  {
  }

  lemma CallsWrite(s: State, t: Tid, c: Choice)
    ensures StepIdle(s, t, c).written == s.written
  {
  }

  lemma CompletesWrite(s: State, t: Tid)
    ensures StepComplete(s, t).written == s.written
  {
  }

  lemma StopsWrite(s: State, t: Tid)
    ensures StepStop(s, t).written == s.written
  {
  }

  lemma RunnerWrites(s: State, t: Tid, c: Choice)
    ensures StepRun(s, t, c).written == s.written
  {
  }

  /** Only a thread at a writing point adds to the file. */
  lemma WritersOnly(s: State, t: Tid, c: Choice)
    requires Step(s, t, c).written != s.written
    ensures var pc := PcOf(s.pcs, t); pc.SyncLog? || pc.TaskWalk? || pc.TaskLast?
  {
    hide StepIdle, StepLog, StepComplete, StepTask, StepStop, StepRun;
    var pc := PcOf(s.pcs, t);
    CallsWrite(s, t, c);
    CompletesWrite(s, t);
    StopsWrite(s, t);
    RunnerWrites(s, t, c);
    if !pc.SyncLog? && !pc.TaskWalk? && !pc.TaskLast? {
      LogWrites(s, t, c);
      TaskWrites(s, t);
      assert false;
    }
  }

  /** So whoever writes holds the lock, or is in its first write. */
  lemma WritesLocked(schedule: seq<(Tid, Choice)>, t: Tid, c: Choice)
    requires var s := Run(INITIAL, schedule); Step(s, t, c).written != s.written
    ensures var s := Run(INITIAL, schedule); s.mutex == LockedBy(t) || PcOf(s.pcs, t).SyncLog?
  {
    hide Run, Step;
    var s := Run(INITIAL, schedule);
    var sh := RunKeeps(schedule);
    WritersOnly(s, t, c);
    StopIsKnown(s, sh, t);
  }

  /** Writing the list in the caller's own thread, the logger being stopped. */
  predicate Draining(pc: Pc) {
    match pc
    case TaskTop(_, k) => k == Drain
    case TaskWalk(_, k) => k == Drain
    case TaskLast(_, k) => k == Drain
    case Cas(_, k) => k == Drain
    case Reversing(_, _, _, k) => k == Drain
    case Splice(_, _, k) => k == Drain
    case Completed(_, k) => k == Drain
    case _ => false
  }

  /** From here to there a thread comes into its first write, or starts draining. */
  predicate Comes(pc: Pc, pc': Pc) {
    ThenOk(pc) && ((Sync(pc') && !Sync(pc)) || (Draining(pc') && !Draining(pc)))
  }

  predicate Enters(s: State, s': State, u: Tid) {
    Comes(PcOf(s.pcs, u), PcOf(s'.pcs, u))
  }

  lemma EntersAt(s: State, s1: State, t: Tid, pc: Pc, u: Tid)
    requires s1.pcs == s.pcs
    ensures Enters(s, At(s1, t, pc), u) ==> u == t && Comes(PcOf(s.pcs, t), pc)
    ensures !Enters(s, s1, u)
  {
  }

  lemma WakeEnters(s: State, t: Tid, pc: Pc, u: Tid)
    requires !Sync(pc) && !Draining(pc)
    ensures !Enters(s, At(WakeRunner(s), t, pc), u)
  {
  }

  lemma LockEnters(s: State, t: Tid, pc: Pc, u: Tid)
    requires !Sync(pc) && !Draining(pc)
    ensures !Enters(s, Lock(s, t, pc), u)
  {
    hide Enters;
    EntersAt(s, s.(mutex := LockedBy(t)), t, pc, u);
    EntersAt(s, s, t, pc, u);
  }

  lemma SyncFromIdle(s: State, t: Tid, c: Choice, u: Tid)
    requires PcOf(s.pcs, t) == Idle
    ensures !Enters(s, StepIdle(s, t, c), u)
  {
    hide Enters;
    EntersAt(s, s, t, Idle, u);
    match c.call
    case NoCall =>
    case Log(content) =>
      EntersAt(s, s.(live := s.live[c.obj := Node(c.stale, content)]), t, Allocated(c.obj, content), u);
      EntersAt(s, s.(direct := s.direct + [content]), t, Idle, u);
    case Stop =>
      EntersAt(s, s.(stop := true), t, Joining, u);
      EntersAt(s, s.(stop := true), t, StopLock, u);
  }

  lemma SyncFromReady(s: State, t: Tid, o: Obj, u: Tid)
    ensures !Enters(s, StepReady(s, t, o), u)
  {
    hide Enters;
    EntersAt(s, Fault(s), t, Idle, u);
    if o in s.live {
      var s1 := s.(head := To(o), exchanged := s.exchanged + [s.live[o].content]);
      EntersAt(s, s1, t, if s.head.To? then Linking(o, s.head.obj) else Won(o), u);
    }
  }

  lemma SyncFromLog(s: State, t: Tid, c: Choice, u: Tid)
    requires Enters(s, StepLog(s, t, c), u)
    ensures u == t && if Draining(PcOf(StepLog(s, t, c).pcs, t)) then s.stop else !c.background
  {
    hide Enters, StepReady;
    match PcOf(s.pcs, t)
    case Allocated(o, text) => EntersAt(s, SetNext(s, o, Unconnected), t, Ready(o, text), u);
    case Ready(o, _) => SyncFromReady(s, t, o, u);
    case Linking(o, prev) => EntersAt(s, SetNext(s, o, To(prev)), t, Idle, u);
    case Won(o) => EntersAt(s, SetNext(s, o, Null), t, Deciding(o), u);
    case Deciding(o) => EntersAt(s, s, t, if c.background then WantLock(o) else SyncLog(o), u);
    case SyncLog(o) => EntersAt(s, DoLog(s, o), t, Cas(o, SyncFirst), u);
    case _ => SyncFromLocked(s, t, c, u);
  }

  lemma SyncFromLocked(s: State, t: Tid, c: Choice, u: Tid)
    requires var pc := PcOf(s.pcs, t); !pc.Allocated? && !pc.Ready? && !pc.Linking? && !pc.Won? && !pc.SyncLog?
    requires !PcOf(s.pcs, t).Deciding?
    ensures Enters(s, StepLog(s, t, c), u) ==> u == t && s.stop && Draining(PcOf(StepLog(s, t, c).pcs, t))
  {
    hide Enters, WakeRunner, Lock;
    match PcOf(s.pcs, t)
    case WantLock(o) => LockEnters(s, t, Holding(o), u);
    case Holding(o) => EntersAt(s, s, t, if s.stop then TaskTop(o, Drain) else Handoff(o), u);
    case Handoff(o) =>
      EntersAt(s, s.(current := To(o)), t, Signalling, u);
      EntersAt(s, Fault(s), t, Idle, u);
    case Signalling => WakeEnters(s, t, Unlocking, u);
    case Unlocking => EntersAt(s, s.(mutex := Free), t, Idle, u);
    case _ => EntersAt(s, s, t, Idle, u);
  }

  lemma SyncFromComplete(s: State, t: Tid, u: Tid)
    ensures !Enters(s, StepComplete(s, t), u)
  {
    hide Enters;
    EntersAt(s, s, t, Idle, u);
    EntersAt(s, Fault(s), t, Idle, u);
    match PcOf(s.pcs, t)
    case Cas(o, k) =>
      EntersAt(s, s.(head := Null), t, Completed(o, k), u);
      if s.head.To? {
        EntersAt(s, s, t, Reversing(o, s.head.obj, Null, k), u);
      }
    case Reversing(o, p, tail, k) =>
      if p in s.live && s.live[p].next.To? {
        var next := s.live[p].next;
        EntersAt(s, SetNext(s, p, tail), t,
                 if next.obj == o then Splice(o, To(p), k) else Reversing(o, next.obj, To(p), k), u);
      }
    case Splice(o, tail, k) =>
      EntersAt(s, SetNext(s, o, tail), t, if k == SyncFirst then WantLock(o) else TaskTop(o, k), u);
    case Completed(o, k) =>
      EntersAt(s, Return(s, o), t, Idle, u);
      EntersAt(s, Return(s, o), t, Unlocking, u);
      EntersAt(s, Return(s, o), t, RunClear, u);
    case _ =>
  }

  lemma SyncFromTask(s: State, t: Tid, u: Tid)
    ensures !Enters(s, StepTask(s, t), u)
  {
    hide Enters;
    EntersAt(s, s, t, Idle, u);
    EntersAt(s, Fault(s), t, Idle, u);
    match PcOf(s.pcs, t)
    case TaskTop(o, k) =>
      EntersAt(s, s, t, TaskWalk(o, k), u);
      if o in s.live && s.live[o].next.To? {
        EntersAt(s, Return(s, o), t, TaskWalk(s.live[o].next.obj, k), u);
      }
    case TaskWalk(o, k) =>
      EntersAt(s, s, t, TaskLast(o, k), u);
      if o in s.live && s.live[o].next.To? {
        EntersAt(s, Return(DoLog(s, o), o), t, TaskWalk(s.live[o].next.obj, k), u);
      }
    case TaskLast(o, k) => EntersAt(s, DoLog(s, o), t, Cas(o, k), u);
    case _ =>
  }

  lemma SyncFromStop(s: State, t: Tid, u: Tid)
    ensures !Enters(s, StepStop(s, t), u)
  {
    hide Enters, WakeRunner, Lock;
    EntersAt(s, s, t, Idle, u);
    LockEnters(s, t, StopSignal, u);
    WakeEnters(s, t, StopUnlock, u);
    EntersAt(s, s.(mutex := Free), t, Joining, u);
  }

  lemma SyncFromRun(s: State, t: Tid, c: Choice, u: Tid)
    ensures !Enters(s, StepRun(s, t, c), u)
  {
    hide Enters, Lock;
    match PcOf(s.pcs, t)
    case RunLock => LockEnters(s, t, RunTest, u);
    case RunTest =>
      EntersAt(s, s, t, RunTest2, u);
      EntersAt(s, s.(mutex := Free), t, RunWait(false), u);
    case RunWait(_) =>
      EntersAt(s, s, t, RunTest2, u);
      LockEnters(s, t, RunTest, u);
    case RunTest2 => SyncFromTest(s, t, u);
    case RunClear => EntersAt(s, s.(current := Null), t, RunUnlock, u);
    case RunUnlock => EntersAt(s, s.(mutex := Free), t, RunLock, u);
    case RunBreak => EntersAt(s, s.(mutex := Free), t, Exited, u);
    case _ => EntersAt(s, s, t, RunTest2, u);
  }

  lemma SyncFromTest(s: State, t: Tid, u: Tid)
    requires PcOf(s.pcs, t) == RunTest2
    ensures !Enters(s, At(s, t, RunBreak), u) && !Enters(s, Fault(s), u)
    ensures s.current.To? ==> !Enters(s, At(s, t, TaskTop(s.current.obj, RunLoop)), u)
  {
    hide Enters;
    EntersAt(s, Fault(s), t, Idle, u);
    EntersAt(s, s, t, RunBreak, u);
    if s.current.To? {
      EntersAt(s, s, t, TaskTop(s.current.obj, RunLoop), u);
    }
  }

  lemma SyncEntered(s: State, t: Tid, c: Choice, u: Tid)
    requires Enters(s, Step(s, t, c), u)
    ensures u == t && if Draining(PcOf(Step(s, t, c).pcs, t)) then s.stop else !c.background
  {
    hide Enters, StepIdle, StepLog, StepComplete, StepTask, StepStop, StepRun;
    SyncFromComplete(s, t, u);
    SyncFromTask(s, t, u);
    SyncFromStop(s, t, u);
    SyncFromRun(s, t, c, u);
    if PcOf(s.pcs, t) == Idle {
      SyncFromIdle(s, t, c, u);
    }
    if Enters(s, StepLog(s, t, c), u) {
      SyncFromLog(s, t, c, u);
    }
  }

  lemma ThenAlways(s: State, sh: Shape, t: Tid)
    requires Inv(s, sh)
    ensures ThenOk(PcOf(s.pcs, t))
  {
    hide ListOk, RightOk, MutexOk, WakeOk;
  }

  lemma StopStays(s: State, sh: Shape, t: Tid, c: Choice)
    requires Inv(s, sh) && s.stop
    ensures Step(s, t, c).stop
  {
    hide Inv, Step;
    if PcOf(s.pcs, t) == Idle {
      CallAdds(s, t, c);
    } else if PcOf(s.pcs, t).Ready? {
      ExchangeAdds(s, sh, t, c);
    } else {
      OthersQuiet(s, t, c);
    }
  }

  /** A caller writes what others queued only when the logger is stopped; else that is left to the background thread. */
  lemma {:induction false} DrainsOnlyWhenStopped(schedule: seq<(Tid, Choice)>, u: Tid)
    requires Draining(PcOf(Run(INITIAL, schedule).pcs, u))
    ensures StopCalled(schedule)
  {
    hide Step, Inv, ThenOk, StopCalled, Draining;
    StopExact(schedule);
    if schedule == [] {
      NobodyDrains(u);
    } else {
      var n := |schedule| - 1;
      var before, t, c := schedule[..n], schedule[n].0, schedule[n].1;
      var s := Run(INITIAL, before);
      var sh := RunKeeps(before);
      ThenAlways(s, sh, u);
      if Draining(PcOf(s.pcs, u)) {
        DrainsOnlyWhenStopped(before, u);
        StopExact(before);
      } else {
        SyncEntered(s, t, c, u);
      }
      StopStays(s, sh, t, c);
    }
  }

  lemma NobodyDrains(u: Tid)
    ensures !Draining(PcOf(INITIAL.pcs, u))
  {
  }

  /** Where every answer says "background", nobody writes without holding the lock. */
  lemma {:induction false} BackgroundAlways(schedule: seq<(Tid, Choice)>, u: Tid)
    requires forall i | 0 <= i < |schedule| :: schedule[i].1.background
    ensures !Sync(PcOf(Run(INITIAL, schedule).pcs, u))
  {
    hide Step, Inv, ThenOk;
    if schedule != [] {
      var n := |schedule| - 1;
      var before := schedule[..n];
      var s := Run(INITIAL, before);
      BackgroundAlways(before, u);
      var sh := RunKeeps(before);
      ThenAlways(s, sh, u);
      if Sync(PcOf(Run(INITIAL, schedule).pcs, u)) {
        SyncEntered(s, schedule[n].0, schedule[n].1, u);
        NotBoth(PcOf(Run(INITIAL, schedule).pcs, u));
      }
    }
  }

  lemma NotBoth(pc: Pc)
    ensures !Sync(pc) || !Draining(pc)
  {
  }

  /** And where none does, the thread that wins the right writes its own text itself, before taking the lock. */
  lemma WinnerWrites(schedule: seq<(Tid, Choice)>, t: Tid, c: Choice)
    requires PcOf(Run(INITIAL, schedule).pcs, t).Deciding? && !c.background
    ensures var s := Run(INITIAL, schedule);
            var o := PcOf(s.pcs, t).o;
            && Step(s, t, c) == At(s, t, SyncLog(o)) && o in s.live && s.live[o].content != ""
            && forall c' :: Step(Step(s, t, c), t, c').written == s.written + [s.live[o].content]
  {
    hide Run;
    var s := Run(INITIAL, schedule);
    var sh := RunKeeps(schedule);
    WinnerHolds(s, sh, t);
  }

  lemma WinnerHolds(s: State, sh: Shape, t: Tid)
    requires Inv(s, sh) && PcOf(s.pcs, t).Deciding?
    ensures var o := PcOf(s.pcs, t).o; o in s.live && s.live[o].content != ""
  {
    hide LinksOk, ContentsOk, OwnersOk, LinkersOk, MutexOk, HandoverOk, WakeOk;
    assert HasRight(PcOf(s.pcs, t));
    assert RightHolderOk(PcOf(s.pcs, t), s.live, sh);
  }
}
