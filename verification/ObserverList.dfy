/**
 * A list of observers that may be added and removed while it is being walked, by any number of
 * walks inside one another.
 */
module ObserverLists {
  /** An observer's address; zero is the null pointer left where one was removed during a walk. */
  type Observer = nat

  const NULL: Observer := 0

  // ---- what the operations do to the entries

  predicate Distinct(entries: seq<Observer>) {
    forall i, j | 0 <= i < j < |entries| && entries[i] == entries[j] :: entries[i] == NULL
  }

  function Added(entries: seq<Observer>, o: Observer): seq<Observer> {
    if o in entries then entries else entries + [o]
  }

  function Position(entries: seq<Observer>, o: Observer): (p: nat)
    ensures p <= |entries| && (p < |entries| ==> entries[p] == o) && forall k | 0 <= k < p :: entries[k] != o
    ensures p < |entries| <==> o in entries
  {
    if entries == [] then 0 else if entries[0] == o then 0 else 1 + Position(entries[1..], o)
  }

  function Removed(entries: seq<Observer>, depth: nat, o: Observer): seq<Observer> {
    var p := Position(entries, o);
    if p == |entries| then entries else if depth > 0 then entries[p := NULL] else entries[..p] + entries[p + 1..]
  }

  function Cleared(entries: seq<Observer>, depth: nat): seq<Observer> {
    if depth > 0 then seq(|entries|, _ => NULL) else []
  }

  function NonNull(entries: seq<Observer>): (r: seq<Observer>)
    ensures NULL !in r && |r| <= |entries|
  {
    if entries == [] then []
    else
      var rest := NonNull(entries[..|entries| - 1]);
      if entries[|entries| - 1] == NULL then rest else rest + [entries[|entries| - 1]]
  }

  function Limit(entries: seq<Observer>, max: Max): nat {
    match max
    case Unlimited => |entries|
    case Upto(n) => if n < |entries| then n else |entries|
  }

  datatype Max = Unlimited | Upto(n: nat)

  /** The first entry from an index on that is not null, or the limit. */
  function Ahead(entries: seq<Observer>, index: nat, limit: nat): (k: nat)
    requires limit <= |entries|
    ensures index <= k && (index <= limit ==> k <= limit) && (limit < index ==> k == index)
    ensures k < limit ==> entries[k] != NULL
    ensures forall i | index <= i < k :: i < limit && entries[i] == NULL
    decreases limit - index
  {
    if index < limit && entries[index] == NULL then Ahead(entries, index + 1, limit) else index
  }

  // ---- the list and its walks

  class ObserverList {
    var observers: seq<Observer>
    var notifyDepth: nat
    const notifyAll: bool

    constructor (notifyAll: bool)
      ensures observers == [] && notifyDepth == 0 && this.notifyAll == notifyAll
    {
      observers, notifyDepth := [], 0;
      this.notifyAll := notifyAll;
    }

    method Find(o: Observer) returns (p: nat)
      ensures p == Position(observers, o)
    {
      p := 0;
      while p < |observers| && observers[p] != o
        invariant p <= |observers| && forall k | 0 <= k < p :: observers[k] != o
      {
        p := p + 1;
      }
    }

    method AddObserver(o: Observer)
      modifies this`observers
      ensures observers == Added(old(observers), o)
    {
      var p := Find(o);
      if p != |observers| {
        return;
      }
      observers := observers + [o];
    }

    method RemoveObserver(o: Observer)
      modifies this`observers
      ensures observers == Removed(old(observers), notifyDepth, o)
    {
      var p := Find(o);
      if p != |observers| {
        if notifyDepth > 0 {
          observers := observers[p := NULL];
        } else {
          observers := observers[..p] + observers[p + 1..];
        }
      }
    }

    method HasObserver(o: Observer) returns (has: bool)
      ensures has <==> o in observers
    {
      for i := 0 to |observers|
        invariant forall k | 0 <= k < i :: observers[k] != o
      {
        if observers[i] == o {
          return true;
        }
      }
      return false;
    }

    method Clear()
      modifies this`observers
      ensures observers == Cleared(old(observers), notifyDepth)
    {
      if notifyDepth > 0 {
        var i := 0;
        while i < |observers|
          invariant i <= |observers| == |old(observers)|
          invariant forall k | 0 <= k < i :: observers[k] == NULL
        {
          observers := observers[i := NULL];
          i := i + 1;
        }
      } else {
        observers := [];
      }
    }

    /** Squeezes out the entries of observers removed during walks. */
    method Compact()
      modifies this`observers
      ensures observers == NonNull(old(observers))
    {
      var kept, i := [], 0;
      while i < |observers|
        invariant 0 <= i <= |observers| && observers == old(observers) && kept == NonNull(observers[..i])
      {
        assert observers[..i + 1][..i] == observers[..i];
        if observers[i] != NULL {
          kept := kept + [observers[i]];
        }
        i := i + 1;
      }
      assert observers[..|observers|] == observers;
      observers := kept;
    }
  }

  class Walk {
    const list: ObserverList
    var index: nat
    var max: Max

    constructor (list: ObserverList)
      modifies list`notifyDepth
      ensures this.list == list && list.notifyDepth == old(list.notifyDepth) + 1
      ensures index == 0 && max == if list.notifyAll then Unlimited else Upto(|list.observers|)
    {
      this.list := list;
      index, max := 0, if list.notifyAll then Unlimited else Upto(|list.observers|);
      new;
      list.notifyDepth := list.notifyDepth + 1;
    }

    ghost predicate At(i: Iter)
      reads this
    {
      i == Iter(index, max)
    }

    lemma Placed()
      ensures At(Iter(index, max))
    {
    }

    /** The walk's destructor: the last one out tidies up. */
    method Close()
      requires list.notifyDepth > 0
      modifies list
      ensures list.notifyDepth == old(list.notifyDepth) - 1
      ensures list.observers == if list.notifyDepth == 0 then NonNull(old(list.observers)) else old(list.observers)
    {
      list.notifyDepth := list.notifyDepth - 1;
      if list.notifyDepth == 0 {
        list.Compact();
      }
    }

    /** The next observer, or null at the end. */
    method GetNext() returns (o: Observer)
      modifies this`index
      ensures var limit := Limit(list.observers, max);
              var k := Ahead(list.observers, old(index), limit);
              if k < limit then o == list.observers[k] && index == k + 1 else o == NULL && index == k
    {
      var limit := Limit(list.observers, max);
      while index < limit && list.observers[index] == NULL
        invariant old(index) <= index && (old(index) < index ==> index <= limit)
        invariant forall i | old(index) <= i < index :: i < limit && list.observers[i] == NULL
        invariant Ahead(list.observers, index, limit) == Ahead(list.observers, old(index), limit)
        decreases limit - index
      {
        index := index + 1;
      }
      if index < limit {
        o := list.observers[index];
        index := index + 1;
      } else {
        o := NULL;
      }
    }
  }

  // ---- whole runs: any number of walks, opened, moved and closed in any order

  datatype Iter = Iter(index: nat, max: Max)

  datatype State = State(entries: seq<Observer>, depth: nat, notifyAll: bool, walks: map<nat, Iter>)

  datatype Op = Add(o: Observer) | Remove(o: Observer) | ClearAll | Open(w: nat) | Next(w: nat) | Shut(w: nat)

  function Start(notifyAll: bool): State {
    State([], 0, notifyAll, map[])
  }

  /** Where a walk finds its next observer. */
  function Found(s: State, w: nat): nat
    requires w in s.walks
  {
    Ahead(s.entries, s.walks[w].index, Limit(s.entries, s.walks[w].max))
  }

  /** What a call returns: an observer, or null. */
  function Answer(s: State, op: Op): Observer {
    if op.Next? && op.w in s.walks && Found(s, op.w) < Limit(s.entries, s.walks[op.w].max)
    then s.entries[Found(s, op.w)] else NULL
  }

  /** One operation, as the two classes carry it out; calls nobody can make change nothing. */
  function Apply(s: State, op: Op): State {
    match op
    case Add(o) => if o == NULL then s else s.(entries := Added(s.entries, o))
    case Remove(o) => s.(entries := Removed(s.entries, s.depth, o))
    case ClearAll => s.(entries := Cleared(s.entries, s.depth))
    case Open(w) =>
      if w in s.walks then s
      else s.(depth := s.depth + 1,
              walks := s.walks[w := Iter(0, if s.notifyAll then Unlimited else Upto(|s.entries|))])
    case Next(w) =>
      if w !in s.walks then s
      else
        var k := Found(s, w);
        var past := if k < Limit(s.entries, s.walks[w].max) then k + 1 else k;
        s.(walks := s.walks[w := s.walks[w].(index := past)])
    case Shut(w) =>
      if w !in s.walks || s.depth == 0 then s
      else s.(depth := s.depth - 1, walks := s.walks - {w},
              entries := if s.depth == 1 then NonNull(s.entries) else s.entries)
  }

  function Run(s: State, ops: seq<Op>): State {
    if ops == [] then s else Apply(Run(s, ops[..|ops| - 1]), ops[|ops| - 1])
  }

  /** What one walk was given during a run. */
  function Given(s: State, ops: seq<Op>, w: nat): seq<Observer> {
    if ops == [] then []
    else
      var before, last := ops[..|ops| - 1], ops[|ops| - 1];
      var o := Answer(Run(s, before), last);
      if last == Next(w) && o != NULL then Given(s, before, w) + [o] else Given(s, before, w)
  }

  ghost predicate Ok(s: State) {
    && Distinct(s.entries)
    && s.depth == |s.walks|
    && (s.depth == 0 ==> NULL !in s.entries)
    && (forall w | w in s.walks :: s.walks[w].index <= |s.entries|)
    && (forall w | w in s.walks && s.walks[w].max.Upto? :: s.walks[w].max.n <= |s.entries|)
  }

  lemma RemovedDistinct(entries: seq<Observer>, depth: nat, o: Observer)
    requires Distinct(entries)
    ensures Distinct(Removed(entries, depth, o))
  {
  }

  lemma SnocDistinct(entries: seq<Observer>, o: Observer)
    requires Distinct(entries) && o !in entries
    ensures Distinct(entries + [o])
  {
  }

  lemma {:induction false} NonNullDistinct(entries: seq<Observer>)
    requires Distinct(entries)
    ensures Distinct(NonNull(entries)) && forall o :: o in NonNull(entries) <==> o in entries && o != NULL
  {
    if entries != [] {
      var n := |entries| - 1;
      assert entries == entries[..n] + [entries[n]];
      NonNullDistinct(entries[..n]);
      assert entries[n] != NULL ==> entries[n] !in entries[..n];
      if entries[n] != NULL {
        SnocDistinct(NonNull(entries[..n]), entries[n]);
      }
    }
  }

  lemma NoWalks(s: State)
    requires Ok(s) && s.depth == 0
    ensures s.walks == map[]
  {
    assert |s.walks.Keys| == |s.walks|;
  }

  /** Every operation keeps entries distinct, no gaps outside walks, and every walk inside the list. */
  lemma ApplyKeeps(s: State, op: Op)
    requires Ok(s)
    ensures Ok(Apply(s, op))
  {
    match op
    case Add(_) =>
    case Remove(o) => RemoveKeeps(s, o);
    case ClearAll =>
      if s.depth == 0 {
        NoWalks(s);
      }
    case Open(_) =>
    case Next(w) => NextKeeps(s, w);
    case Shut(w) => ShutKeeps(s, w);
  }

  lemma RemoveKeeps(s: State, o: Observer)
    requires Ok(s)
    ensures Ok(Apply(s, Remove(o)))
  {
    RemovedDistinct(s.entries, s.depth, o);
    hide Distinct;
    if s.depth == 0 {
      NoWalks(s);
    }
  }

  lemma NextKeeps(s: State, w: nat)
    requires Ok(s)
    ensures Ok(Apply(s, Next(w)))
  {
    hide Distinct;
  }

  lemma ShutKeeps(s: State, w: nat)
    requires Ok(s)
    ensures Ok(Apply(s, Shut(w)))
  {
    NonNullDistinct(s.entries);
    hide Distinct, NonNull;
    if w in s.walks && s.depth == 1 {
      assert |s.walks - {w}| == 0;
    }
  }

  lemma {:induction false} RunKeeps(s: State, ops: seq<Op>)
    requires Ok(s)
    ensures Ok(Run(s, ops))
  {
    if ops != [] {
      RunKeeps(s, ops[..|ops| - 1]);
      ApplyKeeps(Run(s, ops[..|ops| - 1]), ops[|ops| - 1]);
    }
  }

  /** The walk stays open all the time. */
  predicate Throughout(ops: seq<Op>, w: nat) {
    Open(w) !in ops && Shut(w) !in ops
  }

  /** While a walk is open no entry moves: it keeps its observer or loses it. */
  ghost predicate Stable(s: State, s': State, w: nat) {
    && w in s.walks && w in s'.walks && s'.walks[w].max == s.walks[w].max
    && |s.entries| <= |s'.entries|
    && forall i | 0 <= i < |s.entries| :: s'.entries[i] == s.entries[i] || s'.entries[i] == NULL
  }

  lemma ApplyStable(s: State, op: Op, w: nat)
    requires Ok(s) && w in s.walks && op != Open(w) && op != Shut(w)
    ensures Stable(s, Apply(s, op), w)
  {
    assert s.depth > 0 by {
      assert w in s.walks.Keys;
    }
    if op.Shut? && op.w in s.walks && s.depth == 1 {
      assert {w, op.w} <= s.walks.Keys;
      assert |{w, op.w}| == 2;
      SubsetSize({w, op.w}, s.walks.Keys);
    }
  }

  lemma SubsetSize(a: set<nat>, b: set<nat>)
    requires a <= b
    ensures |a| <= |b|
  {
    if a != {} {
      var x :| x in a;
      SubsetSize(a - {x}, b - {x});
    }
  }

  lemma {:induction false} RunStable(s: State, ops: seq<Op>, w: nat)
    requires Ok(s) && w in s.walks && Throughout(ops, w)
    ensures Stable(s, Run(s, ops), w)
  {
    if ops != [] {
      var before := ops[..|ops| - 1];
      RunStable(s, before, w);
      RunKeeps(s, before);
      ApplyStable(Run(s, before), ops[|ops| - 1], w);
    }
  }

  function Count(xs: seq<Observer>, o: Observer): nat {
    if xs == [] then 0 else Count(xs[..|xs| - 1], o) + if xs[|xs| - 1] == o then 1 else 0
  }

  lemma CountSnoc(xs: seq<Observer>, x: Observer, o: Observer)
    ensures Count(xs + [x], o) == Count(xs, o) + if x == o then 1 else 0
  {
    assert (xs + [x])[..|xs|] == xs;
  }

  /** The observer stands at position p and the walk may go that far. */
  predicate Standing(s: State, w: nat, p: nat, o: Observer) {
    && o != NULL && p < |s.entries| && s.entries[p] == o
    && w in s.walks && (s.walks[w].max.Upto? ==> p < s.walks[w].max.n)
  }

  predicate Undisturbed(ops: seq<Op>, o: Observer) {
    Remove(o) !in ops && ClearAll !in ops
  }

  lemma ApplyStanding(s: State, op: Op, w: nat, p: nat, o: Observer)
    requires Ok(s) && Standing(s, w, p, o)
    requires op != Open(w) && op != Shut(w) && op != Remove(o) && op != ClearAll
    ensures Standing(Apply(s, op), w, p, o)
  {
    ApplyStable(s, op, w);
    if op.Remove? {
      var q := Position(s.entries, op.o);
      assert q < |s.entries| ==> s.entries[q] == op.o;
    }
  }

  /** A move of the walk passes the position exactly when it returns the observer. */
  lemma MovePasses(s: State, w: nat, p: nat, o: Observer)
    requires Ok(s) && Standing(s, w, p, o)
    ensures var s' := Apply(s, Next(w));
            if s.walks[w].index <= p
            then (Answer(s, Next(w)) == o <==> s'.walks[w].index > p) && Answer(s, Next(w)) != NULL
            else Answer(s, Next(w)) != o && s'.walks[w].index > p
  {
  }

  /**
   * An observer that stands ahead of the walk and is never removed is given to it once as soon as
   * the walk has passed it, and not before.
   */
  lemma {:induction false} GivenOncePassed(s: State, ops: seq<Op>, w: nat, p: nat, o: Observer)
    requires Ok(s) && Standing(s, w, p, o) && s.walks[w].index <= p
    requires Throughout(ops, w) && Undisturbed(ops, o)
    ensures Standing(Run(s, ops), w, p, o)
    ensures Count(Given(s, ops, w), o) == if Run(s, ops).walks[w].index > p then 1 else 0
  {
    hide Ahead, Distinct;
    if ops != [] {
      var before, last := ops[..|ops| - 1], ops[|ops| - 1];
      GivenOncePassed(s, before, w, p, o);
      RunKeeps(s, before);
      var s1 := Run(s, before);
      ApplyStanding(s1, last, w, p, o);
      if last == Next(w) {
        MovePasses(s1, w, p, o);
        CountSnoc(Given(s, before, w), Answer(s1, last), o);
      } else {
        OthersDoNotMove(s1, last, w);
      }
    }
  }

  lemma OthersDoNotMove(s: State, op: Op, w: nat)
    requires w in s.walks && op != Open(w) && op != Shut(w) && op != Next(w)
    ensures w in Apply(s, op).walks && Apply(s, op).walks[w] == s.walks[w]
  {
  }

  /**
   * A completed walk gives every observer that was there when it started and stayed exactly once,
   * however many other walks, additions and removals happen meanwhile.
   */
  lemma ExactlyOnce(notifyAll: bool, past: seq<Op>, w: nat, ops: seq<Op>, o: Observer)
    requires var s := Run(Start(notifyAll), past); w !in s.walks && o in s.entries && o != NULL
    requires Throughout(ops, w) && Undisturbed(ops, o)
    requires var s := Apply(Run(Start(notifyAll), past), Open(w)); Answer(Run(s, ops), Next(w)) == NULL
    ensures var s := Apply(Run(Start(notifyAll), past), Open(w));
            Count(Given(s, ops, w), o) == 1
  {
    RunKeeps(Start(notifyAll), past);
    var s0 := Run(Start(notifyAll), past);
    ApplyKeeps(s0, Open(w));
    var s := Apply(s0, Open(w));
    var p := Position(s0.entries, o);
    GivenOncePassed(s, ops, w, p, o);
    RunKeeps(s, ops);
    MovePasses(Run(s, ops), w, p, o);
  }

  /** A walk gives its observers in the order of the list: at no time has it given one and not one before it. */
  lemma GivenInOrder(notifyAll: bool, past: seq<Op>, w: nat, ops: seq<Op>, i: nat, j: nat)
    requires var s := Run(Start(notifyAll), past);
             w !in s.walks && i < j < |s.entries| && s.entries[i] != NULL && s.entries[j] != NULL
    requires var s := Run(Start(notifyAll), past); Undisturbed(ops, s.entries[i]) && Undisturbed(ops, s.entries[j])
    requires Throughout(ops, w)
    ensures var s0 := Run(Start(notifyAll), past);
            var s := Apply(s0, Open(w));
            Count(Given(s, ops, w), s0.entries[j]) > 0 ==> Count(Given(s, ops, w), s0.entries[i]) > 0
  {
    RunKeeps(Start(notifyAll), past);
    var s0 := Run(Start(notifyAll), past);
    ApplyKeeps(s0, Open(w));
    var s := Apply(s0, Open(w));
    GivenOncePassed(s, ops, w, i, s0.entries[i]);
    GivenOncePassed(s, ops, w, j, s0.entries[j]);
  }

  /** So does one added while the walk is going on, unless the walk is for existing observers only. */
  lemma AddedOnce(past: seq<Op>, w: nat, ops: seq<Op>, o: Observer)
    requires var s := Run(Start(true), past); w in s.walks && o !in s.entries && o != NULL
    requires Throughout(ops, w) && Undisturbed(ops, o)
    requires var s := Apply(Run(Start(true), past), Add(o)); Answer(Run(s, ops), Next(w)) == NULL
    ensures var s := Apply(Run(Start(true), past), Add(o)); Count(Given(s, ops, w), o) == 1
  {
    RunKeeps(Start(true), past);
    var s0 := Run(Start(true), past);
    ApplyKeeps(s0, Add(o));
    var s := Apply(s0, Add(o));
    var p := |s0.entries|;
    NotifiesAll(past);
    GivenOncePassed(s, ops, w, p, o);
    RunKeeps(s, ops);
    MovePasses(Run(s, ops), w, p, o);
  }

  lemma {:induction false} NotifiesAll(ops: seq<Op>)
    ensures var s := Run(Start(true), ops); s.notifyAll && forall w | w in s.walks :: s.walks[w].max == Unlimited
  {
    if ops != [] {
      NotifiesAll(ops[..|ops| - 1]);
    }
  }

  /** One that is not in the list is given to no walk until it is added again. */
  lemma {:induction false} RemovedNeverGiven(s: State, ops: seq<Op>, w: nat, o: Observer)
    requires Ok(s) && o !in s.entries && o != NULL && Add(o) !in ops
    ensures o !in Run(s, ops).entries && o !in Given(s, ops, w)
  {
    if ops != [] {
      var before, last := ops[..|ops| - 1], ops[|ops| - 1];
      RemovedNeverGiven(s, before, w, o);
      RunKeeps(s, before);
      AbsentStays(Run(s, before), last, o);
    }
  }

  lemma AbsentStays(s: State, op: Op, o: Observer)
    requires Ok(s) && o !in s.entries && o != NULL && op != Add(o)
    ensures o !in Apply(s, op).entries && Answer(s, op) != o
  {
    NonNullDistinct(s.entries);
  }

  /** Removing takes the observer out at once, during a walk or not. */
  lemma RemoveTakesOut(s: State, o: Observer)
    requires Ok(s) && o != NULL
    ensures o !in Apply(s, Remove(o)).entries
  {
    var p := Position(s.entries, o);
    if p < |s.entries| {
      assert forall k | 0 <= k < |s.entries| && k != p :: s.entries[k] != o;
    }
  }

  /** Once removed, in any reachable state, an observer is given to no walk, open or opened later, until it is added. */
  lemma RemovedUntilAdded(notifyAll: bool, past: seq<Op>, ops: seq<Op>, w: nat, o: Observer)
    requires o != NULL && Add(o) !in ops
    ensures var s := Apply(Run(Start(notifyAll), past), Remove(o));
            o !in Given(s, ops, w) && o !in Run(s, ops).entries
  {
    RunKeeps(Start(notifyAll), past);
    var s := Run(Start(notifyAll), past);
    ApplyKeeps(s, Remove(o));
    RemoveTakesOut(s, o);
    RemovedNeverGiven(Apply(s, Remove(o)), ops, w, o);
  }

  // ---- the list is the list its callers made

  function Without(members: seq<Observer>, o: Observer): seq<Observer> {
    if members == [] then []
    else
      var rest := Without(members[..|members| - 1], o);
      if members[|members| - 1] == o then rest else rest + [members[|members| - 1]]
  }

  function MemberStep(members: seq<Observer>, op: Op): seq<Observer> {
    match op
    case Add(o) => if o == NULL || o in members then members else members + [o]
    case Remove(o) => Without(members, o)
    case ClearAll => []
    case _ => members
  }

  /** Who is in the list after these calls: walks have no say in it. */
  function Members(ops: seq<Op>): seq<Observer> {
    if ops == [] then [] else MemberStep(Members(ops[..|ops| - 1]), ops[|ops| - 1])
  }

  lemma WithoutSnoc(a: seq<Observer>, x: Observer, o: Observer)
    ensures Without(a + [x], o) == if x == o then Without(a, o) else Without(a, o) + [x]
  {
    assert (a + [x])[..|a|] == a;
  }

  lemma {:induction false} WithoutAbsent(a: seq<Observer>, o: Observer)
    requires o !in a
    ensures Without(a, o) == a
  {
    if a != [] {
      WithoutAbsent(a[..|a| - 1], o);
    }
  }

  lemma NonNullSnoc(a: seq<Observer>, x: Observer)
    ensures NonNull(a + [x]) == if x == NULL then NonNull(a) else NonNull(a) + [x]
  {
    assert (a + [x])[..|a|] == a;
  }

  lemma {:induction false} NonNullSame(a: seq<Observer>)
    requires NULL !in a
    ensures NonNull(a) == a
  {
    if a != [] {
      NonNullSame(a[..|a| - 1]);
    }
  }

  lemma {:induction false} AllNull(a: seq<Observer>)
    requires forall i | 0 <= i < |a| :: a[i] == NULL
    ensures NonNull(a) == []
  {
    if a != [] {
      AllNull(a[..|a| - 1]);
    }
  }

  lemma RemovedSnoc(a: seq<Observer>, x: Observer, depth: nat, o: Observer)
    ensures o in a ==> Removed(a + [x], depth, o) == Removed(a, depth, o) + [x]
    ensures o !in a && x == o ==> Removed(a + [x], depth, o) == if depth > 0 then a + [NULL] else a
    ensures o !in a ==> Removed(a, depth, o) == a
  {
    hide Position;
    var e, p, q := a + [x], Position(a + [x], o), Position(a, o);
    if o in a {
      assert e[q] == o && a[q] == o;
      assert p == q;
      assert e[q + 1..] == a[q + 1..] + [x] && e[..q] == a[..q];
      assert e[q := NULL] == a[q := NULL] + [x];
    } else if x == o {
      assert e[|a|] == o;
      assert p == |a|;
      assert e[|a| := NULL] == a + [NULL] && e[..|a|] == a && e[|a| + 1..] == [];
    }
  }

  lemma {:induction false} RemovedMembers(entries: seq<Observer>, depth: nat, o: Observer)
    requires Distinct(entries) && o != NULL
    ensures NonNull(Removed(entries, depth, o)) == Without(NonNull(entries), o)
  {
    hide Removed, NonNull, Without;
    NonNullDistinct(entries);
    if o !in entries {
      RemovesAbsent(entries, depth, o);
    } else {
      var n := |entries| - 1;
      var a, x := entries[..n], entries[n];
      assert entries == a + [x];
      NonNullSnoc(a, x);
      NonNullDistinct(a);
      RemovedSnoc(a, x, depth, o);
      if x != o {
        RemovedMembers(a, depth, o);
        NonNullSnoc(Removed(a, depth, o), x);
      } else {
        assert o !in a;
        WithoutAbsent(NonNull(a), o);
        NonNullSnoc(a, NULL);
      }
      WithoutSnoc(NonNull(a), x, o);
    }
  }

  lemma RemovesAbsent(entries: seq<Observer>, depth: nat, o: Observer)
    requires o !in entries && o !in NonNull(entries)
    ensures NonNull(Removed(entries, depth, o)) == Without(NonNull(entries), o)
  {
    hide Without;
    WithoutAbsent(NonNull(entries), o);
  }

  lemma StepMembers(s: State, op: Op, members: seq<Observer>)
    requires Ok(s) && NonNull(s.entries) == members
    ensures NonNull(Apply(s, op).entries) == MemberStep(members, op)
  {
    NonNullDistinct(s.entries);
    match op
    case Add(o) =>
      assert (s.entries + [o])[..|s.entries|] == s.entries;
    case Remove(o) =>
      if o != NULL {
        RemovedMembers(s.entries, s.depth, o);
      } else {
        WithoutAbsent(members, o);
        RemovesNull(s.entries, s.depth);
      }
    case ClearAll =>
      AllNull(Cleared(s.entries, s.depth));
    case Shut(w) =>
      NonNullSame(NonNull(s.entries));
    case _ =>
  }

  lemma {:induction false} RemovesNull(entries: seq<Observer>, depth: nat)
    ensures NonNull(Removed(entries, depth, NULL)) == NonNull(entries)
  {
    if entries != [] {
      hide Removed, NonNull;
      var n := |entries| - 1;
      var a, x := entries[..n], entries[n];
      assert entries == a + [x];
      NonNullSnoc(a, x);
      NonNullSnoc(a, NULL);
      RemovedSnoc(a, x, depth, NULL);
      RemovesNull(a, depth);
      NonNullSnoc(Removed(a, depth, NULL), x);
      if NULL !in a && x != NULL {
        NothingToRemove(entries, depth, NULL);
      }
    }
  }

  lemma NothingToRemove(entries: seq<Observer>, depth: nat, o: Observer)
    requires o !in entries
    ensures Removed(entries, depth, o) == entries
  {
  }

  /**
   * After any calls, walks open or not, the observers in the list are exactly those added and not
   * since removed or cleared, in the order of their additions.
   */
  lemma {:induction false} MembersExact(notifyAll: bool, ops: seq<Op>)
    ensures NonNull(Run(Start(notifyAll), ops).entries) == Members(ops)
  {
    hide Apply, NonNull;
    if ops == [] {
      NonNullSame([]);
    } else {
      var n := |ops| - 1;
      MembersExact(notifyAll, ops[..n]);
      RunKeeps(Start(notifyAll), ops[..n]);
      StepMembers(Run(Start(notifyAll), ops[..n]), ops[n], Members(ops[..n]));
    }
  }

  /** Clearing takes everybody out at once: nobody is given to a walk, open or opened later, until added again. */
  lemma ClearedUntilAdded(notifyAll: bool, past: seq<Op>, ops: seq<Op>, w: nat, o: Observer)
    requires o != NULL && Add(o) !in ops
    ensures var s := Apply(Run(Start(notifyAll), past), ClearAll);
            o !in Given(s, ops, w) && o !in Run(s, ops).entries
  {
    RunKeeps(Start(notifyAll), past);
    var s := Run(Start(notifyAll), past);
    ApplyKeeps(s, ClearAll);
    RemovedNeverGiven(Apply(s, ClearAll), ops, w, o);
  }

  lemma LateAnswer(s: State, s1: State, w: nat, o: Observer)
    requires Ok(s) && Stable(s, s1, w) && s.walks[w].max.Upto? && o != NULL && o !in s.entries[..s.walks[w].max.n]
    ensures Answer(s1, Next(w)) != o
  {
    var n := s.walks[w].max.n;
    forall k | 0 <= k < n ensures s1.entries[k] != o {
      assert s.entries[k] == s.entries[..n][k];
    }
  }

  /** A walk for existing observers only never gives one that was not there when it started. */
  lemma {:induction false} LateOnesNotGiven(s: State, ops: seq<Op>, w: nat, o: Observer)
    requires Ok(s) && w in s.walks && s.walks[w].max.Upto? && Throughout(ops, w)
    requires o != NULL && o !in s.entries[..s.walks[w].max.n]
    ensures o !in Given(s, ops, w)
  {
    if ops != [] {
      var before := ops[..|ops| - 1];
      LateOnesNotGiven(s, before, w, o);
      RunStable(s, before, w);
      RunKeeps(s, before);
      var s1 := Run(s, before);
      LateAnswer(s, s1, w, o);
    }
  }

  // ---- the classes carry out such runs

  lemma NoAnswer(s: State, op: Op)
    requires !op.Next?
    ensures Answer(s, op) == NULL
  {
  }

  lemma NoSuchCall(s: State, op: Op)
    requires (op.Open? && op.w in s.walks) || ((op.Next? || op.Shut?) && op.w !in s.walks)
    ensures Apply(s, op) == s && Answer(s, op) == NULL
  {
  }

  ghost predicate Separate(walks: map<nat, Walk>) {
    forall w, x | w in walks && x in walks && w != x :: walks[w] != walks[x]
  }

  lemma OneMore(walks: map<nat, Walk>, w: nat, walk: Walk)
    requires Separate(walks) && w !in walks && forall x | x in walks :: walks[x] != walk
    ensures Separate(walks[w := walk])
  {
  }

  lemma OneLess(walks: map<nat, Walk>, w: nat)
    requires Separate(walks)
    ensures Separate(walks - {w})
  {
  }

  lemma Opened(s: State, w: nat, i: Iter)
    requires w !in s.walks && i == Iter(0, if s.notifyAll then Unlimited else Upto(|s.entries|))
    ensures Apply(s, Open(w)) == s.(depth := s.depth + 1, walks := s.walks[w := i])
  {
  }

  /** A list and the walks open on it. */
  class Session {
    const list: ObserverList
    var walks: map<nat, Walk>
    /** The list and its walks as one value. */
    ghost var now: State
    ghost var repr: set<Walk>

    ghost predicate WalksOk()
      reads this, repr
    {
      && now.walks.Keys == walks.Keys
      && (forall w | w in walks :: walks[w] in repr && walks[w].list == list && walks[w].At(now.walks[w]))
      && Separate(walks)
    }

    ghost predicate Valid()
      reads this, list, repr
    {
      && WalksOk() && Ok(now)
      && now.entries == list.observers && now.depth == list.notifyDepth && now.notifyAll == list.notifyAll
    }

    constructor (notifyAll: bool)
      ensures Valid() && fresh(list) && repr == {} && now == Start(notifyAll)
    {
      list := new ObserverList(notifyAll);
      walks, repr, now := map[], {}, Start(notifyAll);
    }

    method MoveOn(w: nat) returns (answer: Observer)
      requires Valid() && w in walks
      modifies walks[w], this`now
      ensures Valid() && now == Apply(old(now), Next(w)) && answer == Answer(old(now), Next(w))
    {
      hide Ahead, Ok, Added, Removed, Cleared, NonNull;
      ApplyKeeps(now, Next(w));
      answer := walks[w].GetNext();
      now := Apply(now, Next(w));
    }

    method OpenWalk(w: nat)
      requires Valid() && w !in walks
      modifies this, list
      ensures Valid() && fresh(repr - old(repr)) && now == Apply(old(now), Open(w))
    {
      hide Ok, Apply, Separate, Walk.At;
      ApplyKeeps(now, Open(w));
      var walk := new Walk(list);
      assert forall x | x in walks :: walks[x] in repr && walks[x].list == list && walks[x].At(now.walks[x]);
      walk.Placed();
      OneMore(walks, w, walk);
      Opened(now, w, Iter(walk.index, walk.max));
      walks, repr, now := walks[w := walk], repr + {walk}, Apply(now, Open(w));
    }

    method ShutWalk(w: nat)
      requires Valid() && w in walks
      modifies this, list
      ensures Valid() && repr == old(repr) && now == Apply(old(now), Shut(w))
    {
      hide Ok, NonNull, Found, Added, Removed, Cleared, Separate, Walk.At;
      ApplyKeeps(now, Shut(w));
      Counted(now, w);
      OneLess(walks, w);
      walks[w].Close();
      walks := walks - {w};
      now := Apply(now, Shut(w));
    }

    method Change(op: Op)
      requires Valid() && (op.Add? || op.Remove? || op.ClearAll?)
      modifies list`observers, this`now
      ensures Valid() && now == Apply(old(now), op)
    {
      hide Ok, NonNull, Found, Added, Removed, Cleared;
      ApplyKeeps(now, op);
      match op {
        case Add(o) =>
          if o != NULL {
            list.AddObserver(o);
          }
        case Remove(o) => list.RemoveObserver(o);
        case ClearAll => list.Clear();
      }
      now := Apply(now, op);
    }

    /** Each call on the list or on a walk is the operation on the state. */
    method Do(op: Op) returns (answer: Observer)
      requires Valid()
      modifies this, list, repr
      ensures Valid() && fresh(repr - old(repr)) && now == Apply(old(now), op) && answer == Answer(old(now), op)
    {
      hide Apply, Answer, Ok;
      answer := NULL;
      if op.Add? || op.Remove? || op.ClearAll? {
        NoAnswer(now, op);
        Change(op);
      } else if op.Open? {
        NoAnswer(now, op);
        if op.w !in walks {
          OpenWalk(op.w);
        } else {
          NoSuchCall(now, op);
        }
      } else if op.w !in walks {
        NoSuchCall(now, op);
      } else if op.Next? {
        answer := MoveOn(op.w);
      } else {
        NoAnswer(now, op);
        ShutWalk(op.w);
      }
    }

    /** So every sequence of calls is a run, and its answers are the run's. */
    method DoAll(ops: seq<Op>) returns (answers: seq<Observer>)
      requires Valid()
      modifies this, list, repr
      ensures Valid() && now == Run(old(now), ops) && |answers| == |ops|
      ensures forall k | 0 <= k < |ops| :: answers[k] == Answer(Run(old(now), ops[..k]), ops[k])
    {
      hide Apply, Answer, Valid;
      answers := [];
      for k := 0 to |ops|
        invariant Valid() && fresh(repr - old(repr)) && now == Run(old(now), ops[..k]) && |answers| == k
        invariant forall i | 0 <= i < k :: answers[i] == Answer(Run(old(now), ops[..i]), ops[i])
      {
        var answer := Do(ops[k]);
        assert ops[..k + 1][..k] == ops[..k];
        answers := answers + [answer];
      }
      assert ops[..|ops|] == ops;
    }
  }

  lemma Counted(s: State, w: nat)
    requires Ok(s) && w in s.walks
    ensures s.depth > 0
  {
    assert w in s.walks.Keys;
  }
}
