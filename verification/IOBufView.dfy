/** The two layouts of a queue of references: two inline slots, or a ring that holds at least three. */
module Views {
  import opened Memory
  import opened Ring

  const INITIAL_CAP: nat := 32

  datatype View =
    | Small(r0: BlockRef, r1: BlockRef)
    | Big(start: nat, nref: nat, capMask: nat, nbytes: nat, ring: seq<BlockRef>)

  const EMPTY_VIEW: View := Small(EMPTY_REF, EMPTY_REF)

  ghost predicate RingShape(start: nat, nref: nat, capMask: nat, ring: seq<BlockRef>) {
    && IsPowerOfTwo(capMask + 1)
    && |ring| == capMask + 1
    && start <= capMask
    && nref <= capMask + 1
  }

  ghost function RingRefs(start: nat, nref: nat, capMask: nat, ring: seq<BlockRef>): (refs: seq<BlockRef>)
    requires RingShape(start, nref, capMask, ring)
    ensures |refs| == nref
    ensures forall i | 0 <= i < nref :: refs[i] == ring[Wrap(start + i, capMask)]
  {
    seq(nref, i requires 0 <= i < nref => ring[Wrap(start + i, capMask)])
  }

  ghost predicate Shaped(v: View) {
    match v
    case Small(r0, r1) =>
      && (r0.block == NULL ==> r0 == r1 == EMPTY_REF)
      && (r1.block == NULL ==> r1 == EMPTY_REF)
    case Big(start, nref, capMask, nbytes, ring) =>
      RingShape(start, nref, capMask, ring) && 3 <= nref && INITIAL_CAP <= capMask + 1
  }

  ghost function RefsOf(v: View): seq<BlockRef>
    requires Shaped(v)
  {
    match v
    case Small(r0, r1) => if r0.block == NULL then [] else if r1.block == NULL then [r0] else [r0, r1]
    case Big(start, nref, capMask, nbytes, ring) => RingRefs(start, nref, capMask, ring)
  }

  /** The shape invariant: the ring's byte counter is the sum of the lengths it holds. */
  ghost predicate ViewOk(v: View) {
    Shaped(v) && Solid(RefsOf(v)) && (v.Big? ==> v.nbytes == Total(RefsOf(v)))
  }

  /** No reference is null or empty. */
  ghost predicate Solid(refs: seq<BlockRef>) {
    forall i | 0 <= i < |refs| :: refs[i].block != NULL && 0 < refs[i].length
  }

  lemma RingPush(start: nat, nref: nat, capMask: nat, ring: seq<BlockRef>, r: BlockRef)
    requires RingShape(start, nref, capMask, ring) && nref <= capMask
    ensures Slot(start, nref, capMask) < |ring|
    ensures RingRefs(start, nref + 1, capMask, ring[Slot(start, nref, capMask) := r])
            == RingRefs(start, nref, capMask, ring) + [r]
  {
    SlotWraps(start, nref, capMask);
  }

  lemma RingSet(start: nat, nref: nat, capMask: nat, ring: seq<BlockRef>, i: nat, r: BlockRef)
    requires RingShape(start, nref, capMask, ring) && i < nref
    ensures Slot(start, i, capMask) < |ring|
    ensures RingRefs(start, nref, capMask, ring)[i] == ring[Slot(start, i, capMask)]
    ensures RingRefs(start, nref, capMask, ring[Slot(start, i, capMask) := r])
            == RingRefs(start, nref, capMask, ring)[i := r]
  {
    SlotWraps(start, i, capMask);
  }

  lemma RingPopFront(start: nat, nref: nat, capMask: nat, ring: seq<BlockRef>)
    requires RingShape(start, nref, capMask, ring) && 0 < nref
    ensures Slot(start, 1, capMask) <= capMask
    ensures RingRefs(Slot(start, 1, capMask), nref - 1, capMask, ring)
            == RingRefs(start, nref, capMask, ring)[1..]
  {
    SlotWraps(start, 1, capMask);
  }

  lemma RingPopBack(start: nat, nref: nat, capMask: nat, ring: seq<BlockRef>)
    requires RingShape(start, nref, capMask, ring) && 0 < nref
    ensures RingRefs(start, nref - 1, capMask, ring) == RingRefs(start, nref, capMask, ring)[..nref - 1]
  {}

  /** A ring whose references were copied to the front of an array reads back as that array. */
  lemma RingFromZero(nref: nat, capMask: nat, ring: seq<BlockRef>)
    requires RingShape(0, nref, capMask, ring)
    ensures RingRefs(0, nref, capMask, ring) == ring[..nref]
  {}

  function RefNum(v: View): nat {
    match v
    case Small(r0, r1) => (if r0.block != NULL then 1 else 0) + (if r1.block != NULL then 1 else 0)
    case Big(_, nref, _, _, _) => nref
  }

  function Length(v: View): nat {
    match v
    case Small(r0, r1) => r0.length + r1.length
    case Big(_, _, _, nbytes, _) => nbytes
  }

  predicate Empty(v: View) {
    match v
    case Small(r0, _) => r0.block == NULL
    case Big(_, _, _, nbytes, _) => nbytes == 0
  }

  function RefAt(v: View, i: nat): (r: BlockRef)
    requires Shaped(v) && i < |RefsOf(v)|
    ensures r == RefsOf(v)[i]
  {
    match v
    case Small(r0, r1) => if i == 0 then r0 else r1
    case Big(start, nref, capMask, nbytes, ring) =>
      RingSet(start, nref, capMask, ring, i, EMPTY_REF);
      ring[Slot(start, i, capMask)]
  }

  lemma SmallLength(v: View)
    requires v.Small? && Shaped(v)
    ensures Length(v) == Total(RefsOf(v))
  {
    assert Total([v.r0]) == v.r0.length;
    assert [v.r0, v.r1][1..] == [v.r1];
    assert Total([v.r1]) == v.r1.length;
    assert Total([v.r0, v.r1]) == v.r0.length + v.r1.length;
  }

  /** The constant-time readers agree with the queue: length, count and emptiness. */
  lemma ReadersExact(v: View)
    requires ViewOk(v)
    ensures RefNum(v) == |RefsOf(v)|
    ensures Length(v) == Total(RefsOf(v))
    ensures Empty(v) <==> RefsOf(v) == []
  {
    if v.Small? {
      SmallLength(v);
    } else {
      assert Total(RefsOf(v)) >= RefsOf(v)[0].length;
    }
  }

  lemma EmptyViewOk()
    ensures ViewOk(EMPTY_VIEW) && RefsOf(EMPTY_VIEW) == []
    ensures Shares([]) == multiset{} && forall mem :: RefsOk(mem, []) && Bytes(mem, []) == []
  {}

  lemma EmptyViewUnique(v: View)
    requires ViewOk(v) && RefsOf(v) == []
    ensures v == EMPTY_VIEW
  {}

  lemma Counted(v: View)
    requires Shaped(v)
    ensures RefNum(v) == |RefsOf(v)|
  {}

  lemma EmptyCheck(v: View)
    requires ViewOk(v)
    ensures Shaped(v) && RefNum(v) == |RefsOf(v)|
    ensures RefsOf(v) == [] <==> v.Small? && v.r0.block == NULL
  {}

  /** Writes the i-th reference in place. */
  function SetRef(v: View, i: nat, r: BlockRef): (v': View)
    requires Shaped(v) && i < |RefsOf(v)| && r.block != NULL
    ensures Shaped(v') && RefsOf(v') == RefsOf(v)[i := r]
    ensures v.Big? ==> v'.Big? && v'.nbytes == v.nbytes
    ensures v.Small? ==> v'.Small?
  {
    match v
    case Small(r0, r1) => if i == 0 then Small(r, r1) else Small(r0, r)
    case Big(start, nref, capMask, nbytes, ring) =>
      RingSet(start, nref, capMask, ring, i, r);
      Big(start, nref, capMask, nbytes, ring[Slot(start, i, capMask) := r])
  }

  /** Takes the front reference off; a ring left with two falls back to the inline slots. */
  function DropFront(v: View): (v': View)
    requires ViewOk(v) && RefsOf(v) != []
    ensures ViewOk(v') && RefsOf(v') == RefsOf(v)[1..]
  {
    match v
    case Small(r0, r1) =>
      assert r1.block != NULL ==> RefsOf(v)[1] == r1;
      Small(r1, EMPTY_REF)
    case Big(start, nref, capMask, nbytes, ring) =>
      RingPopFront(start, nref, capMask, ring);
      RingSet(start, nref, capMask, ring, 0, EMPTY_REF);
      if nref - 1 > 2 then
        Big(Slot(start, 1, capMask), nref - 1, capMask, nbytes - RefAt(v, 0).length, ring)
      else
        Small(RefAt(v, 1), RefAt(v, 2))
  }

  /** Takes the back reference off, with the same fall back. */
  function DropBack(v: View): (v': View)
    requires ViewOk(v) && RefsOf(v) != []
    ensures ViewOk(v') && RefsOf(v') == RefsOf(v)[..|RefsOf(v)| - 1]
  {
    match v
    case Small(r0, r1) =>
      assert RefsOf(v)[0] == r0;
      if r1.block != NULL then Small(r0, EMPTY_REF) else EMPTY_VIEW
    case Big(start, nref, capMask, nbytes, ring) =>
      RingPopBack(start, nref, capMask, ring);
      TotalBack(RefsOf(v));
      var back := RefAt(v, nref - 1);
      if nref - 1 > 2 then
        Big(start, nref - 1, capMask, nbytes - back.length, ring)
      else
        Small(RefAt(v, 0), RefAt(v, 1))
  }

  /** The front reference without its first n bytes. */
  function Beheaded(r: BlockRef, n: nat): BlockRef
    requires n < r.length
  {
    BlockRef(r.offset + n, r.length - n, r.block)
  }

  /** Advances the front reference in place, keeping the ring's byte counter. */
  function ShrinkFront(v: View, n: nat): (v': View)
    requires ViewOk(v) && RefsOf(v) != [] && n < RefsOf(v)[0].length
    ensures ViewOk(v') && RefsOf(v') == [Beheaded(RefsOf(v)[0], n)] + RefsOf(v)[1..]
  {
    var r := RefAt(v, 0);
    var v' := SetRef(v, 0, Beheaded(r, n));
    assert RefsOf(v)[0 := Beheaded(r, n)] == [Beheaded(r, n)] + RefsOf(v)[1..];
    if v'.Small? then v' else
      TotalFrontShrinks(RefsOf(v), Beheaded(r, n));
      v'.(nbytes := v'.nbytes - n)
  }

  lemma TotalFrontShrinks(refs: seq<BlockRef>, r: BlockRef)
    requires refs != []
    ensures Total([r] + refs[1..]) == Total(refs) - refs[0].length + r.length
  {
    assert ([r] + refs[1..])[1..] == refs[1..];
  }

  /** Shortens the back reference in place. */
  function ShrinkBack(v: View, n: nat): (v': View)
    requires ViewOk(v) && RefsOf(v) != [] && n < RefsOf(v)[|RefsOf(v)| - 1].length
  {
    EmptyCheck(v);
    var k := RefNum(v) - 1;
    var r := RefAt(v, k);
    var v' := SetRef(v, k, r.(length := r.length - n));
    TotalBack(RefsOf(v));
    if v'.Small? then v' else v'.(nbytes := v'.nbytes - n)
  }

  lemma ShrinkBackOk(v: View, n: nat)
    requires ViewOk(v) && RefsOf(v) != [] && n < RefsOf(v)[|RefsOf(v)| - 1].length
    ensures var k := |RefsOf(v)| - 1;
            && ViewOk(ShrinkBack(v, n))
            && RefsOf(ShrinkBack(v, n)) == RefsOf(v)[..k] + [RefsOf(v)[k].(length := RefsOf(v)[k].length - n)]
  {
    hide SetRef, RefAt, Total, RefsOf, Shaped, RefNum;
    var refs := RefsOf(v);
    var k := |refs| - 1;
    var r := refs[k].(length := refs[k].length - n);
    EmptyCheck(v);
    TotalBackShrinks(refs, r);
    assert refs[k := r] == refs[..k] + [r];
    var v' := SetRef(v, k, r);
    if v'.Big? {
      CounterIrrelevant(v', v'.nbytes - n);
    }
  }

  lemma CounterIrrelevant(v: View, n: nat)
    requires v.Big? && Shaped(v)
    ensures Shaped(v.(nbytes := n)) && RefsOf(v.(nbytes := n)) == RefsOf(v)
  {}

  lemma TotalBackShrinks(refs: seq<BlockRef>, r: BlockRef)
    requires refs != []
    ensures var k := |refs| - 1;
            Total(refs[..k] + [r]) == Total(refs) - refs[k].length + r.length
  {
    TotalBack(refs);
    TotalSnoc(refs[..|refs| - 1], r);
  }
}
