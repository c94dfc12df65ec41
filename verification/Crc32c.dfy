/**
 * CRC32C, the cyclic redundancy check of section 12.1 of RFC 3720: the bit-at-a-time definition and
 * the four-table form that takes four bytes at once.
 */
module Crc32c {
  /** The polynomial, bits reversed. */
  const POLYNOMIAL: bv32 := 0x82F63B78

  function Xor(x: bv32, y: bv32): bv32 {
    x ^ y
  }

  function Tap(c: bv32): bv32 {
    if c & 1 == 1 then POLYNOMIAL else 0
  }

  function Bit(c: bv32): bv32 {
    (c >> 1) ^ Tap(c)
  }

  /** Advancing over one byte: eight single-bit steps. */
  function Advance(c: bv32): bv32 {
    Bits4(Bits4(c))
  }

  function Bits4(c: bv32): bv32 {
    Bits2(Bits2(c))
  }

  function Bits2(c: bv32): bv32 {
    Bit(Bit(c))
  }

  function Feed(c: bv32, b: bv8): bv32 {
    Advance(Xor(c, b as bv32))
  }

  /** The register after a string of bytes. */
  function Fold(c: bv32, data: seq<bv8>): bv32 {
    if data == [] then c else Feed(Fold(c, data[..|data| - 1]), data[|data| - 1])
  }

  /** The checksum of A followed by data, given the checksum of A. */
  function Extended(crc: bv32, data: seq<bv8>): bv32 {
    Flip(Fold(Flip(crc), data))
  }

  function Flip(c: bv32): bv32 { c ^ 0xffff_ffff }

  // ---- the tables, by their recurrence

  function Table0(i: bv8): bv32 { Advance(i as bv32) }

  function Table1(i: bv8): bv32 { Advance(Table0(i)) }

  function Table2(i: bv8): bv32 { Advance(Table1(i)) }

  function Table3(i: bv8): bv32 { Advance(Table2(i)) }

  function Low(c: bv32): bv8 { (c & 0xff) as bv8 }

  // ---- the step is linear over exclusive or

  lemma ShiftLinear(x: bv32, y: bv32)
    ensures (x ^ y) >> 1 == (x >> 1) ^ (y >> 1)
  {
  }

  lemma OddLinear(x: bv32, y: bv32)
    ensures (x ^ y) & 1 == 1 <==> (x & 1 == 1) != (y & 1 == 1)
  {
  }

  lemma Regroup(a: bv32, b: bv32, c: bv32, d: bv32)
    ensures (a ^ b) ^ (c ^ d) == (a ^ c) ^ (b ^ d)
  {
  }

  lemma TapLinear(x: bv32, y: bv32)
    ensures Tap(x ^ y) == Tap(x) ^ Tap(y)
  {
    OddLinear(x, y);
  }

  lemma BitLinear(x: bv32, y: bv32)
    ensures Bit(Xor(x, y)) == Xor(Bit(x), Bit(y))
  {
    hide Tap;
    ShiftLinear(x, y);
    TapLinear(x, y);
    Regroup(x >> 1, y >> 1, Tap(x), Tap(y));
  }

  lemma Bits2Linear(x: bv32, y: bv32)
    ensures Bits2(Xor(x, y)) == Xor(Bits2(x), Bits2(y))
  {
    hide Bit, Xor;
    BitLinear(x, y);
    BitLinear(Bit(x), Bit(y));
  }

  lemma Bits4Linear(x: bv32, y: bv32)
    ensures Bits4(Xor(x, y)) == Xor(Bits4(x), Bits4(y))
  {
    hide Bits2, Xor;
    Bits2Linear(x, y);
    Bits2Linear(Bits2(x), Bits2(y));
  }

  lemma AdvanceLinear(x: bv32, y: bv32)
    ensures Advance(Xor(x, y)) == Xor(Advance(x), Advance(y))
  {
    hide Bits4, Xor;
    Bits4Linear(x, y);
    Bits4Linear(Bits4(x), Bits4(y));
  }

  /** With nothing in the low byte, advancing is a shift. */
  lemma AdvanceShifts(x: bv32)
    requires x & 0xff == 0
    ensures Advance(x) == x >> 8
  {
  }

  // ---- the literal tables
  //
  // The tables here are given by a recurrence, which is linear in the index. The literal tables are
  // compared with it at the powers of two; their other entries are not written down here.

  lemma Basis0()
    ensures Table0(1) == 0xf26b8303 && Table0(2) == 0xe13b70f7 && Table0(4) == 0xc79a971f
    ensures Table0(8) == 0x8ad958cf && Table0(16) == 0x105ec76f && Table0(32) == 0x20bd8ede
    ensures Table0(64) == 0x417b1dbc && Table0(128) == 0x82f63b78
  {
  }

  lemma Basis1()
    ensures Table1(1) == 0x13a29877 && Table1(2) == 0x274530ee && Table1(4) == 0x4e8a61dc
    ensures Table1(8) == 0x9d14c3b8 && Table1(16) == 0x3fc5f181 && Table1(32) == 0x7f8be302
    ensures Table1(64) == 0xff17c604 && Table1(128) == 0xfbc3faf9
  {
  }

  lemma Basis2()
    ensures Table2(1) == 0xa541927e && Table2(2) == 0x4f6f520d && Table2(4) == 0x9edea41a
    ensures Table2(8) == 0x38513ec5 && Table2(16) == 0x70a27d8a && Table2(32) == 0xe144fb14
    ensures Table2(64) == 0xc76580d9 && Table2(128) == 0x8b277743
  {
  }

  lemma Basis3()
    ensures Table3(1) == 0xdd45aab8 && Table3(2) == 0xbf672381 && Table3(4) == 0x7b2231f3
    ensures Table3(8) == 0xf64463e6 && Table3(16) == 0xe964b13d && Table3(32) == 0xd725148b
    ensures Table3(64) == 0xaba65fe7 && Table3(128) == 0x52a0c93f
  {
  }

  lemma TableLinear(i: bv8, j: bv8)
    ensures Table0(i ^ j) == Xor(Table0(i), Table0(j)) && Table1(i ^ j) == Xor(Table1(i), Table1(j))
    ensures Table2(i ^ j) == Xor(Table2(i), Table2(j)) && Table3(i ^ j) == Xor(Table3(i), Table3(j))
  {
    hide Advance, Xor;
    IndexXor(i, j);
    AdvanceLinear(i as bv32, j as bv32);
    AdvanceLinear(Table0(i), Table0(j));
    AdvanceLinear(Table1(i), Table1(j));
    AdvanceLinear(Table2(i), Table2(j));
  }

  lemma IndexXor(i: bv8, j: bv8)
    ensures (i ^ j) as bv32 == Xor(i as bv32, j as bv32)
  {
  }

  // ---- one byte through the table

  function Shift8(c: bv32): bv32 { c >> 8 }

  function High(c: bv32): bv32 { c & 0xffff_ff00 }

  lemma LowSplits(c: bv32)
    ensures c == Xor(Low(c) as bv32, High(c))
  {
  }

  lemma HighLeavesLow(c: bv32)
    ensures High(c) & 0xff == 0 && High(c) >> 8 == c >> 8
  {
  }

  lemma HighAdvances(c: bv32)
    ensures Advance(High(c)) == Shift8(c)
  {
    hide Advance, High;
    HighLeavesLow(c);
    AdvanceShifts(High(c));
  }

  lemma AdvanceByTable(c: bv32)
    ensures Advance(c) == Xor(Table0(Low(c)), Shift8(c))
  {
    hide Xor, Advance, Low, High, Shift8;
    LowSplits(c);
    HighAdvances(c);
    AdvanceLinear(Low(c) as bv32, High(c));
  }

  // The source keeps its register in 64 bits; the upper half is always zero.

  function Wide(v: bv32): bv64 { v as bv64 }

  function Narrow(l: bv64): bv32 { (l & 0xffff_ffff) as bv32 }

  function Xor64(x: bv64, y: bv64): bv64 { x ^ y }

  function Shift64(l: bv64): bv64 { l >> 8 }

  /** The table index of the byte at a time step. */
  function Index(l: bv64, b: bv8): bv8 { ((l & 0xff) as bv8) ^ b }

  /** The byte at a time step. */
  function StepOne(l: bv64, b: bv8): bv64 {
    Xor64(Wide(Table0(Index(l, b))), Shift64(l))
  }

  lemma WideXor(x: bv32, y: bv32)
    ensures Xor64(Wide(x), Wide(y)) == Wide(Xor(x, y))
  {
  }

  lemma WideByte(v: bv32, b: bv8)
    ensures Index(Wide(v), b) == Low(Xor(v, b as bv32))
    ensures Shift64(Wide(v)) == Wide(Shift8(Xor(v, b as bv32)))
  {
  }

  lemma StepOneFeeds(v: bv32, b: bv8)
    ensures StepOne(Wide(v), b) == Wide(Feed(v, b))
  {
    hide Table0, Advance, Wide, Xor, Xor64, Shift8, Shift64, Index, Low;
    var x := Xor(v, b as bv32);
    WideByte(v, b);
    AdvanceByTable(x);
    WideXor(Table0(Low(x)), Shift8(x));
  }

  // ---- four bytes at once

  function Load32(b0: bv8, b1: bv8, b2: bv8, b3: bv8): bv32 {
    (b0 as bv32) | ((b1 as bv32) << 8) | ((b2 as bv32) << 16) | ((b3 as bv32) << 24)
  }

  function Byte1(c: bv32): bv8 { ((c >> 8) & 0xff) as bv8 }

  function Byte2(c: bv32): bv8 { ((c >> 16) & 0xff) as bv8 }

  function Byte3(c: bv32): bv8 { (c >> 24) as bv8 }

  lemma BytesShifted(c: bv32)
    ensures Byte1(c) == Low(Shift8(c)) && Byte2(c) == Low(Shift8(Shift8(c)))
    ensures Byte3(c) == Low(Shift8(Shift8(Shift8(c))))
  {
  }

  function Slice(c: bv32): bv32 {
    Xor(Xor(Xor(Table3(Low(c)), Table2(Byte1(c))), Table1(Byte2(c))), Table0(Byte3(c)))
  }

  /** The four-byte step. */
  function StepFour(l: bv64, b0: bv8, b1: bv8, b2: bv8, b3: bv8): bv64 {
    Wide(Slice(Narrow(Xor64(l, Wide(Load32(b0, b1, b2, b3))))))
  }

  lemma NarrowWide(v: bv32, x: bv32)
    ensures Narrow(Xor64(Wide(v), Wide(x))) == Xor(v, x)
  {
  }

  lemma XorAssociative(x: bv32, y: bv32, z: bv32)
    ensures Xor(Xor(x, y), z) == Xor(x, Xor(y, z))
  {
  }

  /** Four byte advances are the four tables on the four bytes. */
  lemma SliceAdvances(c: bv32)
    ensures Advance(Advance(Advance(Advance(c)))) == Slice(c)
  {
    hide Advance, Xor, Shift8, Low, Byte1, Byte2, Byte3;
    BytesShifted(c);
    var c1, c2, c3 := Shift8(c), Shift8(Shift8(c)), Shift8(Shift8(Shift8(c)));
    AdvanceByTable(c);
    AdvanceByTable(c1);
    AdvanceByTable(c2);
    AdvanceByTable(c3);
    ShiftedOut(c);
    var t, t1, t2, t3 := Table0(Low(c)), Table0(Low(c1)), Table0(Low(c2)), Table0(Low(c3));
    hide Table0;
    // Advance(c) == t ^ c1
    AdvanceLinear(t, c1);
    // Advance^2(c) == A(t) ^ (t1 ^ c2)
    AdvanceLinear(Advance(t), Xor(t1, c2));
    AdvanceLinear(t1, c2);
    // Advance^3(c) == A(A(t)) ^ (A(t1) ^ (t2 ^ c3))
    AdvanceLinear(Advance(Advance(t)), Xor(Advance(t1), Xor(t2, c3)));
    AdvanceLinear(Advance(t1), Xor(t2, c3));
    AdvanceLinear(t2, c3);
    XorZero(t3);
    var x, y, z := Advance(Advance(Advance(t))), Advance(Advance(t1)), Advance(t2);
    XorAssociative(x, y, Xor(z, t3));
    XorAssociative(Xor(x, y), z, t3);
  }

  lemma ShiftedOut(c: bv32)
    ensures Shift8(Shift8(Shift8(Shift8(c)))) == 0
  {
  }

  lemma XorZero(x: bv32)
    ensures Xor(x, 0) == x
  {
  }

  /** A byte above the low one waits for its turn. */
  lemma Waits(b: bv8)
    ensures Advance((b as bv32) << 8) == b as bv32
    ensures Advance((b as bv32) << 16) == (b as bv32) << 8
    ensures Advance((b as bv32) << 24) == (b as bv32) << 16
  {
    hide Advance;
    ShiftsBack(b);
    AdvanceShifts((b as bv32) << 8);
    AdvanceShifts((b as bv32) << 16);
    AdvanceShifts((b as bv32) << 24);
  }

  lemma ShiftsBack(b: bv8)
    ensures ((b as bv32) << 8) & 0xff == 0 && ((b as bv32) << 8) >> 8 == b as bv32
    ensures ((b as bv32) << 16) & 0xff == 0 && ((b as bv32) << 16) >> 8 == (b as bv32) << 8
    ensures ((b as bv32) << 24) & 0xff == 0 && ((b as bv32) << 24) >> 8 == (b as bv32) << 16
  {
  }

  lemma LoadIsXor(b0: bv8, b1: bv8, b2: bv8, b3: bv8)
    ensures Load32(b0, b1, b2, b3)
         == Xor(b0 as bv32, Xor((b1 as bv32) << 8, Xor((b2 as bv32) << 16, (b3 as bv32) << 24)))
  {
  }

  lemma LoadSplits(v: bv32, b0: bv8, b1: bv8, b2: bv8, b3: bv8)
    ensures Xor(v, Load32(b0, b1, b2, b3))
         == Xor(Xor(Xor(Xor(v, b0 as bv32), (b1 as bv32) << 8), (b2 as bv32) << 16), (b3 as bv32) << 24)
  {
    hide Xor, Load32;
    var w0, w1, w2, w3 := b0 as bv32, (b1 as bv32) << 8, (b2 as bv32) << 16, (b3 as bv32) << 24;
    LoadIsXor(b0, b1, b2, b3);
    XorAssociative(v, w0, Xor(w1, Xor(w2, w3)));
    XorAssociative(Xor(v, w0), w1, Xor(w2, w3));
    XorAssociative(Xor(Xor(v, w0), w1), w2, w3);
  }

  /** Four bytes fed one by one are four advances over all of them together. */
  lemma FeedsTogether(v: bv32, b0: bv8, b1: bv8, b2: bv8, b3: bv8)
    ensures Feed(Feed(Feed(Feed(v, b0), b1), b2), b3)
         == Advance(Advance(Advance(Advance(Xor(v, Load32(b0, b1, b2, b3))))))
  {
    hide Advance, Xor, Load32;
    var w1, w2, w3 := (b1 as bv32) << 8, (b2 as bv32) << 16, (b3 as bv32) << 24;
    Waits(b1);
    Waits(b2);
    Waits(b3);
    LoadSplits(v, b0, b1, b2, b3);
    var u1 := Xor(v, b0 as bv32);
    var u2 := Xor(u1, w1);
    var u3 := Xor(u2, w2);
    AdvanceLinear(u1, w1);
    AdvanceLinear(u2, w2);
    AdvanceLinear(Advance(u2), Advance(w2));
    AdvanceLinear(u3, w3);
    AdvanceLinear(Advance(u3), Advance(w3));
    AdvanceLinear(Advance(Advance(u3)), Advance(Advance(w3)));
  }

  lemma StepFourFeeds(v: bv32, b0: bv8, b1: bv8, b2: bv8, b3: bv8)
    ensures StepFour(Wide(v), b0, b1, b2, b3) == Wide(Feed(Feed(Feed(Feed(v, b0), b1), b2), b3))
  {
    hide Feed, Slice, Wide, Narrow, Xor, Xor64, Load32, Advance;
    var x := Load32(b0, b1, b2, b3);
    NarrowWide(v, x);
    FeedsTogether(v, b0, b1, b2, b3);
    SliceAdvances(Xor(v, x));
  }

  // ---- strings of bytes

  lemma {:induction false} FoldConcat(c: bv32, a: seq<bv8>, b: seq<bv8>)
    ensures Fold(c, a + b) == Fold(Fold(c, a), b)
    decreases |b|
  {
    hide Feed;
    if b == [] {
      assert a + b == a;
    } else {
      var n := |b| - 1;
      FoldConcat(c, a, b[..n]);
      assert (a + b)[..|a + b| - 1] == a + b[..n];
      assert (a + b)[|a + b| - 1] == b[n];
    }
  }

  lemma FoldOne(c: bv32, data: seq<bv8>, p: nat)
    requires p < |data|
    ensures Fold(c, data[..p + 1]) == Feed(Fold(c, data[..p]), data[p])
  {
    hide Feed;
    assert data[..p + 1][..p] == data[..p];
  }

  lemma FoldFour(c: bv32, data: seq<bv8>, p: nat)
    requires p + 4 <= |data|
    ensures Fold(c, data[..p + 4])
         == Feed(Feed(Feed(Feed(Fold(c, data[..p]), data[p]), data[p + 1]), data[p + 2]), data[p + 3])
  {
    hide Feed, Fold;
    FoldOne(c, data, p);
    FoldOne(c, data, p + 1);
    FoldOne(c, data, p + 2);
    FoldOne(c, data, p + 3);
  }

  /** The reference: bit at a time, in two loops. */
  method Bitwise(crc: bv32, data: seq<bv8>) returns (c: bv32)
    ensures c == Fold(crc, data)
  {
    c := crc;
    for i := 0 to |data|
      invariant c == Fold(crc, data[..i])
    {
      ghost var before := c;
      c := Xor(c, data[i] as bv32);
      ghost var fed := c;
      var k := 0;
      while k < 8
        invariant 0 <= k <= 8 && c == BitsTaken(fed, k)
      {
        c := Bit(c);
        k := k + 1;
      }
      EightBits(fed);
      FoldOne(crc, data, i);
    }
    assert data[..|data|] == data;
  }

  ghost function BitsTaken(c: bv32, k: nat): bv32 {
    if k == 0 then c else Bit(BitsTaken(c, k - 1))
  }

  lemma EightBits(c: bv32)
    ensures BitsTaken(c, 8) == Advance(c)
  {
    hide Bit;
    assert BitsTaken(c, 1) == Bit(c);
    assert BitsTaken(c, 2) == Bits2(c);
    assert BitsTaken(c, 3) == Bit(Bits2(c));
    assert BitsTaken(c, 4) == Bits4(c);
    assert BitsTaken(c, 5) == Bit(Bits4(c));
    assert BitsTaken(c, 6) == Bits2(Bits4(c));
    assert BitsTaken(c, 7) == Bit(Bits2(Bits4(c)));
  }

  /** An address rounded up to a multiple of sixteen. */
  function Aligned(address: nat): (x: nat)
    ensures address <= x < address + 16 && x % 16 == 0
  {
    (address + 15) / 16 * 16
  }

  /** Slow_CRC32: two four-byte steps. */
  method SlowCrc32(l: bv64, data: seq<bv8>, p: nat, ghost crc: bv32) returns (l': bv64, p': nat)
    requires p + 8 <= |data| && l == Wide(Fold(crc, data[..p]))
    ensures p' == p + 8 && l' == Wide(Fold(crc, data[..p']))
  {
    hide Wide, StepFour, Feed, Fold;
    FoldFour(crc, data, p);
    StepFourFeeds(Fold(crc, data[..p]), data[p], data[p + 1], data[p + 2], data[p + 3]);
    l' := StepFour(l, data[p], data[p + 1], data[p + 2], data[p + 3]);
    p' := p + 4;
    FoldFour(crc, data, p');
    StepFourFeeds(Fold(crc, data[..p']), data[p'], data[p' + 1], data[p' + 2], data[p' + 3]);
    l' := StepFour(l', data[p'], data[p' + 1], data[p' + 2], data[p' + 3]);
    p' := p' + 4;
  }

  method StepBytes(l: bv64, data: seq<bv8>, p: nat, upto: nat, ghost crc: bv32) returns (l': bv64)
    requires p <= upto <= |data| && l == Wide(Fold(crc, data[..p]))
    ensures l' == Wide(Fold(crc, data[..upto]))
  {
    hide Wide, StepOne, Feed, Fold;
    l' := l;
    var q := p;
    while q != upto
      invariant p <= q <= upto && l' == Wide(Fold(crc, data[..q]))
      decreases upto - q
    {
      FoldOne(crc, data, q);
      StepOneFeeds(Fold(crc, data[..q]), data[q]);
      l' := StepOne(l', data[q]);
      q := q + 1;
    }
  }

  /** ExtendImpl: whatever the alignment, the length and the start value, it is the reference. */
  method Extend(crc: bv32, address: nat, data: seq<bv8>) returns (r: bv32)
    ensures r == Extended(crc, data)
  {
    hide Fold, Aligned, Flip, Wide, Narrow, Xor64;
    ghost var c := Flip(crc);
    var l := Wide(Flip(crc));
    assert data[..0] == [] && Fold(c, []) == c by { FoldNothing(c); }
    var p: nat := 0;
    var x := Aligned(address) - address;
    if x <= |data| {
      l := StepBytes(l, data, p, x, c);
      p := x;
    }
    while |data| - p >= 16
      invariant p <= |data| && l == Wide(Fold(c, data[..p]))
    {
      l, p := SlowCrc32(l, data, p, c);
      l, p := SlowCrc32(l, data, p, c);
    }
    while |data| - p >= 8
      invariant p <= |data| && l == Wide(Fold(c, data[..p]))
    {
      l, p := SlowCrc32(l, data, p, c);
    }
    l := StepBytes(l, data, p, |data|, c);
    assert data[..|data|] == data;
    r := Narrow(Xor64(l, 0xffff_ffff));
    Finishes(Fold(c, data));
  }

  /** The register is inverted before the first bit and after the last. */
  lemma Inverted(crc: bv32, data: seq<bv8>)
    ensures Extended(crc, data) ^ 0xffff_ffff == Fold(crc ^ 0xffff_ffff, data)
  {
    FlipTwice(Fold(Flip(crc), data));
    hide Fold;
  }

  lemma {:induction false} FoldFirst(c: bv32, b: bv8, data: seq<bv8>)
    ensures Fold(c, [b] + data) == Fold(Feed(c, b), data)
  {
    hide Feed;
    if data == [] {
      assert [b] + data == [b] && [b][..0] == [];
      FoldNothing(c);
    } else {
      var n := |data| - 1;
      FoldFirst(c, b, data[..n]);
      assert ([b] + data)[..n + 1] == [b] + data[..n];
    }
  }

  /** One zero byte. */
  lemma ZeroByte()
    ensures Extended(0, [0]) == 0x527d_5351
  {
    FoldFirst(0xffff_ffff, 0, []);
    assert [0] + [] == [0 as bv8];
    assert Feed(0xffff_ffff, 0) == 0xad82_acae;
    hide Feed;
    FoldNothing(0xad82_acae);
  }

  lemma FoldSplit(c: bv32, data: seq<bv8>)
    requires data != []
    ensures Fold(c, data) == Fold(Feed(c, data[0]), data[1..])
  {
    assert data == [data[0]] + data[1..];
    FoldFirst(c, data[0], data[1..]);
  }

  lemma DigitsFed()
    ensures Feed(0xffff_ffff, 0x31) == 0x6f0a_661c && Feed(0x6f0a_661c, 0x32) == 0x8caa_3b9f
    ensures Feed(0x8caa_3b9f, 0x33) == 0xef84_d04d && Feed(0xef84_d04d, 0x34) == 0x09c5_0b11
    ensures Feed(0x09c5_0b11, 0x35) == 0xe72e_dcca && Feed(0xe72e_dcca, 0x36) == 0xbeca_8e79
    ensures Feed(0xbeca_8e79, 0x37) == 0xedbd_6815 && Feed(0xedbd_6815, 0x38) == 0x9f78_7f65
    ensures Feed(0x9f78_7f65, 0x39) == 0x1cf9_6d7c
  {
  }

  /** The usual check value: the digits one to nine. */
  lemma CheckValue()
    ensures Extended(0, [0x31, 0x32, 0x33, 0x34, 0x35, 0x36, 0x37, 0x38, 0x39]) == 0xe306_9283
  {
    hide Feed, Fold;
    DigitsFed();
    var d := [0x31, 0x32, 0x33, 0x34, 0x35, 0x36, 0x37, 0x38, 0x39];
    FoldSplit(0xffff_ffff, d);
    FoldSplit(0x6f0a_661c, d[1..]);
    assert d[1..][1..] == d[2..];
    FoldSplit(0x8caa_3b9f, d[2..]);
    assert d[2..][1..] == d[3..];
    FoldSplit(0xef84_d04d, d[3..]);
    assert d[3..][1..] == d[4..];
    FoldSplit(0x09c5_0b11, d[4..]);
    assert d[4..][1..] == d[5..];
    FoldSplit(0xe72e_dcca, d[5..]);
    assert d[5..][1..] == d[6..];
    FoldSplit(0xbeca_8e79, d[6..]);
    assert d[6..][1..] == d[7..];
    FoldSplit(0xedbd_6815, d[7..]);
    assert d[7..][1..] == d[8..];
    FoldSplit(0x9f78_7f65, d[8..]);
    assert d[8..][1..] == [];
    FoldNothing(0x1cf9_6d7c);
  }

  lemma FoldNothing(c: bv32)
    ensures Fold(c, []) == c
  {
  }

  lemma Finishes(v: bv32)
    ensures Narrow(Xor64(Wide(v), 0xffff_ffff)) == Flip(v)
  {
  }

  lemma FlipTwice(v: bv32)
    ensures Flip(Flip(v)) == v
  {
  }

  /** Extending in two pieces is extending by the whole. */
  lemma ExtendComposes(crc: bv32, a: seq<bv8>, b: seq<bv8>)
    ensures Extended(Extended(crc, a), b) == Extended(crc, a + b)
  {
    hide Fold, Flip;
    FlipTwice(Fold(Flip(crc), a));
    FoldConcat(Flip(crc), a, b);
  }

  function Mask(crc: bv32): bv32 {
    ((crc >> 15) | (crc << 17)) + 0xa282ead8
  }

  function Unmask(masked: bv32): bv32 {
    var rot := masked - 0xa282ead8;
    (rot >> 17) | (rot << 15)
  }

  /** Some masked values. */
  lemma MaskValues()
    ensures Mask(0) == 0xa282_ead8 && Mask(1) == 0xa284_ead8 && Mask(0x8000) == 0xa282_ead9
    ensures Mask(0xe306_9283) == 0xc78a_b0e5
  {
  }

  lemma MaskRoundTrip(crc: bv32)
    ensures Unmask(Mask(crc)) == crc && Mask(Unmask(crc)) == crc
  {
  }
}
