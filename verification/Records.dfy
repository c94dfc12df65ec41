/** The framed record format: what is written for a record and what cutting it off again yields. */
module Records {
  import opened Memory

  const MAGIC: seq<Byte> := [0x52, 0x44, 0x49, 0x4F]
  const HEAD_SIZE: nat := 9
  const MAX_NAME_SIZE: nat := 256

  /** The top bit of a size: "metas follow" in a head, "another meta follows" in a meta. */
  const MORE_BIT: nat := 0x8000_0000

  type Word = x: nat | x < 0x1_0000_0000

  datatype Meta = Meta(name: seq<Byte>, data: seq<Byte>)

  datatype Rec = Rec(metas: seq<Meta>, payload: seq<Byte>)

  function Smaller(a: nat, b: nat): nat {
    if a < b then a else b
  }

  // ---- sizes

  /** Network byte order. */
  function ToNet(x: Word): (b: seq<Byte>)
    ensures |b| == 4
  {
    var a := x / 0x100;
    var b := a / 0x100;
    [b / 0x100, b % 0x100, a % 0x100, x % 0x100]
  }

  function FromNet(b: seq<Byte>): Word
    requires |b| == 4
  {
    var b0: nat, b1: nat, b2: nat, b3: nat := b[0], b[1], b[2], b[3];
    ((b0 * 0x100 + b1) * 0x100 + b2) * 0x100 + b3
  }

  lemma NetRoundTrip(x: Word)
    ensures FromNet(ToNet(x)) == x
  {
    var a := x / 0x100;
    var b := a / 0x100;
    assert b == (b / 0x100) * 0x100 + b % 0x100;
    assert a == b * 0x100 + a % 0x100;
    assert x == a * 0x100 + x % 0x100;
  }

  /** A size below the top bit, with that bit set or not. */
  function Flagged(size: nat, more: bool): Word
    requires size < MORE_BIT
  {
    if more then size + MORE_BIT else size
  }

  function SizeOf(word: Word): (size: nat)
    ensures size < MORE_BIT
  {
    word % MORE_BIT
  }

  predicate MoreOf(word: Word) {
    word >= MORE_BIT
  }

  lemma FlaggedRoundTrip(size: nat, more: bool)
    requires size < MORE_BIT
    ensures SizeOf(Flagged(size, more)) == size && (MoreOf(Flagged(size, more)) <==> more)
  {
  }

  /** One entry of the 8-bit checksum table: eight steps of the reflected polynomial, inverted twice. */
  function ChecksumEntry(i: bv8): bv8 {
    Inverse(ChecksumBits4(ChecksumBits4(Inverse(i))))
  }

  function Inverse(b: bv8): bv8 {
    b ^ 0xff
  }

  function Mixed(a: bv8, b: bv8): bv8 {
    a ^ b
  }

  function ChecksumBits4(c: bv8): bv8 {
    ChecksumBit(ChecksumBit(ChecksumBit(ChecksumBit(c))))
  }

  function ChecksumBit(c: bv8): bv8 {
    (c >> 1) ^ (if c & 1 == 1 then 0xb2 else 0)
  }

  lemma BitMixes(a: bv8, b: bv8)
    ensures ChecksumBit(Mixed(a, b)) == Mixed(ChecksumBit(a), ChecksumBit(b))
  {
  }

  lemma FourBitsMix(a: bv8, b: bv8)
    ensures ChecksumBits4(Mixed(a, b)) == Mixed(ChecksumBits4(a), ChecksumBits4(b))
  {
    hide ChecksumBit, Mixed;
    var a1, b1 := ChecksumBit(a), ChecksumBit(b);
    var a2, b2 := ChecksumBit(a1), ChecksumBit(b1);
    var a3, b3 := ChecksumBit(a2), ChecksumBit(b2);
    BitMixes(a, b);
    BitMixes(a1, b1);
    BitMixes(a2, b2);
    BitMixes(a3, b3);
  }

  /** Every entry follows from those at zero and at the powers of two. */
  lemma ChecksumAffine(i: bv8, j: bv8)
    ensures Mixed(ChecksumEntry(Mixed(i, j)), ChecksumEntry(0)) == Mixed(ChecksumEntry(i), ChecksumEntry(j))
  {
    EntryOf(i);
    EntryOf(j);
    EntryOf(Mixed(i, j));
    hide ChecksumEntry, ChecksumBits4;
    var u, v := ChecksumBits4(i), ChecksumBits4(j);
    FourBitsMix(i, j);
    FourBitsMix(u, v);
    var e := ChecksumEntry(0);
    MixedTwice(Mixed(ChecksumBits4(u), ChecksumBits4(v)), e);
    MixedBoth(ChecksumBits4(u), ChecksumBits4(v), e);
  }

  lemma EntryOf(i: bv8)
    ensures ChecksumEntry(i) == Mixed(ChecksumBits4(ChecksumBits4(i)), ChecksumEntry(0))
  {
    hide ChecksumBits4;
    var u, v := ChecksumBits4(i), ChecksumBits4(0xff);
    FourBitsMix(i, 0xff);
    FourBitsMix(u, v);
    assert Inverse(0) == 0xff;
    assert Inverse(i) == Mixed(i, 0xff);
  }

  lemma MixedTwice(a: bv8, e: bv8)
    ensures Mixed(Mixed(a, e), e) == a
  {
  }

  lemma MixedBoth(a: bv8, b: bv8, e: bv8)
    ensures Mixed(Mixed(a, e), Mixed(b, e)) == Mixed(a, b)
  {
    assert Mixed(a, e) ^ (b ^ e) == Mixed(a, e) ^ e ^ b;
    MixedTwice(a, e);
  }

  /** The recurrence gives what the literal table has at zero and at the powers of two; no other entry is compared. */
  lemma ChecksumTable()
    ensures ChecksumEntry(0) == 0xea && ChecksumEntry(1) == 0xd4 && ChecksumEntry(2) == 0x96
    ensures ChecksumEntry(4) == 0x12 && ChecksumEntry(8) == 0x7f && ChecksumEntry(16) == 0xa5
    ensures ChecksumEntry(32) == 0x74 && ChecksumEntry(64) == 0xb3 && ChecksumEntry(128) == 0x58
  {
  }

  /** One more byte: the entry at the checksum so far and that byte. */
  function Fed(crc: bv8, b: bv8): bv8 {
    ChecksumEntry(Mixed(crc, b))
  }

  function Bits(b: Byte): bv8 {
    b as bv8
  }

  function Value(b: bv8): Byte {
    b as int
  }

  function SizeChecksum(x: Word): Byte {
    var c0 := Fed(0, Bits(x % 0x100));
    var c1 := Fed(c0, Bits(x / 0x100 % 0x100));
    var c2 := Fed(c1, Bits(x / 0x1_0000 % 0x100));
    Value(Fed(c2, Bits(x / 0x100_0000)))
  }

  // ---- the checksum is the 8-bit CRC it is said to be

  /** So many bits through the reflected register. */
  function Shifted(register: bv8, n: nat): bv8 {
    if n == 0 then register
    else
      var r := Shifted(register, n - 1);
      if r & 1 == 1 then (r >> 1) ^ 0xb2 else r >> 1
  }

  function Taken(register: bv8, b: bv8): bv8 {
    Shifted(Mixed(register, b), 8)
  }

  /** The register after some bytes, starting from all ones. */
  function Register(data: seq<bv8>): bv8 {
    if data == [] then 0xff else Taken(Register(data[..|data| - 1]), data[|data| - 1])
  }

  function Crc8(data: seq<bv8>): bv8 {
    Inverse(Register(data))
  }

  lemma OneShift(r: bv8, n: nat)
    ensures Shifted(r, n + 1) == ChecksumBit(Shifted(r, n))
  {
  }

  lemma EightShifts(r: bv8)
    ensures Shifted(r, 8) == ChecksumBits4(ChecksumBits4(r))
  {
    assert Shifted(r, 0) == r;
    hide Shifted, ChecksumBit;
    OneShift(r, 0);
    OneShift(r, 1);
    OneShift(r, 2);
    OneShift(r, 3);
    OneShift(r, 4);
    OneShift(r, 5);
    OneShift(r, 6);
    OneShift(r, 7);
  }

  /** One more byte through the register is one more look into the table. */
  lemma TakenIsFed(r: bv8, b: bv8)
    ensures Inverse(Taken(r, b)) == Fed(Inverse(r), b)
  {
    hide Shifted, ChecksumBits4, Mixed, Inverse;
    EightShifts(Mixed(r, b));
    InversesCancel(r, b);
  }

  lemma InversesCancel(r: bv8, b: bv8)
    ensures Inverse(Mixed(Inverse(r), b)) == Mixed(r, b)
  {
  }

  lemma Crc8Snoc(data: seq<bv8>, b: bv8)
    ensures Crc8(data + [b]) == Fed(Crc8(data), b)
  {
    hide Taken, Fed, Inverse;
    assert (data + [b])[..|data|] == data;
    TakenIsFed(Register(data), b);
  }

  lemma Crc8Empty()
    ensures Crc8([]) == 0
  {
  }

  lemma FourBytes(v0: bv8, v1: bv8, v2: bv8, v3: bv8)
    ensures Crc8([v0, v1, v2, v3]) == Fed(Fed(Fed(Fed(0, v0), v1), v2), v3)
  {
    hide Crc8, Fed;
    Crc8Empty();
    Crc8Snoc([], v0);
    Crc8Snoc([v0], v1);
    Crc8Snoc([v0, v1], v2);
    Crc8Snoc([v0, v1, v2], v3);
    assert [] + [v0] == [v0] && [v0] + [v1] == [v0, v1];
    assert [v0, v1] + [v2] == [v0, v1, v2] && [v0, v1, v2] + [v3] == [v0, v1, v2, v3];
  }

  function Word4(b0: Byte, b1: Byte, b2: Byte, b3: Byte): (x: Word)
    ensures x == 0x100_0000 * b0 + 0x1_0000 * b1 + 0x100 * b2 + b3
  {
    0x100_0000 * b0 + 0x1_0000 * b1 + 0x100 * b2 + b3
  }

  lemma BytesOf(b0: Byte, b1: Byte, b2: Byte, b3: Byte)
    ensures var x := Word4(b0, b1, b2, b3);
            x / 0x100_0000 == b0 && x / 0x1_0000 % 0x100 == b1 && x / 0x100 % 0x100 == b2 && x % 0x100 == b3
  {
    var x := Word4(b0, b1, b2, b3);
    var high, middle := 0x100 * b0 + b1, 0x1_0000 * b0 + 0x100 * b1 + b2;
    assert x / 0x1_0000 == high && high % 0x100 == b1;
    assert x / 0x100 == middle && middle % 0x100 == b2;
  }

  /** The checksum of a size is the CRC of its four bytes, the least significant first. */
  lemma SizeChecksumIsCrc8(b0: Byte, b1: Byte, b2: Byte, b3: Byte)
    ensures SizeChecksum(Word4(b0, b1, b2, b3)) == Value(Crc8([Bits(b3), Bits(b2), Bits(b1), Bits(b0)]))
  {
    hide Crc8, Fed, Bits, Value;
    BytesOf(b0, b1, b2, b3);
    FourBytes(Bits(b3), Bits(b2), Bits(b1), Bits(b0));
  }

  /** Network byte order is the most significant byte first. */
  lemma NetBytes(b0: Byte, b1: Byte, b2: Byte, b3: Byte)
    ensures ToNet(Word4(b0, b1, b2, b3)) == [b0, b1, b2, b3]
    ensures FromNet([b0, b1, b2, b3]) == Word4(b0, b1, b2, b3)
  {
    var x := Word4(b0, b1, b2, b3);
    assert x / 0x100 == 0x1_0000 * b0 + 0x100 * b1 + b2;
    assert x / 0x100 / 0x100 == 0x100 * b0 + b1;
  }

  /** The check value of this CRC, over the nine digits. */
  lemma Crc8CheckValue()
    ensures Crc8([0x31, 0x32, 0x33, 0x34, 0x35, 0x36, 0x37, 0x38, 0x39]) == 0xd8
  {
    var d: seq<bv8> := [0x31, 0x32, 0x33, 0x34, 0x35, 0x36, 0x37, 0x38, 0x39];
    DigitsFed();
    hide Crc8, Fed;
    Crc8Empty();
    Crc8Snoc([], 0x31);
    assert [] + [0x31 as bv8] == d[..1];
    Crc8Snoc(d[..1], 0x32);
    assert d[..1] + [0x32] == d[..2];
    Crc8Snoc(d[..2], 0x33);
    assert d[..2] + [0x33] == d[..3];
    Crc8Snoc(d[..3], 0x34);
    assert d[..3] + [0x34] == d[..4];
    Crc8Snoc(d[..4], 0x35);
    assert d[..4] + [0x35] == d[..5];
    Crc8Snoc(d[..5], 0x36);
    assert d[..5] + [0x36] == d[..6];
    Crc8Snoc(d[..6], 0x37);
    assert d[..6] + [0x37] == d[..7];
    Crc8Snoc(d[..7], 0x38);
    assert d[..7] + [0x38] == d[..8];
    Crc8Snoc(d[..8], 0x39);
    assert d[..8] + [0x39] == d;
  }

  lemma DigitsFed()
    ensures Fed(0, 0x31) == 0x05 && Fed(0x05, 0x32) == 0x81 && Fed(0x81, 0x33) == 0xf5
    ensures Fed(0xf5, 0x34) == 0x3f && Fed(0x3f, 0x35) == 0x03 && Fed(0x03, 0x36) == 0xfd
    ensures Fed(0xfd, 0x37) == 0xe8 && Fed(0xe8, 0x38) == 0x4e && Fed(0x4e, 0x39) == 0xd8
  {
  }

  lemma SizesFed()
    ensures Fed(0, 0x05) == 0x2c && Fed(0x2c, 0) == 0x19 && Fed(0x19, 0) == 0x0e && Fed(0x0e, 0) == 0xfb
    ensures Fed(0, 0) == 0xea && Fed(0xea, 0) == 0x76 && Fed(0x76, 0) == 0xe6 && Fed(0xe6, 0) == 0x1b
    ensures Fed(0, 0x10) == 0xa5 && Fed(0xa5, 0) == 0 && Fed(0xea, 0x80) == 0xc4
  {
  }

  lemma BitsValues()
    ensures Bits(0) == 0 && Bits(5) == 5 && Bits(0x10) == 0x10 && Bits(0x80) == 0x80
    ensures Value(0xfb) == 0xfb && Value(0x1b) == 0x1b && Value(0xc4) == 0xc4
  {
  }

  /** The size checksums of an empty record, of one of five bytes, and of one of sixteen with metas. */
  lemma SizeChecksumValues()
    ensures SizeChecksum(0) == 0x1b && SizeChecksum(5) == 0xfb && SizeChecksum(0x8000_0010) == 0xc4
  {
    hide Fed, Bits, Value;
    SizesFed();
    BitsValues();
  }

  // ---- writing

  /** What stands before a meta's data: the size of its name in one byte, its name, its flagged size. */
  function MetaPrefix(name: seq<Byte>, size: nat, more: bool): seq<Byte>
    requires size < MORE_BIT
  {
    [|name| % 0x100] + name + ToNet(Flagged(size, more))
  }

  function EncodeMeta(m: Meta, more: bool): seq<Byte>
    requires |m.data| < MORE_BIT
  {
    MetaPrefix(m.name, |m.data|, more) + m.data
  }

  predicate MetasFit(metas: seq<Meta>) {
    forall i | 0 <= i < |metas| :: |metas[i].name| <= MAX_NAME_SIZE && |metas[i].data| < MORE_BIT
  }

  function EncodeMetas(metas: seq<Meta>): seq<Byte>
    requires MetasFit(metas)
  {
    if metas == [] then [] else EncodeMeta(metas[0], |metas| > 1) + EncodeMetas(metas[1..])
  }

  function Body(rec: Rec): seq<Byte>
    requires MetasFit(rec.metas)
  {
    EncodeMetas(rec.metas) + rec.payload
  }

  /** What the writer accepts. */
  predicate Writable(rec: Rec) {
    MetasFit(rec.metas) && |Body(rec)| < MORE_BIT
  }

  function Head(size: nat, more: bool): (h: seq<Byte>)
    requires size < MORE_BIT
    ensures |h| == HEAD_SIZE
  {
    var x := Flagged(size, more);
    MAGIC + ToNet(x) + [SizeChecksum(x)]
  }

  function Encode(rec: Rec): seq<Byte>
    requires Writable(rec)
  {
    Head(|Body(rec)|, rec.metas != []) + Body(rec)
  }

  function MetaSizes(metas: seq<Meta>): nat {
    if metas == [] then 0 else 5 + |metas[0].name| + |metas[0].data| + MetaSizes(metas[1..])
  }

  function ByteSize(rec: Rec): nat {
    HEAD_SIZE + |rec.payload| + MetaSizes(rec.metas)
  }

  lemma {:induction false} MetaSizesSnoc(metas: seq<Meta>, m: Meta)
    ensures MetaSizes(metas + [m]) == MetaSizes(metas) + 5 + |m.name| + |m.data|
  {
    if metas == [] {
      assert [m][1..] == [];
      assert metas + [m] == [m];
    } else {
      assert (metas + [m])[1..] == metas[1..] + [m];
      MetaSizesSnoc(metas[1..], m);
    }
  }

  lemma {:induction false} EncodedMetasSize(metas: seq<Meta>)
    requires MetasFit(metas)
    ensures |EncodeMetas(metas)| == MetaSizes(metas)
  {
    if metas != [] {
      EncodedMetasSize(metas[1..]);
    }
  }

  lemma EncodedSize(rec: Rec)
    requires Writable(rec)
    ensures |Encode(rec)| == ByteSize(rec)
  {
    EncodedMetasSize(rec.metas);
  }

  // ---- cutting

  datatype Outcome =
    | NeedMore
    | Corrupt(ncut: nat, rest: seq<Byte>)
    | Cut(rec: Rec, ncut: nat, rest: seq<Byte>)

  predicate HasName(metas: seq<Meta>, name: seq<Byte>) {
    exists i | 0 <= i < |metas| :: metas[i].name == name
  }

  /** A name a record accepts for a new meta. */
  predicate NewName(metas: seq<Meta>, name: seq<Byte>) {
    !HasName(metas, name) && 0 < |name| <= MAX_NAME_SIZE
  }

  function Reversed(b: seq<Byte>): (r: seq<Byte>)
    requires |b| == 4
    ensures |r| == 4
  {
    [b[3], b[2], b[1], b[0]]
  }

  /** What the four bytes of a size variable hold after a read that may come up short. */
  function Overlay(read: seq<Byte>, before: seq<Byte>): (b: seq<Byte>)
    requires |read| <= |before| == 4
    ensures |b| == 4
  {
    read + before[|read|..]
  }

  /** The head of one meta: its name, its size word and the bytes behind them. */
  datatype MetaHead = MetaHead(nameSize: nat, name: seq<Byte>, raw: seq<Byte>, rest: seq<Byte>)

  /** Where there is nothing left the reader complains and goes on with an empty name. */
  function CutMetaHead(bytes: seq<Byte>, raw: seq<Byte>): (h: MetaHead)
    requires |raw| == 4
    ensures |h.raw| == 4 && h.nameSize < 256 && |h.rest| <= |bytes|
  {
    if bytes == [] then MetaHead(0, [], raw, [])
    else
      var nameSize := bytes[0];
      var k := Smaller(nameSize, |bytes| - 1);
      var behind := bytes[1..][k..];
      var q := Smaller(4, |behind|);
      MetaHead(nameSize, bytes[1..][..k], Overlay(behind[..q], raw), behind[q..])
  }

  /** The reader inside a record: bytes left, bytes of the record consumed, metas so far. */
  datatype Scan = Scan(bytes: seq<Byte>, consumed: nat, metas: seq<Meta>, more: bool, raw: seq<Byte>, ncut: nat)

  datatype Turn = Stop(out: Outcome) | Next(scan: Scan)

  /** One turn of the loop over the metas. */
  function CutMeta(s: Scan, size: nat): (turn: Turn)
    requires |s.raw| == 4 && s.consumed <= size
    ensures turn.Next? ==> |turn.scan.raw| == 4 && s.consumed < turn.scan.consumed <= size
    ensures turn.Stop? ==> turn.out.Corrupt?
  {
    var h := CutMetaHead(s.bytes, s.raw);
    var word := FromNet(h.raw);
    var metaSize, total := SizeOf(word), s.consumed + 5 + h.nameSize + SizeOf(word);
    if total > size || !NewName(s.metas, h.name) then Stop(Corrupt(s.ncut + 5 + h.nameSize, h.rest))
    else
      var cut := Smaller(metaSize, |h.rest|);
      Next(Scan(h.rest[cut..], total, s.metas + [Meta(h.name, h.rest[..cut])], MoreOf(word), Reversed(h.raw),
                s.ncut + 5 + h.nameSize + metaSize))
  }

  function CutPayload(s: Scan, size: nat): Outcome
    requires s.consumed <= size
  {
    var cut := Smaller(size - s.consumed, |s.bytes|);
    Cut(Rec(s.metas, s.bytes[..cut]), s.ncut + cut, s.bytes[cut..])
  }

  /** Metas and payload, from the bytes behind the head. */
  function CutBody(s: Scan, size: nat): Outcome
    requires |s.raw| == 4 && s.consumed <= size
    decreases size - s.consumed
  {
    if !s.more then CutPayload(s, size)
    else
      match CutMeta(s, size)
      case Stop(out) => out
      case Next(s') => CutBody(s', size)
  }

  datatype HeadCheck = Short | Wrong | Good(word: Word)

  /** Magic, checksum and size of a record's head, and whether all of the record is there. */
  function CheckHead(bytes: seq<Byte>, maxSize: nat): HeadCheck {
    if |bytes| < HEAD_SIZE then Short
    else if bytes[..4] != MAGIC then Wrong
    else
      var word := FromNet(bytes[4..8]);
      if SizeChecksum(word) != bytes[8] || SizeOf(word) > maxSize then Wrong
      else if |bytes| < SizeOf(word) + HEAD_SIZE then Short
      else Good(word)
  }

  /** The reader as it starts on what is behind a good head. */
  function Behind(bytes: seq<Byte>, word: Word): Scan
    requires |bytes| >= HEAD_SIZE
  {
    Scan(bytes[HEAD_SIZE..], 0, [], MoreOf(word), Reversed(bytes[4..8]), HEAD_SIZE)
  }

  /** One call of the reader on the bytes it has. */
  function CutRecord(bytes: seq<Byte>, maxSize: nat): Outcome {
    match CheckHead(bytes, maxSize)
    case Short => NeedMore
    case Wrong => Corrupt(0, bytes)
    case Good(word) => CutBody(Behind(bytes, word), SizeOf(word))
  }

  // ---- what is written is read back

  /** Names a reader can give back: short enough for their size byte, not empty, no two alike. */
  predicate NamesReadable(metas: seq<Meta>) {
    && (forall i | 0 <= i < |metas| :: 0 < |metas[i].name| < 256)
    && (forall i, j | 0 <= i < j < |metas| :: metas[i].name != metas[j].name)
  }

  lemma CutApart(a: Byte, b: seq<Byte>, c: seq<Byte>, d: seq<Byte>)
    ensures var all := [a] + b + c + d;
            all[0] == a && all[1..][..|b|] == b && all[1..][|b|..] == c + d
  {
    var all := [a] + b + c + d;
    assert all[1..] == b + (c + d);
  }

  lemma TakeDrop(a: seq<Byte>, b: seq<Byte>)
    ensures (a + b)[..|a|] == a && (a + b)[|a|..] == b
  {
  }

  lemma Associate(a: seq<Byte>, b: seq<Byte>, c: seq<Byte>, d: seq<Byte>, e: seq<Byte>)
    ensures a + b + c + d + e == a + b + c + (d + e)
  {
  }

  lemma MetaHeadCut(m: Meta, more: bool, behind: seq<Byte>, raw: seq<Byte>)
    requires |m.name| < 256 && |m.data| < MORE_BIT && |raw| == 4
    ensures var word := Flagged(|m.data|, more);
            EncodeMeta(m, more) + behind != []
            && CutMetaHead(EncodeMeta(m, more) + behind, raw)
               == MetaHead(|m.name|, m.name, ToNet(word), m.data + behind)
  {
    hide ToNet;
    var word := Flagged(|m.data|, more);
    var net, rest := ToNet(word), m.data + behind;
    assert |m.name| % 0x100 == |m.name|;
    Associate([|m.name|], m.name, net, m.data, behind);
    CutApart(|m.name|, m.name, net, rest);
    TakeDrop(net, rest);
    assert Overlay(net, raw) == net;
  }

  /** One turn of the loop over an encoded meta. */
  lemma OneMetaCut(s: Scan, size: nat, m: Meta, more: bool, later: seq<Byte>)
    requires |m.name| < 256 && |m.data| < MORE_BIT && |s.raw| == 4 && NewName(s.metas, m.name)
    requires s.consumed + 5 + |m.name| + |m.data| <= size && s.bytes == EncodeMeta(m, more) + later
    ensures var n := 5 + |m.name| + |m.data|;
            CutMeta(s, size) == Next(Scan(later, s.consumed + n, s.metas + [m], more,
                                          Reversed(ToNet(Flagged(|m.data|, more))), s.ncut + n))
  {
    var word := Flagged(|m.data|, more);
    MetaHeadCut(m, more, later, s.raw);
    NetRoundTrip(word);
    FlaggedRoundTrip(|m.data|, more);
    hide CutMetaHead, EncodeMeta, NewName, ToNet, FromNet, Reversed, Flagged, SizeOf, MoreOf;
    TakeDrop(m.data, later);
    assert Meta(m.name, m.data) == m;
  }

  lemma FreshName(done: seq<Meta>, todo: seq<Meta>)
    requires NamesReadable(done + todo) && todo != []
    ensures NewName(done, todo[0].name) && |todo[0].name| < 256
  {
    assert (done + todo)[|done|] == todo[0];
    forall i | 0 <= i < |done| ensures done[i].name != todo[0].name {
      assert (done + todo)[i] == done[i];
    }
  }

  lemma {:induction false} BodyCut(s: Scan, size: nat, todo: seq<Meta>, payload: seq<Byte>, behind: seq<Byte>)
    requires |s.raw| == 4 && MetasFit(todo) && NamesReadable(s.metas + todo)
    requires size == s.consumed + |EncodeMetas(todo)| + |payload|
    requires s.bytes == EncodeMetas(todo) + (payload + behind) && (s.more <==> todo != [])
    ensures CutBody(s, size)
         == Cut(Rec(s.metas + todo, payload), s.ncut + |EncodeMetas(todo)| + |payload|, behind)
    decreases |todo|
  {
    hide EncodeMeta, CutMeta, NamesReadable, NewName, Reversed, ToNet;
    if todo == [] {
      assert s.bytes == payload + behind;
      TakeDrop(payload, behind);
      assert s.metas + todo == s.metas;
    } else {
      var m, rest := todo[0], todo[1..];
      var later := EncodeMetas(rest) + (payload + behind);
      assert s.bytes == EncodeMeta(m, rest != []) + later;
      FreshName(s.metas, todo);
      EncodedMetaSize(m, rest != []);
      OneMetaCut(s, size, m, rest != [], later);
      var s' := CutMeta(s, size).scan;
      assert s.metas + [m] + rest == s.metas + todo;
      BodyCut(s', size, rest, payload, behind);
    }
  }

  lemma EncodedMetaSize(m: Meta, more: bool)
    requires |m.data| < MORE_BIT
    ensures |EncodeMeta(m, more)| == 5 + |m.name| + |m.data|
  {
  }

  lemma HeadReads(size: nat, more: bool, behind: seq<Byte>)
    requires size < MORE_BIT
    ensures var bytes := Head(size, more) + behind;
            var word := Flagged(size, more);
            && |bytes| == HEAD_SIZE + |behind| && bytes[..4] == MAGIC && bytes[4..8] == ToNet(word)
            && bytes[8] == SizeChecksum(word) && bytes[HEAD_SIZE..] == behind
  {
    hide ToNet, SizeChecksum;
    var word := Flagged(size, more);
    var net, sum := ToNet(word), [SizeChecksum(word)];
    var bytes := Head(size, more) + behind;
    assert bytes == MAGIC + (net + (sum + behind));
    assert bytes[4..8] == net;
  }

  /** A record a reader with that size limit gives back. */
  predicate Readable(rec: Rec, maxSize: nat)
    requires Writable(rec)
  {
    NamesReadable(rec.metas) && |Body(rec)| <= maxSize
  }

  /**
   * The round trip, whatever bytes follow: the same metas in order, the same payload, exactly
   * ByteSize bytes consumed and counted.
   */
  lemma RoundTrip(rec: Rec, maxSize: nat, behind: seq<Byte>)
    requires Writable(rec) && Readable(rec, maxSize)
    ensures CutRecord(Encode(rec) + behind, maxSize) == Cut(rec, ByteSize(rec), behind)
  {
    hide ToNet, FromNet, SizeChecksum, Head, CutBody, EncodeMetas, Reversed, NamesReadable, Flagged, SizeOf, MoreOf;
    var size, more := |Body(rec)|, rec.metas != [];
    var word := Flagged(size, more);
    var bytes := Encode(rec) + behind;
    assert bytes == Head(size, more) + (Body(rec) + behind);
    HeadReads(size, more, Body(rec) + behind);
    NetRoundTrip(word);
    FlaggedRoundTrip(size, more);
    assert Body(rec) + behind == EncodeMetas(rec.metas) + (rec.payload + behind);
    EncodedMetasSize(rec.metas);
    assert [] + rec.metas == rec.metas;
    var s := Scan(bytes[HEAD_SIZE..], 0, [], more, Reversed(ToNet(word)), HEAD_SIZE);
    BodyCut(s, size, rec.metas, rec.payload, behind);
  }

  // ---- what is read is what was written

  lemma NetRoundTripBack(b: seq<Byte>)
    requires |b| == 4
    ensures ToNet(FromNet(b)) == b
  {
    var b0: nat, b1: nat, b2: nat, b3: nat := b[0], b[1], b[2], b[3];
    var h := b0 * 0x100 + b1;
    var i := h * 0x100 + b2;
    var x := i * 0x100 + b3;
    assert x / 0x100 == i && x % 0x100 == b3;
    assert i / 0x100 == h && i % 0x100 == b2;
    assert h / 0x100 == b0 && h % 0x100 == b1;
  }

  lemma FlaggedRoundTripBack(word: Word)
    ensures Flagged(SizeOf(word), MoreOf(word)) == word
  {
  }

  /** Where the bytes suffice, the head of a meta is its name, its size word and the rest. */
  lemma MetaHeadWhole(bytes: seq<Byte>, raw: seq<Byte>)
    requires bytes != [] && |raw| == 4 && 5 + bytes[0] <= |bytes|
    ensures var h := CutMetaHead(bytes, raw);
            |h.name| == h.nameSize == bytes[0] && bytes == [h.nameSize] + h.name + h.raw + h.rest
  {
    var k := bytes[0];
    var behind := bytes[1..][k..];
    assert Overlay(behind[..4], raw) == behind[..4];
    assert bytes == [k] + bytes[1..][..k] + behind[..4] + behind[4..];
  }

  lemma NewNameSize(metas: seq<Meta>, name: seq<Byte>)
    requires NewName(metas, name)
    ensures 0 < |name|
  {
  }

  /** A turn that goes on: what it took from the head it read. */
  lemma TurnTakes(s: Scan, size: nat)
    requires |s.raw| == 4 && s.consumed <= size && CutMeta(s, size).Next? && size - s.consumed <= |s.bytes|
    ensures s.bytes != [] && 5 + s.bytes[0] <= |s.bytes|
    ensures var h, s' := CutMetaHead(s.bytes, s.raw), CutMeta(s, size).scan;
            var n := SizeOf(FromNet(h.raw));
            && NewName(s.metas, h.name) && n <= |h.rest|
            && s' == Scan(h.rest[n..], s.consumed + 5 + h.nameSize + n, s.metas + [Meta(h.name, h.rest[..n])],
                          MoreOf(FromNet(h.raw)), Reversed(h.raw), s.ncut + 5 + h.nameSize + n)
            && size - s'.consumed <= |s'.bytes|
  {
    HeadFits(s.bytes, s.raw);
    NewNameSize(s.metas, CutMetaHead(s.bytes, s.raw).name);
    hide FromNet, NewName, SizeOf, MoreOf, Reversed, CutMetaHead;
  }

  lemma HeadFits(bytes: seq<Byte>, raw: seq<Byte>)
    requires |raw| == 4
    ensures var h := CutMetaHead(bytes, raw); if bytes == [] then h.name == [] else h.nameSize == bytes[0]
    ensures bytes != [] && 5 + bytes[0] <= |bytes| ==> |CutMetaHead(bytes, raw).rest| == |bytes| - 5 - bytes[0]
  {
  }

  lemma Reassembles(name: seq<Byte>, raw: seq<Byte>, data: seq<Byte>, more: bool, behind: seq<Byte>)
    requires |name| < 256 && |data| < MORE_BIT && raw == ToNet(Flagged(|data|, more))
    ensures [|name|] + name + raw + (data + behind) == EncodeMeta(Meta(name, data), more) + behind
  {
    hide ToNet, Flagged;
    assert |name| % 0x100 == |name|;
    Associate([|name|], name, raw, data, behind);
  }

  lemma OneMetaDecodes(s: Scan, size: nat) returns (m: Meta)
    requires |s.raw| == 4 && s.consumed <= size && CutMeta(s, size).Next? && size - s.consumed <= |s.bytes|
    ensures var s' := CutMeta(s, size).scan;
            && 0 < |m.name| < 256 && |m.data| < MORE_BIT && NewName(s.metas, m.name) && s'.metas == s.metas + [m]
            && s.bytes == EncodeMeta(m, s'.more) + s'.bytes
            && s'.consumed == s.consumed + 5 + |m.name| + |m.data|
            && s'.ncut == s.ncut + 5 + |m.name| + |m.data|
            && size - s'.consumed <= |s'.bytes|
  {
    hide CutMeta, CutMetaHead, ToNet, FromNet, NewName, SizeOf, MoreOf, Flagged, Reversed, EncodeMeta;
    TurnTakes(s, size);
    var h := CutMetaHead(s.bytes, s.raw);
    var word := FromNet(h.raw);
    var n := SizeOf(word);
    MetaHeadWhole(s.bytes, s.raw);
    NewNameSize(s.metas, h.name);
    NetRoundTripBack(h.raw);
    FlaggedRoundTripBack(word);
    m := Meta(h.name, h.rest[..n]);
    assert h.rest == m.data + h.rest[n..];
    Reassembles(h.name, h.raw, m.data, MoreOf(word), h.rest[n..]);
  }

  lemma NamesGrow(metas: seq<Meta>, m: Meta)
    requires NamesReadable(metas) && NewName(metas, m.name) && |m.name| < 256
    ensures NamesReadable(metas + [m])
  {
  }

  lemma {:induction false} BodyDecodes(s: Scan, size: nat) returns (todo: seq<Meta>)
    requires |s.raw| == 4 && s.consumed <= size && CutBody(s, size).Cut? && size - s.consumed <= |s.bytes|
    requires NamesReadable(s.metas)
    ensures var out := CutBody(s, size);
            && MetasFit(todo) && NamesReadable(s.metas + todo) && (s.more <==> todo != [])
            && out.rec.metas == s.metas + todo
            && s.bytes == EncodeMetas(todo) + (out.rec.payload + out.rest)
            && size == s.consumed + |EncodeMetas(todo)| + |out.rec.payload|
            && out.ncut == s.ncut + |EncodeMetas(todo)| + |out.rec.payload|
    decreases size - s.consumed
  {
    hide CutMeta, NamesReadable, EncodeMeta, EncodeMetas, NewName, MetasFit;
    var out := CutBody(s, size);
    if !s.more {
      todo := [];
      NoMetas(s.metas);
      assert s.bytes == [] + (out.rec.payload + out.rest);
    } else {
      var m := OneMetaDecodes(s, size);
      var s' := CutMeta(s, size).scan;
      NamesGrow(s.metas, m);
      EncodedMetaSize(m, s'.more);
      var rest := BodyDecodes(s', size);
      todo := [m] + rest;
      assert s.metas + [m] + rest == s.metas + todo;
      MetasJoin(m, rest);
      ConcatAssociative(EncodeMeta(m, s'.more), EncodeMetas(rest), out.rec.payload + out.rest);
    }
  }

  lemma NoMetas(metas: seq<Meta>)
    ensures MetasFit([]) && EncodeMetas([]) == [] && metas + [] == metas
  {
  }

  lemma MetasJoin(m: Meta, rest: seq<Meta>)
    requires MetasFit(rest) && |m.name| <= MAX_NAME_SIZE && |m.data| < MORE_BIT
    ensures MetasFit([m] + rest)
    ensures EncodeMetas([m] + rest) == EncodeMeta(m, rest != []) + EncodeMetas(rest)
  {
    hide EncodeMeta;
    assert ([m] + rest)[1..] == rest;
  }

  /** Whatever the reader cuts is the encoding of the record it returns, and it counts those bytes. */
  lemma CutsOnlyEncodings(bytes: seq<Byte>, maxSize: nat)
    requires CutRecord(bytes, maxSize).Cut?
    ensures var out := CutRecord(bytes, maxSize);
            && Writable(out.rec) && Readable(out.rec, maxSize)
            && bytes == Encode(out.rec) + out.rest && out.ncut == ByteSize(out.rec)
  {
    hide ToNet, FromNet, SizeChecksum, CutBody, EncodeMetas, Reversed, NamesReadable, Flagged, SizeOf, MoreOf, Head;
    var word := FromNet(bytes[4..8]);
    var size := SizeOf(word);
    var s := Scan(bytes[HEAD_SIZE..], 0, [], MoreOf(word), Reversed(bytes[4..8]), HEAD_SIZE);
    var out := CutRecord(bytes, maxSize);
    NoNames();
    var metas := BodyDecodes(s, size);
    assert [] + metas == metas;
    EncodedMetasSize(metas);
    ConcatAssociative(EncodeMetas(metas), out.rec.payload, out.rest);
    HeadWhole(bytes, maxSize);
    ConcatAssociative(Head(size, MoreOf(word)), Body(out.rec), out.rest);
  }

  /** A head that passes the checks is the head written for that size. */
  lemma HeadWhole(bytes: seq<Byte>, maxSize: nat)
    requires CheckHead(bytes, maxSize).Good?
    ensures var word := FromNet(bytes[4..8]);
            CheckHead(bytes, maxSize) == Good(word) && bytes == Head(SizeOf(word), MoreOf(word)) + bytes[HEAD_SIZE..]
  {
    var word := FromNet(bytes[4..8]);
    NetRoundTripBack(bytes[4..8]);
    FlaggedRoundTripBack(word);
    hide ToNet, FromNet, SizeChecksum, Flagged, SizeOf, MoreOf;
    assert bytes == MAGIC + bytes[4..8] + [bytes[8]] + bytes[HEAD_SIZE..];
  }

  lemma NoNames()
    ensures NamesReadable([])
  {
  }

  // ---- the layout, byte for byte

  lemma FlaggedBytes(b0: Byte, b1: Byte, b2: Byte, b3: Byte, more: bool)
    requires b0 < 0x80
    ensures Word4(b0, b1, b2, b3) < MORE_BIT
    ensures Flagged(Word4(b0, b1, b2, b3), more) == Word4(if more then b0 + 0x80 else b0, b1, b2, b3)
  {
  }

  /** The head of a body of so many bytes: magic, size with its flag, most significant byte first, checksum. */
  lemma HeadLayout(b0: Byte, b1: Byte, b2: Byte, b3: Byte, more: bool)
    requires b0 < 0x80
    ensures Word4(b0, b1, b2, b3) < MORE_BIT
    ensures var top: Byte := if more then b0 + 0x80 else b0;
            Head(Word4(b0, b1, b2, b3), more) ==
            [0x52, 0x44, 0x49, 0x4F, top, b1, b2, b3, Value(Crc8([Bits(b3), Bits(b2), Bits(b1), Bits(top)]))]
  {
    hide ToNet, SizeChecksum, Crc8, Bits, Value, Flagged, Word4;
    var top: Byte := if more then b0 + 0x80 else b0;
    FlaggedBytes(b0, b1, b2, b3, more);
    NetBytes(top, b1, b2, b3);
    SizeChecksumIsCrc8(top, b1, b2, b3);
  }

  /** A meta: its name's size in one byte, its name, its data's size with its flag, its data. */
  lemma MetaLayout(m: Meta, b0: Byte, b1: Byte, b2: Byte, b3: Byte, more: bool)
    requires b0 < 0x80 && |m.data| == Word4(b0, b1, b2, b3)
    ensures |m.data| < MORE_BIT
    ensures EncodeMeta(m, more)
         == [|m.name| % 0x100] + m.name + [if more then b0 + 0x80 else b0, b1, b2, b3] + m.data
  {
    hide ToNet, Flagged, Word4;
    FlaggedBytes(b0, b1, b2, b3, more);
    NetBytes(if more then b0 + 0x80 else b0, b1, b2, b3);
  }

  /** A record with two metas, "a" of two bytes and "bc" of none, and a payload of one byte. */
  lemma WholeRecord()
    ensures var rec := Rec([Meta([97], [1, 2]), Meta([98, 99], [])], [3]);
            Writable(rec)
            && Encode(rec) == [0x52, 0x44, 0x49, 0x4F, 0x80, 0, 0, 0x10, 0xc4]
                              + ([1] + [97] + [0x80, 0, 0, 2] + [1, 2]) + ([2] + [98, 99] + [0, 0, 0, 0] + []) + [3]
  {
    hide EncodeMetas, EncodeMeta, MetasFit, Head;
    var a, bc := Meta([97], [1, 2]), Meta([98, 99], []);
    var rec := Rec([a, bc], [3]);
    TwoMetas(a, bc);
    TwoEncoded();
    HeadOfSixteen();
    assert |Body(rec)| == 0x10;
    Joined(Head(0x10, true), EncodeMeta(a, true), EncodeMeta(bc, false), rec.payload);
  }

  lemma Joined(a: seq<Byte>, b: seq<Byte>, c: seq<Byte>, d: seq<Byte>)
    ensures a + (b + c + d) == a + b + c + d
  {
  }

  lemma SmallMeta(m: Meta, more: bool)
    requires |m.name| < 256 && |m.data| < 256
    ensures EncodeMeta(m, more) == [|m.name|] + m.name + [if more then 0x80 else 0, 0, 0, |m.data|] + m.data
  {
    hide EncodeMeta;
    MetaLayout(m, 0, 0, 0, |m.data|, more);
  }

  lemma TwoEncoded()
    ensures EncodeMeta(Meta([97], [1, 2]), true) == [1] + [97] + [0x80, 0, 0, 2] + [1, 2]
    ensures EncodeMeta(Meta([98, 99], []), false) == [2] + [98, 99] + [0, 0, 0, 0] + []
  {
    hide EncodeMeta;
    SmallMeta(Meta([97], [1, 2]), true);
    SmallMeta(Meta([98, 99], []), false);
  }

  lemma TwoMetas(a: Meta, b: Meta)
    requires |a.name| < 256 && |b.name| < 256 && |a.data| < MORE_BIT && |b.data| < MORE_BIT
    ensures MetasFit([a, b]) && EncodeMetas([a, b]) == EncodeMeta(a, true) + EncodeMeta(b, false)
  {
    hide EncodeMeta;
    assert [a, b][1..] == [b] && [b][1..] == [];
    assert EncodeMetas([b]) == EncodeMeta(b, false) + EncodeMetas([]);
  }

  lemma HeadOfSixteen()
    ensures Head(0x10, true) == [0x52, 0x44, 0x49, 0x4F, 0x80, 0, 0, 0x10, 0xc4]
  {
    hide SizeChecksum;
    SizeChecksumValues();
    NetBytes(0x80, 0, 0, 0x10);
    assert Flagged(0x10, true) == Word4(0x80, 0, 0, 0x10);
  }

  // ---- when the reader waits for more and when it complains at once

  /** The bytes begin with the head of a record that is not too long. */
  ghost predicate HeadOfSome(bytes: seq<Byte>, size: nat, more: bool, maxSize: nat) {
    size < MORE_BIT && size <= maxSize && |bytes| >= HEAD_SIZE && bytes[..HEAD_SIZE] == Head(size, more)
  }

  lemma HeadGood(bytes: seq<Byte>, size: nat, more: bool, maxSize: nat)
    requires HeadOfSome(bytes, size, more, maxSize)
    ensures CheckHead(bytes, maxSize) == if |bytes| < HEAD_SIZE + size then Short else Good(Flagged(size, more))
  {
    hide ToNet, FromNet, SizeChecksum, Flagged, SizeOf, Head;
    assert bytes == Head(size, more) + bytes[HEAD_SIZE..];
    HeadReads(size, more, bytes[HEAD_SIZE..]);
    NetRoundTrip(Flagged(size, more));
    FlaggedRoundTrip(size, more);
  }

  lemma HeadFound(bytes: seq<Byte>, maxSize: nat)
    requires |bytes| >= HEAD_SIZE && CheckHead(bytes, maxSize) != Wrong
    ensures var word := FromNet(bytes[4..8]); HeadOfSome(bytes, SizeOf(word), MoreOf(word), maxSize)
  {
    var word := FromNet(bytes[4..8]);
    NetRoundTripBack(bytes[4..8]);
    FlaggedRoundTripBack(word);
    hide ToNet, FromNet, SizeChecksum, Flagged, SizeOf, MoreOf;
    assert bytes[..HEAD_SIZE] == MAGIC + bytes[4..8] + [bytes[8]];
  }

  /** Behind a good head nothing is waited for, and a complaint counts what was read. */
  lemma NotAtOnce(bytes: seq<Byte>, maxSize: nat)
    requires CheckHead(bytes, maxSize).Good?
    ensures !CutRecord(bytes, maxSize).NeedMore? && CutRecord(bytes, maxSize) != Corrupt(0, bytes)
  {
    hide CutBody, FromNet, SizeOf, MoreOf, SizeChecksum, Reversed, PrefixesThere;
    var word := CheckHead(bytes, maxSize).word;
    BodyCounts(Behind(bytes, word), SizeOf(word));
  }

  lemma HeadCases(bytes: seq<Byte>, maxSize: nat)
    ensures CheckHead(bytes, maxSize) == Wrong
       <==> |bytes| >= 9 && forall size: nat, more: bool :: !HeadOfSome(bytes, size, more, maxSize)
    ensures CheckHead(bytes, maxSize) == Short
       <==> |bytes| < 9 || exists size: nat, more: bool :: HeadOfSome(bytes, size, more, maxSize) && |bytes| < 9 + size
  {
    if |bytes| >= 9 {
      hide CheckHead, HeadOfSome;
      forall size: nat, more: bool | HeadOfSome(bytes, size, more, maxSize)
        ensures CheckHead(bytes, maxSize) == if |bytes| < 9 + size then Short else Good(Flagged(size, more))
      {
        HeadGood(bytes, size, more, maxSize);
      }
      if CheckHead(bytes, maxSize) != Wrong {
        HeadFound(bytes, maxSize);
      }
    }
  }

  /** The reader waits exactly when the head is not all there, or the head of a record is and the record is not. */
  lemma WaitsExactly(bytes: seq<Byte>, maxSize: nat)
    ensures CutRecord(bytes, maxSize).NeedMore?
       <==> |bytes| < 9 || exists size: nat, more: bool :: HeadOfSome(bytes, size, more, maxSize) && |bytes| < 9 + size
  {
    hide CheckHead, CutBody, HeadOfSome;
    HeadCases(bytes, maxSize);
    if CheckHead(bytes, maxSize).Good? {
      NotAtOnce(bytes, maxSize);
    }
  }

  /** It complains without taking a byte exactly when no record's head stands at the front. */
  lemma ComplainsExactly(bytes: seq<Byte>, maxSize: nat)
    ensures CutRecord(bytes, maxSize) == Corrupt(0, bytes)
       <==> |bytes| >= 9 && forall size: nat, more: bool :: !HeadOfSome(bytes, size, more, maxSize)
  {
    hide CheckHead, CutBody, HeadOfSome;
    HeadCases(bytes, maxSize);
    if CheckHead(bytes, maxSize).Good? {
      NotAtOnce(bytes, maxSize);
    }
  }

  /** A record cut short anywhere is waited for, not complained about. */
  lemma PrefixWaits(rec: Rec, maxSize: nat, k: nat)
    requires Writable(rec) && |Body(rec)| <= maxSize && k < |Encode(rec)|
    ensures CutRecord(Encode(rec)[..k], maxSize) == NeedMore
  {
    hide CutBody, Head, CheckHead, Body;
    var bytes, size, more := Encode(rec)[..k], |Body(rec)|, rec.metas != [];
    HeadCases(bytes, maxSize);
    if k >= 9 {
      assert bytes[..9] == Head(size, more);
      HeadGood(bytes, size, more, maxSize);
    }
  }

  /** Nine bytes or more that do not begin with the magic are complained about, and none of them is taken. */
  lemma NoMagic(bytes: seq<Byte>, maxSize: nat)
    requires |bytes| >= 9 && bytes[..4] != [0x52, 0x44, 0x49, 0x4F]
    ensures CutRecord(bytes, maxSize) == Corrupt(0, bytes)
  {
    hide CutBody, FromNet, SizeChecksum;
  }

  /** Reading back works exactly for the readable records. */
  lemma RoundTripExactly(rec: Rec, maxSize: nat, behind: seq<Byte>)
    requires Writable(rec)
    ensures CutRecord(Encode(rec) + behind, maxSize) == Cut(rec, ByteSize(rec), behind) <==> Readable(rec, maxSize)
  {
    hide CutRecord, Encode, Readable, Writable;
    if Readable(rec, maxSize) {
      RoundTrip(rec, maxSize, behind);
    }
    if CutRecord(Encode(rec) + behind, maxSize).Cut? {
      CutsOnlyEncodings(Encode(rec) + behind, maxSize);
    }
  }

  /** The writer takes a name of 256 bytes, whose size byte wraps to zero: it is not read back. */
  lemma LongestNameIsLost(name: seq<Byte>, data: seq<Byte>, payload: seq<Byte>, maxSize: nat)
    requires |name| == 256 && |data| + |payload| + 261 < MORE_BIT
    ensures var rec := Rec([Meta(name, data)], payload);
            && Writable(rec)
            && CutRecord(Encode(rec), maxSize) != Cut(rec, ByteSize(rec), [])
  {
    var rec := Rec([Meta(name, data)], payload);
    EncodedMetasSize(rec.metas);
    assert rec.metas[1..] == [];
    assert !(0 < |rec.metas[0].name| < 256);
    hide CutRecord, Encode;
    assert Encode(rec) + [] == Encode(rec);
    RoundTripExactly(rec, maxSize, []);
  }

  // ---- what the reader counts

  /** The prefix of a meta, its name's size, its name and its size word, is all there. */
  predicate PrefixThere(bytes: seq<Byte>) {
    bytes != [] && 5 + bytes[0] <= |bytes|
  }

  /** So are the prefixes of all metas the reader looks at. */
  predicate PrefixesThere(s: Scan, size: nat)
    requires |s.raw| == 4 && s.consumed <= size
    decreases size - s.consumed
  {
    s.more ==> PrefixThere(s.bytes) && (CutMeta(s, size).Next? ==> PrefixesThere(CutMeta(s, size).scan, size))
  }

  /** What a stopped turn took, and what it counted. */
  lemma StopCounts(s: Scan, size: nat)
    requires |s.raw| == 4 && s.consumed <= size && CutMeta(s, size).Stop?
    ensures var Corrupt(ncut, rest) := CutMeta(s, size).out;
            && |rest| <= |s.bytes| && rest == s.bytes[|s.bytes| - |rest|..]
            && if PrefixThere(s.bytes) then ncut - s.ncut == |s.bytes| - |rest|
               else rest == [] && |s.bytes| < ncut - s.ncut <= |s.bytes| + 259
  {
    hide FromNet, NewName, SizeOf;
    var h := CutMetaHead(s.bytes, s.raw);
    if s.bytes != [] {
      var k := Smaller(s.bytes[0], |s.bytes| - 1);
      var behind := s.bytes[1..][k..];
      assert behind == s.bytes[1 + k..];
      assert h.rest == behind[Smaller(4, |behind|)..];
    }
  }

  lemma {:induction false} BodyCounts(s: Scan, size: nat)
    requires |s.raw| == 4 && s.consumed <= size && size - s.consumed <= |s.bytes|
    ensures var out := CutBody(s, size);
            && !out.NeedMore? && |out.rest| <= |s.bytes| && out.rest == s.bytes[|s.bytes| - |out.rest|..]
            && if PrefixesThere(s, size) then out.ncut - s.ncut == |s.bytes| - |out.rest|
               else out.Corrupt? && out.rest == [] && |s.bytes| < out.ncut - s.ncut <= |s.bytes| + 259
    decreases size - s.consumed
  {
    hide CutMeta, PrefixThere;
    if s.more {
      if CutMeta(s, size).Next? {
        var m := OneMetaDecodes(s, size);
        var s' := CutMeta(s, size).scan;
        BodyCounts(s', size);
        EncodedMetaSize(m, s'.more);
        PrefixTaken(s.bytes, m, s'.more, s'.bytes);
        var out := CutBody(s, size);
        assert s.bytes[|s.bytes| - |out.rest|..] == s'.bytes[|s'.bytes| - |out.rest|..];
      } else {
        StopCounts(s, size);
      }
    }
  }

  lemma PrefixTaken(bytes: seq<Byte>, m: Meta, more: bool, behind: seq<Byte>)
    requires |m.name| < 256 && |m.data| < MORE_BIT && bytes == EncodeMeta(m, more) + behind
    ensures PrefixThere(bytes)
  {
    hide ToNet;
    assert |m.name| % 0x100 == |m.name|;
  }

  /**
   * What a call takes is the front of the bytes. It counts exactly that if and only if the prefix of
   * no meta runs past the end of all bytes there are; if one does, it takes all bytes and counts more.
   */
  lemma CountsExactly(bytes: seq<Byte>, maxSize: nat)
    requires !CutRecord(bytes, maxSize).NeedMore?
    ensures var out := CutRecord(bytes, maxSize);
            var exact := match CheckHead(bytes, maxSize)
                         case Good(word) => PrefixesThere(Behind(bytes, word), SizeOf(word))
                         case _ => true;
            && |out.rest| <= |bytes| && out.rest == bytes[|bytes| - |out.rest|..]
            && (out.ncut == |bytes| - |out.rest| <==> exact)
            && (!exact ==> out.Corrupt? && out.rest == [] && |bytes| < out.ncut <= |bytes| + 259)
  {
    hide CutBody, PrefixesThere, FromNet, SizeOf, MoreOf, SizeChecksum, Reversed;
    match CheckHead(bytes, maxSize)
    case Good(word) =>
      var s, out := Behind(bytes, word), CutRecord(bytes, maxSize);
      BodyCounts(s, SizeOf(word));
      assert bytes[|bytes| - |out.rest|..] == s.bytes[|s.bytes| - |out.rest|..];
    case _ =>
  }

  /** A head that promises a meta and has no room for one: nine bytes are taken, fourteen counted. */
  lemma CountsTooMuch(maxSize: nat)
    ensures CutRecord(Head(0, true), maxSize) == Corrupt(14, [])
  {
    hide ToNet, FromNet, SizeChecksum, Flagged, SizeOf, MoreOf, Head, CutMeta, Reversed;
    var bytes := Head(0, true);
    assert bytes + [] == bytes;
    HeadReads(0, true, []);
    NetRoundTrip(Flagged(0, true));
    FlaggedRoundTrip(0, true);
    NothingLeft(Scan([], 0, [], true, Reversed(bytes[4..8]), HEAD_SIZE), 0);
    assert bytes[HEAD_SIZE..] == [];
  }

  lemma NothingLeft(s: Scan, size: nat)
    requires |s.raw| == 4 && s.consumed <= size && s.bytes == []
    ensures CutMeta(s, size) == Stop(Corrupt(s.ncut + 5, []))
  {
    hide FromNet, SizeOf;
  }

  // ---- a whole file

  function EncodeAll(recs: seq<Rec>): seq<Byte>
    requires forall i | 0 <= i < |recs| :: Writable(recs[i])
  {
    if recs == [] then [] else Encode(recs[0]) + EncodeAll(recs[1..])
  }

  /** Cutting records until one is incomplete or corrupt. */
  ghost function ReadAll(bytes: seq<Byte>, maxSize: nat): seq<Rec>
    decreases |bytes|
  {
    match CutRecord(bytes, maxSize)
    case Cut(rec, _, rest) =>
      CutsOnlyEncodings(bytes, maxSize);
      [rec] + ReadAll(rest, maxSize)
    case _ => []
  }

  /** Any sequence of readable records written one after another is read back whole and in order. */
  lemma {:induction false} FileRoundTrip(recs: seq<Rec>, maxSize: nat)
    requires forall i | 0 <= i < |recs| :: Writable(recs[i]) && Readable(recs[i], maxSize)
    ensures ReadAll(EncodeAll(recs), maxSize) == recs
  {
    hide CutRecord, Encode, Writable, Readable;
    if recs == [] {
      assert CutRecord([], maxSize) == NeedMore by { NothingToCut(maxSize); }
    } else {
      RoundTrip(recs[0], maxSize, EncodeAll(recs[1..]));
      FileRoundTrip(recs[1..], maxSize);
      assert [recs[0]] + recs[1..] == recs;
    }
  }

  lemma NothingToCut(maxSize: nat)
    ensures CutRecord([], maxSize) == NeedMore
  {
  }

  // ---- resynchronisation

  predicate MagicAt(bytes: seq<Byte>, i: nat) {
    i + 4 <= |bytes| && bytes[i..i + 4] == MAGIC
  }

  /** Where the next record may start: past a magic at the very beginning, at the next one. */
  function AfterMagic(bytes: seq<Byte>): seq<Byte> {
    if MagicAt(bytes, 0) then bytes[4..] else bytes
  }

  /** The bytes left after skipping ahead: at the first magic, or the last three. */
  ghost predicate SkippedIn(from: seq<Byte>, found: bool, rest: seq<Byte>) {
    && |rest| <= |from| && rest == from[|from| - |rest|..]
    && (forall i: nat | i < |from| - |rest| :: !MagicAt(from, i))
    && if found then MagicAt(rest, 0) else |rest| == Smaller(3, |from|)
  }

  ghost predicate SkippedTo(bytes: seq<Byte>, found: bool, rest: seq<Byte>) {
    SkippedIn(AfterMagic(bytes), found, rest)
  }

  /** Skipping ahead is determined: the first magic if there is one, else all but the last three bytes. */
  lemma SkipUnique(bytes: seq<Byte>, found: bool, rest: seq<Byte>)
    requires SkippedTo(bytes, found, rest)
    ensures found <==> exists i: nat :: MagicAt(AfterMagic(bytes), i)
    ensures forall found', rest' | SkippedTo(bytes, found', rest') :: found' == found && rest' == rest
  {
    var from := AfterMagic(bytes);
    var k := |from| - |rest|;
    if found {
      assert from[k..k + 4] == rest[..4];
      assert MagicAt(from, k);
    }
    forall found', rest' | SkippedTo(bytes, found', rest') ensures found' == found && rest' == rest {
      var k' := |from| - |rest'|;
      if found' {
        assert from[k'..k' + 4] == rest'[..4];
        assert MagicAt(from, k');
      }
    }
  }

  /** The four characters "RDIO". */
  predicate RdioAt(bytes: seq<Byte>, i: nat) {
    i + 4 <= |bytes| && bytes[i] == 0x52 && bytes[i + 1] == 0x44 && bytes[i + 2] == 0x49 && bytes[i + 3] == 0x4F
  }

  lemma MagicIsRdio(bytes: seq<Byte>, i: nat)
    ensures MagicAt(bytes, i) <==> RdioAt(bytes, i)
  {
    if i + 4 <= |bytes| {
      var four := bytes[i..i + 4];
      assert four[0] == bytes[i] && four[1] == bytes[i + 1] && four[2] == bytes[i + 2] && four[3] == bytes[i + 3];
    }
  }

  /** Whatever stands at the very front, the next candidate is the first magic behind the first byte. */
  lemma SkipsToNext(bytes: seq<Byte>, found: bool, rest: seq<Byte>)
    requires SkippedTo(bytes, found, rest)
    ensures found <==> exists k: nat :: k > 0 && RdioAt(bytes, k)
    ensures found ==> var k := |bytes| - |rest|;
              k > 0 && rest == bytes[k..] && RdioAt(bytes, k) && forall i: nat | 0 < i < k :: !RdioAt(bytes, i)
    ensures !found ==> |rest| <= 3 && |rest| <= |bytes| && rest == bytes[|bytes| - |rest|..]
  {
    hide MagicAt, RdioAt, AfterMagic;
    PastMagic(bytes);
    var from := AfterMagic(bytes);
    var d, k := |bytes| - |from|, |bytes| - |rest|;
    assert from == bytes[d..] && rest == bytes[k..];
    forall i: nat | 0 < i < k || (!found && 0 < i) ensures !RdioAt(bytes, i) {
      if i >= d {
        Shift(bytes, d, i);
        MagicIsRdio(from, i - d);
        NoneBehind(from, found, rest, i - d);
      } else {
        NoOverlap(bytes, i);
      }
    }
    MagicIsRdio(rest, 0);
    Shift(bytes, k, k);
  }

  lemma PastMagic(bytes: seq<Byte>)
    ensures var from := AfterMagic(bytes);
            var d := |bytes| - |from|;
            d == (if RdioAt(bytes, 0) then 4 else 0) && from == bytes[d..]
  {
    MagicIsRdio(bytes, 0);
  }

  lemma Shift(bytes: seq<Byte>, d: nat, i: nat)
    requires d <= |bytes| && d <= i
    ensures RdioAt(bytes, i) <==> RdioAt(bytes[d..], i - d)
  {
  }

  lemma NoneBehind(from: seq<Byte>, found: bool, rest: seq<Byte>, i: nat)
    requires SkippedIn(from, found, rest) && (found ==> i < |from| - |rest|)
    ensures !MagicAt(from, i)
  {
  }

  /** No magic starts inside another. */
  lemma NoOverlap(bytes: seq<Byte>, i: nat)
    requires RdioAt(bytes, 0) && 0 < i < 4
    ensures !RdioAt(bytes, i)
  {
  }

  /** What the writer takes, in numbers. */
  lemma WritableExactly(rec: Rec)
    ensures Writable(rec)
       <==> && (forall i | 0 <= i < |rec.metas| :: |rec.metas[i].name| <= 256 && |rec.metas[i].data| < 0x8000_0000)
            && ByteSize(rec) < 0x8000_0009
  {
    hide EncodeMetas;
    if MetasFit(rec.metas) {
      EncodedMetasSize(rec.metas);
    }
  }

  // ---- metas one after another

  /** The first i of the metas, each told whether another one follows. */
  function EncodeFirst(metas: seq<Meta>, i: nat): seq<Byte>
    requires i <= |metas| && MetasFit(metas[..i])
  {
    if i == 0 then []
    else
      assert metas[..i][..i - 1] == metas[..i - 1] && metas[..i][i - 1] == metas[i - 1];
      EncodeFirst(metas, i - 1) + EncodeMeta(metas[i - 1], i < |metas|)
  }

  lemma {:induction false} EncodeFirstRest(metas: seq<Meta>, i: nat)
    requires i <= |metas| && MetasFit(metas)
    ensures MetasFit(metas[..i]) && MetasFit(metas[i..])
    ensures EncodeFirst(metas, i) + EncodeMetas(metas[i..]) == EncodeMetas(metas)
  {
    hide EncodeMeta;
    if i == 0 {
      assert metas[0..] == metas;
    } else {
      EncodeFirstRest(metas, i - 1);
      assert metas[i - 1..][1..] == metas[i..];
      assert metas[..i][..i - 1] == metas[..i - 1];
      var m := EncodeMeta(metas[i - 1], i < |metas|);
      assert EncodeMetas(metas[i - 1..]) == m + EncodeMetas(metas[i..]);
      ConcatAssociative(EncodeFirst(metas, i - 1), m, EncodeMetas(metas[i..]));
    }
  }

  lemma EncodeFirstAll(metas: seq<Meta>)
    requires MetasFit(metas)
    ensures metas[..|metas|] == metas && EncodeFirst(metas, |metas|) == EncodeMetas(metas)
  {
    EncodeFirstRest(metas, |metas|);
  }
}
