/**
 * The rolling signature that searches for a delimiter of two to eight bytes, and exactly which
 * delimiters it searches for correctly.
 */
module Delimiters {
  import opened Memory

  /** A 64-bit word, least significant byte first. */
  type Word = w: seq<Byte> | |w| == 8 witness [0, 0, 0, 0, 0, 0, 0, 0]

  const ZERO: Word := [0, 0, 0, 0, 0, 0, 0, 0]

  /** Shifts left by one byte and ors in a signed char: a byte from 128 up sets every bit above it. */
  function ShiftIn(w: Word, c: Byte): (w': Word) {
    [c] + seq(7, i requires 0 <= i < 7 => if c >= 128 then 255 else w[i])
  }

  /** Keeps the k low bytes. */
  function Mask(w: Word, k: nat): (w': Word) {
    seq(8, i requires 0 <= i < 8 => if i < k then w[i] else 0)
  }

  /** The signature after reading some bytes, masked to k bytes at every step. */
  function Sig(bytes: seq<Byte>, k: nat): Word {
    if bytes == [] then ZERO
    else Mask(ShiftIn(Sig(bytes[..|bytes| - 1], k), bytes[|bytes| - 1]), k)
  }

  /** The i-th byte counted from the last one. */
  function FromEnd(bytes: seq<Byte>, i: nat): Byte
    requires i < |bytes|
  {
    bytes[|bytes| - 1 - i]
  }

  /** Some byte among the last j is 128 or more, so its sign has overrun the places above it. */
  predicate Overrun(bytes: seq<Byte>, j: nat) {
    exists i | 0 <= i < j && i < |bytes| :: FromEnd(bytes, i) >= 128
  }

  /** What each byte of the signature is: the j-th byte from the end, unless overrun. */
  function Digit(bytes: seq<Byte>, j: nat): Byte {
    if Overrun(bytes, j) then 255 else if j < |bytes| then FromEnd(bytes, j) else 0
  }

  lemma {:induction false} SigDigits(bytes: seq<Byte>, k: nat)
    requires k <= 8
    ensures forall j | 0 <= j < 8 :: Sig(bytes, k)[j] == if j < k then Digit(bytes, j) else 0
  {
    if bytes != [] {
      var n := |bytes| - 1;
      SigDigits(bytes[..n], k);
      forall j | 0 <= j < k
        ensures Sig(bytes, k)[j] == Digit(bytes, j)
      {
        DigitStep(bytes, j);
      }
    }
  }

  lemma DigitStep(bytes: seq<Byte>, j: nat)
    requires bytes != []
    ensures Digit(bytes, j) ==
            if j == 0 then bytes[|bytes| - 1]
            else if bytes[|bytes| - 1] >= 128 then 255 else Digit(bytes[..|bytes| - 1], j - 1)
  {
    var n := |bytes| - 1;
    if j > 0 {
      if Overrun(bytes[..n], j - 1) {
        var i :| 0 <= i < j - 1 && i < n && FromEnd(bytes[..n], i) >= 128;
        assert FromEnd(bytes, i + 1) >= 128;
      }
      if Overrun(bytes, j) && bytes[n] < 128 {
        var i :| 0 <= i < j && i < |bytes| && FromEnd(bytes, i) >= 128;
        assert FromEnd(bytes[..n], i - 1) >= 128;
      }
      assert bytes[n] >= 128 ==> FromEnd(bytes, 0) >= 128;
    }
  }

  /** The delimiter's own signature: never masked. */
  function DelimSig(d: seq<Byte>): Word {
    Sig(d, 8)
  }

  /** The scan stops after byte n. */
  predicate Hit(bytes: seq<Byte>, n: nat, d: seq<Byte>)
    requires n < |bytes|
  {
    Sig(bytes[..n + 1], |d|) == DelimSig(d)
  }

  /** The delimiters the search is right about. */
  predicate Searchable(d: seq<Byte>) {
    && 2 <= |d| <= 8
    && d[0] != 0
    && (|d| < 8 ==> d[0] < 128)
    && forall i | 1 <= i < |d| :: d[i] < 128
  }

  predicate EndsWith(bytes: seq<Byte>, d: seq<Byte>) {
    |d| <= |bytes| && bytes[|bytes| - |d|..] == d
  }

  lemma SearchableSig(d: seq<Byte>)
    requires Searchable(d)
    ensures forall j | 0 <= j < 8 :: DelimSig(d)[j] == if j < |d| then d[|d| - 1 - j] else 0
  {
    SigDigits(d, 8);
    forall j | 0 <= j < 8
      ensures Digit(d, j) == if j < |d| then d[|d| - 1 - j] else 0
    {
      assert !Overrun(d, j);
    }
  }

  /** For a searchable delimiter the signatures agree exactly when the bytes read end with it. */
  lemma SigFindsDelimiter(bytes: seq<Byte>, d: seq<Byte>)
    requires Searchable(d)
    ensures Sig(bytes, |d|) == DelimSig(d) <==> EndsWith(bytes, d)
  {
    SearchableSig(d);
    SigDigits(bytes, |d|);
    if EndsWith(bytes, d) {
      EndsWithMatches(bytes, d);
    }
    if Sig(bytes, |d|) == DelimSig(d) {
      MatchEndsWith(bytes, d);
    }
  }

  lemma EndsWithMatches(bytes: seq<Byte>, d: seq<Byte>)
    requires Searchable(d) && EndsWith(bytes, d)
    requires forall j | 0 <= j < 8 :: DelimSig(d)[j] == if j < |d| then d[|d| - 1 - j] else 0
    requires forall j | 0 <= j < 8 :: Sig(bytes, |d|)[j] == if j < |d| then Digit(bytes, j) else 0
    ensures Sig(bytes, |d|) == DelimSig(d)
  {
    var s := |bytes| - |d|;
    forall j | 0 <= j < |d|
      ensures Digit(bytes, j) == d[|d| - 1 - j]
    {
      forall i | 0 <= i <= j
        ensures FromEnd(bytes, i) == d[|d| - 1 - i]
      {
        assert bytes[s..][|d| - 1 - i] == d[|d| - 1 - i];
      }
      assert !Overrun(bytes, j);
    }
  }

  lemma MatchEndsWith(bytes: seq<Byte>, d: seq<Byte>)
    requires Searchable(d)
    requires forall j | 0 <= j < |d| :: Digit(bytes, j) == d[|d| - 1 - j]
    ensures EndsWith(bytes, d)
  {
    var k := |d|;
    NoOverrun(bytes, d, k - 1);
    assert !Overrun(bytes, k - 1);
    assert |bytes| < k ==> Digit(bytes, k - 1) == 0;
    forall j | 0 <= j < k
      ensures FromEnd(bytes, j) == d[k - 1 - j]
    {
      NoOverrun(bytes, d, j);
      assert Digit(bytes, j) == FromEnd(bytes, j);
    }
    forall i | 0 <= i < k
      ensures bytes[|bytes| - k..][i] == d[i]
    {
      assert FromEnd(bytes, k - 1 - i) == d[k - 1 - (k - 1 - i)];
    }
  }

  lemma {:induction false} NoOverrun(bytes: seq<Byte>, d: seq<Byte>, j: nat)
    requires Searchable(d) && j < |d|
    requires forall i | 0 <= i < |d| :: Digit(bytes, i) == d[|d| - 1 - i]
    ensures !Overrun(bytes, j)
  {
    if j > 0 {
      NoOverrun(bytes, d, j - 1);
      assert Digit(bytes, j - 1) == d[|d| - 1 - (j - 1)] < 128;
    }
  }

  datatype Cut = NotFound | Found(before: seq<Byte>, rest: seq<Byte>)

  /** The first byte from n on at which the scan stops, or -1. */
  function ScanFrom(bytes: seq<Byte>, d: seq<Byte>, n: nat): int
    requires n <= |bytes|
    decreases |bytes| - n
  {
    if n == |bytes| then -1 else if Hit(bytes, n, d) then n else ScanFrom(bytes, d, n + 1)
  }

  const SIZE_MODULUS: nat := 0x1_0000_0000_0000_0000

  /** The search as coded: the start of the match is computed in unsigned 64-bit arithmetic. */
  function SignatureCut(bytes: seq<Byte>, d: seq<Byte>): Cut {
    if |d| > 8 || |d| > |bytes| then NotFound else
    var n := ScanFrom(bytes, d, 0);
    if n < 0 then NotFound else
    var start := if n + 1 >= |d| then n + 1 - |d| else n + 1 - |d| + SIZE_MODULUS;
    var cut := if start < |bytes| then start else |bytes|;
    var rest := bytes[cut..];
    Found(bytes[..cut], if |d| < |rest| then rest[|d|..] else [])
  }

  predicate OccursAt(bytes: seq<Byte>, d: seq<Byte>, k: nat) {
    k + |d| <= |bytes| && bytes[k..k + |d|] == d
  }

  /** The first occurrence from k on, or -1. */
  function FirstFrom(bytes: seq<Byte>, d: seq<Byte>, k: nat): int
    decreases |bytes| - k
  {
    if k + |d| > |bytes| then -1 else if OccursAt(bytes, d, k) then k
    else if k >= |bytes| then -1 else FirstFrom(bytes, d, k + 1)
  }

  /** What a search promises: everything before the first occurrence, and everything after it. */
  function NaiveCut(bytes: seq<Byte>, d: seq<Byte>): Cut {
    var k := FirstFrom(bytes, d, 0);
    if k < 0 || k + |d| > |bytes| then NotFound else Found(bytes[..k], bytes[k + |d|..])
  }

  /** The naive search is a search: a result is an occurrence and nothing before it is. */
  lemma {:induction false} FirstFromIsFirst(bytes: seq<Byte>, d: seq<Byte>, k: nat)
    requires d != []
    ensures var f := FirstFrom(bytes, d, k);
            if f < 0 then forall j | k <= j :: !OccursAt(bytes, d, j)
            else k <= f && OccursAt(bytes, d, f) && forall j | k <= j < f :: !OccursAt(bytes, d, j)
    decreases |bytes| - k
  {
    if k + |d| <= |bytes| && !OccursAt(bytes, d, k) {
      FirstFromIsFirst(bytes, d, k + 1);
    }
  }

  lemma SplitOccurs(a: seq<Byte>, d: seq<Byte>, b: seq<Byte>)
    ensures OccursAt(a + d + b, d, |a|)
  {
    assert (a + d + b)[|a|..|a| + |d|] == d;
  }

  lemma OccurrenceSplits(bytes: seq<Byte>, d: seq<Byte>, k: nat)
    requires OccursAt(bytes, d, k)
    ensures bytes == bytes[..k] + d + bytes[k + |d|..]
  {
    assert bytes == bytes[..k] + bytes[k..k + |d|] + bytes[k + |d|..];
  }

  /** What the naive search finds is the split at the delimiter with the shortest front, if there is any. */
  lemma NaiveCutMeans(bytes: seq<Byte>, d: seq<Byte>)
    requires d != []
    ensures match NaiveCut(bytes, d)
            case Found(before, rest) =>
              bytes == before + d + rest && forall a, b | a + d + b == bytes :: |before| <= |a|
            case NotFound => forall a, b :: a + d + b != bytes
  {
    hide OccursAt;
    FirstFromIsFirst(bytes, d, 0);
    var f := FirstFrom(bytes, d, 0);
    hide FirstFrom;
    forall a, b | a + d + b == bytes ensures 0 <= f <= |a| {
      SplitOccurs(a, d, b);
    }
    if 0 <= f {
      Fits(bytes, d, f);
      OccurrenceSplits(bytes, d, f);
    }
  }

  lemma Fits(bytes: seq<Byte>, d: seq<Byte>, k: nat)
    requires OccursAt(bytes, d, k)
    ensures k + |d| <= |bytes|
  {
  }

  lemma HitIsOccurrence(bytes: seq<Byte>, d: seq<Byte>, n: nat)
    requires Searchable(d) && n < |bytes|
    ensures Hit(bytes, n, d) <==> n + 1 >= |d| && OccursAt(bytes, d, n + 1 - |d|)
  {
    SigFindsDelimiter(bytes[..n + 1], d);
    if n + 1 >= |d| {
      assert bytes[..n + 1][n + 1 - |d|..] == bytes[n + 1 - |d|..n + 1];
    }
  }

  lemma {:induction false} ScanIsFirst(bytes: seq<Byte>, d: seq<Byte>, n: nat)
    requires Searchable(d) && n <= |bytes| && |d| <= |bytes|
    ensures var k := if n + 1 >= |d| then n + 1 - |d| else 0;
            var f := FirstFrom(bytes, d, k);
            ScanFrom(bytes, d, n) == if f < 0 then -1 else f + |d| - 1
    decreases |bytes| - n
  {
    if n < |bytes| {
      HitIsOccurrence(bytes, d, n);
      if !Hit(bytes, n, d) {
        ScanIsFirst(bytes, d, n + 1);
      }
    }
  }

  lemma SearchableIsRight(bytes: seq<Byte>, d: seq<Byte>)
    requires Searchable(d)
    ensures SignatureCut(bytes, d) == NaiveCut(bytes, d)
  {
    if |d| <= |bytes| {
      ScanIsFirst(bytes, d, 0);
      FirstFromIsFirst(bytes, d, 0);
    }
  }

  lemma {:induction false} NoScan(bytes: seq<Byte>, d: seq<Byte>, n: nat)
    requires n <= |bytes| && forall i | n <= i < |bytes| :: !Hit(bytes, i, d)
    ensures ScanFrom(bytes, d, n) == -1
    decreases |bytes| - n
  {
    if n < |bytes| {
      NoScan(bytes, d, n + 1);
    }
  }

  lemma {:induction false} SomeScan(bytes: seq<Byte>, d: seq<Byte>, n: nat, i: nat)
    requires n <= i < |bytes| && Hit(bytes, i, d)
    ensures n <= ScanFrom(bytes, d, n) <= i
    decreases |bytes| - n
  {
    if n < i {
      SomeScan(bytes, d, n + 1, i);
    }
  }

  /** A short delimiter with a byte from 128 up is never found, not even in itself. */
  lemma HighByteNeverFound(d: seq<Byte>, h: nat)
    requires 2 <= |d| < 8 && h < |d| && d[h] >= 128
    ensures SignatureCut(d, d) == NotFound != NaiveCut(d, d)
  {
    SigDigits(d, 8);
    assert FromEnd(d, |d| - 1 - h) >= 128;
    assert Overrun(d, 7);
    assert DelimSig(d)[7] == 255;
    forall n | 0 <= n < |d|
      ensures !Hit(d, n, d)
    {
      SigDigits(d[..n + 1], |d|);
    }
    NoScan(d, d, 0);
    assert OccursAt(d, d, 0);
  }

  function Other(c: Byte): Byte {
    if c == 0 then 1 else 0
  }

  lemma OverrunHidesFirst(d: seq<Byte>, h: nat, c: Byte)
    requires |d| == 8 && 1 <= h < 8 && d[h] >= 128
    ensures Sig(d[0 := c], 8) == Sig(d, 8)
  {
    var bytes := d[0 := c];
    SigDigits(d, 8);
    SigDigits(bytes, 8);
    assert FromEnd(d, 7 - h) >= 128 && FromEnd(bytes, 7 - h) >= 128;
    assert Overrun(d, 7) && Overrun(bytes, 7);
    forall j | 0 <= j < 8
      ensures Digit(bytes, j) == Digit(d, j)
    {
      OverrunSame(bytes, d, j);
    }
  }

  /** An eight-byte delimiter with such a byte past its first one is found where it does not occur. */
  lemma HighByteFoundWrongly(d: seq<Byte>, h: nat)
    requires |d| == 8 && 1 <= h < 8 && d[h] >= 128
    ensures var bytes := d[0 := Other(d[0])]; SignatureCut(bytes, d) != NaiveCut(bytes, d)
  {
    var bytes := d[0 := Other(d[0])];
    OverrunHidesFirst(d, h, Other(d[0]));
    hide Sig;
    assert bytes[..8] == bytes;
    assert Hit(bytes, 7, d);
    SomeScan(bytes, d, 0, 7);
    assert bytes[0..8] == bytes && bytes[0] != d[0];
    assert !OccursAt(bytes, d, 0) && FirstFrom(bytes, d, 1) == -1;
    assert NaiveCut(bytes, d) == NotFound;
  }

  lemma OverrunSame(a: seq<Byte>, b: seq<Byte>, j: nat)
    requires |a| == |b| && j < |a|
    requires forall i | 0 <= i < j :: FromEnd(a, i) == FromEnd(b, i)
    ensures Overrun(a, j) == Overrun(b, j)
  {
    if Overrun(a, j) {
      var i :| 0 <= i < j && i < |a| && FromEnd(a, i) >= 128;
      assert FromEnd(b, i) >= 128;
    }
    if Overrun(b, j) {
      var i :| 0 <= i < j && i < |b| && FromEnd(b, i) >= 128;
      assert FromEnd(a, i) >= 128;
    }
  }

  /** A delimiter that starts with a zero byte is found before enough bytes have been read. */
  lemma LeadingZeroFoundEarly(d: seq<Byte>)
    requires 2 <= |d| <= 8 && d[0] == 0 && forall i | 1 <= i < |d| :: d[i] < 128
    ensures var bytes := d[1..] + [Other(d[|d| - 1])]; SignatureCut(bytes, d) != NaiveCut(bytes, d)
  {
    var k := |d|;
    var bytes := d[1..] + [Other(d[k - 1])];
    assert bytes[..k - 1] == d[1..];
    SigDigits(d, 8);
    SigDigits(d[1..], k);
    forall j | 0 <= j < 8
      ensures Digit(d, j) == if j < k then Digit(d[1..], j) else 0
    {
      forall i | 0 <= i < k - 1
        ensures FromEnd(d[1..], i) == FromEnd(d, i) < 128
      {}
      assert !Overrun(d, j) && !Overrun(d[1..], j);
    }
    assert Sig(d[1..], k) == DelimSig(d);
    assert Hit(bytes, k - 2, d);
    SomeScan(bytes, d, 0, k - 2);
    assert bytes[0..k] == bytes && bytes[k - 1] != d[k - 1];
    assert !OccursAt(bytes, d, 0);
  }

  /** Longer delimiters are refused outright. */
  lemma LongNeverFound(d: seq<Byte>)
    requires |d| > 8
    ensures SignatureCut(d, d) != NaiveCut(d, d)
  {
    assert d[0..|d|] == d;
    assert OccursAt(d, d, 0);
  }

  ghost predicate RightEverywhere(d: seq<Byte>) {
    forall bytes: seq<Byte> :: SignatureCut(bytes, d) == NaiveCut(bytes, d)
  }

  /** The search is right on every buffer for exactly the searchable delimiters. */
  lemma SearchRightExactly(d: seq<Byte>)
    requires 2 <= |d|
    ensures RightEverywhere(d) <==> Searchable(d)
  {
    if Searchable(d) {
      forall bytes: seq<Byte>
        ensures SignatureCut(bytes, d) == NaiveCut(bytes, d)
      {
        SearchableIsRight(bytes, d);
      }
    } else if |d| > 8 {
      LongNeverFound(d);
    } else if exists h | 0 <= h < |d| && (h > 0 || |d| < 8) :: d[h] >= 128 {
      var h :| 0 <= h < |d| && (h > 0 || |d| < 8) && d[h] >= 128;
      if |d| < 8 {
        HighByteNeverFound(d, h);
      } else {
        HighByteFoundWrongly(d, h);
      }
    } else {
      LeadingZeroFoundEarly(d);
    }
  }
}
