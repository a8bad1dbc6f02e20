/**
 * Byte- and word-level arithmetic shared by the packet codec and the register
 * banks: the signed `char` view of a byte, byte sums, little-endian 32-bit words
 * and the 32-bit wrap-around sum of a run of words.
 */
module Bytes {

  const TWO_32: int := 0x1_0000_0000

  /** The value of a byte read through a signed `char`, as the driver's buffers are typed. */
  function SignedChar(b: bv8): (v: int)
    ensures -128 <= v < 128
    ensures v % 256 == b as int
  {
    if b < 128 then b as int else b as int - 256
  }

  /** Conversion of an `int` result to `char`: only the low eight bits are kept. */
  function Truncate8(x: int): (b: bv8)
    ensures b as int == x % 256
  {
    ByteOf(x % 256)
  }

  /**
   * The byte whose value is `n`, counted up from zero. It stands in for the
   * conversion `n as bv8`, which costs the solver far more to reason about.
   */
  function ByteOf(n: nat): (b: bv8)
    requires n < 256
    ensures b as int == n
  {
    if n == 0 then 0 else ByteOf(n - 1) + 1
  }

  /** Bitwise NOT on a two's complement `int`. */
  function Complement(x: int): int
  {
    -x - 1
  }

  /** The sum `std::accumulate` forms over a run of `char`s, starting from the `int` 0. */
  function SignedSum(bs: seq<bv8>): (r: int)
    ensures -128 * |bs| <= r <= 127 * |bs|
  {
    if bs == [] then 0 else SignedSum(bs[..|bs| - 1]) + SignedChar(bs[|bs| - 1])
  }

  /** The sum of the same bytes read as unsigned values. */
  function ByteSum(bs: seq<bv8>): nat
  {
    if bs == [] then 0 else ByteSum(bs[..|bs| - 1]) + bs[|bs| - 1] as nat
  }

  /** The number of bytes whose `char` value is negative. */
  function HighCount(bs: seq<bv8>): nat
  {
    if bs == [] then 0 else HighCount(bs[..|bs| - 1]) + (if bs[|bs| - 1] < 128 then 0 else 1)
  }

  /** Each negative `char` contributes 256 less than its unsigned byte. */
  lemma {:induction false} SignedSumShift(bs: seq<bv8>)
    ensures SignedSum(bs) == ByteSum(bs) - 256 * HighCount(bs)
  {
    if bs != [] {
      SignedSumShift(bs[..|bs| - 1]);
    }
  }

  /** Summing signed or unsigned bytes agrees modulo 256. */
  lemma SignedSumMod(bs: seq<bv8>)
    ensures SignedSum(bs) % 256 == ByteSum(bs) % 256
  {
    SignedSumShift(bs);
    ModMultiple(ByteSum(bs), HighCount(bs));
  }

  /** Replacing one byte moves the sum by exactly the difference of the two bytes. */
  lemma {:induction false} ByteSumUpdate(bs: seq<bv8>, i: nat, b: bv8)
    requires i < |bs|
    ensures ByteSum(bs[i := b]) == ByteSum(bs) - bs[i] as int + b as int
  {
    var last := |bs| - 1;
    if i == last {
      assert bs[i := b][..last] == bs[..last];
    } else {
      assert bs[i := b][..last] == bs[..last][i := b];
      ByteSumUpdate(bs[..last], i, b);
    }
  }

  lemma ModMultiple(x: int, q: int)
    ensures (x - 256 * q) % 256 == x % 256
  {
  }

  /** Subtracting either of two values congruent modulo 256 leaves the same remainder. */
  lemma SubMod(c: int, s: int, b: int)
    requires s % 256 == b % 256
    ensures (c - s) % 256 == (c - b) % 256
  {
    var q := s / 256 - b / 256;
    assert s - b == 256 * q;
    ModMultiple(c - b, q);
  }

  /** Adding the remainder of `0x32 - s` to `s` leaves 0x32 modulo 256. */
  lemma SealMod(s: int, c: int)
    requires c == (0x32 - s) % 256
    ensures (s + c) % 256 == 0x32
  {
    var q := (0x32 - s) / 256;
    assert 0x32 - s == 256 * q + c;
    ModMultiple(0x32, q);
  }

  /** Moving a value by a nonzero amount smaller than 256 changes its remainder modulo 256. */
  lemma ShiftChangesMod(a: int, d: int)
    requires -256 < d < 256 && d != 0
    ensures (a + d) % 256 != a % 256
  {
    assert a == 256 * (a / 256) + a % 256;
  }

  /** The count field of a request: the `size_t` item count truncated to the 32-bit payload field. */
  function Truncate32(n: nat): bv32
  {
    (n % TWO_32) as bv32
  }

  /** The four bytes of a word, least significant first, as an x86 host stores it. */
  function LeBytes(w: bv32): (bs: seq<bv8>)
    ensures |bs| == 4
  {
    [(w & 0xFF) as bv8, ((w >> 8) & 0xFF) as bv8, ((w >> 16) & 0xFF) as bv8, ((w >> 24) & 0xFF) as bv8]
  }

  /** The word stored in four bytes, least significant first. */
  function LeWord(bs: seq<bv8>): bv32
    requires |bs| == 4
  {
    (bs[0] as bv32) | (bs[1] as bv32 << 8) | (bs[2] as bv32 << 16) | (bs[3] as bv32 << 24)
  }

  lemma LeWordOfBytes(w: bv32)
    ensures LeWord(LeBytes(w)) == w
  {
  }

  lemma LeBytesOfWord(bs: seq<bv8>)
    requires |bs| == 4
    ensures LeBytes(LeWord(bs)) == bs
  {
  }

  /** A run of words laid out in memory, each little-endian. */
  function LeBytesSeq(ws: seq<bv32>): (bs: seq<bv8>)
    ensures |bs| == 4 * |ws|
  {
    if ws == [] then [] else LeBytesSeq(ws[..|ws| - 1]) + LeBytes(ws[|ws| - 1])
  }

  /** The `k` words a `memcpy` reads from `buf` starting at byte `off`. */
  function LeWords(buf: seq<bv8>, off: nat, k: nat): (ws: seq<bv32>)
    requires off + 4 * k <= |buf|
    ensures |ws| == k
    ensures forall j :: 0 <= j < k ==> ws[j] == LeWord(buf[off + 4 * j .. off + 4 * j + 4])
  {
    seq(k, j requires 0 <= j < k => LeWord(buf[off + 4 * j .. off + 4 * j + 4]))
  }

  /** Word `j` of a laid-out run sits in bytes 4j .. 4j+3. */
  lemma {:induction false} LeBytesSeqAt(ws: seq<bv32>, j: nat)
    requires j < |ws|
    ensures LeBytesSeq(ws)[4 * j .. 4 * j + 4] == LeBytes(ws[j])
  {
    var init := ws[..|ws| - 1];
    assert LeBytesSeq(ws) == LeBytesSeq(init) + LeBytes(ws[|ws| - 1]);
    if j < |ws| - 1 {
      LeBytesSeqAt(init, j);
      assert LeBytesSeq(ws)[4 * j .. 4 * j + 4] == LeBytesSeq(init)[4 * j .. 4 * j + 4];
    }
  }

  lemma SliceOfFront(a: seq<bv8>, b: seq<bv8>, i: nat, j: nat)
    requires i <= j <= |a|
    ensures (a + b)[i..j] == a[i..j]
  {
  }

  lemma SliceOfMiddle(pre: seq<bv8>, mid: seq<bv8>, post: seq<bv8>, i: nat, j: nat)
    requires i <= j <= |mid|
    ensures (pre + mid + post)[|pre| + i .. |pre| + j] == mid[i..j]
  {
  }

  lemma SliceOfBack(a: seq<bv8>, b: seq<bv8>)
    ensures (a + b)[|a| .. |a| + |b|] == b
  {
  }

  lemma WordAt(pre: seq<bv8>, ws: seq<bv32>, post: seq<bv8>, j: nat)
    requires j < |ws|
    ensures var buf := pre + LeBytesSeq(ws) + post;
      LeWord(buf[|pre| + 4 * j .. |pre| + 4 * j + 4]) == ws[j]
  {
    SliceOfMiddle(pre, LeBytesSeq(ws), post, 4 * j, 4 * j + 4);
    LeBytesSeqAt(ws, j);
    LeWordOfBytes(ws[j]);
  }

  /** Reading back words that were laid out little-endian recovers them, whatever surrounds them. */
  lemma LeWordsOfBytes(pre: seq<bv8>, ws: seq<bv32>, post: seq<bv8>)
    ensures LeWords(pre + LeBytesSeq(ws) + post, |pre|, |ws|) == ws
  {
    var buf := pre + LeBytesSeq(ws) + post;
    var off := |pre|;
    var rs := LeWords(buf, off, |ws|);
    forall j | 0 <= j < |ws|
      ensures rs[j] == ws[j]
    {
      LeWordsAt(pre, ws, post, j);
    }
    assert |rs| == |ws|;
    assert rs == ws;
  }

  lemma LeWordsAt(pre: seq<bv8>, ws: seq<bv32>, post: seq<bv8>, j: nat)
    requires j < |ws|
    ensures LeWords(pre + LeBytesSeq(ws) + post, |pre|, |ws|)[j] == ws[j]
  {
    var buf := pre + LeBytesSeq(ws) + post;
    var off := |pre|;
    assert LeWords(buf, off, |ws|)[j] == LeWord(buf[off + 4 * j .. off + 4 * j + 4]);
    WordAt(pre, ws, post, j);
  }

  /** Addition of two 32-bit words, wrapping at 2^32. */
  function Add32(a: bv32, b: bv32): bv32
  {
    a + b
  }

  /** `std::accumulate` over 32-bit words, with the sum wrapping at 2^32. A run of zero words sums to zero. */
  function Accumulate(ws: seq<bv32>): (r: bv32)
    ensures (forall i | 0 <= i < |ws| :: ws[i] == 0) ==> r == 0
  {
    if ws == [] then 0 else Add32(Accumulate(ws[..|ws| - 1]), ws[|ws| - 1])
  }

  /** One more word on a prefix adds it to the sum. */
  lemma AccumulateSnoc(ws: seq<bv32>, w: bv32)
    ensures Accumulate(ws + [w]) == Add32(Accumulate(ws), w)
  {
    assert (ws + [w])[..|ws|] == ws;
  }
}
