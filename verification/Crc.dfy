/**
 * CRC-16/CCITT-FALSE of the BR Code (section 4.1): a 16-bit register, most significant bit first,
 * and the burst errors it detects.
 */
module Crc {

  // ---------------------------------------------------------------- 16-bit words

  const ZERO_BITS: seq<bool> := [false, false, false, false, false, false, false, false,
                                 false, false, false, false, false, false, false, false]

  type Word = w: seq<bool> | |w| == 16 witness ZERO_BITS

  function Xor(x: Word, y: Word): Word {
    seq(16, i requires 0 <= i < 16 => x[i] != y[i])
  }

  function ShiftLeft(x: Word): Word {
    x[1..] + [false]
  }

  /** 0xFFFF */
  const INITIAL: Word := [true, true, true, true, true, true, true, true, true, true, true, true, true, true, true, true]

  /** 0x1021 */
  const POLYNOMIAL: Word := [false, false, false, true, false, false, false, false,
                             false, false, true, false, false, false, false, true]

  /** A message of at most 16 bits, left aligned. */
  function LeftAligned(bits: seq<bool>): Word
    requires |bits| <= 16
  {
    bits + ZERO_BITS[|bits|..]
  }

  // ---------------------------------------------------------------- the register

  /** One step of the inner loop. */
  function Shift(r: Word): Word {
    if r[0] then Xor(ShiftLeft(r), POLYNOMIAL) else ShiftLeft(r)
  }

  function ShiftBy(r: Word, n: nat): Word
    decreases n
  {
    if n == 0 then r else ShiftBy(Shift(r), n - 1)
  }

  /** One message bit. */
  function Feed(r: Word, bit: bool): Word {
    Shift(Xor(r, LeftAligned([bit])))
  }

  function FeedAll(r: Word, bits: seq<bool>): Word
    decreases |bits|
  {
    if bits == [] then r else FeedAll(Feed(r, bits[0]), bits[1..])
  }

  lemma {:induction false} FeedAllAppend(r: Word, x: seq<bool>, y: seq<bool>)
    ensures FeedAll(r, x + y) == FeedAll(FeedAll(r, x), y)
    decreases |x|
  {
    if x == [] {
      assert x + y == y;
    } else {
      assert (x + y)[1..] == x[1..] + y;
      FeedAllAppend(Feed(r, x[0]), x[1..], y);
    }
  }

  lemma ShiftBit(r: Word, i: nat)
    requires i < 16
    ensures Shift(r)[i] == ((if i < 15 then r[i + 1] else false) != (r[0] && POLYNOMIAL[i]))
  {
    assert ShiftLeft(r)[i] == if i < 15 then r[i + 1] else false;
  }

  lemma AlignedBit(r: Word, bits: seq<bool>, i: nat)
    requires |bits| <= 16 && i < 16
    ensures Xor(r, LeftAligned(bits))[i] == (r[i] != (if i < |bits| then bits[i] else false))
  {
    if |bits| <= i {
      assert LeftAligned(bits)[i] == ZERO_BITS[i];
    }
  }

  /** Bit i of a fed register. */
  lemma FeedBit(r: Word, bit: bool, i: nat)
    requires i < 16
    ensures Feed(r, bit)[i] == ((if i < 15 then r[i + 1] else false) != ((r[0] != bit) && POLYNOMIAL[i]))
  {
    ShiftBit(Xor(r, LeftAligned([bit])), i);
    AlignedBit(r, [bit], 0);
    if i < 15 { AlignedBit(r, [bit], i + 1); }
  }

  lemma ShiftAlignedBit(r: Word, bits: seq<bool>, i: nat)
    requires 0 < |bits| <= 16 && i < 16
    ensures Shift(Xor(r, LeftAligned(bits)))[i] == Xor(Feed(r, bits[0]), LeftAligned(bits[1..]))[i]
  {
    ShiftBit(Xor(r, LeftAligned(bits)), i);
    AlignedBit(r, bits, 0);
    if i < 15 { AlignedBit(r, bits, i + 1); }
    AlignedBit(Feed(r, bits[0]), bits[1..], i);
    FeedBit(r, bits[0], i);
  }

  lemma SameWord(x: Word, y: Word)
    requires forall i | 0 <= i < 16 :: x[i] == y[i]
    ensures x == y
  {
    assert |x| == |y|;
  }

  lemma ShiftAligned(r: Word, bits: seq<bool>)
    requires 0 < |bits| <= 16
    ensures Shift(Xor(r, LeftAligned(bits))) == Xor(Feed(r, bits[0]), LeftAligned(bits[1..]))
  {
    forall i | 0 <= i < 16
      ensures Shift(Xor(r, LeftAligned(bits)))[i] == Xor(Feed(r, bits[0]), LeftAligned(bits[1..]))[i]
    {
      ShiftAlignedBit(r, bits, i);
    }
    SameWord(Shift(Xor(r, LeftAligned(bits))), Xor(Feed(r, bits[0]), LeftAligned(bits[1..])));
  }

  /** Adding a whole block to the register and then shifting is feeding it bit by bit. */
  lemma {:induction false} BlockIsBits(r: Word, bits: seq<bool>)
    requires |bits| <= 16
    ensures ShiftBy(Xor(r, LeftAligned(bits)), |bits|) == FeedAll(r, bits)
    decreases |bits|
  {
    if bits == [] {
      assert Xor(r, LeftAligned(bits)) == r;
    } else {
      ShiftAligned(r, bits);
      BlockIsBits(Feed(r, bits[0]), bits[1..]);
    }
  }

  // ---------------------------------------------------------------- bursts

  /** If two fed registers agree on all but their k first bits, the registers before agreed on all
      but one more. */
  lemma FeedBack(r: Word, a: bool, q: Word, b: bool, k: nat)
    requires k <= 15 && Feed(r, a)[k..] == Feed(q, b)[k..]
    ensures r[k + 1..] == q[k + 1..]
    ensures (r[0] != a) == (q[0] != b)
  {
    FeedBit(r, a, 15);
    FeedBit(q, b, 15);
    assert Feed(r, a)[k..][15 - k] == Feed(r, a)[15] && Feed(q, b)[k..][15 - k] == Feed(q, b)[15];
    forall i | k + 1 <= i < 16
      ensures r[i] == q[i]
    {
      FeedBit(r, a, i - 1);
      FeedBit(q, b, i - 1);
      assert Feed(r, a)[k..][i - 1 - k] == Feed(q, b)[k..][i - 1 - k];
    }
  }

  /** k more bits can only make registers meet that already agree on all but their first k bits. */
  lemma {:induction false} MeetingAgrees(r: Word, x: seq<bool>, q: Word, y: seq<bool>)
    requires |x| == |y| <= 16 && FeedAll(r, x) == FeedAll(q, y)
    ensures r[|x|..] == q[|x|..]
    decreases |x|
  {
    if x != [] {
      MeetingAgrees(Feed(r, x[0]), x[1..], Feed(q, y[0]), y[1..]);
      FeedBack(r, x[0], q, y[0], |x| - 1);
    }
  }

  /** A burst that starts with a difference and is at most 16 bits long splits the registers. */
  lemma BurstSplits(r: Word, x: seq<bool>, y: seq<bool>)
    requires 0 < |x| == |y| <= 16 && x[0] != y[0]
    ensures FeedAll(r, x) != FeedAll(r, y)
  {
    if FeedAll(r, x) == FeedAll(r, y) {
      MeetingAgrees(Feed(r, x[0]), x[1..], Feed(r, y[0]), y[1..]);
      FeedBack(r, x[0], r, y[0], |x| - 1);
    }
  }

  lemma FeedInjective(r: Word, q: Word, bit: bool)
    requires Feed(r, bit) == Feed(q, bit)
    ensures r == q
  {
    FeedBack(r, bit, q, bit, 0);
    assert r == [r[0]] + r[1..] && q == [q[0]] + q[1..];
  }

  /** Equal bits never make different registers meet. */
  lemma {:induction false} SameBitsKeepApart(r: Word, q: Word, bits: seq<bool>)
    requires r != q
    ensures FeedAll(r, bits) != FeedAll(q, bits)
    decreases |bits|
  {
    if bits != [] {
      if Feed(r, bits[0]) == Feed(q, bits[0]) { FeedInjective(r, q, bits[0]); }
      SameBitsKeepApart(Feed(r, bits[0]), Feed(q, bits[0]), bits[1..]);
    }
  }

  ghost function FirstDifference(x: seq<bool>, y: seq<bool>): (k: nat)
    requires |x| == |y| && x != y
    ensures k < |x| && x[k] != y[k] && x[..k] == y[..k]
    decreases |x|
  {
    if x[0] != y[0] then 0
    else
      var k := FirstDifference(x[1..], y[1..]);
      assert x[..k + 1] == [x[0]] + x[1..][..k];
      assert y[..k + 1] == [y[0]] + y[1..][..k];
      k + 1
  }

  lemma SplitInThree(r: Word, x: seq<bool>, i: nat, j: nat)
    requires i <= j <= |x|
    ensures FeedAll(r, x) == FeedAll(FeedAll(FeedAll(r, x[..i]), x[i..j]), x[j..])
  {
    assert x == x[..j] + x[j..];
    FeedAllAppend(r, x[..j], x[j..]);
    assert x[..j] == x[..i] + x[i..j];
    FeedAllAppend(r, x[..i], x[i..j]);
  }

  /** Any two messages of the same length that differ, but only within 16 consecutive bits, leave
      different registers, whatever comes before and after the burst. */
  lemma BurstDetected(r: Word, x: seq<bool>, y: seq<bool>, from: nat)
    requires |x| == |y| && x != y
    requires forall i | 0 <= i < |x| && x[i] != y[i] :: from <= i < from + 16
    ensures FeedAll(r, x) != FeedAll(r, y)
  {
    hide FeedAll, FirstDifference;
    var first := FirstDifference(x, y);
    var end := if from + 16 < |x| then from + 16 else |x|;
    SplitInThree(r, x, first, end);
    SplitInThree(r, y, first, end);
    assert x[end..] == y[end..];
    var before := FeedAll(r, x[..first]);
    BurstSplits(before, x[first..end], y[first..end]);
    SameBitsKeepApart(FeedAll(before, x[first..end]), FeedAll(before, y[first..end]), x[end..]);
  }
}
