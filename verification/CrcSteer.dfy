/**
 * Any checksum can be had: four ASCII characters anywhere in a text steer its CRC to any value. Hence
 * for every key some merchant name gives a generated payload that the CRC check rejects.
 */
module CrcSteer {

  import opened Wrappers
  import opened Crc
  import opened CrcText
  import opened CrcCheck
  import opened Tlv
  import opened BrCode
  import opened BrCodeRoundTrip

  // ---------------------------------------------------------------- the register is a bijection

  const ZERO: Word := ZERO_BITS

  /** The register that a bit turns into a given one. */
  function Before(t: Word, bit: bool): Word {
    seq(16, i requires 0 <= i < 16 => if i == 0 then t[15] != bit else t[i - 1] != (t[15] && POLYNOMIAL[i - 1]))
  }

  lemma FeedOfBefore(t: Word, bit: bool)
    ensures Feed(Before(t, bit), bit) == t
  {
    var q := Before(t, bit);
    forall i | 0 <= i < 16
      ensures Feed(q, bit)[i] == t[i]
    {
      FeedBit(q, bit, i);
    }
    SameWord(Feed(q, bit), t);
  }

  /** Whatever bits are to come, some register leads through them to a given one. */
  lemma {:induction false} SomeStart(t: Word, bits: seq<bool>) returns (q: Word)
    ensures FeedAll(q, bits) == t
    decreases |bits|
  {
    hide Feed, Before;
    if bits == [] {
      q := t;
    } else {
      var n := |bits| - 1;
      FeedOfBefore(t, bits[n]);
      q := SomeStart(Before(t, bits[n]), bits[..n]);
      assert bits == bits[..n] + [bits[n]] && [bits[n]][1..] == [];
      FeedAllAppend(q, bits[..n], [bits[n]]);
    }
  }

  lemma XorTwice(r: Word, q: Word)
    ensures Xor(r, Xor(r, q)) == q
  {
    SameWord(Xor(r, Xor(r, q)), q);
  }

  lemma AlignedWord(w: Word)
    ensures LeftAligned(w) == w
  {
  }

  lemma XorZero(w: Word)
    ensures Xor(w, ZERO) == w
  {
    SameWord(Xor(w, ZERO), w);
  }

  /** Sixteen bits lead from any register to any other. */
  lemma SomeBlock(r: Word, t: Word) returns (bits: seq<bool>)
    ensures |bits| == 16 && FeedAll(r, bits) == t
  {
    var q := SomeStart(t, ZERO);
    bits := Xor(r, q);
    hide FeedAll, ShiftBy, Xor, LeftAligned;
    BlockIsBits(q, ZERO);
    AlignedWord(ZERO);
    XorZero(q);
    BlockIsBits(r, bits);
    AlignedWord(Xor(r, q));
    XorTwice(r, q);
  }

  // ---------------------------------------------------------------- changes that do not show

  function XorBits(x: seq<bool>, y: seq<bool>): (z: seq<bool>)
    requires |x| == |y|
    ensures |z| == |x|
  {
    seq(|x|, i requires 0 <= i < |x| => x[i] != y[i])
  }

  lemma FeedXorBit(r: Word, a: bool, d: Word, b: bool, i: nat)
    requires i < 16
    ensures Feed(Xor(r, d), a != b)[i] == Xor(Feed(r, a), Feed(d, b))[i]
  {
    FeedBit(Xor(r, d), a != b, i);
    FeedBit(r, a, i);
    FeedBit(d, b, i);
  }

  lemma FeedXor(r: Word, a: bool, d: Word, b: bool)
    ensures Feed(Xor(r, d), a != b) == Xor(Feed(r, a), Feed(d, b))
  {
    forall i | 0 <= i < 16
      ensures Feed(Xor(r, d), a != b)[i] == Xor(Feed(r, a), Feed(d, b))[i]
    {
      FeedXorBit(r, a, d, b, i);
    }
    SameWord(Feed(Xor(r, d), a != b), Xor(Feed(r, a), Feed(d, b)));
  }

  /** The register is linear in itself and the message. */
  lemma {:induction false} FeedAllXor(r: Word, x: seq<bool>, d: Word, y: seq<bool>)
    requires |x| == |y|
    ensures FeedAll(Xor(r, d), XorBits(x, y)) == Xor(FeedAll(r, x), FeedAll(d, y))
    decreases |x|
  {
    hide Feed, Xor;
    if x != [] {
      FeedXor(r, x[0], d, y[0]);
      assert XorBits(x, y)[1..] == XorBits(x[1..], y[1..]);
      FeedAllXor(Feed(r, x[0]), x[1..], Feed(d, y[0]), y[1..]);
    }
  }

  /** The polynomial with its leading bit: 17 bits that leave the empty register empty. */
  const CODE: seq<bool> := [true] + POLYNOMIAL

  lemma FeedOneToZero()
    ensures Feed(ZERO, true) == POLYNOMIAL && Feed(ZERO, false) == ZERO
  {
    forall i | 0 <= i < 16
      ensures Feed(ZERO, true)[i] == POLYNOMIAL[i] && Feed(ZERO, false)[i] == ZERO[i]
    {
      FeedBit(ZERO, true, i);
      FeedBit(ZERO, false, i);
    }
    SameWord(Feed(ZERO, true), POLYNOMIAL);
    SameWord(Feed(ZERO, false), ZERO);
  }

  lemma ShiftZero()
    ensures Shift(ZERO) == ZERO
  {
    SameWord(Shift(ZERO), ZERO);
  }

  lemma {:induction false} ShiftByZero(n: nat)
    ensures ShiftBy(ZERO, n) == ZERO
    decreases n
  {
    hide Shift;
    ShiftZero();
    if n > 0 { ShiftByZero(n - 1); }
  }

  lemma XorSelf(w: Word)
    ensures Xor(w, w) == ZERO
  {
    SameWord(Xor(w, w), ZERO);
  }

  lemma CodeIsInvisible()
    ensures |CODE| == 17 && FeedAll(ZERO, CODE) == ZERO
  {
    FeedOneToZero();
    assert CODE[1..] == POLYNOMIAL && CODE[0];
    hide Feed, ShiftBy, LeftAligned, Xor;
    BlockIsBits(POLYNOMIAL, POLYNOMIAL);
    AlignedWord(POLYNOMIAL);
    XorSelf(POLYNOMIAL);
    ShiftByZero(16);
  }

  predicate AllFalse(bits: seq<bool>) {
    forall i | 0 <= i < |bits| :: !bits[i]
  }

  lemma {:induction false} ZerosAreInvisible(bits: seq<bool>)
    requires AllFalse(bits)
    ensures FeedAll(ZERO, bits) == ZERO
    decreases |bits|
  {
    FeedOneToZero();
    hide Feed;
    if bits != [] { ZerosAreInvisible(bits[1..]); }
  }

  /** The message of a given length that is the code from a position on. */
  function CodeAt(at: nat, length: nat): (bits: seq<bool>)
    requires at + 17 <= length
    ensures |bits| == length
  {
    seq(length, i requires 0 <= i < length => at <= i < at + 17 && CODE[i - at])
  }

  lemma CodeParts(at: nat, length: nat)
    requires at + 17 <= length
    ensures var c := CodeAt(at, length);
      && c[at..at + 17] == CODE
      && AllFalse(c[..at]) && AllFalse(c[at + 17..])
  {
    var part := CodeAt(at, length)[at..at + 17];
    assert forall k | 0 <= k < 17 :: part[k] == CODE[k];
  }

  lemma InvisibleInTheMiddle(c: seq<bool>, from: nat, to: nat)
    requires from <= to <= |c| && FeedAll(ZERO, c[from..to]) == ZERO
    requires AllFalse(c[..from]) && AllFalse(c[to..])
    ensures FeedAll(ZERO, c) == ZERO
  {
    SplitInThree(ZERO, c, from, to);
    ZerosAreInvisible(c[..from]);
    ZerosAreInvisible(c[to..]);
    hide FeedAll;
  }

  lemma CodeAtIsInvisible(at: nat, length: nat)
    requires at + 17 <= length
    ensures FeedAll(ZERO, CodeAt(at, length)) == ZERO
  {
    hide FeedAll, CodeAt;
    CodeIsInvisible();
    CodeParts(at, length);
    InvisibleInTheMiddle(CodeAt(at, length), at, at + 17);
  }

  /** Flips the bits of the code from a position on: the one there, and those 4, 11 and 16 further. */
  function Turned(bits: seq<bool>, at: nat): (r: seq<bool>)
    requires at + 17 <= |bits|
    ensures |r| == |bits|
  {
    XorBits(bits, CodeAt(at, |bits|))
  }

  lemma TurnDoesNotShow(r: Word, bits: seq<bool>, at: nat)
    requires at + 17 <= |bits|
    ensures FeedAll(r, Turned(bits, at)) == FeedAll(r, bits)
  {
    FeedAllXor(r, bits, ZERO, CodeAt(at, |bits|));
    CodeAtIsInvisible(at, |bits|);
    XorZero(r);
    XorZero(FeedAll(r, bits));
    hide FeedAll, Xor;
  }

  lemma CodeBits(k: nat)
    requires k < 17
    ensures |CODE| == 17 && CODE[k] == (k == 0 || k == 4 || k == 11 || k == 16)
  {
    if k > 0 { assert CODE[k] == POLYNOMIAL[k - 1]; }
  }

  predicate IsHit(at: nat, i: nat) {
    i == at || i == at + 4 || i == at + 11 || i == at + 16
  }

  lemma TurnedBit(bits: seq<bool>, at: nat, i: nat)
    requires at + 17 <= |bits| && i < |bits|
    ensures Turned(bits, at)[i] == (bits[i] != IsHit(at, i))
  {
    if at <= i < at + 17 { CodeBits(i - at); }
  }

  // ---------------------------------------------------------------- four characters

  /** The two leading bits of the characters from '@' on. */
  predicate Leads(bits: seq<bool>, at: nat)
    requires at + 1 < |bits|
  {
    !bits[at] && bits[at + 1]
  }

  /** Turns the bits from a position on if asked to. */
  function TurnIf(turn: bool, bits: seq<bool>, at: nat): (r: seq<bool>)
    requires at + 17 <= |bits|
    ensures |r| == |bits|
  {
    if turn then Turned(bits, at) else bits
  }

  lemma TurnIfDoesNotShow(r: Word, turn: bool, bits: seq<bool>, at: nat)
    requires at + 17 <= |bits|
    ensures FeedAll(r, TurnIf(turn, bits, at)) == FeedAll(r, bits)
  {
    if turn { TurnDoesNotShow(r, bits, at); }
  }

  lemma TurnIfBit(turn: bool, bits: seq<bool>, at: nat, i: nat)
    requires at + 17 <= |bits| && i < |bits|
    ensures TurnIf(turn, bits, at)[i] == (bits[i] != (turn && IsHit(at, i)))
  {
    if turn { TurnedBit(bits, at, i); }
  }

  /** The eight bits in which a repair may not err. */
  lemma LeadBits(turn: bool, bits: seq<bool>, at: nat)
    requires |bits| == 32 && at + 17 <= 32
    ensures forall i | i in {0, 1, 8, 9, 16, 17, 24, 25} :: TurnIf(turn, bits, at)[i] == (bits[i] != (turn && IsHit(at, i)))
  {
    hide TurnIf;
    forall i | i in {0, 1, 8, 9, 16, 17, 24, 25}
      ensures TurnIf(turn, bits, at)[i] == (bits[i] != (turn && IsHit(at, i)))
    {
      TurnIfBit(turn, bits, at, i);
    }
  }

  /** 32 bits whose first two bytes already lead can be repaired so that all four do. */
  lemma Repaired(r: Word, bits: seq<bool>) returns (fixed: seq<bool>)
    requires |bits| == 32 && Leads(bits, 0) && Leads(bits, 8)
    ensures |fixed| == 32 && Leads(fixed, 0) && Leads(fixed, 8) && Leads(fixed, 16) && Leads(fixed, 24)
    ensures FeedAll(r, fixed) == FeedAll(r, bits)
  {
    hide FeedAll, TurnIf;
    var b1 := TurnIf(bits[24], bits, 8);
    var b2 := TurnIf(bits[24], b1, 4);
    var b3 := TurnIf(!b2[25], b2, 14);
    var b4 := TurnIf(b3[16], b3, 12);
    fixed := TurnIf(!b4[17], b4, 6);
    TurnIfDoesNotShow(r, bits[24], bits, 8);
    TurnIfDoesNotShow(r, bits[24], b1, 4);
    TurnIfDoesNotShow(r, !b2[25], b2, 14);
    TurnIfDoesNotShow(r, b3[16], b3, 12);
    TurnIfDoesNotShow(r, !b4[17], b4, 6);
    LeadBits(bits[24], bits, 8);
    LeadBits(bits[24], b1, 4);
    LeadBits(!b2[25], b2, 14);
    LeadBits(b3[16], b3, 12);
    LeadBits(!b4[17], b4, 6);
  }

  function FromBits(bits: seq<bool>): nat
    decreases |bits|
  {
    if bits == [] then 0 else 2 * FromBits(bits[..|bits| - 1]) + Weight(bits[|bits| - 1], 1)
  }

  lemma {:induction false} BinaryOfFromBits(bits: seq<bool>)
    ensures Binary(FromBits(bits), |bits|) == bits
    decreases |bits|
  {
    if bits != [] {
      var n := |bits| - 1;
      BinaryOfFromBits(bits[..n]);
      assert FromBits(bits) / 2 == FromBits(bits[..n]);
    }
  }

  lemma {:induction false} LeadingValue(bits: seq<bool>)
    requires |bits| >= 2 && Leads(bits, 0)
    ensures Power2(|bits| - 2) <= FromBits(bits) < 2 * Power2(|bits| - 2)
    decreases |bits|
  {
    var n := |bits| - 1;
    if n > 1 {
      assert bits[..n][0] == bits[0] && bits[..n][1] == bits[1];
      LeadingValue(bits[..n]);
    } else {
      assert bits[..1][..0] == [];
      assert FromBits(bits[..1]) == 0;
    }
  }

  predicate IsPlain(c: char) {
    64 <= c as int < 128
  }

  lemma CharOfByte(bits: seq<bool>) returns (c: char)
    requires |bits| == 8 && Leads(bits, 0)
    ensures IsPlain(c) && Bits(Encode([c])) == bits
  {
    LeadingValue(bits);
    BinaryOfFromBits(bits);
    assert Power2(6) == 2 * (2 * (2 * Power2(3))) && Power2(3) == 8;
    var n := FromBits(bits);
    c := n as char;
    assert [c][1..] == [] && Encode([c]) == [n] + [];
    assert [n][1..] == [] && Bits([n]) == Bits8(n) + [];
  }

  lemma BitsOfTwo(x: string, y: string)
    ensures Bits(Encode(x + y)) == Bits(Encode(x)) + Bits(Encode(y))
  {
    EncodeAppend(x, y);
    BitsAppend(Encode(x), Encode(y));
  }

  lemma TextOfBits(bits: seq<bool>) returns (x: string)
    requires |bits| == 32 && Leads(bits, 0) && Leads(bits, 8) && Leads(bits, 16) && Leads(bits, 24)
    ensures |x| == 4 && (forall c | c in x :: IsPlain(c)) && Bits(Encode(x)) == bits
  {
    hide Encode, Bits;
    var a := CharOfByte(bits[0..8]);
    var b := CharOfByte(bits[8..16]);
    var c := CharOfByte(bits[16..24]);
    var d := CharOfByte(bits[24..32]);
    BitsOfTwo([a], [b]);
    BitsOfTwo([c], [d]);
    BitsOfTwo([a] + [b], [c] + [d]);
    x := [a] + [b] + ([c] + [d]);
    assert bits == bits[0..8] + bits[8..16] + (bits[16..24] + bits[24..32]);
  }

  /** Four ASCII characters lead from any register to any other. */
  lemma SomeText(r: Word, t: Word) returns (x: string)
    ensures |x| == 4 && (forall c | c in x :: IsPlain(c)) && FeedAll(r, Bits(Encode(x))) == t
  {
    hide FeedAll, Bits, Encode;
    var lead := [false, true, false, false, false, false, false, false];
    var start := lead + lead;
    var rest := SomeBlock(FeedAll(r, start), t);
    FeedAllAppend(r, start, rest);
    assert (start + rest)[0] == lead[0] && (start + rest)[1] == lead[1];
    assert (start + rest)[8] == lead[0] && (start + rest)[9] == lead[1];
    var fixed := Repaired(r, start + rest);
    x := TextOfBits(fixed);
  }

  /** Between any two texts, four ASCII characters give the whole any checksum. */
  lemma SomeTextGivesCrc(a: string, b: string, target: Word) returns (x: string)
    ensures |x| == 4 && (forall c | c in x :: IsPlain(c)) && Crc16(a + x + b) == Hex(target)
  {
    hide FeedAll, Bits, Encode, Hex;
    var q := SomeStart(target, Bits(Encode(b)));
    x := SomeText(Register(a), q);
    BytesInThree(a, x, b);
    FeedAllAppend(INITIAL, Bits(Encode(a)) + Bits(Encode(x)), Bits(Encode(b)));
    FeedAllAppend(INITIAL, Bits(Encode(a)), Bits(Encode(x)));
  }

  // ---------------------------------------------------------------- a payload that is rejected

  /** 0x6304 */
  const TAG_WORD: Word := [false, true, true, false, false, false, true, true,
                           false, false, false, false, false, true, false, false]

  lemma TagWordSpellsTag()
    ensures Hex(TAG_WORD) == CRC_TAG
  {
  }

  function AheadOfName(key: string): string {
    Concat([Field("00", "01"), Field("01", "12"), Field("26", MerchantAccount(key)),
            Field("52", "0000"), Field("53", "986"), Field("58", "BR")]) + "5904"
  }

  function BehindName(key: string): string {
    Concat([Field("60", "BRASILIA"), Field("62", Concat([Field("05", TxId(key))]))]) + CRC_TAG
  }

  lemma BodyAroundName(key: string, name: string)
    requires |name| == 4
    ensures Body("12", key, None, name) == AheadOfName(key) + name + BehindName(key)
  {
    var pre := [Field("00", "01"), Field("01", "12"), Field("26", MerchantAccount(key)),
                Field("52", "0000"), Field("53", "986"), Field("58", "BR")];
    var f := Field("59", name);
    var post := [Field("60", "BRASILIA"), Field("62", Concat([Field("05", TxId(key))]))];
    hide Concat, MerchantAccount, TxId, TwoDigits;
    assert PayloadFields("12", key, None, name) == pre + [f] + post;
    ConcatAppend(pre + [f], post);
    ConcatAppend(pre, [f]);
    ConcatOne(f);
    FourIsPadded();
    assert Print(f) == "5904" + name;
  }

  lemma FourIsPadded()
    ensures TwoDigits(4) == "04"
  {
  }

  /** For every key there is a merchant name of four ASCII characters whose generated payload is rejected
      by the program's own CRC check, because its checksum spells the CRC tag. */
  lemma SomeNameIsRejected(key: string) returns (name: string)
    ensures |name| == 4 && (forall c | c in name :: IsPlain(c))
    ensures !ValidatePixCrc(BuildStaticNoAmount(key, name))
  {
    hide Crc16, Body, AheadOfName, BehindName, ValidatePixCrc, Payload;
    name := SomeTextGivesCrc(AheadOfName(key), BehindName(key), TAG_WORD);
    TagWordSpellsTag();
    BodyAroundName(key, name);
    PayloadPassesExactly("12", key, None, name);
  }
}
