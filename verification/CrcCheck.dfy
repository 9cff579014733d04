/**
 * The CRC check of a scanned BR Code: what it accepts and which edits it notices.
 */
module CrcCheck {

  import opened Wrappers
  import opened Text
  import opened CrcText
  import Crc

  const CRC_TAG: string := "6304"

  function UpTo(s: string, from: nat, to: nat): string
    requires from <= |s| && from <= to
  {
    if to <= |s| then s[from..to] else s[from..]
  }

  /** Without a CRC tag the payload passes; otherwise the four characters after the last tag must be
      the checksum of everything up to and including it. */
  predicate ValidatePixCrc(payload: string) {
    var emv := Strip(payload);
    match FindLast(emv, CRC_TAG)
    case None => true
    case Some(i) => ChecksAt(emv, i)
  }

  predicate ChecksAt(emv: string, i: nat)
    requires i + 4 <= |emv|
  {
    Upper(UpTo(emv, i + 4, i + 8)) == Crc16(emv[..i + 4])
  }

  lemma TagFits(s: string, i: nat)
    requires FindLast(s, CRC_TAG) == Some(i)
    ensures i + 4 <= |s|
  {
    assert |CRC_TAG| == 4;
  }

  lemma LastTagIs(s: string, i: nat)
    requires OccursAt(s, CRC_TAG, i)
    requires forall j: nat | i < j :: !OccursAt(s, CRC_TAG, j)
    ensures FindLast(s, CRC_TAG) == Some(i)
  {
  }

  lemma CheckOfTrimmed(s: string, i: nat)
    requires Trimmed(s) && FindLast(s, CRC_TAG) == Some(i)
    ensures ValidatePixCrc(s) == ChecksAt(s, i)
  {
    hide Strip, FindLast, ChecksAt;
    StripOfTrimmed(s);
  }

  /** A text without the tag passes unseen. */
  lemma UntaggedPasses(text: string)
    requires !Contains(Strip(text), "6304")
    ensures ValidatePixCrc(text)
  {
    hide Strip, ChecksAt;
    var emv := Strip(text);
    assert FindLast(emv, CRC_TAG).Some? ==> Contains(emv, "6304");
  }

  /** Any other is accepted if and only if the four characters after its last tag, or what is left of them,
      are the checksum of everything up to and including the tag, in capitals or not. */
  lemma CheckedExactly(text: string, body: string, rest: string)
    requires Strip(text) == body + "6304" + rest && forall i: nat | |body| < i :: !OccursAt(body + "6304" + rest, "6304", i)
    ensures ValidatePixCrc(text) <==> Upper(if |rest| <= 4 then rest else rest[..4]) == Crc16(body + "6304")
  {
    hide Strip, Upper, Crc16;
    var emv, k := body + "6304" + rest, |body|;
    assert emv[k..k + 4] == "6304";
    LastTagIs(emv, k);
    assert emv[..k + 4] == body + "6304";
    assert UpTo(emv, k + 4, k + 8) == if |rest| <= 4 then rest else rest[..4];
  }

  // ---------------------------------------------------------------- generated payloads

  /** Appends the checksum to a body that ends with the CRC tag. */
  function Seal(body: string): string {
    body + Crc16(body)
  }

  lemma UpperOfHexDigit(c: char)
    requires c in HEX_DIGITS
    ensures UpperChar(c) == c
  {
  }

  lemma UpperOfCrc(body: string)
    ensures Upper(Crc16(body)) == Crc16(body)
  {
    var s := Crc16(body);
    forall i | 0 <= i < |s|
      ensures UpperChar(s[i]) == s[i]
    {
      UpperOfHexDigit(s[i]);
    }
  }

  /** No copy of the tag can start inside the tag. */
  lemma TagDoesNotOverlap(s: string, at: nat, i: nat)
    requires at + 4 <= |s| && s[at] == '6' && s[at + 1] == '3' && s[at + 2] == '0' && s[at + 3] == '4'
    requires at < i < at + 4
    ensures !OccursAt(s, CRC_TAG, i)
  {
    if i + 4 <= |s| {
      assert s[i..i + 4][0] == s[i];
    }
  }

  /** The tag can occur in a sealed payload after the body's own only as the checksum itself. */
  lemma LastTagOfSealed(body: string, crc: string)
    requires |body| >= 4 && OccursAt(body, CRC_TAG, |body| - 4) && |crc| == 4
    ensures FindLast(body + crc, CRC_TAG) == Some(if crc == CRC_TAG then |body| else |body| - 4)
  {
    var s, at := body + crc, |body| - 4;
    assert s[|body|..|body| + 4] == crc;
    assert s[at..at + 4] == body[at..at + 4];
    var tag := s[at..at + 4];
    assert tag[0] == '6' && tag[1] == '3' && tag[2] == '0' && tag[3] == '4';
    forall i: nat | at < i < |body|
      ensures !OccursAt(s, CRC_TAG, i)
    {
      TagDoesNotOverlap(s, at, i);
    }
    LastTagIs(s, if crc == CRC_TAG then |body| else at);
  }

  /** A sealed payload passes exactly when its checksum does not itself spell the CRC tag. */
  lemma SealedPassesExactly(body: string)
    requires |body| >= 4 && OccursAt(body, CRC_TAG, |body| - 4) && Trimmed(Seal(body))
    ensures ValidatePixCrc(Seal(body)) <==> Crc16(body) != CRC_TAG
  {
    var crc := Crc16(body);
    LastTagOfSealed(body, crc);
    if crc != CRC_TAG {
      SealChecks(body);
      CheckOfTrimmed(Seal(body), |body| - 4);
    } else {
      SealWithTagFails(body);
      CheckOfTrimmed(Seal(body), |body|);
    }
  }

  lemma SealChecks(body: string)
    requires |body| >= 4
    ensures ChecksAt(Seal(body), |body| - 4)
  {
    var s := Seal(body);
    assert UpTo(s, |body|, |body| + 4) == Crc16(body) && s[..|body|] == body;
    UpperOfCrc(body);
  }

  lemma SealWithTagFails(body: string)
    ensures !ChecksAt(Seal(body), |body|)
  {
    assert UpTo(Seal(body), |body| + 4, |body| + 8) == "";
  }

  // ---------------------------------------------------------------- edits

  lemma OccursInSuffix(p: string, b: string, i: nat)
    ensures OccursAt(p + b, CRC_TAG, |p| + i) == OccursAt(b, CRC_TAG, i)
  {
    if i + 4 <= |b| {
      assert (p + b)[|p| + i..|p| + i + 4] == b[i..i + 4];
    }
  }

  lemma LastTagInSuffix(p: string, b: string, j: nat)
    requires FindLast(b, CRC_TAG) == Some(j)
    ensures FindLast(p + b, CRC_TAG) == Some(|p| + j)
  {
    OccursInSuffix(p, b, j);
    forall i: nat | |p| + j < i
      ensures !OccursAt(p + b, CRC_TAG, i)
    {
      OccursInSuffix(p, b, i - |p|);
    }
    LastTagIs(p + b, |p| + j);
  }

  /** The check of the CRC tag at j in b, when b follows p. */
  predicate ChecksAfter(p: string, b: string, j: nat)
    requires j + 4 <= |b|
  {
    Upper(UpTo(b, j + 4, j + 8)) == Crc16(p + b[..j + 4])
  }

  lemma ChecksInSuffix(p: string, b: string, j: nat)
    requires j + 4 <= |b|
    ensures ChecksAt(p + b, |p| + j) == ChecksAfter(p, b, j)
  {
    assert (p + b)[..|p| + j + 4] == p + b[..j + 4];
    assert UpTo(p + b, |p| + j + 4, |p| + j + 8) == UpTo(b, j + 4, j + 8);
  }

  lemma CheckFromTag(p: string, b: string, j: nat)
    requires FindLast(b, CRC_TAG) == Some(j) && j + 4 <= |b| && Trimmed(p + b)
    ensures ValidatePixCrc(p + b) == ChecksAfter(p, b, j)
  {
    hide ValidatePixCrc, FindLast, ChecksAt, ChecksAfter, Trimmed;
    LastTagInSuffix(p, b, j);
    CheckOfTrimmed(p + b, |p| + j);
    ChecksInSuffix(p, b, j);
  }

  lemma ShortEditUnchecks(a: string, x: string, y: string, b: string, j: nat)
    requires j + 4 <= |b| && x != y && EncodedLength(x) == EncodedLength(y) <= 2
    ensures !ChecksAfter(a + x, b, j) || !ChecksAfter(a + y, b, j)
  {
    ShortEditChangesCrc(a, x, y, b[..j + 4]);
  }

  lemma CheckIgnoresBlanks(u: string, s: string, w: string)
    requires IsBlank(u) && IsBlank(w) && Trimmed(s) && s != ""
    ensures ValidatePixCrc(u + s + w) == ValidatePixCrc(s)
  {
    StripAround(u, s, w);
    StripOfTrimmed(s);
    hide Strip, FindLast, ChecksAt;
  }

  lemma ShortEditOfTrimmed(a: string, x: string, y: string, b: string)
    requires ValidatePixCrc(a + x + b) && Contains(b, CRC_TAG)
    requires x != y && EncodedLength(x) == EncodedLength(y) <= 2
    requires Trimmed(a + x + b) && Trimmed(a + y + b)
    ensures !ValidatePixCrc(a + y + b)
  {
    var j := FindLast(b, CRC_TAG).value;
    TagFits(b, j);
    ShortEditUnchecks(a, x, y, b, j);
    CheckFromTag(a + x, b, j);
    CheckFromTag(a + y, b, j);
  }

  lemma TagIsSomething(p: string, b: string)
    requires Contains(b, CRC_TAG)
    ensures p + b != ""
  {
    var i :| 0 <= i <= |b| && OccursAt(b, CRC_TAG, i);
    assert |CRC_TAG| == 4;
  }

  /** Ahead of the CRC tag, replacing one or two ASCII characters (or one accented letter) of an
      accepted payload by others of the same encoded length makes the check reject it, whatever blanks
      surround it. */
  lemma ShortEditIsRejected(u: string, a: string, x: string, y: string, b: string, w: string)
    requires IsBlank(u) && IsBlank(w) && Trimmed(a + x + b) && Trimmed(a + y + b)
    requires ValidatePixCrc(u + (a + x + b) + w) && Contains(b, CRC_TAG)
    requires x != y && EncodedLength(x) == EncodedLength(y) <= 2
    ensures !ValidatePixCrc(u + (a + y + b) + w)
  {
    hide ValidatePixCrc, Contains, Trimmed, IsBlank;
    TagIsSomething(a + x, b);
    TagIsSomething(a + y, b);
    CheckIgnoresBlanks(u, a + x + b, w);
    CheckIgnoresBlanks(u, a + y + b, w);
    ShortEditOfTrimmed(a, x, y, b);
  }

  // ---------------------------------------------------------------- every edit ahead of the tag

  lemma RegisterOfTwo(p: string, b: string)
    ensures Register(p + b) == Crc.FeedAll(Register(p), BitsOf(b))
  {
    EncodeAppend(p, b);
    BitsAppend(Encode(p), Encode(b));
    Crc.FeedAllAppend(Crc.INITIAL, Bits(Encode(p)), Bits(Encode(b)));
  }

  function BitsOf(b: string): seq<bool> {
    Bits(Encode(b))
  }

  lemma SamePrefixRegister(p: string, q: string, b: string)
    ensures Crc16(p + b) == Crc16(q + b) <==> Register(p) == Register(q)
  {
    RegisterOfTwo(p, b);
    RegisterOfTwo(q, b);
    hide Register, BitsOf, Crc.FeedAll, Hex;
    if Register(p) != Register(q) { Crc.SameBitsKeepApart(Register(p), Register(q), BitsOf(b)); }
    if Crc16(p + b) == Crc16(q + b) { HexInjective(Register(p + b), Register(q + b)); }
  }

  lemma ChecksAfterBoth(p: string, q: string, b: string, j: nat)
    requires j + 4 <= |b| && ChecksAfter(p, b, j)
    ensures ChecksAfter(q, b, j) <==> Register(p) == Register(q)
  {
    hide Crc16, Register, Upper, UpTo;
    SamePrefixRegister(p, q, b[..j + 4]);
  }

  lemma EditOfTrimmed(p: string, q: string, b: string)
    requires ValidatePixCrc(p + b) && Contains(b, CRC_TAG) && Trimmed(p + b) && Trimmed(q + b)
    ensures ValidatePixCrc(q + b) <==> Register(p) == Register(q)
  {
    TagIsFound(b);
    hide ValidatePixCrc, FindLast, Contains, Register, ChecksAfter, Trimmed;
    var j := FindLast(b, CRC_TAG).value;
    TagFits(b, j);
    CheckFromTag(p, b, j);
    CheckFromTag(q, b, j);
    ChecksAfterBoth(p, q, b, j);
  }

  lemma TagIsFound(b: string)
    requires Contains(b, CRC_TAG)
    ensures FindLast(b, CRC_TAG).Some?
  {
    var i :| 0 <= i <= |b| && OccursAt(b, CRC_TAG, i);
    hide Contains;
    var j := FindLast(b, CRC_TAG);
  }

  /** Whatever is changed ahead of the CRC tag, and whatever blanks surround both texts: the edited payload
      is accepted if and only if both beginnings leave the same register. */
  lemma EditPassesExactly(u: string, p: string, q: string, b: string, w: string, v: string, z: string)
    requires IsBlank(u) && IsBlank(w) && IsBlank(v) && IsBlank(z) && Trimmed(p + b) && Trimmed(q + b)
    requires ValidatePixCrc(u + (p + b) + w) && Contains(b, CRC_TAG)
    ensures ValidatePixCrc(v + (q + b) + z) <==> Register(p) == Register(q)
  {
    hide ValidatePixCrc, Contains, Trimmed, IsBlank, Register;
    TagIsSomething(p, b);
    TagIsSomething(q, b);
    CheckIgnoresBlanks(u, p + b, w);
    CheckIgnoresBlanks(v, q + b, z);
    EditOfTrimmed(p, q, b);
  }

  // ---------------------------------------------------------------- an edit of two characters that passes

  /** A register written as sixteen binary digits. */
  function WordOf(digits: string): Crc.Word
    requires |digits| == 16
  {
    seq(16, i requires 0 <= i < 16 => digits[i] == '1')
  }

  lemma ShiftWord(s: string, t: string)
    requires |s| == |t| == 16
    requires forall i | 0 <= i < 16 ::
      (t[i] == '1') == ((if i < 15 then s[i + 1] == '1' else false) != (s[0] == '1' && Crc.POLYNOMIAL[i]))
    ensures Crc.Shift(WordOf(s)) == WordOf(t)
  {
    hide Crc.Shift;
    forall i | 0 <= i < 16
      ensures Crc.Shift(WordOf(s))[i] == WordOf(t)[i]
    {
      Crc.ShiftBit(WordOf(s), i);
    }
    Crc.SameWord(Crc.Shift(WordOf(s)), WordOf(t));
  }

  lemma TwoShifts0()
    ensures Crc.ShiftBy(WordOf("1000010011001111"), 2) == WordOf("0011001101111110")
  {
    hide Crc.Shift, WordOf;
ShiftWord("1000010011001111", "0001100110111111");
    ShiftWord("0001100110111111", "0011001101111110");
  }

  lemma TwoShifts1()
    ensures Crc.ShiftBy(WordOf("0011001101111110"), 2) == WordOf("1100110111111000")
  {
    hide Crc.Shift, WordOf;
    ShiftWord("0011001101111110", "0110011011111100");
    ShiftWord("0110011011111100", "1100110111111000");
  }

  lemma TwoShifts2()
    ensures Crc.ShiftBy(WordOf("1100110111111000"), 2) == WordOf("0000011110000011")
  {
    hide Crc.Shift, WordOf;
    ShiftWord("1100110111111000", "1000101111010001");
    ShiftWord("1000101111010001", "0000011110000011");
  }

  lemma TwoShifts3()
    ensures Crc.ShiftBy(WordOf("0000011110000011"), 2) == WordOf("0001111000001100")
  {
    hide Crc.Shift, WordOf;
    ShiftWord("0000011110000011", "0000111100000110");
    ShiftWord("0000111100000110", "0001111000001100");
  }

  lemma TwoShifts4()
    ensures Crc.ShiftBy(WordOf("0001111000001100"), 2) == WordOf("0111100000110000")
  {
    hide Crc.Shift, WordOf;
    ShiftWord("0001111000001100", "0011110000011000");
    ShiftWord("0011110000011000", "0111100000110000");
  }

  lemma TwoShifts5()
    ensures Crc.ShiftBy(WordOf("0111100000110000"), 2) == WordOf("1111000011100001")
  {
    hide Crc.Shift, WordOf;
    ShiftWord("0111100000110000", "1111000001100000");
    ShiftWord("1111000001100000", "1111000011100001");
  }

  lemma TwoShifts6()
    ensures Crc.ShiftBy(WordOf("1111000011100001"), 2) == WordOf("1111001111100111")
  {
    hide Crc.Shift, WordOf;
    ShiftWord("1111000011100001", "1111000111100011");
    ShiftWord("1111000111100011", "1111001111100111");
  }

  lemma TwoShifts7()
    ensures Crc.ShiftBy(WordOf("1111001111100111"), 2) == WordOf("1111111111111111")
  {
    hide Crc.Shift, WordOf;
    ShiftWord("1111001111100111", "1111011111101111");
    ShiftWord("1111011111101111", "1111111111111111");
  }

  lemma {:induction false} ShiftTwice(r: Crc.Word, n: nat)
    requires n >= 2
    ensures Crc.ShiftBy(r, n) == Crc.ShiftBy(Crc.ShiftBy(r, 2), n - 2)
  {
    hide Crc.Shift;
    assert Crc.ShiftBy(r, 2) == Crc.Shift(Crc.Shift(r));
  }

  lemma SixteenShifts()
    ensures Crc.ShiftBy(WordOf("1000010011001111"), 16) == WordOf("1111111111111111")
  {
    hide Crc.ShiftBy, WordOf;
    TwoShifts0();
    ShiftTwice(WordOf("1000010011001111"), 16);
    TwoShifts1();
    ShiftTwice(WordOf("0011001101111110"), 14);
    TwoShifts2();
    ShiftTwice(WordOf("1100110111111000"), 12);
    TwoShifts3();
    ShiftTwice(WordOf("0000011110000011"), 10);
    TwoShifts4();
    ShiftTwice(WordOf("0001111000001100"), 8);
    TwoShifts5();
    ShiftTwice(WordOf("0111100000110000"), 6);
    TwoShifts6();
    ShiftTwice(WordOf("1111000011100001"), 4);
    TwoShifts7();
  }

  lemma BitsOfPair(m: Byte, n: Byte)
    ensures Bits([m, n]) == Bits8(m) + Bits8(n)
  {
    hide Bits8;
    assert [m, n][1..] == [n] && [n][1..] == [];
    assert Bits([n]) == Bits8(n) + [];
  }

  lemma BraceBits()
    ensures Bits(Encode("{0")) == [false, true, true, true, true, false, true, true,
                                   false, false, true, true, false, false, false, false]
  {
    hide Bits, Bits8;
    assert "{0"[1..] == "0" && "0"[1..] == "";
    assert Encode("{0") == [0x7B] + Encode("0") && Encode("0") == [0x30] + [];
    assert Encode("{0") == [0x7B, 0x30];
    BitsOfPair(0x7B, 0x30);
    ByteOfBrace();
    ByteOfZero();
  }

  lemma ByteOfBrace()
    ensures Bits8(0x7B) == [false, true, true, true, true, false, true, true]
  {
    assert Binary(0x07, 4) == Binary(1, 2) + [true] + [true] && Binary(1, 2) == [false, true];
    var high := Binary(0x07, 4);
    assert high == [false, true, true, true];
    assert Binary(0x1E, 6) == high + [true] + [false];
    assert Binary(0x7B, 8) == Binary(0x1E, 6) + [true] + [true];
  }

  lemma ByteOfZero()
    ensures Bits8(0x30) == [false, false, true, true, false, false, false, false]
  {
    assert Binary(0x03, 4) == Binary(0, 2) + [true] + [true] && Binary(0, 2) == [false, false];
    var high := Binary(0x03, 4);
    assert high == [false, false, true, true];
    assert Binary(0x0C, 6) == high + [false] + [false];
    assert Binary(0x30, 8) == Binary(0x0C, 6) + [false] + [false];
  }

  /** These two characters leave the register as it was at the start. */
  lemma BraceIsInvisible()
    ensures Register("{0") == Crc.INITIAL == Register("")
  {
    BraceBits();
    hide Crc.ShiftBy, Crc.FeedAll, Bits, Encode;
    var bits := Bits(Encode("{0"));
    Crc.BlockIsBits(Crc.INITIAL, bits);
    forall i | 0 <= i < 16
      ensures Crc.Xor(Crc.INITIAL, Crc.LeftAligned(bits))[i] == WordOf("1000010011001111")[i]
    {
      Crc.AlignedBit(Crc.INITIAL, bits, i);
    }
    Crc.SameWord(Crc.Xor(Crc.INITIAL, Crc.LeftAligned(bits)), WordOf("1000010011001111"));
    SixteenShifts();
    Crc.SameWord(WordOf("1111111111111111"), Crc.INITIAL);
    NothingRead();
  }

  lemma NothingRead()
    ensures Register("") == Crc.INITIAL
  {
  }

  /** An edit of two characters that goes unnoticed: in front of any accepted payload these two may be put,
      and may turn into blanks. */
  lemma BlankEditCanPass(p: string)
    requires ValidatePixCrc(p) && Trimmed(p) && Contains(p, CRC_TAG)
    ensures Trimmed("{0" + p) && ValidatePixCrc("{0" + p) && ValidatePixCrc("  " + p)
  {
    BraceIsInvisible();
    TagIsSomething("", p);
    assert "" + p == p;
    BraceInFront(p);
    hide ValidatePixCrc, Contains, Trimmed, Register, IsBlank;
    EditOfTrimmed("", "{0", p);
    TwoBlanks();
    BlanksInFront("  ", p);
  }

  lemma BraceInFront(p: string)
    requires Trimmed(p) && p != ""
    ensures Trimmed("{0" + p)
  {
  }

  lemma BlanksInFront(u: string, p: string)
    requires IsBlank(u) && ValidatePixCrc(p) && Trimmed(p) && p != ""
    ensures ValidatePixCrc(u + p)
  {
    assert IsBlank("");
    hide ValidatePixCrc, Trimmed, IsBlank;
    assert u + p + "" == u + p;
    CheckIgnoresBlanks(u, p, "");
  }

  lemma TwoBlanks()
    ensures IsBlank("  ")
  {
  }

  // ---------------------------------------------------------------- a known answer

  lemma KnownShifts0()
    ensures Crc.ShiftBy(WordOf("1011111011111111"), 2) == WordOf("1101101110111110")
  {
    hide Crc.Shift, WordOf;
    ShiftWord("1011111011111111", "0110110111011111");
    ShiftWord("0110110111011111", "1101101110111110");
  }

  lemma KnownShifts1()
    ensures Crc.ShiftBy(WordOf("1101101110111110"), 2) == WordOf("0101111010011011")
  {
    hide Crc.Shift, WordOf;
    ShiftWord("1101101110111110", "1010011101011101");
    ShiftWord("1010011101011101", "0101111010011011");
  }

  lemma KnownShifts2()
    ensures Crc.ShiftBy(WordOf("0101111010011011"), 2) == WordOf("0110101001001101")
  {
    hide Crc.Shift, WordOf;
    ShiftWord("0101111010011011", "1011110100110110");
    ShiftWord("1011110100110110", "0110101001001101");
  }

  lemma KnownShifts3()
    ensures Crc.ShiftBy(WordOf("0110101001001101"), 2) == WordOf("1011100100010101")
  {
    hide Crc.Shift, WordOf;
    ShiftWord("0110101001001101", "1101010010011010");
    ShiftWord("1101010010011010", "1011100100010101");
  }

  lemma EightShifts()
    ensures Crc.ShiftBy(WordOf("1011111011111111"), 8) == WordOf("1011100100010101")
  {
    hide Crc.ShiftBy, WordOf;
    KnownShifts0();
    ShiftTwice(WordOf("1011111011111111"), 8);
    KnownShifts1();
    ShiftTwice(WordOf("1101101110111110"), 6);
    KnownShifts2();
    ShiftTwice(WordOf("0101111010011011"), 4);
    KnownShifts3();
  }

  lemma LetterBits()
    ensures Bits(Encode("A")) == [false, true, false, false, false, false, false, true]
  {
    assert Encode("A") == [0x41] + [] && [0x41][1..] == [];
    assert Binary(0x04, 4) == Binary(1, 2) + [false] + [false] && Binary(1, 2) == [false, true];
    assert Binary(0x10, 6) == Binary(0x04, 4) + [false] + [false];
    assert Binary(0x41, 8) == Binary(0x10, 6) + [false] + [true];
    assert Bits([0x41]) == Bits8(0x41) + [];
  }

  lemma KnownHex()
    ensures Hex(WordOf("1011100100010101")) == "B915"
  {
    var w := WordOf("1011100100010101");
    assert w[..4] == [true, false, true, true] && w[4..8] == [true, false, false, true];
    assert w[8..12] == [false, false, false, true] && w[12..] == [false, true, false, true];
  }

  /** CRC-16/CCITT-FALSE of the letter A. */
  lemma KnownChecksum()
    ensures Crc16("A") == "B915"
  {
    LetterBits();
    hide Crc.ShiftBy, Crc.FeedAll, Bits, Encode, Hex;
    var bits := Bits(Encode("A"));
    Crc.BlockIsBits(Crc.INITIAL, bits);
    forall i | 0 <= i < 16
      ensures Crc.Xor(Crc.INITIAL, Crc.LeftAligned(bits))[i] == WordOf("1011111011111111")[i]
    {
      Crc.AlignedBit(Crc.INITIAL, bits, i);
    }
    Crc.SameWord(Crc.Xor(Crc.INITIAL, Crc.LeftAligned(bits)), WordOf("1011111011111111"));
    EightShifts();
    KnownHex();
  }
}
