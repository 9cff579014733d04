/**
 * The checksum of a text: the CRC register run over its UTF-8 bytes, printed as four hexadecimal
 * digits, and the edits it detects.
 */
module CrcText {

  import opened Crc

  type Byte = n: int | 0 <= n < 256

  // ---------------------------------------------------------------- UTF-8

  function EncodeChar(c: char): (bytes: seq<Byte>)
    ensures 1 <= |bytes| <= 4
  {
    var n := c as int;
    if n < 0x80 then [n]
    else if n < 0x800 then [0xC0 + n / 64, 0x80 + n % 64]
    else if n < 0x1_0000 then [0xE0 + n / 64 / 64, 0x80 + n / 64 % 64, 0x80 + n % 64]
    else [0xF0 + n / 64 / 64 / 64, 0x80 + n / 64 / 64 % 64, 0x80 + n / 64 % 64, 0x80 + n % 64]
  }

  /** Reading UTF-8: the lead byte says how many follow, and each of those holds six bits (section 3 of
      RFC 3629). */
  function DecodeChar(bytes: seq<int>): int
    requires |bytes| == 4
  {
    if bytes[0] < 0x80 then bytes[0]
    else if bytes[0] < 0xE0 then (bytes[0] - 0xC0) * 0x40 + bytes[1] - 0x80
    else if bytes[0] < 0xF0 then ((bytes[0] - 0xE0) * 0x40 + bytes[1] - 0x80) * 0x40 + bytes[2] - 0x80
    else (((bytes[0] - 0xF0) * 0x40 + bytes[1] - 0x80) * 0x40 + bytes[2] - 0x80) * 0x40 + bytes[3] - 0x80
  }

  /** Every character reads back, its bytes after the first are continuation bytes, and none is wasted. */
  lemma EncodedCharReadsBack(c: char)
    ensures var b, n := EncodeChar(c), c as int;
      && |b| == (if n < 0x80 then 1 else if n < 0x800 then 2 else if n < 0x1_0000 then 3 else 4)
      && (forall i | 0 < i < |b| :: 0x80 <= b[i] < 0xC0)
      && DecodeChar(b + seq(4 - |b|, _ => 0)) == n
  {
  }

  function Encode(s: string): seq<Byte>
    decreases |s|
  {
    if s == [] then [] else EncodeChar(s[0]) + Encode(s[1..])
  }

  /** How many bytes a text takes. */
  function EncodedLength(s: string): nat {
    |Encode(s)|
  }

  lemma {:induction false} EncodeAppend(x: string, y: string)
    ensures Encode(x + y) == Encode(x) + Encode(y)
    decreases |x|
  {
    if x == [] {
      assert x + y == y;
    } else {
      assert (x + y)[1..] == x[1..] + y;
      EncodeAppend(x[1..], y);
    }
  }

  lemma LengthFromLeadByte(c: char)
    ensures var lead := EncodeChar(c)[0];
      |EncodeChar(c)| == if lead < 0x80 then 1 else if lead < 0xE0 then 2 else if lead < 0xF0 then 3 else 4
  {
  }

  lemma SameFirstByteSameLength(c: char, d: char)
    requires EncodeChar(c)[0] == EncodeChar(d)[0]
    ensures |EncodeChar(c)| == |EncodeChar(d)|
  {
    LengthFromLeadByte(c);
    LengthFromLeadByte(d);
  }

  lemma EncodeCharInjective(c: char, d: char)
    requires EncodeChar(c) == EncodeChar(d)
    ensures c == d
  {
    var x, y := EncodeChar(c), EncodeChar(d);
    SameFirstByteSameLength(c, d);
    assert x[0] == y[0] && x[|x| - 1] == y[|y| - 1];
    assert |x| > 1 ==> x[1] == y[1];
    assert |x| > 2 ==> x[2] == y[2];
  }

  lemma {:induction false} EncodeInjective(x: string, y: string)
    requires Encode(x) == Encode(y)
    ensures x == y
    decreases |x|
  {
    if x == [] || y == [] {
      assert Encode(x) == [] && Encode(y) == [];
    } else {
      var a, b := EncodeChar(x[0]), EncodeChar(y[0]);
      assert a[0] == Encode(x)[0] && b[0] == Encode(y)[0];
      SameFirstByteSameLength(x[0], y[0]);
      assert a == Encode(x)[..|a|] && b == Encode(y)[..|b|];
      EncodeCharInjective(x[0], y[0]);
      assert Encode(x[1..]) == Encode(x)[|a|..] && Encode(y[1..]) == Encode(y)[|b|..];
      EncodeInjective(x[1..], y[1..]);
    }
  }

  // ---------------------------------------------------------------- bits

  function Power2(k: nat): (p: nat)
    ensures p > 0
  {
    if k == 0 then 1 else 2 * Power2(k - 1)
  }

  /** The k low bits of a number, most significant first. */
  function Binary(n: nat, k: nat): (bits: seq<bool>)
    ensures |bits| == k
  {
    if k == 0 then [] else Binary(n / 2, k - 1) + [n % 2 == 1]
  }

  lemma {:induction false} BinaryInjective(m: nat, n: nat, k: nat)
    requires m < Power2(k) && n < Power2(k) && Binary(m, k) == Binary(n, k)
    ensures m == n
  {
    if k > 0 {
      assert Binary(m, k)[..k - 1] == Binary(m / 2, k - 1) && Binary(n, k)[..k - 1] == Binary(n / 2, k - 1);
      assert Binary(m, k)[k - 1] == Binary(n, k)[k - 1];
      BinaryInjective(m / 2, n / 2, k - 1);
    }
  }

  function Bits8(n: Byte): (bits: seq<bool>)
    ensures |bits| == 8
  {
    Binary(n, 8)
  }

  lemma Bits8Injective(m: Byte, n: Byte)
    requires Bits8(m) == Bits8(n)
    ensures m == n
  {
    assert Power2(8) == 2 * (2 * Power2(6)) && Power2(6) == 2 * (2 * (2 * Power2(3))) && Power2(3) == 8;
    BinaryInjective(m, n, 8);
  }

  function Weight(bit: bool, weight: nat): nat {
    if bit then weight else 0
  }

  function Bits(bytes: seq<Byte>): (bits: seq<bool>)
    ensures |bits| == 8 * |bytes|
    decreases |bytes|
  {
    if bytes == [] then [] else Bits8(bytes[0]) + Bits(bytes[1..])
  }

  lemma {:induction false} BitsAppend(x: seq<Byte>, y: seq<Byte>)
    ensures Bits(x + y) == Bits(x) + Bits(y)
    decreases |x|
  {
    if x == [] {
      assert x + y == y;
    } else {
      assert (x + y)[1..] == x[1..] + y;
      BitsAppend(x[1..], y);
    }
  }

  lemma {:induction false} BitsInjective(x: seq<Byte>, y: seq<Byte>)
    requires |x| == |y| && Bits(x) == Bits(y)
    ensures x == y
    decreases |x|
  {
    if x != [] {
      assert Bits8(x[0]) == Bits(x)[..8] && Bits8(y[0]) == Bits(y)[..8];
      Bits8Injective(x[0], y[0]);
      assert Bits(x[1..]) == Bits(x)[8..] && Bits(y[1..]) == Bits(y)[8..];
      BitsInjective(x[1..], y[1..]);
    }
  }

  // ---------------------------------------------------------------- hexadecimal

  function Nibble(bits: seq<bool>): (n: nat)
    requires |bits| == 4
    ensures n < 16
  {
    Weight(bits[0], 8) + Weight(bits[1], 4) + Weight(bits[2], 2) + Weight(bits[3], 1)
  }

  lemma NibbleInjective(x: seq<bool>, y: seq<bool>)
    requires |x| == |y| == 4 && Nibble(x) == Nibble(y)
    ensures x == y
  {
  }

  const HEX_DIGITS: string := "0123456789ABCDEF"

  lemma HexDigitsDiffer(m: nat, n: nat)
    requires m < 16 && n < 16 && HEX_DIGITS[m] == HEX_DIGITS[n]
    ensures m == n
  {
  }

  /** Four upper-case hexadecimal digits. */
  function Hex(w: Word): (s: string)
    ensures |s| == 4 && forall c | c in s :: c in HEX_DIGITS
  {
    [HEX_DIGITS[Nibble(w[..4])], HEX_DIGITS[Nibble(w[4..8])],
     HEX_DIGITS[Nibble(w[8..12])], HEX_DIGITS[Nibble(w[12..])]]
  }

  lemma HexInjective(v: Word, w: Word)
    requires Hex(v) == Hex(w)
    ensures v == w
  {
    HexDigitsDiffer(Nibble(v[..4]), Nibble(w[..4]));
    HexDigitsDiffer(Nibble(v[4..8]), Nibble(w[4..8]));
    HexDigitsDiffer(Nibble(v[8..12]), Nibble(w[8..12]));
    HexDigitsDiffer(Nibble(v[12..]), Nibble(w[12..]));
    NibbleInjective(v[..4], w[..4]);
    NibbleInjective(v[4..8], w[4..8]);
    NibbleInjective(v[8..12], w[8..12]);
    NibbleInjective(v[12..], w[12..]);
    InFourths(v);
    InFourths(w);
  }

  lemma InFourths(w: Word)
    ensures w == w[..4] + w[4..8] + w[8..12] + w[12..]
  {
  }

  // ---------------------------------------------------------------- the checksum

  /** The register after a text. */
  function Register(s: string): Word {
    FeedAll(INITIAL, Bits(Encode(s)))
  }

  function Crc16(s: string): string {
    Hex(Register(s))
  }

  method ByteStep(crc: Word, byte: Byte) returns (next: Word)
    ensures next == FeedAll(crc, Bits8(byte))
  {
    next := Xor(crc, LeftAligned(Bits8(byte)));
    ghost var start := next;
    for i := 0 to 8
      invariant ShiftBy(next, 8 - i) == ShiftBy(start, 8)
    {
      next := Shift(next);
    }
    BlockIsBits(crc, Bits8(byte));
  }

  method ComputeCrc16(data: string) returns (s: string)
    ensures s == Crc16(data)
  {
    var crc := INITIAL;
    var bytes := Encode(data);
    for i := 0 to |bytes|
      invariant FeedAll(crc, Bits(bytes[i..])) == Register(data)
    {
      FeedAllAppend(crc, Bits8(bytes[i]), Bits(bytes[i + 1..]));
      assert bytes[i..][1..] == bytes[i + 1..];
      crc := ByteStep(crc, bytes[i]);
    }
    s := Hex(crc);
  }

  // ---------------------------------------------------------------- what it detects

  lemma BytesInThree(a: string, x: string, b: string)
    ensures Bits(Encode(a + x + b)) == Bits(Encode(a)) + Bits(Encode(x)) + Bits(Encode(b))
  {
    EncodeAppend(a + x, b);
    EncodeAppend(a, x);
    BitsAppend(Encode(a) + Encode(x), Encode(b));
    BitsAppend(Encode(a), Encode(x));
  }

  lemma BurstOfTwoBytes(r: Word, before: seq<bool>, x: seq<bool>, y: seq<bool>, after: seq<bool>)
    requires |x| == |y| <= 16 && x != y
    ensures FeedAll(r, before + x + after) != FeedAll(r, before + y + after)
  {
    var u, v := before + x + after, before + y + after;
    assert u[|before|..|before| + |x|] == x && v[|before|..|before| + |x|] == y;
    BurstDetected(r, u, v, |before|);
  }

  /** Replacing a stretch by another whose UTF-8 form has the same length, at most two bytes (one or
      two ASCII characters, or one accented letter), always changes the checksum. */
  lemma ShortEditChangesCrc(a: string, x: string, y: string, b: string)
    requires x != y && EncodedLength(x) == EncodedLength(y) <= 2
    ensures Crc16(a + x + b) != Crc16(a + y + b)
  {
    if Encode(x) == Encode(y) { EncodeInjective(x, y); }
    if Bits(Encode(x)) == Bits(Encode(y)) { BitsInjective(Encode(x), Encode(y)); }
    BytesInThree(a, x, b);
    BytesInThree(a, y, b);
    BurstOfTwoBytes(INITIAL, Bits(Encode(a)), Bits(Encode(x)), Bits(Encode(y)), Bits(Encode(b)));
    if Crc16(a + x + b) == Crc16(a + y + b) { HexInjective(Register(a + x + b), Register(a + y + b)); }
  }
}
