/**
 * The string operations the parsers rely on: trimming, searching, upper case and decimal numerals.
 */
module Text {

  import opened Wrappers

  // ---------------------------------------------------------------- trimming

  /** The characters that str.strip removes. */
  predicate IsSpace(c: char) {
    var n := c as int;
    || 9 <= n <= 13 || 28 <= n <= 32 || n == 0x85 || n == 0xA0 || n == 0x1680 || 0x2000 <= n <= 0x200A
    || n == 0x2028 || n == 0x2029 || n == 0x202F || n == 0x205F || n == 0x3000
  }

  const SPACES: string := "\t\n\U{b}\U{c}\r\U{1c}\U{1d}\U{1e}\U{1f} \U{85}\U{a0}\U{1680}\U{2000}\U{2001}\U{2002}\U{2003}\U{2004}\U{2005}\U{2006}\U{2007}\U{2008}\U{2009}\U{200a}\U{2028}\U{2029}\U{202f}\U{205f}\U{3000}"

  /** One by one. */
  lemma SpacesExactly(c: char)
    ensures IsSpace(c) <==> c in SPACES
  {
  }

  predicate IsBlank(s: string) {
    forall i | 0 <= i < |s| :: IsSpace(s[i])
  }

  function LStrip(s: string): (r: string)
    ensures |r| <= |s| && r == s[|s| - |r|..] && IsBlank(s[..|s| - |r|])
    ensures r != [] ==> !IsSpace(r[0])
  {
    if s != [] && IsSpace(s[0]) then LStrip(s[1..]) else s
  }

  function RStrip(s: string): (r: string)
    ensures |r| <= |s| && r == s[..|r|] && IsBlank(s[|r|..])
    ensures r != [] ==> !IsSpace(r[|r| - 1])
  {
    if s != [] && IsSpace(s[|s| - 1]) then
      var r := RStrip(s[..|s| - 1]);
      assert s[|r|..] == s[..|s| - 1][|r|..] + [s[|s| - 1]];
      r
    else s
  }

  function Strip(s: string): string {
    RStrip(LStrip(s))
  }

  /** Starts and ends with a character that is not blank, or is empty: strip leaves it alone. */
  predicate Trimmed(s: string) {
    s != [] ==> !IsSpace(s[0]) && !IsSpace(s[|s| - 1])
  }

  lemma StripOfTrimmed(s: string)
    requires Trimmed(s)
    ensures Strip(s) == s
  {
  }

  lemma StripIsTrimmed(s: string)
    ensures Trimmed(Strip(s))
  {
    var l := LStrip(s);
    var r := RStrip(l);
    if r != "" { assert r[0] == l[0]; }
  }

  lemma {:induction false} LStripOfBlank(w: string, s: string)
    requires IsBlank(w)
    ensures LStrip(w + s) == LStrip(s)
    decreases |w|
  {
    if w == [] {
      assert w + s == s;
    } else {
      assert (w + s)[1..] == w[1..] + s;
      LStripOfBlank(w[1..], s);
    }
  }

  /** Stripping first on the left changes nothing to what strip leaves. */
  lemma StripIgnoresLeadingBlank(w: string, s: string)
    requires IsBlank(w)
    ensures Strip(w + s) == Strip(s)
  {
    LStripOfBlank(w, s);
  }

  lemma StripOfLStrip(s: string)
    ensures Strip(LStrip(s)) == Strip(s)
  {
    var l := LStrip(s);
    assert s == s[..|s| - |l|] + l;
    StripIgnoresLeadingBlank(s[..|s| - |l|], l);
  }

  lemma {:induction false} RStripOfBlank(s: string, w: string)
    requires IsBlank(w)
    ensures RStrip(s + w) == RStrip(s)
    decreases |w|
  {
    if w == [] {
      assert s + w == s;
    } else {
      var n := |w| - 1;
      assert (s + w)[..|s + w| - 1] == s + w[..n];
      RStripOfBlank(s, w[..n]);
    }
  }

  lemma LStripOfTrimmed(s: string, w: string)
    requires Trimmed(s) && s != ""
    ensures LStrip(s + w) == s + w
  {
  }

  lemma RStripOfTrimmed(s: string)
    requires Trimmed(s)
    ensures RStrip(s) == s
  {
  }

  /** Blanks around a trimmed text are what strip takes away. */
  lemma StripAround(u: string, s: string, w: string)
    requires IsBlank(u) && IsBlank(w) && Trimmed(s) && s != ""
    ensures Strip(u + s + w) == s
  {
    hide LStrip, RStrip, IsBlank;
    assert u + s + w == u + (s + w);
    LStripOfBlank(u, s + w);
    LStripOfTrimmed(s, w);
    RStripOfBlank(s, w);
    RStripOfTrimmed(s);
  }

  // ---------------------------------------------------------------- searching

  predicate OccursAt(s: string, needle: string, i: nat) {
    i + |needle| <= |s| && s[i..i + |needle|] == needle
  }

  predicate Contains(s: string, needle: string) {
    exists i | 0 <= i <= |s| :: OccursAt(s, needle, i)
  }

  predicate StartsWith(s: string, prefix: string) {
    OccursAt(s, prefix, 0)
  }

  function FindFrom(s: string, needle: string, from: nat): (r: Option<nat>)
    requires from <= |s|
    ensures r.Some? ==> from <= r.value && OccursAt(s, needle, r.value)
    ensures forall i: nat | from <= i && (r.None? || i < r.value) :: !OccursAt(s, needle, i)
    decreases |s| - from
  {
    if OccursAt(s, needle, from) then Some(from)
    else if from == |s| then None
    else FindFrom(s, needle, from + 1)
  }

  /** str.find */
  function Find(s: string, needle: string): (r: Option<nat>)
    ensures r.Some? ==> OccursAt(s, needle, r.value)
    ensures forall i: nat | r.None? || i < r.value :: !OccursAt(s, needle, i)
  {
    FindFrom(s, needle, 0)
  }

  function FindBackFrom(s: string, needle: string, from: nat): (r: Option<nat>)
    ensures r.Some? ==> r.value <= from && OccursAt(s, needle, r.value)
    ensures forall i: nat | i <= from && (r.None? || r.value < i) :: !OccursAt(s, needle, i)
  {
    if OccursAt(s, needle, from) then Some(from)
    else if from == 0 then None
    else FindBackFrom(s, needle, from - 1)
  }

  /** str.rfind */
  function FindLast(s: string, needle: string): (r: Option<nat>)
    ensures r.Some? ==> OccursAt(s, needle, r.value)
    ensures forall i: nat | r.None? || r.value < i :: !OccursAt(s, needle, i)
  {
    FindBackFrom(s, needle, |s|)
  }

  // ---------------------------------------------------------------- letters and digits

  predicate IsDigit(c: char) { '0' <= c <= '9' }

  predicate IsLetter(c: char) { 'a' <= c <= 'z' || 'A' <= c <= 'Z' }

  function UpperChar(c: char): char {
    if 'a' <= c <= 'z' then ((c as int) - 32) as char else c
  }

  /** str.upper, on the letters a to z. */
  function Upper(s: string): (r: string)
    ensures |r| == |s| && forall i | 0 <= i < |s| :: r[i] == UpperChar(s[i])
  {
    seq(|s|, i requires 0 <= i < |s| => UpperChar(s[i]))
  }

  const SMALL: string := "abcdefghijklmnopqrstuvwxyz"
  const CAPITAL: string := "ABCDEFGHIJKLMNOPQRSTUVWXYZ"

  /** One by one. */
  lemma CapitalsExactly(i: nat, c: char)
    ensures i < 26 ==> UpperChar(SMALL[i]) == CAPITAL[i]
    ensures c !in SMALL ==> UpperChar(c) == c
  {
    if 'a' <= c <= 'z' { assert SMALL[c as int - 97] == c; }
  }

  // ---------------------------------------------------------------- numerals

  predicate AllDigits(s: string) {
    forall i | 0 <= i < |s| :: IsDigit(s[i])
  }

  function DigitChar(d: nat): (c: char)
    requires d < 10
    ensures IsDigit(c) && DigitValue(c) == d
  {
    (('0' as int) + d) as char
  }

  function DigitValue(c: char): (d: nat)
    requires IsDigit(c)
    ensures d < 10
  {
    (c as int) - ('0' as int)
  }

  function Decimal(n: nat): (s: string)
    ensures |s| >= 1 && AllDigits(s)
  {
    if n < 10 then [DigitChar(n)] else Decimal(n / 10) + [DigitChar(n % 10)]
  }

  function DecimalValue(s: string): nat
    requires AllDigits(s)
    decreases |s|
  {
    if s == [] then 0 else 10 * DecimalValue(s[..|s| - 1]) + DigitValue(s[|s| - 1])
  }

  lemma {:induction false} DecimalRoundTrip(n: nat)
    ensures DecimalValue(Decimal(n)) == n
  {
    var s := Decimal(n);
    if n < 10 {
      assert DecimalValue(s[..0]) == 0;
    } else {
      DecimalRoundTrip(n / 10);
      assert s[..|s| - 1] == Decimal(n / 10);
    }
  }
}
