/**
 * The check digits of bank slips, and which typing errors they catch.
 */
module Boleto {

  import opened Text

  // ---------------------------------------------------------------- weighted sums

  /** A digit's share of the sum, from its place counted from the right. */
  type Weighing = (nat, nat) -> nat

  function WeightedSum(weigh: Weighing, s: string, place: nat): nat
    requires AllDigits(s)
    decreases |s|
  {
    if s == [] then 0
    else
      var n := |s| - 1;
      weigh(place, DigitValue(s[n])) + WeightedSum(weigh, s[..n], place + 1)
  }

  method SumDigits(weigh: Weighing, s: string) returns (total: nat)
    requires AllDigits(s)
    ensures total == WeightedSum(weigh, s, 0)
  {
    total := 0;
    assert s[..|s|] == s;
    for i := 0 to |s|
      invariant total + WeightedSum(weigh, s[..|s| - i], i) == WeightedSum(weigh, s, 0)
    {
      var n := |s| - 1 - i;
      assert s[..n + 1][..n] == s[..n];
      total := total + weigh(i, DigitValue(s[n]));
    }
  }

  /** Changing one digit changes the sum by the change of its share. */
  lemma {:induction false} ChangeOne(weigh: Weighing, s: string, place: nat, k: nat, c: char)
    requires AllDigits(s) && k < |s| && IsDigit(c)
    ensures WeightedSum(weigh, s[k := c], place) - WeightedSum(weigh, s, place)
         == weigh(place + |s| - 1 - k, DigitValue(c)) - weigh(place + |s| - 1 - k, DigitValue(s[k]))
    decreases |s|
  {
    var n := |s| - 1;
    if k == n {
      assert s[k := c][..n] == s[..n];
    } else {
      assert s[k := c][..n] == s[..n][k := c];
      ChangeOne(weigh, s[..n], place + 1, k, c);
    }
  }

  // ---------------------------------------------------------------- modulo 10

  /** Weights 2 and 1 alternate from the right; a product of two digits counts as their sum. */
  function Share10(place: nat, digit: nat): nat {
    var product := digit * (if place % 2 == 0 then 2 else 1);
    if product < 10 then product else product - 9
  }

  function Check10(total: nat): nat {
    if total % 10 == 0 then 0 else 10 - total % 10
  }

  function Sum10(s: string): nat
    requires AllDigits(s)
  {
    WeightedSum(Share10, s, 0)
  }

  function Mod10(s: string): nat
    requires AllDigits(s)
  {
    Check10(Sum10(s))
  }

  method ComputeMod10(s: string) returns (check: nat)
    requires AllDigits(s)
    ensures check == Mod10(s)
  {
    var total := SumDigits(Share10, s);
    check := Check10(total);
  }

  lemma SharesDiffer(place: nat, d: nat, e: nat)
    requires d < 10 && e < 10 && d != e
    ensures Share10(place, d) != Share10(place, e) && Share10(place, d) < 10 && Share10(place, e) < 10
  {
  }

  lemma Check10Differs(x: nat, y: nat)
    requires x != y && -10 < x - y < 10
    ensures Check10(x) != Check10(y)
  {
  }

  /** Every change of a single digit changes the check digit. */
  lemma Mod10DetectsChange(s: string, k: nat, c: char)
    requires AllDigits(s) && k < |s| && IsDigit(c) && c != s[k]
    ensures Mod10(s[k := c]) != Mod10(s)
  {
    ChangeOne(Share10, s, 0, k, c);
    SharesDiffer(|s| - 1 - k, DigitValue(c), DigitValue(s[k]));
    Check10Differs(WeightedSum(Share10, s[k := c], 0), WeightedSum(Share10, s, 0));
  }

  function Swapped(s: string, k: nat): string
    requires k + 1 < |s|
  {
    s[k := s[k + 1]][k + 1 := s[k]]
  }

  /** How far doubling moves a digit's share. */
  function Shift10(digit: nat): int {
    Share10(0, digit) - Share10(1, digit)
  }

  lemma ShiftValue(d: nat)
    requires d < 10
    ensures Shift10(d) == if d < 5 then d else d - 9
  {
  }

  lemma SmallMultiple(x: int)
    requires -10 < x < 10
    ensures x % 10 == 0 <==> x == 0
  {
  }

  lemma ShiftsCollide(d: nat, e: nat)
    requires d < 10 && e < 10
    ensures (Shift10(d) - Shift10(e)) % 10 == 0 <==> d == e || (d == 0 && e == 9) || (d == 9 && e == 0)
  {
    ShiftValue(d);
    ShiftValue(e);
    hide Shift10;
    SmallMultiple(Shift10(d) - Shift10(e));
  }

  lemma ShareAt(place: nat, d: nat)
    ensures Share10(place, d) == Share10(0, d) - if place % 2 == 0 then 0 else Shift10(d)
  {
  }

  lemma ChangeTen(s: string, k: nat, c: char)
    requires AllDigits(s) && k < |s| && IsDigit(c)
    ensures Sum10(s[k := c]) - Sum10(s) == Share10(|s| - 1 - k, DigitValue(c)) - Share10(|s| - 1 - k, DigitValue(s[k]))
  {
    ChangeOne(Share10, s, 0, k, c);
  }

  lemma TwoShares(place: nat, d: nat, e: nat)
    ensures var change := Share10(place + 1, e) - Share10(place + 1, d) + Share10(place, d) - Share10(place, e);
      change == if place % 2 == 0 then Shift10(d) - Shift10(e) else Shift10(e) - Shift10(d)
  {
    hide Share10, Shift10;
    ShareAt(place, d);
    ShareAt(place, e);
    ShareAt(place + 1, d);
    ShareAt(place + 1, e);
  }

  lemma SwapMovesSum(s: string, k: nat)
    requires AllDigits(s) && k + 1 < |s|
    ensures AllDigits(Swapped(s, k))
    ensures var change := Sum10(Swapped(s, k)) - Sum10(s);
      var shift := Shift10(DigitValue(s[k])) - Shift10(DigitValue(s[k + 1]));
      change == shift || change == -shift
  {
    hide Sum10, Share10, Shift10, DigitValue;
    var d, e, place := DigitValue(s[k]), DigitValue(s[k + 1]), |s| - 2 - k;
    ChangeTen(s, k, s[k + 1]);
    SecondChange(s, k);
    TwoShares(place, d, e);
  }

  lemma SecondChange(s: string, k: nat)
    requires AllDigits(s) && k + 1 < |s|
    ensures AllDigits(s[k := s[k + 1]]) && AllDigits(Swapped(s, k))
    ensures Sum10(Swapped(s, k)) - Sum10(s[k := s[k + 1]])
         == Share10(|s| - 2 - k, DigitValue(s[k])) - Share10(|s| - 2 - k, DigitValue(s[k + 1]))
  {
    hide Sum10, Share10, DigitValue;
    ChangeTen(s[k := s[k + 1]], k + 1, s[k]);
  }

  lemma SameCheck(x: nat, y: nat)
    ensures Check10(x) == Check10(y) <==> (x - y) % 10 == 0
  {
  }

  lemma Negated(x: int)
    ensures x % 10 == 0 <==> -x % 10 == 0
  {
  }

  /** A swap of neighbouring digits goes unnoticed exactly when they are equal, or are 0 and 9. */
  lemma Mod10DetectsSwapExactly(s: string, k: nat)
    requires AllDigits(s) && k + 1 < |s|
    ensures AllDigits(Swapped(s, k))
    ensures Mod10(Swapped(s, k)) == Mod10(s)
       <==> s[k] == s[k + 1] || (s[k] == '0' && s[k + 1] == '9') || (s[k] == '9' && s[k + 1] == '0')
  {
    hide Sum10, Shift10, Check10, Swapped;
    SwapMovesSum(s, k);
    SameCheck(Sum10(Swapped(s, k)), Sum10(s));
    var shift := Shift10(DigitValue(s[k])) - Shift10(DigitValue(s[k + 1]));
    Negated(shift);
    ShiftsCollide(DigitValue(s[k]), DigitValue(s[k + 1]));
  }

  // ---------------------------------------------------------------- modulo 11

  /** Weights 2 to 9 from the right, over and over. */
  function Share11(place: nat, digit: nat): nat {
    digit * (2 + place % 8)
  }

  function Sum11(s: string): nat
    requires AllDigits(s)
  {
    WeightedSum(Share11, s, 0)
  }

  function Remainder11(s: string): nat
    requires AllDigits(s)
  {
    Sum11(s) % 11
  }

  function Check11(remainder: nat): nat
    requires remainder < 11
  {
    if remainder <= 1 then 1 else 11 - remainder
  }

  function Mod11(s: string): nat
    requires AllDigits(s)
  {
    Check11(Remainder11(s))
  }

  method ComputeMod11(s: string) returns (check: nat)
    requires AllDigits(s)
    ensures check == Mod11(s)
  {
    var total := SumDigits(Share11, s);
    check := Check11(total % 11);
  }

  lemma NotAMultipleOf11(difference: int, weight: int)
    requires -10 < difference < 10 && difference != 0 && 2 <= weight <= 9
    ensures (difference * weight) % 11 != 0
  {
    NotAMultiple(if difference < 0 then -difference else difference, weight);
    if difference < 0 { assert difference * weight == -(-difference * weight); }
  }

  lemma NotAMultiple(difference: int, weight: int)
    requires 0 < difference < 10 && 2 <= weight <= 9
    ensures (difference * weight) % 11 != 0
  {
    if weight == 2 {} else if weight == 3 {} else if weight == 4 {} else if weight == 5 {}
    else if weight == 6 {} else if weight == 7 {} else if weight == 8 {} else { assert weight == 9; }
  }

  lemma RemaindersDiffer(x: nat, y: nat)
    requires (x - y) % 11 != 0
    ensures x % 11 != y % 11
  {
  }

  predicate Blurred(remainder: nat) {
    remainder == 0 || remainder == 1 || remainder == 10
  }

  lemma ChangeEleven(s: string, k: nat, c: char)
    requires AllDigits(s) && k < |s| && IsDigit(c) && c != s[k]
    ensures (Sum11(s[k := c]) - Sum11(s)) % 11 != 0
  {
    ChangeOne(Share11, s, 0, k, c);
    hide WeightedSum;
    var weight := 2 + (|s| - 1 - k) % 8;
    Distribute(DigitValue(c), DigitValue(s[k]), weight);
    NotAMultipleOf11(DigitValue(c) - DigitValue(s[k]), weight);
  }

  /** A change of a single digit always changes the remainder, and goes unnoticed exactly when both
      remainders are among 0, 1 and 10, which share a check digit. */
  lemma Mod11DetectsChangeExactly(s: string, k: nat, c: char)
    requires AllDigits(s) && k < |s| && IsDigit(c) && c != s[k]
    ensures Remainder11(s[k := c]) != Remainder11(s)
    ensures Mod11(s[k := c]) == Mod11(s) <==> Blurred(Remainder11(s)) && Blurred(Remainder11(s[k := c]))
  {
    hide Sum11;
    ChangeEleven(s, k, c);
    RemaindersDiffer(Sum11(s[k := c]), Sum11(s));
  }

  lemma Distribute(x: int, y: int, w: int)
    ensures x * w - y * w == (x - y) * w
  {
  }

  // ---------------------------------------------------------------- whole lines

  /** The block from a position up to its check digit, and the check. */
  predicate BlockChecks(s: string, from: nat, check: nat)
    requires AllDigits(s) && from <= check < |s|
  {
    Mod10(s[from..check]) == DigitValue(s[check])
  }

  predicate LineChecks(s: string)
    requires AllDigits(s) && |s| == 47
  {
    BlockChecks(s, 0, 9) && BlockChecks(s, 10, 20) && BlockChecks(s, 21, 31)
  }

  predicate ConvenioChecks(s: string)
    requires AllDigits(s) && |s| == 48
  {
    forall i | 0 <= i < 4 :: BlockChecks(s, 12 * i, 12 * i + 11)
  }

  predicate BarcodeChecks(s: string)
    requires AllDigits(s) && |s| == 44
  {
    Mod11(s[..4] + s[5..]) == DigitValue(s[4])
  }

  /** What a trimmed text must satisfy, by its length and first digit. */
  predicate ChecksOut(s: string) {
    && s != [] && AllDigits(s)
    && if |s| == 47 then LineChecks(s)
       else if |s| == 44 then s[0] == '8' || BarcodeChecks(s)
       else |s| == 48 && s[0] == '8' && ConvenioChecks(s)
  }

  predicate ValidBarcode(barcode: string) {
    ChecksOut(Strip(barcode))
  }

  method CheckBlock(s: string, from: nat, check: nat) returns (ok: bool)
    requires AllDigits(s) && from <= check < |s|
    ensures ok == BlockChecks(s, from, check)
  {
    var digit := ComputeMod10(s[from..check]);
    ok := digit == DigitValue(s[check]);
  }

  method ValidateBarcode(barcode: string) returns (ok: bool)
    ensures ok == ValidBarcode(barcode)
  {
    hide BlockChecks, Strip, Mod11;
    var s := Strip(barcode);
    if s == [] || !AllDigits(s) { return false; }
    if |s| == 47 {
      ok := CheckBlock(s, 0, 9);
      if ok { ok := CheckBlock(s, 10, 20); }
      if ok { ok := CheckBlock(s, 21, 31); }
      return;
    }
    if |s| == 44 && s[0] != '8' {
      var digit := ComputeMod11(s[..4] + s[5..]);
      return digit == DigitValue(s[4]);
    }
    if |s| == 48 && s[0] == '8' {
      for i := 0 to 4
        invariant forall j | 0 <= j < i :: BlockChecks(s, 12 * j, 12 * j + 11)
      {
        ok := CheckBlock(s, 12 * i, 12 * i + 11);
        if !ok { return; }
      }
      return true;
    }
    return |s| == 44 && s[0] == '8';
  }

  // ---------------------------------------------------------------- which lines are accepted

  lemma {:induction false} SumFromLeft(weigh: Weighing, s: string, place: nat)
    requires AllDigits(s) && s != []
    ensures WeightedSum(weigh, s, place) == weigh(place + |s| - 1, DigitValue(s[0])) + WeightedSum(weigh, s[1..], place)
    decreases |s|
  {
    var n := |s| - 1;
    if n > 0 {
      SumFromLeft(weigh, s[..n], place + 1);
      assert s[..n][1..] == s[1..][..n - 1];
    }
  }

  /** The sum over a number with its check digit: from the right every second digit is doubled, the check
      digit is not, and a double of two digits counts as their sum. */
  function Luhn(s: string): nat
    requires AllDigits(s)
    decreases |s|
  {
    if s == [] then 0
    else
      var d := DigitValue(s[0]);
      Luhn(s[1..]) + if |s| % 2 == 1 then d else if d < 5 then 2 * d else 2 * d - 9
  }

  lemma {:induction false} LuhnIsSum(s: string, c: char)
    requires AllDigits(s) && IsDigit(c)
    ensures AllDigits(s + [c]) && Luhn(s + [c]) == Sum10(s) + DigitValue(c)
    decreases |s|
  {
    if s == [] {
      assert (s + [c])[1..] == [];
    } else {
      assert (s + [c])[1..] == s[1..] + [c];
      LuhnIsSum(s[1..], c);
      SumFromLeft(Share10, s, 0);
    }
  }

  /** The modulo-10 digit is the only one that completes the sum to a multiple of ten. */
  lemma Mod10Completes(s: string, d: nat)
    requires AllDigits(s) && d < 10
    ensures Mod10(s) < 10
    ensures (Sum10(s) + d) % 10 == 0 <==> d == Mod10(s)
  {
    hide Sum10;
  }

  lemma BlockIsLuhn(s: string, from: nat, check: nat)
    requires AllDigits(s) && from <= check < |s|
    ensures BlockChecks(s, from, check) <==> Luhn(s[from..check + 1]) % 10 == 0
  {
    assert s[from..check + 1] == s[from..check] + [s[check]];
    LuhnIsSum(s[from..check], s[check]);
    Mod10Completes(s[from..check], DigitValue(s[check]));
    hide Luhn, Mod10, Sum10;
  }

  /** The sum of the modulo-11 digit: weights 2 to 9 from the right, over and over. */
  function Elevens(s: string): nat
    requires AllDigits(s)
    decreases |s|
  {
    if s == [] then 0 else DigitValue(s[0]) * ((|s| - 1) % 8 + 2) + Elevens(s[1..])
  }

  lemma {:induction false} ElevensIsSum(s: string)
    requires AllDigits(s)
    ensures Elevens(s) == Sum11(s)
    decreases |s|
  {
    if s != [] {
      ElevensIsSum(s[1..]);
      SumFromLeft(Share11, s, 0);
    }
  }

  /** The modulo-11 digit completes the sum to a multiple of eleven, unless that would take a 10 or an 11:
      then it is 1. */
  lemma Mod11Completes(s: string, d: nat)
    requires AllDigits(s) && d < 10
    ensures 1 <= Mod11(s) < 10
    ensures d == Mod11(s) <==> if Elevens(s) % 11 <= 1 then d == 1 else (Elevens(s) + d) % 11 == 0
  {
    hide Sum11, Elevens, Check11;
    ElevensIsSum(s);
    Check11Completes(Sum11(s) / 11, Sum11(s) % 11, d);
    assert Sum11(s) + d == 11 * (Sum11(s) / 11) + Sum11(s) % 11 + d;
  }

  lemma Check11Completes(q: nat, r: nat, d: nat)
    requires r < 11 && d < 10
    ensures 1 <= Check11(r) < 10
    ensures d == Check11(r) <==> if r <= 1 then d == 1 else (11 * q + r + d) % 11 == 0
  {
    assert (11 * q + r + d) % 11 == (r + d) % 11;
  }

  /** Which texts are accepted, by the sums alone: 47 digits in three blocks with their check digits, 48
      digits that start with 8 in four, and 44 digits, where one that starts with 8 is not looked into. */
  lemma AcceptedExactly(s: string)
    requires AllDigits(s)
    ensures ChecksOut(s) <==>
      || (|s| == 47 && Luhn(s[..10]) % 10 == 0 && Luhn(s[10..21]) % 10 == 0 && Luhn(s[21..32]) % 10 == 0)
      || (|s| == 48 && s[0] == '8' && Luhn(s[..12]) % 10 == 0 && Luhn(s[12..24]) % 10 == 0
          && Luhn(s[24..36]) % 10 == 0 && Luhn(s[36..48]) % 10 == 0)
      || (|s| == 44 && s[0] == '8')
      || (|s| == 44 && if Elevens(s[..4] + s[5..]) % 11 <= 1 then s[4] == '1'
                       else (Elevens(s[..4] + s[5..]) + DigitValue(s[4])) % 11 == 0)
  {
    hide BlockChecks, Luhn, Elevens, Mod11;
    if |s| == 47 {
      BlockIsLuhn(s, 0, 9);
      BlockIsLuhn(s, 10, 20);
      BlockIsLuhn(s, 21, 31);
      assert s[0..10] == s[..10];
    } else if |s| == 48 {
      FourBlocks(s);
    } else if |s| == 44 {
      Mod11Completes(s[..4] + s[5..], DigitValue(s[4]));
      SameDigitSameChar(s[4], if DigitValue(s[4]) == 1 then '1' else s[4]);
    }
  }

  lemma FourBlocks(s: string)
    requires AllDigits(s) && |s| == 48
    ensures ConvenioChecks(s) <==> Luhn(s[..12]) % 10 == 0 && Luhn(s[12..24]) % 10 == 0
                                   && Luhn(s[24..36]) % 10 == 0 && Luhn(s[36..48]) % 10 == 0
  {
    hide BlockChecks, Luhn;
    BlockIsLuhn(s, 0, 11);
    BlockIsLuhn(s, 12, 23);
    BlockIsLuhn(s, 24, 35);
    BlockIsLuhn(s, 36, 47);
    assert s[0..12] == s[..12];
    assert ConvenioChecks(s) <==> BlockChecks(s, 12 * 0, 11) && BlockChecks(s, 12 * 1, 23) && BlockChecks(s, 12 * 2, 35) && BlockChecks(s, 12 * 3, 47);
  }

  // ---------------------------------------------------------------- typing errors

  lemma SameDigitSameChar(c: char, d: char)
    requires IsDigit(c) && IsDigit(d) && DigitValue(c) == DigitValue(d)
    ensures c == d
  {
  }

  /** A block that checks no longer does after a change inside it, and is not touched by one outside. */
  lemma BlockNoticesChange(s: string, from: nat, check: nat, k: nat, c: char)
    requires AllDigits(s) && from <= check < |s| && k < |s| && IsDigit(c) && c != s[k]
    requires BlockChecks(s, from, check)
    ensures BlockChecks(s[k := c], from, check) <==> k < from || check < k
  {
    var t := s[k := c];
    if from <= k < check {
      assert t[from..check] == s[from..check][k - from := c];
      Mod10DetectsChange(s[from..check], k - from, c);
    } else {
      assert t[from..check] == s[from..check];
      if k == check && DigitValue(c) == DigitValue(s[k]) { SameDigitSameChar(c, s[k]); }
    }
  }

  /** In a typeable line that checks out, a change of one digit is noticed exactly among the first 32. */
  lemma LineNoticesChangeExactly(s: string, k: nat, c: char)
    requires |s| == 47 && ChecksOut(s) && k < 47 && IsDigit(c) && c != s[k]
    ensures ChecksOut(s[k := c]) <==> 32 <= k
  {
    hide BlockChecks;
    BlockNoticesChange(s, 0, 9, k, c);
    BlockNoticesChange(s, 10, 20, k, c);
    BlockNoticesChange(s, 21, 31, k, c);
    assert AllDigits(s[k := c]);
  }

  /** In a utility line that checks out, every change of one digit is noticed. */
  lemma ConvenioNoticesChange(s: string, k: nat, c: char)
    requires |s| == 48 && ChecksOut(s) && k < 48 && IsDigit(c) && c != s[k]
    ensures !ChecksOut(s[k := c])
  {
    hide BlockChecks;
    var i := k / 12;
    assert BlockChecks(s, 12 * i, 12 * i + 11);
    BlockNoticesChange(s, 12 * i, 12 * i + 11, k, c);
    assert AllDigits(s[k := c]);
  }

  /** The digits a 44-digit barcode's verifier covers. */
  function Covered(s: string): string
    requires |s| == 44
  {
    s[..4] + s[5..]
  }

  lemma CoveredChange(s: string, k: nat, c: char)
    requires |s| == 44 && k < 44 && k != 4
    ensures Covered(s[k := c]) == Covered(s)[(if k < 4 then k else k - 1) := c]
  {
  }

  /** In a bank barcode that checks out, a change of one digit goes unnoticed exactly when it makes the
      first digit an 8, or when it leaves both remainders of the covered digits among 0, 1 and 10. */
  lemma BarcodeNoticesChangeExactly(s: string, k: nat, c: char)
    requires |s| == 44 && ChecksOut(s) && s[0] != '8' && k < 44 && IsDigit(c) && c != s[k]
    ensures AllDigits(Covered(s)) && AllDigits(Covered(s[k := c]))
    ensures ChecksOut(s[k := c]) <==>
      (k == 0 && c == '8') || (k != 4 && Blurred(Remainder11(Covered(s))) && Blurred(Remainder11(Covered(s[k := c]))))
  {
    var t := s[k := c];
    hide Remainder11, Sum11;
    assert AllDigits(t);
    if k == 4 {
      assert Covered(t) == Covered(s);
      if DigitValue(c) == DigitValue(s[4]) { SameDigitSameChar(c, s[4]); }
    } else {
      CoveredChange(s, k, c);
      var j := if k < 4 then k else k - 1;
      assert Covered(s)[j] == s[k];
      Mod11DetectsChangeExactly(Covered(s), j, c);
      assert t[4] == s[4];
    }
  }
}
