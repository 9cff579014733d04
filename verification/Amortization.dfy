/**
 * The Price table of an instalment plan, over exact reals.
 */
module Amortization {

  // ---------------------------------------------------------------- compound interest

  function Power(base: real, n: nat): real {
    if n == 0 then 1.0 else Power(base, n - 1) * base
  }

  /** A growth factor above one keeps growing. */
  lemma {:induction false} PowerGrows(rate: real, n: nat)
    requires rate > 0.0
    ensures Power(1.0 + rate, n) >= 1.0
    ensures Power(1.0 + rate, n + 1) > Power(1.0 + rate, n)
  {
    var p := Power(1.0 + rate, n);
    if n > 0 {
      PowerGrows(rate, n - 1);
    }
    assert Power(1.0 + rate, n + 1) == p * (1.0 + rate);
    Product(p, rate);
  }

  lemma Product(p: real, rate: real)
    requires p >= 1.0 && rate > 0.0
    ensures p * (1.0 + rate) == p + p * rate && p * rate > 0.0
  {
  }

  lemma {:induction false} PowerMonotone(rate: real, m: nat, n: nat)
    requires rate > 0.0 && m <= n
    ensures Power(1.0 + rate, m) <= Power(1.0 + rate, n)
    ensures m < n ==> Power(1.0 + rate, m) < Power(1.0 + rate, n)
    decreases n
  {
    if m < n {
      PowerGrows(rate, n - 1);
      PowerMonotone(rate, m, n - 1);
    }
  }

  // ---------------------------------------------------------------- the plan

  /** What the request accepts: a positive value and rate, and at least one instalment. */
  datatype Plan = Plan(value: real, months: nat, rate: real)
  {
    predicate Valid() {
      value > 0.0 && months >= 1 && rate > 0.0
    }

    function Factor(): real {
      Power(1.0 + rate, months)
    }
  }

  lemma FactorAboveOne(p: Plan)
    requires p.Valid()
    ensures p.Factor() > 1.0
  {
    PowerMonotone(p.rate, 0, p.months);
  }

  function Installment(p: Plan): real
    requires p.Valid()
  {
    FactorAboveOne(p);
    p.value * (p.rate * p.Factor()) / (p.Factor() - 1.0)
  }

  /** A month of interest and payment. */
  function Month(balance: real, installment: real, rate: real): real {
    balance - (installment - balance * rate)
  }

  /** The balance after a month, before the small-balance rule. */
  function Unclamped(p: Plan, k: nat): real
    requires p.Valid()
  {
    if k == 0 then p.value
    else Month(Unclamped(p, k - 1), Installment(p), p.rate)
  }

  /** A month: anything under a cent becomes zero. */
  function NextBalance(balance: real, installment: real, rate: real): real {
    var next := Month(balance, installment, rate);
    if next < 0.01 then 0.0 else next
  }

  /** The balance column. */
  function Balance(p: Plan, k: nat): real
    requires p.Valid()
  {
    if k == 0 then p.value else NextBalance(Balance(p, k - 1), Installment(p), p.rate)
  }

  datatype Row = Row(month: nat, installment: real, interest: real, principal: real, balance: real)

  function MakeRow(month: nat, before: real, installment: real, rate: real): Row {
    Row(month, installment, before * rate, installment - before * rate, NextBalance(before, installment, rate))
  }

  function RowAt(p: Plan, k: nat): Row
    requires p.Valid() && k >= 1
  {
    MakeRow(k, Balance(p, k - 1), Installment(p), p.rate)
  }

  method MonthRow(month: nat, before: real, installment: real, rate: real) returns (row: Row)
    ensures row == MakeRow(month, before, installment, rate)
  {
    var interest := before * rate;
    var principal := installment - interest;
    var balance := before - principal;
    if balance < 0.01 { balance := 0.0; }
    row := Row(month, installment, interest, principal, balance);
  }

  method CalculateInstallments(p: Plan) returns (table: seq<Row>)
    requires p.Valid()
    ensures |table| == p.months && forall k | 0 <= k < |table| :: table[k] == RowAt(p, k + 1)
  {
    hide Installment, NextBalance, Power;
    var installment := Installment(p);
    var balance := p.value;
    table := [];
    for i := 0 to p.months
      invariant balance == Balance(p, i)
      invariant |table| == i && forall k | 0 <= k < i :: table[k] == RowAt(p, k + 1)
    {
      var row := MonthRow(i + 1, balance, installment, p.rate);
      balance := row.balance;
      table := table + [row];
    }
  }

  // ---------------------------------------------------------------- the closed form

  lemma InstallmentTimes(p: Plan)
    requires p.Valid()
    ensures Installment(p) * (p.Factor() - 1.0) == p.value * p.rate * p.Factor()
    ensures Installment(p) > 0.0
  {
    FactorAboveOne(p);
    var f := p.Factor();
    var n := p.value * (p.rate * f);
    assert p.rate * f > 0.0;
    assert n > 0.0;
    QuotientTimes(n, f - 1.0);
    assert n == p.value * p.rate * f;
  }

  lemma QuotientTimes(n: real, d: real)
    requires d > 0.0 && n > 0.0
    ensures n / d * d == n && n / d > 0.0
  {
  }

  /** The balance whose share of the value is (f - power) / (f - 1). */
  ghost predicate OnCurve(balance: real, value: real, f: real, power: real) {
    balance * (f - 1.0) == value * (f - power)
  }

  lemma {:induction false} MonthsOnCurve(p: Plan, k: nat)
    requires p.Valid()
    ensures OnCurve(Unclamped(p, k), p.value, p.Factor(), Power(1.0 + p.rate, k))
    decreases k
  {
    hide Installment, Plan.Factor, OnCurve, Month;
    if k == 0 {
      AtStart(p.value, p.Factor());
    } else {
      MonthsOnCurve(p, k - 1);
      InstallmentTimes(p);
      OneMonth(Unclamped(p, k - 1), Installment(p), p.value, p.rate, p.Factor(), Power(1.0 + p.rate, k - 1),
               Power(1.0 + p.rate, k));
    }
  }

  lemma AtStart(value: real, f: real)
    ensures OnCurve(value, value, f, 1.0)
  {
  }

  lemma OneMonth(u: real, installment: real, value: real, rate: real, f: real, power: real, grown: real)
    requires OnCurve(u, value, f, power) && grown == power * (1.0 + rate)
    requires installment * (f - 1.0) == value * rate * f
    ensures OnCurve(Month(u, installment, rate), value, f, grown)
  {
    var d := f - 1.0;
    assert (u - (installment - u * rate)) * d == u * d + rate * (u * d) - installment * d;
    assert rate * (value * (f - power)) == value * rate * f - value * (power * rate);
    assert value * (f - power * (1.0 + rate)) == value * (f - power) - value * (power * rate);
  }

  /** Month by month the balance follows PV * ((1+i)^n - (1+i)^k) / ((1+i)^n - 1). */
  lemma ClosedForm(p: Plan, k: nat)
    requires p.Valid()
    ensures Unclamped(p, k) * (p.Factor() - 1.0) == p.value * (p.Factor() - Power(1.0 + p.rate, k))
  {
    MonthsOnCurve(p, k);
    hide Unclamped, Power;
  }

  // ---------------------------------------------------------------- the balance before clamping

  lemma Cancel(x: real, y: real, d: real)
    requires d > 0.0
    ensures x * d == y * d ==> x == y
    ensures x * d < y * d ==> x < y
  {
    if x * d == y * d { assert (x - y) * d == 0.0; }
    if y <= x { assert (x - y) * d >= 0.0; }
  }

  lemma FallingNumbers(now: real, next: real, end: real, value: real, low: real, high: real, f: real)
    requires value > 0.0 && f > 1.0 && low < high && low < f
    requires now * (f - 1.0) == value * (f - low) && next * (f - 1.0) == value * (f - high)
    requires end * (f - 1.0) == value * (f - f)
    ensures next < now && 0.0 < now && end == 0.0
  {
    Scale(value, low, high, f);
    Cancel(next, now, f - 1.0);
    Cancel(0.0, now, f - 1.0);
    Cancel(end, 0.0, f - 1.0);
  }

  /** It falls every month and reaches zero at the end. */
  lemma UnclampedFalls(p: Plan, k: nat)
    requires p.Valid() && k < p.months
    ensures Unclamped(p, k + 1) < Unclamped(p, k) && Unclamped(p, k) > 0.0
    ensures Unclamped(p, p.months) == 0.0
  {
    hide Unclamped, Installment, Power;
    FactorAboveOne(p);
    ClosedForm(p, k);
    ClosedForm(p, k + 1);
    ClosedForm(p, p.months);
    PowerGrows(p.rate, k);
    PowerMonotone(p.rate, k, p.months);
    FallingNumbers(Unclamped(p, k), Unclamped(p, k + 1), Unclamped(p, p.months), p.value,
                   Power(1.0 + p.rate, k), Power(1.0 + p.rate, k + 1), p.Factor());
  }

  lemma Scale(value: real, low: real, high: real, f: real)
    requires value > 0.0 && low < high && low < f
    ensures value * (f - high) < value * (f - low)
    ensures 0.0 < value * (f - low)
  {
  }

  /** The balance before the last month is one instalment short of a month's growth. */
  lemma LastMonth(p: Plan)
    requires p.Valid()
    ensures Unclamped(p, p.months - 1) * (1.0 + p.rate) == Installment(p)
  {
    UnclampedFalls(p, p.months - 1);
    hide Installment, Power;
  }

  lemma {:induction false} UnclampedFallsTo(p: Plan, j: nat, k: nat)
    requires p.Valid() && j <= k <= p.months
    ensures Unclamped(p, k) <= Unclamped(p, j)
    decreases k - j
  {
    hide Unclamped;
    if j < k {
      UnclampedFalls(p, j);
      UnclampedFallsTo(p, j + 1, k);
    }
  }

  // ---------------------------------------------------------------- the balance column

  /** The first month whose balance is cleared. */
  ghost predicate ClearedAt(p: Plan, c: nat)
    requires p.Valid()
  {
    1 <= c <= p.months && Unclamped(p, c) < 0.01 && forall k | 1 <= k < c :: 0.01 <= Unclamped(p, k)
  }

  lemma FindCleared(p: Plan) returns (c: nat)
    requires p.Valid()
    ensures ClearedAt(p, c)
  {
    UnclampedFalls(p, 0);
    hide Unclamped;
    c := 1;
    while 0.01 <= Unclamped(p, c)
      invariant 1 <= c <= p.months && forall k | 1 <= k < c :: 0.01 <= Unclamped(p, k)
      decreases p.months - c
    {
      c := c + 1;
    }
  }

  lemma {:induction false} BalanceBefore(p: Plan, c: nat, k: nat)
    requires p.Valid() && ClearedAt(p, c) && k < c
    ensures Balance(p, k) == Unclamped(p, k)
    decreases k
  {
    hide Installment, Power;
    if k > 0 {
      BalanceBefore(p, c, k - 1);
    }
  }

  lemma {:induction false} BalanceAfter(p: Plan, c: nat, k: nat)
    requires p.Valid() && ClearedAt(p, c) && c <= k
    ensures Balance(p, k) == 0.0
    decreases k
  {
    InstallmentTimes(p);
    hide Installment, Power;
    if k == c {
      BalanceBefore(p, c, c - 1);
    } else {
      BalanceAfter(p, c, k - 1);
    }
  }

  /** For every plan the balance column never rises, is never negative, and ends at zero. */
  lemma ColumnFallsToZero(p: Plan, k: nat)
    requires p.Valid() && k < p.months
    ensures 0.0 <= Balance(p, k + 1) <= Balance(p, k) && Balance(p, p.months) == 0.0
  {
    var c := FindCleared(p);
    hide Balance, Unclamped;
    BalanceAfter(p, c, p.months);
    UnclampedFalls(p, k);
    if k + 1 < c {
      BalanceBefore(p, c, k);
      BalanceBefore(p, c, k + 1);
    } else {
      BalanceAfter(p, c, k + 1);
      if k < c { BalanceBefore(p, c, k); } else { BalanceAfter(p, c, k); }
    }
  }

  // ---------------------------------------------------------------- sums

  function PrincipalSum(p: Plan, n: nat): real
    requires p.Valid()
  {
    if n == 0 then 0.0 else PrincipalSum(p, n - 1) + RowAt(p, n).principal
  }

  function InterestSum(p: Plan, n: nat): real
    requires p.Valid()
  {
    if n == 0 then 0.0 else InterestSum(p, n - 1) + RowAt(p, n).interest
  }

  function PaymentSum(p: Plan, n: nat): real
    requires p.Valid()
  {
    if n == 0 then 0.0 else PaymentSum(p, n - 1) + RowAt(p, n).installment
  }

  /** Every payment is principal and interest. */
  lemma {:induction false} PaymentsSplit(p: Plan, n: nat)
    requires p.Valid()
    ensures PaymentSum(p, n) == PrincipalSum(p, n) + InterestSum(p, n)
    decreases n
  {
    hide Installment, Balance;
    if n > 0 {
      PaymentsSplit(p, n - 1);
    }
  }

  lemma {:induction false} PrincipalUntilCleared(p: Plan, c: nat, k: nat)
    requires p.Valid() && ClearedAt(p, c) && k <= c
    ensures PrincipalSum(p, k) == p.value - Unclamped(p, k)
    decreases k
  {
    hide Installment, Balance, Power, NextBalance;
    if k > 0 {
      PrincipalUntilCleared(p, c, k - 1);
      BalanceBefore(p, c, k - 1);
    }
  }

  /** The instalments of the months after c, up to k. */
  function Installments(p: Plan, c: nat, k: nat): real
    requires p.Valid() && c <= k
  {
    (k - c) as real * Installment(p)
  }

  lemma OneMoreInstallment(p: Plan, c: nat, k: nat)
    requires p.Valid() && c <= k
    ensures Installments(p, c, c) == 0.0
    ensures Installments(p, c, k + 1) == Installments(p, c, k) + Installment(p)
    ensures Installments(p, c, k + 1) == Installments(p, c + 1, k + 1) + Installment(p)
  {
    var i := Installment(p);
    hide Installment;
    assert (k + 1 - c) as real == (k - c) as real + 1.0;
  }

  /** After the balance is cleared the whole instalment counts as principal. */
  lemma {:induction false} PrincipalAfterCleared(p: Plan, c: nat, k: nat)
    requires p.Valid() && ClearedAt(p, c) && c <= k
    ensures PrincipalSum(p, k) == p.value - Unclamped(p, c) + Installments(p, c, k)
    decreases k
  {
    hide Installment, Balance, Power, Unclamped, Installments;
    if k == c {
      PrincipalUntilCleared(p, c, c);
      OneMoreInstallment(p, c, c);
    } else {
      PrincipalAfterCleared(p, c, k - 1);
      BalanceAfter(p, c, k - 1);
      OneMoreInstallment(p, c, k - 1);
    }
  }

  lemma PositiveProduct(x: real, y: real)
    requires x > 0.0 && y > 0.0
    ensures x * y > 0.0
  {
  }

  /** What is still owed is less than what is still to be paid. */
  lemma {:induction false} OwedIsLessThanPaid(p: Plan, k: nat)
    requires p.Valid() && k < p.months
    ensures Unclamped(p, k) < Installments(p, k, p.months)
    decreases p.months - k
  {
    UnclampedFalls(p, k);
    InstallmentTimes(p);
    hide Installment, Power, Installments;
    PositiveProduct(Unclamped(p, k), p.rate);
    OneMoreInstallment(p, k, p.months - 1);
    if k + 1 < p.months {
      OwedIsLessThanPaid(p, k + 1);
    } else {
      OneMoreInstallment(p, p.months, p.months);
    }
  }

  lemma ClearedOnlyAtTheEnd(p: Plan, c: nat)
    requires p.Valid() && ClearedAt(p, c)
    ensures c == p.months <==> p.months == 1 || 0.01 * (1.0 + p.rate) <= Installment(p)
  {
    hide Unclamped, Installment, Power;
    LastMonth(p);
    var last := Unclamped(p, p.months - 1);
    Compare(0.01, last, 1.0 + p.rate);
    if c < p.months { UnclampedFallsTo(p, c, p.months - 1); }
  }

  lemma Compare(x: real, y: real, d: real)
    requires d > 0.0
    ensures x <= y <==> x * d <= y * d
  {
    if x <= y { assert (y - x) * d >= 0.0; } else { assert (x - y) * d > 0.0; }
  }

  /** The principals add up to the value exactly when nothing is cleared before the last month: for a
      single instalment, or when the instalment is at least a cent with a month's interest. Otherwise
      they add up to more. */
  lemma PrincipalsAddUpExactly(p: Plan)
    requires p.Valid()
    ensures PrincipalSum(p, p.months) >= p.value
    ensures PrincipalSum(p, p.months) == p.value <==> p.months == 1 || 0.01 * (1.0 + p.rate) <= Installment(p)
  {
    var c := FindCleared(p);
    hide Unclamped, Installment, PrincipalSum, Installments, Power;
    ClearedOnlyAtTheEnd(p, c);
    PrincipalAfterCleared(p, c, p.months);
    if c < p.months {
      OwedIsLessThanPaid(p, c);
    } else {
      UnclampedFalls(p, 0);
      OneMoreInstallment(p, c, c);
    }
  }

  /** Under the same condition the payments are the value and the interest. */
  lemma PaymentsAreValueAndInterest(p: Plan)
    requires p.Valid()
    ensures PaymentSum(p, p.months) == p.value + InterestSum(p, p.months)
       <==> p.months == 1 || 0.01 * (1.0 + p.rate) <= Installment(p)
  {
    hide Installment, PrincipalSum, PaymentSum, InterestSum;
    PrincipalsAddUpExactly(p);
    PaymentsSplit(p, p.months);
  }
}
