/**
 * The balance audit: it measures the bank, asks the gateway for its balance, and corrects only the
 * matrix account. The gateway call sits between the measurement and the correction, so the state
 * that is corrected (`live`) need not be the one that was measured.
 */
module Audit {
  import opened Wrappers
  import opened PixModel
  import opened PixConservation
  import Fees

  const AUTO_CORRECTION_MAX := 2000
  const ERROR_FROM := 1000

  /** What one cycle measures: the total of all balances, and whether the matrix account is seeded. */
  datatype Snapshot = Snapshot(total: int, matrixKnown: bool)

  datatype Verdict = Balanced | NoGateway | AutoCorrected | Warning | Error

  datatype Report = Report(state: State, verdict: Verdict)

  ghost function Measured(s: State): Snapshot {
    Snapshot(Total(s), MatrixSeeded(s))
  }

  function Abs(x: int): int { if x < 0 then -x else x }

  /** One cycle, for the gateway balance it was told, if any. */
  function Cycle(live: State, snap: Snapshot, gateway: Option<int>): Report {
    match gateway
    case None => Report(live, NoGateway)
    case Some(balance) => Correct(live, snap, snap.total - balance)
  }

  function Correct(live: State, snap: Snapshot, diff: int): Report {
    if diff == 0 then Report(live, Balanced)
    else if 1 < diff <= AUTO_CORRECTION_MAX && snap.matrixKnown then
      if MatrixSeeded(live)
      then Report(AddBalance(live, live.matrix.value, -Min(diff, Fees.Max(0, live.accounts[live.matrix.value].balance))), AutoCorrected)
      else Report(live, Error)
    else if diff < -1 && snap.matrixKnown then
      if MatrixSeeded(live) then Report(AddBalance(live, live.matrix.value, -diff), AutoCorrected) else Report(live, Warning)
    else Report(live, if Abs(diff) >= ERROR_FROM then Error else Warning)
  }

  /** What a cycle adds to the matrix account; a debit is negative. */
  function Correction(live: State, snap: Snapshot, gateway: Option<int>): int {
    if gateway.None? || !snap.matrixKnown || !MatrixSeeded(live) then 0
    else
      var diff := snap.total - gateway.value;
      if 1 < diff <= AUTO_CORRECTION_MAX then -Min(diff, Fees.Max(0, live.accounts[live.matrix.value].balance))
      else if diff < -1 then -diff
      else 0
  }

  /** That amount on the matrix account is all a cycle does. */
  lemma CycleIsCorrection(live: State, snap: Snapshot, gateway: Option<int>)
    ensures var after := Cycle(live, snap, gateway).state;
            after == if Correction(live, snap, gateway) == 0 then live
                     else AddBalance(live, live.matrix.value, Correction(live, snap, gateway))
  {
    if MatrixSeeded(live) {
      var m := live.matrix.value;
      assert AddBalance(live, m, 0).accounts == live.accounts;
    }
  }

  /** No customer balance, transaction or ledger entry is ever touched, whatever was measured. */
  lemma CustomersUntouched(live: State, snap: Snapshot, gateway: Option<int>)
    ensures var after := Cycle(live, snap, gateway).state;
            && after.txs == live.txs && after.ledger == live.ledger && after.matrix == live.matrix
            && after.accounts.Keys == live.accounts.Keys
            && (forall a | a in live.accounts && live.matrix != Some(a) :: after.accounts[a] == live.accounts[a])
  {
  }

  /** The matrix account is never debited below zero, even on a stale measurement. */
  lemma MatrixStaysNonNegative(live: State, snap: Snapshot, gateway: Option<int>)
    requires MatrixSeeded(live)
    ensures var after := Cycle(live, snap, gateway).state.accounts[live.matrix.value].balance;
            after >= (if live.accounts[live.matrix.value].balance < 0 then live.accounts[live.matrix.value].balance else 0)
  {
  }

  /** The exact effect on the total, stale measurement or not. */
  lemma CycleTotal(live: State, snap: Snapshot, gateway: Option<int>)
    ensures Total(Cycle(live, snap, gateway).state) == Total(live) + Correction(live, snap, gateway)
  {
    CycleIsCorrection(live, snap, gateway);
    var c := Correction(live, snap, gateway);
    if c != 0 { AddBalanceTotal(live, live.matrix.value, c); }
    hide Cycle, Correction, Total;
  }

  /** On the state it measured, a cycle that finds the gateway ahead credits the matrix account the
      exact surplus; one that does not never credits it. */
  lemma CycleCredit(s: State, balance: int)
    requires MatrixSeeded(s)
    ensures var m, after := s.matrix.value, Cycle(s, Measured(s), Some(balance)).state;
            && MatrixSeeded(after) && after.matrix == s.matrix
            && (Total(s) - balance < -1 ==> after.accounts[m].balance == s.accounts[m].balance + balance - Total(s))
            && (Total(s) - balance >= -1 ==> after.accounts[m].balance <= s.accounts[m].balance)
  {
  }

  /** After a cycle on the state it measured, with gateway and matrix account present, the residual
      is zero, or one cent, or it was beyond the cap and nothing changed, or the matrix account has
      nothing left to give. */
  lemma ResidualAfterCycle(s: State, balance: int)
    requires MatrixSeeded(s)
    ensures var after := Cycle(s, Measured(s), Some(balance)).state;
            var residual := Total(after) - balance;
            || residual == 0
            || (Abs(residual) == 1 && after == s)
            || (residual > AUTO_CORRECTION_MAX && after == s)
            || (0 < residual <= AUTO_CORRECTION_MAX && after.accounts[s.matrix.value].balance <= 0)
    ensures Total(s) - balance < -1 ==> Total(Cycle(s, Measured(s), Some(balance)).state) == balance
  {
    CycleTotal(s, Measured(s), Some(balance));
  }

  /** A cycle on the state it measured levels bank and gateway exactly when they were level, or the matrix
      account is there and the gateway was ahead by more than a cent, or behind by more than a cent, by at
      most the cap and by no more than the matrix account has. */
  lemma LevelAfterCycleExactly(s: State, balance: int)
    ensures var diff := Total(s) - balance;
      Total(Cycle(s, Measured(s), Some(balance)).state) == balance <==>
      diff == 0 || (MatrixSeeded(s) && (diff < -1 || 1 < diff <= Min(AUTO_CORRECTION_MAX, s.accounts[s.matrix.value].balance)))
  {
    CycleTotal(s, Measured(s), Some(balance));
    hide Cycle, Total;
  }

  /** It changes nothing at all exactly when they are at most a cent apart, or there is no matrix account,
      or the bank is ahead by more than the cap or the matrix account has nothing to give: a divergence of
      one cent stays for ever. */
  lemma CycleIsIdleExactly(s: State, balance: int)
    ensures var diff := Total(s) - balance;
      Cycle(s, Measured(s), Some(balance)).state == s <==>
      -1 <= diff <= 1 || !MatrixSeeded(s) || diff > AUTO_CORRECTION_MAX || (diff > 1 && s.accounts[s.matrix.value].balance <= 0)
  {
    CycleTotal(s, Measured(s), Some(balance));
    CycleIsCorrection(s, Measured(s), Some(balance));
    hide Cycle, Total;
  }

  /** A second cycle against the same gateway balance changes nothing. */
  lemma CycleIsIdempotent(s: State, balance: int)
    ensures var once := Cycle(s, Measured(s), Some(balance)).state;
            Cycle(once, Measured(once), Some(balance)).state == once
  {
    CycleTotal(s, Measured(s), Some(balance));
    var once := Cycle(s, Measured(s), Some(balance)).state;
    if MatrixSeeded(s) && 1 < Total(once) - balance <= AUTO_CORRECTION_MAX {
      ResidualAfterCycle(s, balance);
      var m := s.matrix.value;
      assert AddBalance(once, m, 0) == once by {
        assert AddBalance(once, m, 0).accounts == once.accounts;
      }
    }
  }

  /** Money that moved between measurement and correction is neither lost nor counted twice: a cycle
      that corrects in full leaves the live total as far from the gateway as it moved meanwhile. */
  lemma StaleMeasurement(measured: State, live: State, balance: int)
    requires MatrixSeeded(measured) && MatrixSeeded(live)
    requires Total(measured) - balance < -1
          || 1 < Total(measured) - balance <= Min(AUTO_CORRECTION_MAX, live.accounts[live.matrix.value].balance)
    ensures Total(Cycle(live, Measured(measured), Some(balance)).state) - balance == Total(live) - Total(measured)
  {
    CycleTotal(live, Measured(measured), Some(balance));
  }

  /** What a cycle reports, in cents: corrected exactly when the divergence exceeds a cent and, if the bank is
      ahead, not 20.00, and the matrix account was there for both the measurement and the correction; of the
      rest, an error from 10.00 on or when the account has gone while the bank was ahead. */
  lemma VerdictExactly(live: State, snap: Snapshot, gateway: Option<int>)
    ensures var verdict := Cycle(live, snap, gateway).verdict;
      if gateway.None? then verdict == NoGateway
      else
        var diff := snap.total - gateway.value;
        var corrects := snap.matrixKnown && (diff < -1 || 1 < diff <= 2000);
        && (verdict == Balanced <==> diff == 0)
        && (verdict == AutoCorrected <==> corrects && MatrixSeeded(live))
        && (verdict == Error <==> if corrects then !MatrixSeeded(live) && diff > 0 else diff <= -1000 || diff >= 1000)
        && verdict != NoGateway
  {
  }
}
