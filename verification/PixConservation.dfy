/**
 * Conservation of money over whole runs: the total of all balances changes only by what enters or
 * leaves through the gateway, and each transaction can do that at most once.
 */
module PixConservation {
  import opened Wrappers
  import opened Sums
  import opened PixModel
  import opened PixHolds
  import opened PixLifecycle
  import Fees

  ghost function Balances(accounts: map<Id, Account>): map<Id, int> {
    map a | a in accounts :: accounts[a].balance
  }

  ghost function Total(s: State): int {
    MapSum(Balances(s.accounts))
  }

  predicate MatrixSeeded(s: State) {
    s.matrix.Some? && s.matrix.value in s.accounts
  }

  /** A receipt raises a limit by half its gross, to half a cent, but never beyond the cap. */
  lemma LimitRises(limit: int, gross: int)
    requires 0 <= gross && limit <= CREDIT_LIMIT_CAP
    ensures limit <= RaisedLimit(limit, gross) <= CREDIT_LIMIT_CAP
    ensures RaisedLimit(limit, gross) < CREDIT_LIMIT_CAP ==> 0 <= 2 * (RaisedLimit(limit, gross) - limit) - gross <= 1
    ensures CREDIT_LIMIT_CAP == 5_000_000 && (RaisedLimit(limit, gross) == CREDIT_LIMIT_CAP ==> 2 * (CREDIT_LIMIT_CAP - limit) <= gross + 1)
  {
  }

  // ---------------------------------------------------------------- what one update does to the total

  lemma AddBalanceTotal(s: State, a: Id, amount: int)
    requires a in s.accounts
    ensures Total(AddBalance(s, a, amount)) == Total(s) + amount
  {
    MapSumUpdate(Balances(s.accounts), a, s.accounts[a].balance + amount);
    assert Balances(AddBalance(s, a, amount).accounts) == Balances(s.accounts)[a := s.accounts[a].balance + amount];
  }

  lemma MoveMoneyTotal(s: State, from: Id, to: Id, amount: int)
    requires from in s.accounts && to in s.accounts
    ensures Total(MoveMoney(s, from, to, amount)) == Total(s)
  {
    AddBalanceTotal(s, from, -amount);
    AddBalanceTotal(AddBalance(s, from, -amount), to, amount);
  }

  lemma SetLimitTotal(s: State, a: Id, limit: int)
    requires a in s.accounts
    ensures Total(SetLimit(s, a, limit)) == Total(s)
  {
    assert Balances(SetLimit(s, a, limit).accounts) == Balances(s.accounts);
  }

  lemma CreditFeeTotal(s: State, amount: int)
    ensures Total(CreditFee(s, amount)) == Total(s) + if MatrixSeeded(s) && amount > 0 then amount else 0
  {
    if amount > 0 && MatrixSeeded(s) { AddBalanceTotal(s, s.matrix.value, amount); }
  }

  /** A receipt adds its gross to the bank, whoever the receiver is: today no receipt carries a fee. */
  lemma CreditReceiptTotal(s: State, a: Id, gross: int, feeOverride: Option<int>)
    requires a in s.accounts && gross >= 0 && feeOverride in {None, Some(0)}
    ensures Total(CreditReceipt(s, a, gross, feeOverride)) == Total(s) + gross
  {
    var s1 := AddBalance(s, a, gross);
    AddBalanceTotal(s, a, gross);
    SetLimitTotal(s1, a, RaisedLimit(s.accounts[a].creditLimit, gross));
  }

  /** The general receipt: net to the receiver and fee to the matrix account, which may be the
      receiver itself, sum to the gross. */
  lemma ReceiptSplitsGross(s: State, a: Id, gross: int, fee: int)
    requires a in s.accounts && MatrixSeeded(s) && 0 <= fee <= gross
    ensures Total(CreditReceipt(s, a, gross, Some(fee))) == Total(s) + gross
  {
    var s1 := AddBalance(s, a, gross - fee);
    AddBalanceTotal(s, a, gross - fee);
    var s2 := SetLimit(s1, a, RaisedLimit(s.accounts[a].creditLimit, gross));
    SetLimitTotal(s1, a, RaisedLimit(s.accounts[a].creditLimit, gross));
    CreditFeeTotal(s2, fee);
  }

  lemma ConfirmChargeTotal(s: State, charge: Id)
    requires RowsOk(s) && charge in s.txs
    ensures Total(ConfirmCharge(s, charge)) == Total(s) + s.txs[charge].value
  {
    assert RowOk(s, s.txs[charge]);
    CreditReceiptTotal(SetStatus(s, charge, Confirmed), s.txs[charge].owner, s.txs[charge].value, None);
  }

  // ---------------------------------------------------------------- the flow of one step

  /** The transaction whose money enters or leaves the bank in this step. */
  ghost function Settles(s: State, e: Event): Option<Id> {
    if !Handle(s, e).reply.Accepted? then None
    else match e
      case Receipt(c) => Some(c)
      case Verify(_, c, _) => Some(c)
      case Refresh(_, c, _) => Some(c)
      case Pay(r, _) => if PaysOwnCharge(s, e) then r.charge else None
      case ChargePaid(payment, _, _) => Some(payment)
      case Transfer(t, done) => if done && t in s.txs && s.txs[t].kind == Sent then Some(t) else None
      case _ => None
  }

  /** Its amount: the gross of a paid charge or deposit; for a confirmed send, its value and the
      network fee, since the rest of the fee stays in the bank. */
  ghost function Flow(s: State, e: Event): int {
    var t := Settles(s, e);
    if t.None? then 0
    else if e.Transfer? then (if t.value in s.txs then -(s.txs[t.value].value + Fees.NETWORK_FEE) else 0)
    else if t.value in s.txs then s.txs[t.value].value
    else if e.ChargePaid? then e.amount
    else 0
  }

  lemma DebitSendTotal(s: State, t: Id)
    requires MatrixSeeded(s) && t in s.txs && s.txs[t].owner in s.accounts && s.txs[t].fee >= Fees.OUTBOUND_FLOOR
    ensures Total(DebitSend(s, t)) == Total(s) - if s.txs[t].kind == Sent then s.txs[t].value + Fees.NETWORK_FEE else 0
  {
    var row := s.txs[t];
    AddBalanceTotal(s, row.owner, -(row.value + row.fee));
    CreditFeeTotal(AddBalance(s, row.owner, -(row.value + row.fee)), row.fee - Fees.NETWORK_FEE);
  }

  lemma TransferTotal(s: State, t: Id, done: bool)
    requires RowsOk(s) && MatrixSeeded(s)
    ensures Total(TransferWebhook(s, t, done).state) == Total(s) + Flow(s, Transfer(t, done))
  {
    if t in s.txs && s.txs[t].status == Processing && done {
      assert RowOk(s, s.txs[t]);
      DebitSendTotal(SetStatus(s, t, Confirmed), t);
    }
  }

  /** Internal transfers move money and neither create nor destroy it, with or without a matrix account. */
  lemma InternalTransferTotal(s: State, r: SendRequest, to: Id)
    requires r.user in s.accounts && to in s.accounts
    ensures Total(InternalTransfer(s, r, to).state) == Total(s)
  {
    hide Clashes, MoveMoney, AddBalance;
    if InternalTransfer(s, r, to).reply.Accepted? {
      MoveMoneyTotal(TransferRecorded(s, r, to).value, r.user, to, r.value);
    }
  }

  lemma SendTotal(s: State, r: SendRequest, g: SendAnswer)
    ensures Total(CreatePix(s, r, g).state) == Total(s)
  {
    if r.user in s.accounts && r.recipient.Some? && r.recipient.value in s.accounts {
      InternalTransferTotal(s, r, r.recipient.value);
    }
  }

  lemma ChargeMoneyTotal(s: State, payer: Id, owner: Id, value: int, charge: Id)
    requires payer in s.accounts && owner in s.accounts && charge in s.txs && value >= 0
    ensures Total(ChargeMoneyMoved(s, payer, owner, value, charge))
         == Total(s) - if MatrixSeeded(s) then 0 else Fees.MAINTENANCE_FEE
  {
    var s0 := AddBalance(s, payer, -(value + Fees.MAINTENANCE_FEE));
    AddBalanceTotal(s, payer, -(value + Fees.MAINTENANCE_FEE));
    CreditFeeTotal(s0, Fees.MAINTENANCE_FEE);
    CreditReceiptTotal(SetStatus(PayerCharged(s, payer, value), charge, Confirmed), owner, value, Some(0));
  }

  /** An internal QR payment conserves the total exactly when the matrix account is there to receive
      its maintenance fee; the payer or the receiver may be the matrix account itself. */
  lemma InternalChargeTotal(s: State, r: QrRequest, charge: Id)
    requires RowsOk(s) && r.user in s.accounts && charge in s.txs && s.txs[charge].owner != r.user
    requires PayInternalCharge(s, r, charge).reply.Accepted?
    ensures Total(PayInternalCharge(s, r, charge).state) == Total(s) <==> MatrixSeeded(s)
  {
    assert RowOk(s, s.txs[charge]);
    ChargeMoneyTotal(s, r.user, s.txs[charge].owner, s.txs[charge].value, charge);
  }

  lemma OwnChargeTotal(s: State, r: QrRequest, charge: Id)
    requires RowsOk(s) && r.user in s.accounts && charge in s.txs && s.txs[charge].owner == r.user
    ensures Total(PayInternalCharge(s, r, charge).state) == Total(s) + s.txs[charge].value
  {
    assert RowOk(s, s.txs[charge]);
    CreditReceiptTotal(SetStatus(s, charge, Confirmed), r.user, s.txs[charge].value, Some(0));
  }

  lemma ExternalQrTotal(s: State, r: QrRequest, g: QrAnswer)
    requires r.user in s.accounts
    ensures Total(PayExternalQr(s, r, g).state) == Total(s)
  {
  }

  lemma PayTotal(s: State, r: QrRequest, g: QrAnswer)
    requires RowsOk(s) && MatrixSeeded(s)
    ensures Total(PayQr(s, r, g).state) == Total(s) + Flow(s, Pay(r, g))
  {
    if r.user in s.accounts && PayQr(s, r, g).reply.Accepted? {
      if OpenCharge(s, r.charge) {
        if s.txs[r.charge.value].owner == r.user { OwnChargeTotal(s, r, r.charge.value); }
        else { InternalChargeTotal(s, r, r.charge.value); }
      }
    }
    if r.user in s.accounts { ExternalQrTotal(s, r, g); }
  }

  lemma ChargePaidTotal(s: State, payment: Id, recipient: Option<Id>, amount: int)
    requires RowsOk(s)
    ensures Total(ChargeWebhook(s, payment, recipient, amount).state) == Total(s) + Flow(s, ChargePaid(payment, recipient, amount))
  {
    if payment in s.txs { ConfirmChargeTotal(s, payment); }
    else if ChargeWebhook(s, payment, recipient, amount).reply.Accepted? {
      CreditReceiptTotal(s, recipient.value, amount, None);
    }
  }

  lemma ReceiptTotal(s: State, c: Id)
    requires RowsOk(s)
    ensures Total(ConfirmReceipt(s, c).state) == Total(s) + Flow(s, Receipt(c))
  {
    if c in s.txs { ConfirmChargeTotal(s, c); }
  }

  lemma VerifyTotal(s: State, user: Id, c: Id, paid: bool)
    requires RowsOk(s)
    ensures Total(VerifyCharge(s, user, c, paid).state) == Total(s) + Flow(s, Verify(user, c, paid))
  {
    if c in s.txs { ConfirmChargeTotal(s, c); }
  }

  lemma RefreshTotal(s: State, user: Id, c: Id, paid: bool)
    requires RowsOk(s)
    ensures Total(RefreshCharge(s, user, c, paid).state) == Total(s) + Flow(s, Refresh(user, c, paid))
  {
    if c in s.txs { ConfirmChargeTotal(s, c); }
  }

  lemma StepTotal(s: State, e: Event)
    requires RowsOk(s) && MatrixSeeded(s)
    ensures Total(Step(s, e)) == Total(s) + Flow(s, e)
  {
    if e.Send? { SendTotal(s, e.send, e.sendAnswer); }
    else if e.Pay? { PayTotal(s, e.pay, e.payAnswer); }
    else if e.ChargePaid? { ChargePaidTotal(s, e.payment, e.recipient, e.amount); }
    else if e.Transfer? { TransferTotal(s, e.tx, e.done); }
    else if e.Receipt? { ReceiptTotal(s, e.charge); }
    else if e.Verify? { VerifyTotal(s, e.user, e.charge, e.paid); }
    else if e.Refresh? { RefreshTotal(s, e.user, e.charge, e.paid); }
  }

  // ---------------------------------------------------------------- rows stay well formed on every run

  lemma SendKeepsRows(s: State, r: SendRequest, g: SendAnswer)
    requires RowsOk(s)
    ensures RowsOk(CreatePix(s, r, g).state) && KeepsAccounts(s, CreatePix(s, r, g).state)
  {
    Fees.BusinessFeeBounds(r.value);
  }

  lemma PayInternalKeepsRows(s: State, r: QrRequest, charge: Id)
    requires RowsOk(s) && r.user in s.accounts && OpenCharge(s, Some(charge))
    ensures RowsOk(PayInternalCharge(s, r, charge).state) && KeepsAccounts(s, PayInternalCharge(s, r, charge).state)
  {
    InternalChargeFlights(s, r, charge);
    var owner, value := s.txs[charge].owner, s.txs[charge].value;
    if owner in s.accounts {
      ChargeMoneyShape(s, r.user, owner, value, charge);
      CreditReceiptShape(SetStatus(s, charge, Confirmed), owner, value, Some(0));
    }
    hide RowsOk, CreditReceipt, ChargeMoneyMoved, SameFlights, SameUniqueColumns;
  }

  lemma InsertedKeepsRows(s: State, id: Id, row: Tx)
    requires RowsOk(s) && RowOk(s, row)
    ensures RowsOk(InsertTx(s, id, row)) && KeepsAccounts(s, InsertTx(s, id, row))
  {
  }

  lemma DispatchKeepsRows(s: State, id: Id, row: Tx)
    requires RowsOk(s) && RowOk(s, row)
    ensures RowsOk(Dispatch(s, id, row)) && KeepsAccounts(s, Dispatch(s, id, row))
  {
  }

  lemma PayExternalKeepsRows(s: State, r: QrRequest, g: QrAnswer)
    requires RowsOk(s) && r.user in s.accounts && (r.clientValue.Some? ==> r.clientValue.value > 0)
    ensures RowsOk(PayExternalQr(s, r, g).state) && KeepsAccounts(s, PayExternalQr(s, r, g).state)
  {
    var s', document := PayExternalQr(s, r, g).state, s.accounts[r.user].document;
    ExternalQrCases(s, r, g);
    Fees.BusinessFeeBounds(ProvisionalRow(document, r).value);
    hide PayExternalQr, RowsOk;
    if QrDispatched(s, r, g, s') {
      Fees.BusinessFeeBounds(ResolvedValue(r, g));
      DispatchKeepsRows(s, PaymentId(r, g), QrOutboundRow(document, r, g));
    } else if s' != s {
      InsertedKeepsRows(s, r.txId, ProvisionalRow(document, r).(status := Failed));
    }
  }

  lemma PayKeepsRows(s: State, r: QrRequest, g: QrAnswer)
    requires RowsOk(s)
    ensures RowsOk(PayQr(s, r, g).state) && KeepsAccounts(s, PayQr(s, r, g).state)
  {
    hide RowsOk, PayInternalCharge, PayExternalQr;
    if r.user in s.accounts && (r.clientValue.Some? ==> r.clientValue.value > 0) {
      if OpenCharge(s, r.charge) { PayInternalKeepsRows(s, r, r.charge.value); }
      PayExternalKeepsRows(s, r, g);
    }
  }

  lemma ConfirmKeepsRows(s: State, charge: Id)
    requires RowsOk(s) && charge in s.txs
    ensures RowsOk(ConfirmCharge(s, charge)) && KeepsAccounts(s, ConfirmCharge(s, charge))
  {
    ConfirmChargeShape(s, charge);
    assert RowOk(s, s.txs[charge]);
  }

  lemma ChargePaidKeepsRows(s: State, e: Event)
    requires RowsOk(s) && e.ChargePaid?
    ensures RowsOk(Step(s, e)) && KeepsAccounts(s, Step(s, e))
  {
    if e.payment in s.txs { ConfirmKeepsRows(s, e.payment); }
    else if Step(s, e) != s { CreditReceiptShape(s, e.recipient.value, e.amount, None); }
  }

  lemma OthersKeepRows(s: State, e: Event)
    requires RowsOk(s) && !e.Send? && !e.Pay? && !e.ChargePaid?
    ensures RowsOk(Step(s, e)) && KeepsAccounts(s, Step(s, e))
  {
    if e.Receipt? || e.Verify? || e.Refresh? {
      hide ConfirmCharge, RowsOk;
      if e.charge in s.txs { ConfirmKeepsRows(s, e.charge); }
    }
  }

  lemma StepKeepsRows(s: State, e: Event)
    requires RowsOk(s)
    ensures RowsOk(Step(s, e)) && KeepsAccounts(s, Step(s, e))
  {
    if e.Send? { SendKeepsRows(s, e.send, e.sendAnswer); }
    else if e.Pay? { PayKeepsRows(s, e.pay, e.payAnswer); }
    else if e.ChargePaid? { ChargePaidKeepsRows(s, e); }
    else { OthersKeepRows(s, e); }
  }

  // ---------------------------------------------------------------- each transaction settles at most once

  ghost predicate IsConfirmed(s: State, t: Id) {
    t in s.txs && s.txs[t].status == Confirmed
  }

  lemma SettlingConfirms(s: State, e: Event)
    requires Settles(s, e).Some?
    ensures !IsConfirmed(s, Settles(s, e).value) && IsConfirmed(Step(s, e), Settles(s, e).value)
  {
    if e.Receipt? || e.Verify? || e.Refresh? { ConfirmEvolves(s, e.charge); }
    else if e.ChargePaid? && e.payment in s.txs { ConfirmEvolves(s, e.payment); }
  }

  /** The settlements of a run, by transaction. */
  ghost function Settlements(s: State, events: seq<Event>): map<Id, int>
    decreases |events|
  {
    if events == [] then map[]
    else
      var rest := Settlements(Step(s, events[0]), events[1..]);
      var t := Settles(s, events[0]);
      if t.None? then rest else rest[t.value := Flow(s, events[0])]
  }

  /** A transaction that is CONFIRMED never settles again. */
  lemma {:induction false} ConfirmedNeverSettlesAgain(s: State, events: seq<Event>, t: Id)
    requires IsConfirmed(s, t)
    ensures t !in Settlements(s, events)
    decreases |events|
  {
    if events != [] {
      StepEvolves(s, events[0]);
      assert RowEvolves(s.txs[t], Step(s, events[0]).txs[t]);
      if Settles(s, events[0]).Some? { SettlingConfirms(s, events[0]); }
      ConfirmedNeverSettlesAgain(Step(s, events[0]), events[1..], t);
    }
  }

  /** Over every run, the total is the initial total plus one signed amount per settled transaction:
      the gross of each charge or deposit that was paid, minus value and network fee of each
      confirmed send. No duplicate delivery or second confirmation route counts twice. */
  lemma {:induction false} RunConserves(s: State, events: seq<Event>)
    requires RowsOk(s) && MatrixSeeded(s)
    ensures Total(Run(s, events)) == Total(s) + MapSum(Settlements(s, events))
    decreases |events|
  {
    if events != [] {
      var e, s1 := events[0], Step(s, events[0]);
      StepTotal(s, e);
      StepKeepsRows(s, e);
      RunConserves(s1, events[1..]);
      if Settles(s, e).Some? {
        SettlingConfirms(s, e);
        ConfirmedNeverSettlesAgain(s1, events[1..], Settles(s, e).value);
        MapSumAdd(Settlements(s1, events[1..]), Settles(s, e).value, Flow(s, e));
      }
    }
  }
}
