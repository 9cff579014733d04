/** Credit limits over whole runs: they move only with receipts, never fall and never pass the cap. */
module PixLimits {
  import opened Wrappers
  import opened PixModel
  import opened PixHolds
  import opened PixConservation

  /** A receipt as it is credited: the account and the gross. */
  datatype Gain = Gain(account: Id, gross: int)

  function CreditOfRow(s: State, t: Id): Option<Gain> {
    if t in s.txs && s.txs[t].owner in s.accounts then Some(Gain(s.txs[t].owner, s.txs[t].value)) else None
  }

  /** The receipt a step credits, if any: a charge that is paid, by whatever route, or an inbound deposit. */
  ghost function Credited(s: State, e: Event): Option<Gain> {
    if !Handle(s, e).reply.Accepted? then None
    else match e
      case Receipt(c) => CreditOfRow(s, c)
      case Verify(_, c, _) => CreditOfRow(s, c)
      case Refresh(_, c, _) => CreditOfRow(s, c)
      case Pay(r, _) => if OpenCharge(s, r.charge) then CreditOfRow(s, r.charge.value) else None
      case ChargePaid(payment, to, amount) =>
        if payment in s.txs || to.None? then CreditOfRow(s, payment) else Some(Gain(to.value, amount))
      case _ => None
  }

  /** The limits after crediting a receipt, or none. */
  ghost predicate LimitsMove(s: State, s': State, gain: Option<Gain>) {
    && s'.accounts.Keys == s.accounts.Keys
    && forall a | a in s.accounts ::
      s'.accounts[a].creditLimit
      == if gain.Some? && gain.value.account == a then RaisedLimit(s.accounts[a].creditLimit, gain.value.gross)
         else s.accounts[a].creditLimit
  }

  lemma ReceiptMovesLimit(s: State, a: Id, gross: int, feeOverride: Option<int>)
    requires a in s.accounts
    ensures LimitsMove(s, CreditReceipt(s, a, gross, feeOverride), Some(Gain(a, gross)))
  {
  }

  lemma ConfirmMovesLimit(s: State, charge: Id)
    requires charge in s.txs
    ensures LimitsMove(s, ConfirmCharge(s, charge), CreditOfRow(s, charge))
  {
    if s.txs[charge].owner in s.accounts {
      ReceiptMovesLimit(SetStatus(s, charge, Confirmed), s.txs[charge].owner, s.txs[charge].value, None);
    }
    hide CreditReceipt;
  }

  lemma SendMovesNoLimit(s: State, r: SendRequest, g: SendAnswer)
    ensures LimitsMove(s, CreatePix(s, r, g).state, None)
  {
    hide Clashes, KeyUsed, Available;
  }

  lemma PayerMovesNoLimit(s: State, payer: Id, value: int)
    requires payer in s.accounts
    ensures LimitsMove(s, PayerCharged(s, payer, value), None)
  {
  }

  lemma ChargePaymentMovesLimit(s: State, r: QrRequest, charge: Id)
    requires r.user in s.accounts && charge in s.txs
    ensures var o := PayInternalCharge(s, r, charge);
      LimitsMove(s, o.state, if o.reply.Accepted? then CreditOfRow(s, charge) else None)
  {
    var owner, value := s.txs[charge].owner, s.txs[charge].value;
    if owner in s.accounts {
      PayerMovesNoLimit(s, r.user, value);
      ReceiptMovesLimit(SetStatus(s, charge, Confirmed), owner, value, Some(0));
      ReceiptMovesLimit(SetStatus(PayerCharged(s, r.user, value), charge, Confirmed), owner, value, Some(0));
    }
    hide CreditReceipt, PayerCharged, Clashes;
  }

  lemma ExternalMovesNoLimit(s: State, r: QrRequest, g: QrAnswer)
    requires r.user in s.accounts
    ensures LimitsMove(s, PayExternalQr(s, r, g).state, None)
  {
    hide Clashes, Available, ProvisionalRow, QrOutboundRow;
  }

  lemma PayMovesLimit(s: State, r: QrRequest, g: QrAnswer)
    ensures LimitsMove(s, PayQr(s, r, g).state, Credited(s, Pay(r, g)))
  {
    hide PayInternalCharge, PayExternalQr, Duplicate, LimitsMove, CreditOfRow, OpenCharge, PaidCharge;
    NothingMoves(s);
    OpenIsThere(s, r.charge);
    if r.user in s.accounts {
      if OpenCharge(s, r.charge) { ChargePaymentMovesLimit(s, r, r.charge.value); }
      ExternalMovesNoLimit(s, r, g);
    }
  }

  lemma NothingMoves(s: State)
    ensures LimitsMove(s, s, None)
  {
  }

  lemma OpenIsThere(s: State, charge: Option<Id>)
    ensures OpenCharge(s, charge) ==> charge.Some? && charge.value in s.txs && !PaidCharge(s, charge)
  {
  }

  lemma DeliveryMovesLimit(s: State, payment: Id, to: Option<Id>, amount: int)
    ensures LimitsMove(s, ChargeWebhook(s, payment, to, amount).state, Credited(s, ChargePaid(payment, to, amount)))
  {
    if payment in s.txs { ConfirmMovesLimit(s, payment); }
    else if to.Some? && to.value in s.accounts { ReceiptMovesLimit(s, to.value, amount, None); }
    hide CreditReceipt, ConfirmCharge, Clashes;
  }

  lemma TransferMovesNoLimit(s: State, t: Id, done: bool)
    ensures LimitsMove(s, TransferWebhook(s, t, done).state, None)
  {
  }

  /** Every step moves the limit of exactly the account it credits a receipt to. */
  lemma StepMovesLimit(s: State, e: Event)
    ensures LimitsMove(s, Step(s, e), Credited(s, e))
  {
    match e
    case Send(r, g) => SendMovesNoLimit(s, r, g);
    case Pay(r, g) => PayMovesLimit(s, r, g);
    case ChargePaid(payment, to, amount) => DeliveryMovesLimit(s, payment, to, amount);
    case Transfer(t, done) => TransferMovesNoLimit(s, t, done);
    case Receipt(c) => if c in s.txs { ConfirmMovesLimit(s, c); } hide ConfirmCharge;
    case Verify(_, c, _) => if c in s.txs { ConfirmMovesLimit(s, c); } hide ConfirmCharge;
    case Refresh(_, c, _) => if c in s.txs { ConfirmMovesLimit(s, c); } hide ConfirmCharge;
    case _ =>
  }

  // ---------------------------------------------------------------- over a run

  /** The gross of each receipt credited to an account, in order. */
  ghost function ReceiptsOf(s: State, events: seq<Event>, a: Id): seq<int>
    decreases |events|
  {
    if events == [] then []
    else
      var rest := ReceiptsOf(Step(s, events[0]), events[1..], a);
      var c := Credited(s, events[0]);
      if c.Some? && c.value.account == a then [c.value.gross] + rest else rest
  }

  function LimitAfter(limit: int, grosses: seq<int>): int
    decreases |grosses|
  {
    if grosses == [] then limit else LimitAfter(RaisedLimit(limit, grosses[0]), grosses[1..])
  }

  function Gross(grosses: seq<int>): int
    decreases |grosses|
  {
    if grosses == [] then 0 else grosses[0] + Gross(grosses[1..])
  }

  lemma {:induction false} LimitFollowsReceipts(s: State, events: seq<Event>, a: Id)
    requires a in s.accounts
    ensures a in Run(s, events).accounts
    ensures Run(s, events).accounts[a].creditLimit == LimitAfter(s.accounts[a].creditLimit, ReceiptsOf(s, events, a))
    decreases |events|
  {
    hide Step, Credited, RaisedLimit;
    if events != [] {
      StepMovesLimit(s, events[0]);
      LimitFollowsReceipts(Step(s, events[0]), events[1..], a);
    }
  }

  /** Receipts raise a limit by half their gross, to half a cent each, until it reaches the cap. */
  lemma {:induction false} ReceiptsRaiseLimit(limit: int, grosses: seq<int>)
    requires limit <= CREDIT_LIMIT_CAP && forall i | 0 <= i < |grosses| :: grosses[i] >= 0
    ensures limit <= LimitAfter(limit, grosses) <= CREDIT_LIMIT_CAP
    ensures LimitAfter(limit, grosses) < CREDIT_LIMIT_CAP ==>
      0 <= 2 * (LimitAfter(limit, grosses) - limit) - Gross(grosses) <= |grosses|
    ensures 2 * (LimitAfter(limit, grosses) - limit) <= Gross(grosses) + |grosses|
    decreases |grosses|
  {
    if grosses != [] {
      LimitRises(limit, grosses[0]);
      hide RaisedLimit;
      ReceiptsRaiseLimit(RaisedLimit(limit, grosses[0]), grosses[1..]);
    }
  }

  lemma CreditIsPositive(s: State, e: Event)
    requires RowsOk(s) && Credited(s, e).Some?
    ensures Credited(s, e).value.gross > 0
  {
    hide CreatePix, PayQr, ConfirmCharge;
    if e.ChargePaid? && e.payment in s.txs { assert RowOk(s, s.txs[e.payment]); }
    if e.Pay? && OpenCharge(s, e.pay.charge) { assert RowOk(s, s.txs[e.pay.charge.value]); }
    if (e.Receipt? || e.Verify? || e.Refresh?) && e.charge in s.txs { assert RowOk(s, s.txs[e.charge]); }
  }

  lemma {:induction false} ReceiptsArePositive(s: State, events: seq<Event>, a: Id)
    requires RowsOk(s)
    ensures forall i | 0 <= i < |ReceiptsOf(s, events, a)| :: ReceiptsOf(s, events, a)[i] > 0
    decreases |events|
  {
    hide Step, Credited, RowsOk;
    if events != [] {
      StepKeepsRows(s, events[0]);
      if Credited(s, events[0]).Some? { CreditIsPositive(s, events[0]); }
      ReceiptsArePositive(Step(s, events[0]), events[1..], a);
    }
  }

  /** Over every run no credit limit falls or passes the cap, and short of the cap it rises by half of what
      the account received, to half a cent for each receipt: charges paid here, confirmations by any route
      and inbound deposits alike, and nothing else. */
  lemma RunRaisesLimits(s: State, events: seq<Event>, a: Id)
    requires RowsOk(s) && a in s.accounts && s.accounts[a].creditLimit <= CREDIT_LIMIT_CAP
    ensures a in Run(s, events).accounts
    ensures var before, after, receipts := s.accounts[a].creditLimit, Run(s, events).accounts[a].creditLimit, ReceiptsOf(s, events, a);
      && before <= after <= CREDIT_LIMIT_CAP
      && 2 * (after - before) <= Gross(receipts) + |receipts|
      && (after < CREDIT_LIMIT_CAP ==> Gross(receipts) <= 2 * (after - before))
  {
    hide Run, ReceiptsOf, LimitAfter, RowsOk;
    LimitFollowsReceipts(s, events, a);
    ReceiptsArePositive(s, events, a);
    ReceiptsRaiseLimit(s.accounts[a].creditLimit, ReceiptsOf(s, events, a));
  }
}
