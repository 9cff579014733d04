/**
 * The hold invariant: over every run, the PENDING debits of an account are exactly the value+fee of
 * its sends in flight, and no account is ever overdrawn by them.
 */
module PixHolds {
  import opened Wrappers
  import opened Sums
  import opened PixModel
  import Fees

  // ---------------------------------------------------------------- pending sums over the ledger

  ghost function PendingOf(ledger: seq<Entry>, t: Id): int {
    if ledger == [] then 0
    else
      var e := ledger[|ledger| - 1];
      PendingOf(ledger[..|ledger| - 1], t) + if e.status == Pending && e.tx == t then e.amount else 0
  }

  /** The PENDING debits of account a. */
  ghost function PendingDebits(ledger: seq<Entry>, a: Id): int {
    if ledger == [] then 0
    else
      var e := ledger[|ledger| - 1];
      PendingDebits(ledger[..|ledger| - 1], a)
      + if e.status == Pending && e.kind == Debit && e.account == a then e.amount else 0
  }

  lemma CloseEntriesInit(ledger: seq<Entry>, t: Id, st: EntryStatus)
    requires ledger != []
    ensures CloseEntries(ledger, t, st)[..|ledger| - 1] == CloseEntries(ledger[..|ledger| - 1], t, st)
  {
  }

  /** Closing one transaction clears its own pending sum and no other. */
  lemma {:induction false} CloseEntriesPendingOf(ledger: seq<Entry>, t: Id, st: EntryStatus, u: Id)
    requires st != Pending
    ensures PendingOf(CloseEntries(ledger, t, st), u) == if u == t then 0 else PendingOf(ledger, u)
  {
    if ledger != [] {
      CloseEntriesInit(ledger, t, st);
      CloseEntriesPendingOf(ledger[..|ledger| - 1], t, st, u);
    }
  }

  /** Every PENDING entry of t is a debit of the given account. */
  ghost predicate EntriesOn(ledger: seq<Entry>, t: Id, owner: Id) {
    forall i | 0 <= i < |ledger| && ledger[i].status == Pending && ledger[i].tx == t
      :: ledger[i].kind == Debit && ledger[i].account == owner
  }

  lemma {:induction false} CloseEntriesPendingDebits(ledger: seq<Entry>, t: Id, st: EntryStatus, owner: Id, a: Id)
    requires st != Pending && EntriesOn(ledger, t, owner)
    ensures PendingDebits(CloseEntries(ledger, t, st), a)
         == PendingDebits(ledger, a) - if a == owner then PendingOf(ledger, t) else 0
  {
    if ledger != [] {
      var init := ledger[..|ledger| - 1];
      CloseEntriesInit(ledger, t, st);
      assert EntriesOn(init, t, owner);
      CloseEntriesPendingDebits(init, t, st, owner, a);
    }
  }

  lemma AppendPending(ledger: seq<Entry>, e: Entry, t: Id, a: Id)
    ensures PendingOf(ledger + [e], t) == PendingOf(ledger, t) + if e.status == Pending && e.tx == t then e.amount else 0
    ensures PendingDebits(ledger + [e], a)
         == PendingDebits(ledger, a) + if e.status == Pending && e.kind == Debit && e.account == a then e.amount else 0
  {
    assert (ledger + [e])[..|ledger|] == ledger;
  }

  lemma {:induction false} NoPendingOf(ledger: seq<Entry>, t: Id)
    requires forall i | 0 <= i < |ledger| && ledger[i].status == Pending :: ledger[i].tx != t
    ensures PendingOf(ledger, t) == 0
  {
    if ledger != [] {
      NoPendingOf(ledger[..|ledger| - 1], t);
    }
  }

  // ---------------------------------------------------------------- the invariant

  /** The rows a run can leave: a send is never left CREATED, only a send is ever PROCESSING, and a
      send in flight carries at least the fee floor. */
  ghost predicate RowOk(s: State, row: Tx) {
    && row.owner in s.accounts
    && row.value > 0 && row.fee >= 0
    && (row.status == Processing ==> row.kind == Sent && row.fee >= Fees.OUTBOUND_FLOOR)
    && (row.kind == Sent ==> row.status != Created)
  }

  ghost predicate RowsOk(s: State) {
    forall t | t in s.txs :: RowOk(s, s.txs[t])
  }

  /** A PENDING entry is the debit of a send in flight, on its owner's account. */
  ghost predicate EntryOk(s: State, e: Entry) {
    e.status == Pending ==>
      e.kind == Debit && e.tx in s.txs && InFlight(s.txs[e.tx]) && e.account == s.txs[e.tx].owner
  }

  ghost predicate EntriesOk(s: State) {
    forall i | 0 <= i < |s.ledger| :: EntryOk(s, s.ledger[i])
  }

  /** A send in flight holds exactly its value and fee. */
  ghost predicate HoldOk(s: State, t: Id)
    requires t in s.txs
  {
    InFlight(s.txs[t]) ==> PendingOf(s.ledger, t) == s.txs[t].value + s.txs[t].fee
  }

  ghost predicate HoldsOk(s: State) {
    forall t | t in s.txs :: HoldOk(s, t)
  }

  ghost predicate LedgerMatches(s: State) {
    forall a: Id :: PendingDebits(s.ledger, a) == Held(s, a)
  }

  ghost predicate HoldInv(s: State) {
    RowsOk(s) && EntriesOk(s) && HoldsOk(s) && LedgerMatches(s)
  }

  // ---------------------------------------------------------------- how one table change moves the holds

  /** Same ledger, and no change in which rows are in flight. */
  ghost predicate SameFlights(s: State, s': State) {
    && s'.ledger == s.ledger
    && (forall t | t in s.txs && InFlight(s.txs[t]) :: t in s'.txs && SameHold(s.txs[t], s'.txs[t]))
    && (forall t | t in s'.txs && InFlight(s'.txs[t]) :: t in s.txs && InFlight(s.txs[t]))
  }

  predicate SameHold(row: Tx, row': Tx) {
    InFlight(row') && row'.owner == row.owner && row'.value == row.value && row'.fee == row.fee
  }

  lemma HoldsFrame(s: State, s': State)
    requires HoldInv(s) && RowsOk(s') && SameFlights(s, s')
    ensures HoldInv(s')
    ensures forall a: Id :: Held(s', a) == Held(s, a)
  {
    forall a: Id
      ensures Held(s', a) == Held(s, a)
    {
      assert Holds(s'.txs, a) == Holds(s.txs, a);
    }
    forall i | 0 <= i < |s'.ledger|
      ensures EntryOk(s', s'.ledger[i])
    {
      assert EntryOk(s, s.ledger[i]);
    }
    forall t | t in s'.txs
      ensures HoldOk(s', t)
    {
      if InFlight(s'.txs[t]) { assert HoldOk(s, t); }
    }
  }

  /** Accounts may change in balance and limit, but none disappears. */
  ghost predicate KeepsAccounts(s: State, s': State) {
    s'.accounts.Keys == s.accounts.Keys && s'.matrix == s.matrix
  }

  lemma CreditReceiptShape(s: State, a: Id, gross: int, feeOverride: Option<int>)
    requires a in s.accounts
    ensures var s' := CreditReceipt(s, a, gross, feeOverride);
            KeepsAccounts(s, s') && s'.txs == s.txs && s'.ledger == s.ledger
  {
  }

  lemma ConfirmChargeShape(s: State, charge: Id)
    requires charge in s.txs
    ensures var s' := ConfirmCharge(s, charge);
            KeepsAccounts(s, s') && s'.ledger == s.ledger && s'.txs == SetStatus(s, charge, Confirmed).txs
  {
    if s.txs[charge].owner in s.accounts {
      CreditReceiptShape(SetStatus(s, charge, Confirmed), s.txs[charge].owner, s.txs[charge].value, None);
    }
  }

  /** Dispatching adds the same amount to both sides of the ledger equation. */
  lemma DispatchKeepsHolds(s: State, id: Id, row: Tx)
    requires HoldInv(s) && id !in s.txs && RowOk(s, row) && InFlight(row)
    ensures HoldInv(Dispatch(s, id, row))
    ensures forall a: Id :: Held(Dispatch(s, id, row), a) == Held(s, a) + if a == row.owner then row.value + row.fee else 0
  {
    var s' := Dispatch(s, id, row);
    var e := Entry(row.owner, Debit, row.value + row.fee, Pending, id);
    forall a: Id
      ensures Held(s', a) == Held(s, a) + if a == row.owner then row.value + row.fee else 0
      ensures PendingDebits(s'.ledger, a) == Held(s', a)
    {
      DispatchHolds(s.txs, id, row, a);
      AppendPending(s.ledger, e, id, a);
    }
    forall i | 0 <= i < |s'.ledger|
      ensures EntryOk(s', s'.ledger[i])
    {
      if i < |s.ledger| { assert EntryOk(s, s.ledger[i]); }
    }
    forall t | t in s'.txs
      ensures HoldOk(s', t)
    {
      AppendPending(s.ledger, e, t, row.owner);
      if t == id {
        forall i | 0 <= i < |s.ledger| && s.ledger[i].status == Pending
          ensures s.ledger[i].tx != t
        {
          assert EntryOk(s, s.ledger[i]);
        }
        NoPendingOf(s.ledger, t);
      } else {
        assert HoldOk(s, t);
      }
    }
  }

  lemma DispatchHolds(txs: map<Id, Tx>, id: Id, row: Tx, a: Id)
    requires id !in txs && InFlight(row)
    ensures MapSum(Holds(txs[id := row], a)) == MapSum(Holds(txs, a)) + if a == row.owner then row.value + row.fee else 0
  {
    if a == row.owner {
      assert Holds(txs[id := row], a) == Holds(txs, a)[id := row.value + row.fee];
      MapSumAdd(Holds(txs, a), id, row.value + row.fee);
    } else {
      assert Holds(txs[id := row], a) == Holds(txs, a);
    }
  }

  lemma LandHolds(txs: map<Id, Tx>, t: Id, status: Status, a: Id)
    requires t in txs && InFlight(txs[t]) && status != Processing
    ensures MapSum(Holds(txs[t := txs[t].(status := status)], a))
         == MapSum(Holds(txs, a)) - if a == txs[t].owner then txs[t].value + txs[t].fee else 0
  {
    var txs' := txs[t := txs[t].(status := status)];
    if a == txs[t].owner {
      assert Holds(txs', a) == Holds(txs, a) - {t};
      MapSumRemove(Holds(txs, a), t);
    } else {
      assert Holds(txs', a) == Holds(txs, a);
    }
  }

  /** A send that lands leaves both sides of the ledger equation by its value and fee. */
  lemma LandKeepsHolds(s: State, t: Id, status: Status, close: EntryStatus)
    requires HoldInv(s) && t in s.txs && InFlight(s.txs[t])
    requires status in {Confirmed, Failed} && close != Pending
    ensures HoldInv(CloseLedger(SetStatus(s, t, status), t, close))
    ensures forall a: Id :: Held(CloseLedger(SetStatus(s, t, status), t, close), a)
                         == Held(s, a) - if a == s.txs[t].owner then s.txs[t].value + s.txs[t].fee else 0
  {
    var s' := CloseLedger(SetStatus(s, t, status), t, close);
    assert EntriesOn(s.ledger, t, s.txs[t].owner) by {
      forall i | 0 <= i < |s.ledger| && s.ledger[i].status == Pending && s.ledger[i].tx == t
        ensures s.ledger[i].kind == Debit && s.ledger[i].account == s.txs[t].owner
      {
        assert EntryOk(s, s.ledger[i]);
      }
    }
    assert HoldOk(s, t);
    forall a: Id
      ensures Held(s', a) == Held(s, a) - if a == s.txs[t].owner then s.txs[t].value + s.txs[t].fee else 0
      ensures PendingDebits(s'.ledger, a) == Held(s', a)
    {
      LandHolds(s.txs, t, status, a);
      CloseEntriesPendingDebits(s.ledger, t, close, s.txs[t].owner, a);
    }
    forall i | 0 <= i < |s'.ledger|
      ensures EntryOk(s', s'.ledger[i])
    {
      assert EntryOk(s, s.ledger[i]);
    }
    forall u | u in s'.txs
      ensures HoldOk(s', u)
    {
      CloseEntriesPendingOf(s.ledger, t, close, u);
      assert HoldOk(s, u);
    }
  }

  // ---------------------------------------------------------------- step by step

  /** The delivery that would break the holds: a charge confirmation that names a send in flight. */
  predicate Misdirected(s: State, e: Event) {
    e.ChargePaid? && e.payment != "" && e.payment in s.txs && InFlight(s.txs[e.payment])
  }

  lemma ReceiptsKeepHolds(s: State, charge: Id)
    requires HoldInv(s) && charge in s.txs && !InFlight(s.txs[charge])
    ensures HoldInv(ConfirmCharge(s, charge))
    ensures forall a: Id :: Held(ConfirmCharge(s, charge), a) == Held(s, a)
  {
    ConfirmChargeShape(s, charge);
    HoldsFrame(s, ConfirmCharge(s, charge));
  }

  lemma TransferKeepsHolds(s: State, t: Id, done: bool)
    requires HoldInv(s)
    ensures HoldInv(TransferWebhook(s, t, done).state)
  {
    if t in s.txs && s.txs[t].status == Processing {
      assert RowOk(s, s.txs[t]);
      if done {
        var landed := CloseLedger(SetStatus(s, t, Confirmed), t, Settled);
        LandKeepsHolds(s, t, Confirmed, Settled);
        HoldsFrame(landed, TransferWebhook(s, t, done).state);
      } else {
        LandKeepsHolds(s, t, Failed, Reversed);
      }
    }
  }

  lemma InternalTransferFlights(s: State, r: SendRequest, to: Id)
    requires RowsOk(s) && r.user in s.accounts && to in s.accounts && r.value > 0
    ensures RowsOk(InternalTransfer(s, r, to).state) && SameFlights(s, InternalTransfer(s, r, to).state)
  {
  }

  lemma InternalTransferKeepsHolds(s: State, r: SendRequest, to: Id)
    requires HoldInv(s) && r.user in s.accounts && to in s.accounts && r.value > 0
    ensures HoldInv(InternalTransfer(s, r, to).state)
    ensures forall a: Id :: Held(InternalTransfer(s, r, to).state, a) == Held(s, a)
  {
    InternalTransferFlights(s, r, to);
    HoldsFrame(s, InternalTransfer(s, r, to).state);
  }

  lemma ScheduledKeepsHolds(s: State, r: SendRequest, g: SendAnswer)
    requires HoldInv(s) && r.scheduled
    ensures HoldInv(CreatePix(s, r, g).state)
    ensures forall a: Id :: Held(CreatePix(s, r, g).state, a) == Held(s, a)
  {
    var s' := CreatePix(s, r, g).state;
    if s' != s { HoldsFrame(s, s'); }
  }

  lemma ExternalSendCases(s: State, r: SendRequest, g: SendAnswer)
    requires r.user in s.accounts
    ensures var s', row := SendExternal(s, r, g).state, OutboundRow(s.accounts[r.user].document, r);
            || s' == s
            || (r.txId !in s.txs && s' == InsertTx(s, r.txId, row.(status := Failed)))
            || (r.txId !in s.txs && s' == Dispatch(s, r.txId, row) && Available(s, r.user) >= row.value + row.fee)
  {
  }

  lemma ExternalSendKeepsHolds(s: State, r: SendRequest, g: SendAnswer)
    requires HoldInv(s) && r.user in s.accounts && r.value > 0
    ensures HoldInv(SendExternal(s, r, g).state)
  {
    var s', row := SendExternal(s, r, g).state, OutboundRow(s.accounts[r.user].document, r);
    Fees.BusinessFeeBounds(r.value);
    ExternalSendCases(s, r, g);
    if s' == Dispatch(s, r.txId, row) && r.txId !in s.txs {
      DispatchKeepsHolds(s, r.txId, row);
    } else if s' != s {
      HoldsFrame(s, s');
    }
  }

  lemma SendKeepsHolds(s: State, r: SendRequest, g: SendAnswer)
    requires HoldInv(s)
    ensures HoldInv(CreatePix(s, r, g).state)
  {
    if r.value > 0 && r.user in s.accounts {
      if r.scheduled {
        ScheduledKeepsHolds(s, r, g);
      } else if r.recipient.Some? && r.recipient.value in s.accounts {
        InternalTransferKeepsHolds(s, r, r.recipient.value);
      } else {
        ExternalSendKeepsHolds(s, r, g);
      }
    }
  }

  lemma ChargeMoneyShape(s: State, payer: Id, owner: Id, value: int, charge: Id)
    requires payer in s.accounts && owner in s.accounts && charge in s.txs
    ensures var s' := ChargeMoneyMoved(s, payer, owner, value, charge);
            KeepsAccounts(s, s') && s'.txs == SetStatus(s, charge, Confirmed).txs && s'.ledger == s.ledger
  {
    var s1 := SetStatus(PayerCharged(s, payer, value), charge, Confirmed);
    CreditReceiptShape(s1, owner, value, Some(0));
    hide CreditReceipt;
  }

  lemma FlightsCompose(s: State, s1: State, s2: State)
    requires SameFlights(s, s1) && SameFlights(s1, s2)
    ensures SameFlights(s, s2)
  {
  }

  /** Confirming a received row and moving balances leaves the flights as they are. */
  lemma ConfirmedFlights(s: State, s': State, charge: Id)
    requires RowsOk(s) && charge in s.txs && s.txs[charge].kind == Received && KeepsAccounts(s, s')
    requires s'.txs == SetStatus(s, charge, Confirmed).txs && s'.ledger == s.ledger
    ensures RowsOk(s') && SameFlights(s, s')
  {
    assert RowOk(s, s.txs[charge]);
  }

  lemma InsertedFlights(s: State, id: Id, row: Tx)
    requires RowsOk(s) && id !in s.txs && RowOk(s, row) && !InFlight(row)
    ensures RowsOk(InsertTx(s, id, row)) && SameFlights(s, InsertTx(s, id, row))
  {
  }

  lemma OwnChargeFlights(s: State, r: QrRequest, charge: Id)
    requires RowsOk(s) && r.user in s.accounts && OpenCharge(s, Some(charge)) && s.txs[charge].owner == r.user
    ensures RowsOk(PayInternalCharge(s, r, charge).state) && SameFlights(s, PayInternalCharge(s, r, charge).state)
  {
    var s1 := SetStatus(s, charge, Confirmed);
    CreditReceiptShape(s1, r.user, s.txs[charge].value, Some(0));
    hide CreditReceipt, RowsOk;
    ConfirmedFlights(s, PayInternalCharge(s, r, charge).state, charge);
  }

  lemma PaidChargeFlights(s: State, r: QrRequest, charge: Id)
    requires RowsOk(s) && r.user in s.accounts && OpenCharge(s, Some(charge)) && RowOk(s, s.txs[charge])
    requires s.txs[charge].owner != r.user && r.txId !in s.txs
    ensures var value := s.txs[charge].value;
            var moved := ChargeMoneyMoved(s, r.user, s.txs[charge].owner, value, charge);
            var s' := InsertTx(moved, r.txId, QrSentRow(r, value));
            RowsOk(s') && SameFlights(s, s')
  {
    var moved := ChargeMoneyMoved(s, r.user, s.txs[charge].owner, s.txs[charge].value, charge);
    ChargeMoneyShape(s, r.user, s.txs[charge].owner, s.txs[charge].value, charge);
    hide ChargeMoneyMoved, RowsOk, SameFlights;
    ConfirmedFlights(s, moved, charge);
    InsertedFlights(moved, r.txId, QrSentRow(r, s.txs[charge].value));
    FlightsCompose(s, moved, InsertTx(moved, r.txId, QrSentRow(r, s.txs[charge].value)));
  }

  lemma InternalChargeFlights(s: State, r: QrRequest, charge: Id)
    requires RowsOk(s) && r.user in s.accounts && OpenCharge(s, Some(charge))
    ensures RowsOk(PayInternalCharge(s, r, charge).state) && SameFlights(s, PayInternalCharge(s, r, charge).state)
  {
    assert RowOk(s, s.txs[charge]);
    hide CreditReceipt, ChargeMoneyMoved, RowsOk, RowOk, SameUniqueColumns;
    if s.txs[charge].owner == r.user {
      OwnChargeFlights(s, r, charge);
    } else if PayInternalCharge(s, r, charge).reply.Accepted? {
      PaidChargeFlights(s, r, charge);
    }
  }

  lemma InternalChargeKeepsHolds(s: State, r: QrRequest, charge: Id)
    requires HoldInv(s) && r.user in s.accounts && OpenCharge(s, Some(charge))
    ensures HoldInv(PayInternalCharge(s, r, charge).state)
    ensures forall a: Id :: Held(PayInternalCharge(s, r, charge).state, a) == Held(s, a)
  {
    InternalChargeFlights(s, r, charge);
    HoldsFrame(s, PayInternalCharge(s, r, charge).state);
  }

  ghost predicate QrDispatched(s: State, r: QrRequest, g: QrAnswer, s': State)
    requires r.user in s.accounts
  {
    && g.QrPaid? && PaymentId(r, g) !in s.txs && ResolvedValue(r, g) > 0
    && s' == Dispatch(s, PaymentId(r, g), QrOutboundRow(s.accounts[r.user].document, r, g))
    && Available(s, r.user) >= ResolvedValue(r, g) + QrOutboundRow(s.accounts[r.user].document, r, g).fee
  }

  lemma ExternalQrCases(s: State, r: QrRequest, g: QrAnswer)
    requires r.user in s.accounts
    ensures var s', row := PayExternalQr(s, r, g).state, ProvisionalRow(s.accounts[r.user].document, r);
            || s' == s
            || (r.txId !in s.txs && s' == InsertTx(s, r.txId, row.(status := Failed)))
            || QrDispatched(s, r, g, s')
  {
  }

  lemma ExternalQrKeepsHolds(s: State, r: QrRequest, g: QrAnswer)
    requires HoldInv(s) && r.user in s.accounts && (r.clientValue.Some? ==> r.clientValue.value > 0)
    ensures HoldInv(PayExternalQr(s, r, g).state)
  {
    var s' := PayExternalQr(s, r, g).state;
    ExternalQrCases(s, r, g);
    Fees.BusinessFeeBounds(ProvisionalRow(s.accounts[r.user].document, r).value);
    if QrDispatched(s, r, g, s') {
      Fees.BusinessFeeBounds(ResolvedValue(r, g));
      DispatchKeepsHolds(s, PaymentId(r, g), QrOutboundRow(s.accounts[r.user].document, r, g));
    } else if s' != s {
      HoldsFrame(s, s');
    }
  }

  lemma PayKeepsHolds(s: State, r: QrRequest, g: QrAnswer)
    requires HoldInv(s)
    ensures HoldInv(PayQr(s, r, g).state)
  {
    hide HoldInv, PayInternalCharge, PayExternalQr;
    if (r.clientValue.Some? ==> r.clientValue.value > 0) && r.user in s.accounts {
      if OpenCharge(s, r.charge) { InternalChargeKeepsHolds(s, r, r.charge.value); }
      ExternalQrKeepsHolds(s, r, g);
    }
  }

  lemma ChargePaidKeepsHolds(s: State, e: Event)
    requires HoldInv(s) && e.ChargePaid? && !Misdirected(s, e)
    ensures HoldInv(Step(s, e))
    ensures forall a: Id :: Held(Step(s, e), a) == Held(s, a)
  {
    var s' := Step(s, e);
    if e.payment != "" && e.payment in s.txs {
      ReceiptsKeepHolds(s, e.payment);
    } else if s' != s {
      CreditReceiptShape(s, e.recipient.value, e.amount, None);
      HoldsFrame(s, s');
    }
  }

  lemma ReceiptRoutesKeepHolds(s: State, e: Event)
    requires HoldInv(s) && (e.Receipt? || e.Verify? || e.Refresh?)
    ensures HoldInv(Step(s, e))
  {
    hide ConfirmCharge, HoldInv;
    if e.charge in s.txs && s.txs[e.charge].status == Created { ReceiptsKeepHolds(s, e.charge); }
  }

  /** Recording a charge and canceling a scheduled send touch no hold. */
  lemma QuietRoutesKeepHolds(s: State, e: Event)
    requires HoldInv(s) && (e.NewCharge? || e.Cancel?)
    ensures HoldInv(Step(s, e))
    ensures forall a: Id :: Held(Step(s, e), a) == Held(s, a)
    ensures Step(s, e).accounts == s.accounts
  {
    if Step(s, e) != s { HoldsFrame(s, Step(s, e)); }
  }

  lemma StepKeepsHolds(s: State, e: Event)
    requires HoldInv(s) && !Misdirected(s, e)
    ensures HoldInv(Step(s, e))
  {
    if e.Receipt? || e.Verify? || e.Refresh? { ReceiptRoutesKeepHolds(s, e); }
    else if e.NewCharge? || e.Cancel? { QuietRoutesKeepHolds(s, e); }
    else if e.ChargePaid? { ChargePaidKeepsHolds(s, e); }
    else {
      hide HoldInv, CreatePix, PayQr, TransferWebhook;
      if e.Send? { SendKeepsHolds(s, e.send, e.sendAnswer); }
      else if e.Pay? { PayKeepsHolds(s, e.pay, e.payAnswer); }
      else { TransferKeepsHolds(s, e.tx, e.done); }
    }
  }

  /** The holds survive a step exactly when it is not a charge confirmation aimed at a send in flight. */
  lemma HoldsSurviveExactly(s: State, e: Event)
    requires HoldInv(s)
    ensures HoldInv(Step(s, e)) <==> !Misdirected(s, e)
  {
    if Misdirected(s, e) {
      var t := e.payment;
      assert HoldOk(s, t) && RowOk(s, s.txs[t]);
      if forall i | 0 <= i < |s.ledger| && s.ledger[i].status == Pending :: s.ledger[i].tx != t {
        NoPendingOf(s.ledger, t);
      }
      var i :| 0 <= i < |s.ledger| && s.ledger[i].status == Pending && s.ledger[i].tx == t;
      ConfirmChargeShape(s, t);
      assert !EntryOk(Step(s, e), s.ledger[i]);
    } else {
      StepKeepsHolds(s, e);
    }
  }

  ghost predicate WellDirected(s: State, events: seq<Event>)
    decreases |events|
  {
    events == [] || (!Misdirected(s, events[0]) && WellDirected(Step(s, events[0]), events[1..]))
  }

  lemma {:induction false} RunKeepsHolds(s: State, events: seq<Event>)
    requires HoldInv(s) && WellDirected(s, events)
    ensures HoldInv(Run(s, events))
    decreases |events|
  {
    if events != [] {
      StepKeepsHolds(s, events[0]);
      RunKeepsHolds(Step(s, events[0]), events[1..]);
    }
  }

  // ---------------------------------------------------------------- solvency

  lemma HeldNonNegative(s: State, a: Id)
    requires RowsOk(s)
    ensures Held(s, a) >= 0
  {
    forall t | t in Holds(s.txs, a)
      ensures Holds(s.txs, a)[t] >= 0
    {
      assert RowOk(s, s.txs[t]);
    }
    MapSumNonNegative(Holds(s.txs, a));
  }

  /** No account has committed more than it owns. */
  ghost predicate Solvent(s: State) {
    forall a | a in s.accounts :: Available(s, a) >= 0
  }

  lemma SolventBalances(s: State, a: Id)
    requires HoldInv(s) && Solvent(s) && a in s.accounts
    ensures s.accounts[a].balance >= Held(s, a) >= 0
    ensures s.accounts[a].balance >= PendingDebits(s.ledger, a)
  {
    HeldNonNegative(s, a);
    assert Available(s, a) >= 0;
  }

  /** What an internal transfer or an internal QR payment takes from its payer, on balance. */
  function InternalDebit(s: State, e: Event): int
    requires e.Send? || (e.Pay? && OpenCharge(s, e.pay.charge))
  {
    if e.Send? then e.send.value
    else s.txs[e.pay.charge.value].value + Fees.MAINTENANCE_FEE
         - if s.matrix == Some(e.pay.user) then Fees.MAINTENANCE_FEE else 0
  }

  /** What an internal transfer asks for before it moves money. */
  ghost predicate TransferPasses(s: State, r: SendRequest) {
    && r.value > 0 && r.user in s.accounts && !KeyUsed(s, r.key) && !r.scheduled
    && r.recipient.Some? && r.recipient.value in s.accounts && r.recipient.value != r.user
    && s.accounts[r.user].balance >= r.value
    && !Clashes(s, r.txId, SentRow(r))
    && !Clashes(InsertTx(s, r.txId, SentRow(r)), r.recvId, ReceivedRow(r, r.recipient.value))
  }

  /** What paying another account's charge asks for before it moves money. */
  ghost predicate ChargePaymentPasses(s: State, r: QrRequest) {
    && (r.clientValue.Some? ==> r.clientValue.value > 0) && r.user in s.accounts && !Duplicate(s, r)
    && OpenCharge(s, r.charge)
    && var charge := s.txs[r.charge.value];
       && charge.owner in s.accounts && charge.owner != r.user
       && s.accounts[r.user].balance >= charge.value + Fees.MAINTENANCE_FEE
       && !Clashes(s, r.txId, QrSentRow(r, charge.value))
  }

  /** A step that moves money between two accounts here, against the payer's raw balance: a condition
      on the request and the tables before it. */
  ghost predicate InternalPayment(s: State, e: Event) {
    (e.Send? && TransferPasses(s, e.send)) || (e.Pay? && ChargePaymentPasses(s, e.pay))
  }

  /** These are exactly the requests of those two routes that are accepted. */
  lemma TransferPassesExactly(s: State, r: SendRequest, g: SendAnswer)
    ensures TransferPasses(s, r)
       <==> !r.scheduled && r.recipient.Some? && r.recipient.value in s.accounts && CreatePix(s, r, g).reply.Accepted?
  {
  }

  lemma ChargePaymentPassesExactly(s: State, r: QrRequest, g: QrAnswer)
    ensures ChargePaymentPasses(s, r)
       <==> OpenCharge(s, r.charge) && s.txs[r.charge.value].owner != r.user && PayQr(s, r, g).reply.Accepted?
  {
  }

  function Payer(e: Event): Id
    requires e.Send? || e.Pay?
  {
    if e.Send? then e.send.user else e.pay.user
  }

  /** The payer commits money that is already held for sends in flight. */
  ghost predicate Overspends(s: State, e: Event) {
    InternalPayment(s, e) && InternalDebit(s, e) > Available(s, Payer(e))
  }

  /** Balances after a step, relative to the holds after it. */
  ghost predicate KeepsAvailable(s: State, s': State) {
    && s'.accounts.Keys == s.accounts.Keys
    && forall a | a in s.accounts :: Available(s', a) >= Available(s, a)
  }

  lemma ReceiptKeepsAvailable(s: State, charge: Id)
    requires HoldInv(s) && charge in s.txs && !InFlight(s.txs[charge])
    ensures KeepsAvailable(s, ConfirmCharge(s, charge))
  {
    assert RowOk(s, s.txs[charge]);
    ReceiptsKeepHolds(s, charge);
  }

  lemma DebitKeepsHolds(landed: State, t: Id)
    requires HoldInv(landed) && t in landed.txs
    ensures HoldInv(DebitSend(landed, t))
    ensures forall a: Id :: Held(DebitSend(landed, t), a) == Held(landed, a)
  {
    HoldsFrame(landed, DebitSend(landed, t));
  }

  /** The debit of a landed send lowers no balance by more than its hold. */
  lemma DebitBalances(s: State, t: Id, a: Id)
    requires t in s.txs && s.txs[t].owner in s.accounts && a in s.accounts && s.txs[t].kind == Sent
    ensures DebitSend(s, t).accounts.Keys == s.accounts.Keys
    ensures DebitSend(s, t).accounts[a].balance
         >= s.accounts[a].balance - if a == s.txs[t].owner then s.txs[t].value + s.txs[t].fee else 0
  {
  }

  /** Settling first and debiting afterwards is the same delivery. */
  lemma DoneIsLandAndDebit(s: State, t: Id)
    requires t in s.txs && s.txs[t].status == Processing
    ensures TransferWebhook(s, t, true).state == DebitSend(CloseLedger(SetStatus(s, t, Confirmed), t, Settled), t)
  {
    hide CloseEntries;
  }

  lemma DoneKeepsAvailable(s: State, t: Id)
    requires HoldInv(s) && t in s.txs && InFlight(s.txs[t]) && s.txs[t].owner in s.accounts
    ensures KeepsAvailable(s, TransferWebhook(s, t, true).state)
  {
    hide CloseEntries, Held, HoldInv, DebitSend, TransferWebhook;
    var landed := CloseLedger(SetStatus(s, t, Confirmed), t, Settled);
    DoneIsLandAndDebit(s, t);
    LandKeepsHolds(s, t, Confirmed, Settled);
    DebitKeepsHolds(landed, t);
    forall a | a in s.accounts
      ensures landed.accounts == s.accounts && DebitSend(landed, t).accounts.Keys == s.accounts.Keys
      ensures Available(DebitSend(landed, t), a) >= Available(s, a)
    {
      DebitBalances(landed, t, a);
    }
    DebitBalances(landed, t, s.txs[t].owner);
  }

  lemma FailedKeepsAvailable(s: State, t: Id)
    requires HoldInv(s) && t in s.txs && InFlight(s.txs[t]) && s.txs[t].value + s.txs[t].fee >= 0
    ensures KeepsAvailable(s, TransferWebhook(s, t, false).state)
  {
    hide CloseEntries, Held, HoldInv;
    LandKeepsHolds(s, t, Failed, Reversed);
  }

  lemma TransferKeepsAvailable(s: State, t: Id, done: bool)
    requires HoldInv(s)
    ensures KeepsAvailable(s, TransferWebhook(s, t, done).state)
  {
    if t in s.txs && s.txs[t].status == Processing {
      assert RowOk(s, s.txs[t]);
      hide HoldInv, CloseEntries, Held, DebitSend, KeepsAvailable;
      if done { DoneKeepsAvailable(s, t); } else { FailedKeepsAvailable(s, t); }
    }
  }

  lemma ExternalSendSolvent(s: State, r: SendRequest, g: SendAnswer)
    requires HoldInv(s) && Solvent(s) && r.user in s.accounts && r.value > 0
    ensures Solvent(SendExternal(s, r, g).state)
  {
    var s', row := SendExternal(s, r, g).state, OutboundRow(s.accounts[r.user].document, r);
    Fees.BusinessFeeBounds(r.value);
    ExternalSendCases(s, r, g);
    if s' == Dispatch(s, r.txId, row) && r.txId !in s.txs {
      DispatchKeepsHolds(s, r.txId, row);
    } else if s' != s {
      HoldsFrame(s, s');
    }
  }

  lemma ExternalQrSolvent(s: State, r: QrRequest, g: QrAnswer)
    requires HoldInv(s) && Solvent(s) && r.user in s.accounts && (r.clientValue.Some? ==> r.clientValue.value > 0)
    ensures Solvent(PayExternalQr(s, r, g).state)
  {
    var s' := PayExternalQr(s, r, g).state;
    ExternalQrCases(s, r, g);
    Fees.BusinessFeeBounds(ProvisionalRow(s.accounts[r.user].document, r).value);
    if QrDispatched(s, r, g, s') {
      Fees.BusinessFeeBounds(ResolvedValue(r, g));
      DispatchKeepsHolds(s, PaymentId(r, g), QrOutboundRow(s.accounts[r.user].document, r, g));
    } else if s' != s {
      HoldsFrame(s, s');
    }
  }

  /** When the holds stay put and only the payer loses money, solvency is the payer's own question. */
  lemma SolventAfterDebit(s: State, s': State, payer: Id, debit: int)
    requires Solvent(s) && payer in s.accounts && s'.accounts.Keys == s.accounts.Keys
    requires forall a: Id :: Held(s', a) == Held(s, a)
    requires s'.accounts[payer].balance == s.accounts[payer].balance - debit
    requires forall a | a in s.accounts && a != payer :: s'.accounts[a].balance >= s.accounts[a].balance
    ensures Solvent(s') <==> debit <= Available(s, payer)
  {
    assert Available(s', payer) == Available(s, payer) - debit;
    forall a | a in s.accounts && a != payer
      ensures Available(s', a) >= 0
    {
      assert Available(s, a) >= 0;
    }
  }

  lemma InternalTransferBalances(s: State, r: SendRequest, to: Id)
    requires r.user in s.accounts && to in s.accounts && r.value > 0
    requires InternalTransfer(s, r, to).reply.Accepted?
    ensures var s' := InternalTransfer(s, r, to).state;
            && s'.accounts.Keys == s.accounts.Keys
            && s'.accounts[r.user].balance == s.accounts[r.user].balance - r.value
            && (forall a | a in s.accounts && a != r.user :: s'.accounts[a].balance >= s.accounts[a].balance)
  {
  }

  lemma InternalTransferSolvency(s: State, r: SendRequest, to: Id)
    requires HoldInv(s) && Solvent(s) && r.user in s.accounts && to in s.accounts && r.value > 0
    requires InternalTransfer(s, r, to).reply.Accepted?
    ensures Solvent(InternalTransfer(s, r, to).state) <==> r.value <= Available(s, r.user)
  {
    var s' := InternalTransfer(s, r, to).state;
    InternalTransferKeepsHolds(s, r, to);
    InternalTransferBalances(s, r, to);
    SolventAfterDebit(s, s', r.user, r.value);
  }

  lemma InternalChargeBalances(s: State, r: QrRequest, charge: Id)
    requires RowsOk(s) && r.user in s.accounts && OpenCharge(s, Some(charge))
    requires s.txs[charge].owner != r.user && PayInternalCharge(s, r, charge).reply.Accepted?
    ensures var s' := PayInternalCharge(s, r, charge).state;
            && s'.accounts.Keys == s.accounts.Keys
            && s'.accounts[r.user].balance == s.accounts[r.user].balance - s.txs[charge].value - Fees.MAINTENANCE_FEE
                 + (if s.matrix == Some(r.user) then Fees.MAINTENANCE_FEE else 0)
            && (forall a | a in s.accounts && a != r.user :: s'.accounts[a].balance >= s.accounts[a].balance)
  {
    assert RowOk(s, s.txs[charge]);
  }

  lemma InternalChargeSolvency(s: State, r: QrRequest, charge: Id)
    requires HoldInv(s) && Solvent(s) && r.user in s.accounts && OpenCharge(s, Some(charge))
    requires s.txs[charge].owner != r.user && PayInternalCharge(s, r, charge).reply.Accepted?
    ensures Solvent(PayInternalCharge(s, r, charge).state)
            <==> s.txs[charge].value + Fees.MAINTENANCE_FEE
                 - (if s.matrix == Some(r.user) then Fees.MAINTENANCE_FEE else 0) <= Available(s, r.user)
  {
    InternalChargeKeepsHolds(s, r, charge);
    InternalChargeBalances(s, r, charge);
    SolventAfterDebit(s, PayInternalCharge(s, r, charge).state, r.user,
                      s.txs[charge].value + Fees.MAINTENANCE_FEE
                      - (if s.matrix == Some(r.user) then Fees.MAINTENANCE_FEE else 0));
  }

  lemma SolventWhenRicher(s: State, s': State)
    requires Solvent(s) && s'.accounts.Keys == s.accounts.Keys
    requires forall a: Id :: Held(s', a) == Held(s, a)
    requires forall a | a in s.accounts :: s'.accounts[a].balance >= s.accounts[a].balance
    ensures Solvent(s')
  {
    hide Held;
    forall a | a in s'.accounts
      ensures Available(s', a) >= 0
    {
      assert Available(s, a) >= 0;
    }
  }

  lemma SelfPaidChargeBalances(s: State, r: QrRequest, charge: Id)
    requires r.user in s.accounts && OpenCharge(s, Some(charge)) && RowOk(s, s.txs[charge])
    requires s.txs[charge].owner == r.user || !PayInternalCharge(s, r, charge).reply.Accepted?
    ensures var s' := PayInternalCharge(s, r, charge).state;
            && s'.accounts.Keys == s.accounts.Keys
            && forall a | a in s.accounts :: s'.accounts[a].balance >= s.accounts[a].balance
  {
    hide Clashes, RaisedLimit;
  }

  lemma SelfPaidChargeSolvent(s: State, r: QrRequest, charge: Id)
    requires HoldInv(s) && Solvent(s) && r.user in s.accounts && OpenCharge(s, Some(charge))
    requires s.txs[charge].owner == r.user || !PayInternalCharge(s, r, charge).reply.Accepted?
    ensures Solvent(PayInternalCharge(s, r, charge).state)
  {
    assert RowOk(s, s.txs[charge]);
    hide PayInternalCharge, HoldInv, RowOk, Held;
    InternalChargeKeepsHolds(s, r, charge);
    SelfPaidChargeBalances(s, r, charge);
    SolventWhenRicher(s, PayInternalCharge(s, r, charge).state);
  }

  /** A send that is not an internal transfer going through never costs solvency. */
  lemma OtherSendSolvent(s: State, r: SendRequest, g: SendAnswer)
    requires HoldInv(s) && Solvent(s) && !TransferPasses(s, r)
    ensures Solvent(CreatePix(s, r, g).state)
  {
    TransferPassesExactly(s, r, g);
    if r.value > 0 && r.user in s.accounts && !KeyUsed(s, r.key) {
      if r.scheduled {
        ScheduledKeepsHolds(s, r, g);
      } else if r.recipient.None? || r.recipient.value !in s.accounts {
        ExternalSendSolvent(s, r, g);
      }
    }
  }

  lemma SendSolvency(s: State, e: Event)
    requires HoldInv(s) && Solvent(s) && e.Send?
    ensures Solvent(Step(s, e)) <==> !Overspends(s, e)
  {
    if TransferPasses(s, e.send) {
      TransferPassesExactly(s, e.send, e.sendAnswer);
      InternalTransferSolvency(s, e.send, e.send.recipient.value);
    } else {
      OtherSendSolvent(s, e.send, e.sendAnswer);
    }
  }

  /** A QR payment that is not of another account's charge never costs solvency. */
  lemma OtherPaymentSolvent(s: State, r: QrRequest, g: QrAnswer)
    requires HoldInv(s) && Solvent(s) && !ChargePaymentPasses(s, r)
    ensures Solvent(PayQr(s, r, g).state)
  {
    ChargePaymentPassesExactly(s, r, g);
    hide HoldInv, Solvent, PayInternalCharge, PayExternalQr, ChargePaymentPasses;
    if (r.clientValue.Some? ==> r.clientValue.value > 0) && r.user in s.accounts && !Duplicate(s, r) {
      if OpenCharge(s, r.charge) {
        SelfPaidChargeSolvent(s, r, r.charge.value);
      } else if !PaidCharge(s, r.charge) {
        ExternalQrSolvent(s, r, g);
      }
    }
  }

  lemma PaySolvency(s: State, e: Event)
    requires HoldInv(s) && Solvent(s) && e.Pay?
    ensures Solvent(Step(s, e)) <==> !Overspends(s, e)
  {
    if ChargePaymentPasses(s, e.pay) {
      ChargePaymentPassesExactly(s, e.pay, e.payAnswer);
      PassingPaymentRoutes(s, e.pay, e.payAnswer);
      hide HoldInv, Solvent, PayInternalCharge, PayQr;
      InternalChargeSolvency(s, e.pay, e.pay.charge.value);
    } else {
      OtherPaymentSolvent(s, e.pay, e.payAnswer);
    }
  }

  lemma PassingPaymentRoutes(s: State, r: QrRequest, g: QrAnswer)
    requires ChargePaymentPasses(s, r)
    ensures PayQr(s, r, g) == PayInternalCharge(s, r, r.charge.value)
  {
    hide PayInternalCharge;
  }

  lemma ChargesKeepAvailable(s: State, e: Event)
    requires HoldInv(s) && !Misdirected(s, e) && (e.Receipt? || e.Verify? || e.Refresh? || e.ChargePaid?)
    ensures KeepsAvailable(s, Step(s, e))
  {
    if e.ChargePaid? {
      InboundKeepsAvailable(s, e);
    } else if e.charge in s.txs && s.txs[e.charge].status == Created {
      ReceiptKeepsAvailable(s, e.charge);
    }
  }

  lemma InboundKeepsAvailable(s: State, e: Event)
    requires HoldInv(s) && !Misdirected(s, e) && e.ChargePaid?
    ensures KeepsAvailable(s, Step(s, e))
  {
    if e.payment in s.txs {
      if e.payment != "" && s.txs[e.payment].status != Confirmed { ReceiptKeepsAvailable(s, e.payment); }
    } else {
      ChargePaidKeepsHolds(s, e);
    }
  }

  /** The remaining routes never lower an available balance. */
  lemma OthersKeepAvailable(s: State, e: Event)
    requires HoldInv(s) && !Misdirected(s, e) && !e.Send? && !e.Pay?
    ensures KeepsAvailable(s, Step(s, e))
  {
    if e.Transfer? {
      hide TransferWebhook, HoldInv;
      TransferKeepsAvailable(s, e.tx, e.done);
    } else if e.NewCharge? || e.Cancel? {
      QuietRoutesKeepHolds(s, e);
    } else {
      ChargesKeepAvailable(s, e);
    }
  }

  /** A solvent bank stays solvent through a step exactly when the step is not an internal payment
      of money the payer already has on hold: those two routes test the raw balance. */
  lemma SolvencySurvivesExactly(s: State, e: Event)
    requires HoldInv(s) && Solvent(s) && !Misdirected(s, e)
    ensures Solvent(Step(s, e)) <==> !Overspends(s, e)
  {
    if e.Send? {
      SendSolvency(s, e);
    } else if e.Pay? {
      PaySolvency(s, e);
    } else {
      OthersKeepAvailable(s, e);
      forall a | a in Step(s, e).accounts
        ensures Available(Step(s, e), a) >= 0
      {
        assert Available(s, a) >= 0;
      }
    }
  }

  ghost predicate WithinMeans(s: State, events: seq<Event>)
    decreases |events|
  {
    events == [] || (!Misdirected(s, events[0]) && !Overspends(s, events[0])
                     && WithinMeans(Step(s, events[0]), events[1..]))
  }

  /** Over every run without such an internal payment, every account covers its holds: its PENDING
      debits are those of its sends in flight and its balance is at least that, hence never negative. */
  lemma {:induction false} RunStaysSolvent(s: State, events: seq<Event>)
    requires HoldInv(s) && Solvent(s) && WithinMeans(s, events)
    ensures HoldInv(Run(s, events)) && Solvent(Run(s, events))
    ensures forall a | a in Run(s, events).accounts ::
              Run(s, events).accounts[a].balance >= PendingDebits(Run(s, events).ledger, a) == Held(Run(s, events), a) >= 0
    decreases |events|
  {
    if events == [] {
      forall a | a in s.accounts
        ensures s.accounts[a].balance >= PendingDebits(s.ledger, a) == Held(s, a) >= 0
      {
        SolventBalances(s, a);
      }
    } else {
      StepKeepsHolds(s, events[0]);
      SolvencySurvivesExactly(s, events[0]);
      RunStaysSolvent(Step(s, events[0]), events[1..]);
    }
  }

  // ---------------------------------------------------------------- the two exceptions are real

  /** One account with 10.00 and a send of 5.00 (fee 4.00) in flight, and an empty second account. */
  function InFlightExample(): State {
    State(map["ana" := Account(1000, 0, "12345678901"), "bia" := Account(0, 0, "12345678902")],
          map["t" := Tx("ana", Sent, Processing, 500, 400, "k", None)],
          [Entry("ana", Debit, 900, Pending, "t")], None)
  }

  lemma InFlightExampleHolds()
    ensures HoldInv(InFlightExample()) && Solvent(InFlightExample())
    ensures Available(InFlightExample(), "ana") == 100
  {
    var s := InFlightExample();
    assert Holds(s.txs, "ana") == map["t" := 900];
    MapSumAdd(map[], "t", 900);
    forall a: Id
      ensures PendingDebits(s.ledger, a) == Held(s, a)
    {
      if a != "ana" { assert Holds(s.txs, a) == map[]; }
      assert s.ledger == [] + [s.ledger[0]];
      AppendPending([], s.ledger[0], "t", a);
    }
    assert s.ledger == [] + [s.ledger[0]];
    AppendPending([], s.ledger[0], "t", "ana");
    assert Holds(s.txs, "bia") == map[];
  }

  function ExampleSend(): Event {
    Send(SendRequest("ana", 500, Some("bia"), false, "k2", "t2", "t3"), Dispatched)
  }

  lemma ExampleSendIsAccepted()
    ensures Handle(InFlightExample(), ExampleSend()).reply.Accepted?
  {
    var s := InFlightExample();
    assert s.txs.Keys == {"t"};
    assert RECEIVED_KEY_PREFIX + "k2" != "k" && RECEIVED_KEY_PREFIX + "k2" != "k2" by {
      assert |RECEIVED_KEY_PREFIX + "k2"| > 2;
    }
  }

  /** Sending 5.00 internally passes the raw-balance test and leaves the account unable to cover its hold. */
  lemma InternalTransferCanOverspend()
    ensures exists s: State, e: Event :: HoldInv(s) && Solvent(s) && !Misdirected(s, e) && !Solvent(Step(s, e))
  {
    InFlightExampleHolds();
    ExampleSendIsAccepted();
    var s, e := InFlightExample(), ExampleSend();
    hide HoldInv, Solvent, Step, Handle, Available;
    SolvencySurvivesExactly(s, e);
  }

  /** A charge confirmation that names the send in flight leaves its hold PENDING for ever. */
  lemma MisdirectedConfirmationBreaksHolds()
    ensures exists s: State, e: Event :: HoldInv(s) && !HoldInv(Step(s, e))
  {
    var e := ChargePaid("t", None, 500);
    InFlightExampleHolds();
    HoldsSurviveExactly(InFlightExample(), e);
  }
}
