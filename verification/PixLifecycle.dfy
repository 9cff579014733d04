/** How transaction rows evolve: immutable columns, terminal confirmation, idempotency keys. */
module PixLifecycle {
  import opened Wrappers
  import opened PixModel

  /** The moves of the status column. CONFIRMED is final; everything else may still be confirmed by
      a charge delivery, which does not look at the kind of the row. */
  predicate Moves(before: Status, after: Status) {
    || after == before
    || (before != Confirmed && after == Confirmed)
    || (before == Processing && after == Failed)
    || (before == Scheduled && after == Canceled)
  }

  ghost predicate RowEvolves(before: Tx, after: Tx) {
    after == before.(status := after.status) && Moves(before.status, after.status)
  }

  /** No row disappears and only its status changes. */
  ghost predicate Evolves(s: State, s': State) {
    forall t | t in s.txs :: t in s'.txs && RowEvolves(s.txs[t], s'.txs[t])
  }

  lemma ConfirmEvolves(s: State, charge: Id)
    requires charge in s.txs
    ensures Evolves(s, ConfirmCharge(s, charge))
    ensures ConfirmCharge(s, charge).txs == SetStatus(s, charge, Confirmed).txs
  {
  }

  lemma SendEvolves(s: State, r: SendRequest, g: SendAnswer)
    ensures Evolves(s, CreatePix(s, r, g).state)
  {
  }

  lemma PayInternalEvolves(s: State, r: QrRequest, charge: Id)
    requires r.user in s.accounts && charge in s.txs
    ensures Evolves(s, PayInternalCharge(s, r, charge).state)
  {
  }

  lemma PayExternalEvolves(s: State, r: QrRequest, g: QrAnswer)
    requires r.user in s.accounts
    ensures Evolves(s, PayExternalQr(s, r, g).state)
  {
  }

  lemma ChargePaidEvolves(s: State, payment: Id, recipient: Option<Id>, amount: int)
    ensures Evolves(s, ChargeWebhook(s, payment, recipient, amount).state)
  {
    if payment in s.txs { ConfirmEvolves(s, payment); }
  }

  lemma PayEvolves(s: State, r: QrRequest, g: QrAnswer)
    ensures Evolves(s, PayQr(s, r, g).state)
  {
    if r.user in s.accounts {
      if OpenCharge(s, r.charge) { PayInternalEvolves(s, r, r.charge.value); }
      PayExternalEvolves(s, r, g);
    }
  }

  lemma TransferEvolves(s: State, t: Id, done: bool)
    ensures Evolves(s, TransferWebhook(s, t, done).state)
  {
  }

  lemma ChargeRoutesEvolve(s: State, e: Event)
    requires e.Receipt? || e.Verify? || e.Refresh?
    ensures Evolves(s, Step(s, e))
  {
    if e.charge in s.txs { ConfirmEvolves(s, e.charge); }
  }

  lemma StepEvolves(s: State, e: Event)
    ensures Evolves(s, Step(s, e))
  {
    if e.Send? { SendEvolves(s, e.send, e.sendAnswer); }
    else if e.Pay? { PayEvolves(s, e.pay, e.payAnswer); }
    else if e.ChargePaid? { ChargePaidEvolves(s, e.payment, e.recipient, e.amount); }
    else if e.Transfer? { TransferEvolves(s, e.tx, e.done); }
    else if e.Receipt? || e.Verify? || e.Refresh? { ChargeRoutesEvolve(s, e); }
  }

  lemma {:induction false} RunEvolves(s: State, events: seq<Event>)
    ensures Evolves(s, Run(s, events))
    decreases |events|
  {
    if events != [] {
      StepEvolves(s, events[0]);
      RunEvolves(Step(s, events[0]), events[1..]);
    }
  }

  // ---------------------------------------------------------------- landing

  /** A delivery that names the row by its primary key. */
  predicate Names(e: Event, t: Id) {
    (e.Transfer? && e.tx == t) || (e.ChargePaid? && e.payment == t && t != "")
  }

  lemma SendLeavesFlight(s: State, r: SendRequest, g: SendAnswer, t: Id)
    requires t in s.txs && InFlight(s.txs[t])
    ensures t in CreatePix(s, r, g).state.txs && CreatePix(s, r, g).state.txs[t] == s.txs[t]
  {
  }

  lemma PayLeavesFlight(s: State, r: QrRequest, g: QrAnswer, t: Id)
    requires t in s.txs && InFlight(s.txs[t])
    ensures t in PayQr(s, r, g).state.txs && PayQr(s, r, g).state.txs[t] == s.txs[t]
  {
    PayEvolves(s, r, g);
    if r.user in s.accounts && OpenCharge(s, r.charge) {
      assert t != r.charge.value;
    }
  }

  lemma StepLeavesFlight(s: State, e: Event, t: Id)
    requires t in s.txs && InFlight(s.txs[t]) && !Names(e, t)
    ensures t in Step(s, e).txs && Step(s, e).txs[t] == s.txs[t]
  {
    if e.Send? { SendLeavesFlight(s, e.send, e.sendAnswer, t); }
    else if e.Pay? { PayLeavesFlight(s, e.pay, e.payAnswer, t); }
  }

  lemma NamedStepEndsFlight(s: State, e: Event, t: Id)
    requires t in s.txs && InFlight(s.txs[t]) && Names(e, t)
    ensures t in Step(s, e).txs && Step(s, e).txs[t].status in {Confirmed, Failed}
  {
    if e.ChargePaid? { ConfirmEvolves(s, t); }
    else { TransferEvolves(s, t, e.done); }
  }

  /** A send in flight is still in flight after a run exactly when no delivery of the run comes under its
      own primary key; until then its row does not change at all. A send by key keeps the id drawn here,
      so a delivery under the id the gateway drew never lands it. */
  lemma {:induction false} FlightLastsExactly(s: State, events: seq<Event>, t: Id)
    requires t in s.txs && InFlight(s.txs[t])
    ensures t in Run(s, events).txs
    ensures InFlight(Run(s, events).txs[t]) <==> forall i | 0 <= i < |events| :: !Names(events[i], t)
    ensures InFlight(Run(s, events).txs[t]) ==> Run(s, events).txs[t] == s.txs[t]
    decreases |events|
  {
    hide Step, Names;
    if events != [] {
      var s1 := Step(s, events[0]);
      if Names(events[0], t) {
        NamedStepEndsFlight(s, events[0], t);
        RunEvolves(s1, events[1..]);
        assert RowEvolves(s1.txs[t], Run(s1, events[1..]).txs[t]);
      } else {
        StepLeavesFlight(s, events[0], t);
        FlightLastsExactly(s1, events[1..], t);
      }
    }
  }

  // ---------------------------------------------------------------- idempotency keys

  /** The request that carries an idempotency key. */
  function RequestKey(e: Event): Option<string> {
    if e.Send? then Some(e.send.key)
    else if e.Pay? && e.pay.header.Some? && e.pay.header.value != "" then Some(e.pay.header.value)
    else None
  }

  /** Paying one's own open charge: a deposit, which leaves no SENT row and so records no key. */
  ghost predicate PaysOwnCharge(s: State, e: Event) {
    e.Pay? && OpenCharge(s, e.pay.charge) && s.txs[e.pay.charge.value].owner == e.pay.user
  }

  lemma SendRecordsKey(s: State, r: SendRequest, g: SendAnswer)
    requires CreatePix(s, r, g).reply.Accepted?
    ensures KeyUsed(CreatePix(s, r, g).state, r.key)
  {
    assert CreatePix(s, r, g).state.txs[r.txId].key == r.key;
  }

  lemma PayRecordsKey(s: State, r: QrRequest, g: QrAnswer)
    requires PayQr(s, r, g).reply.Accepted?
    ensures KeyUsed(PayQr(s, r, g).state, QrKey(r))
            <== !(OpenCharge(s, r.charge) && s.txs[r.charge.value].owner == r.user)
  {
    var s' := PayQr(s, r, g).state;
    if OpenCharge(s, r.charge) {
      if s.txs[r.charge.value].owner != r.user { assert s'.txs[r.txId].key == QrKey(r); }
    } else {
      assert s'.txs[PaymentId(r, g)].key == QrKey(r);
    }
  }

  lemma OwnChargeRecordsNoKey(s: State, r: QrRequest, g: QrAnswer)
    requires PayQr(s, r, g).reply.Accepted?
    requires OpenCharge(s, r.charge) && s.txs[r.charge.value].owner == r.user
    requires r.header.Some? && r.header.value != ""
    ensures !KeyUsed(PayQr(s, r, g).state, r.header.value)
    ensures PayQr(s, r, g).state.txs == SetStatus(s, r.charge.value, Confirmed).txs
  {
  }

  /** An accepted request records its key exactly when it is not the payment of one's own charge. */
  lemma AcceptedRecordsKey(s: State, e: Event)
    requires RequestKey(e).Some? && Handle(s, e).reply.Accepted?
    ensures KeyUsed(Step(s, e), RequestKey(e).value) <==> !PaysOwnCharge(s, e)
  {
    if e.Send? {
      SendRecordsKey(s, e.send, e.sendAnswer);
    } else {
      PayRecordsKey(s, e.pay, e.payAnswer);
      if PaysOwnCharge(s, e) { OwnChargeRecordsNoKey(s, e.pay, e.payAnswer); }
    }
  }

  /** A request with an unused key records it exactly when it inserts a row, accepted or not: a send
      the gateway refuses leaves its key in a FAILED row. */
  lemma InsertedRecordsKeyExactly(s: State, e: Event)
    requires RequestKey(e).Some? && !KeyUsed(s, RequestKey(e).value)
    ensures KeyUsed(Step(s, e), RequestKey(e).value) <==> Step(s, e).txs.Keys != s.txs.Keys
  {
    if e.Send? { SendInsertsItsKey(s, e.send, e.sendAnswer); } else { PayInsertsItsKey(s, e.pay, e.payAnswer); }
  }

  lemma SendInsertsItsKey(s: State, r: SendRequest, g: SendAnswer)
    requires !KeyUsed(s, r.key)
    ensures KeyUsed(CreatePix(s, r, g).state, r.key) <==> CreatePix(s, r, g).state.txs.Keys != s.txs.Keys
  {
    var s' := CreatePix(s, r, g).state;
    if r.txId !in s.txs && r.txId in s'.txs { assert s'.txs[r.txId].key == r.key; }
    if s'.txs.Keys == s.txs.Keys { assert s' == s; }
  }

  lemma PayInsertsItsKey(s: State, r: QrRequest, g: QrAnswer)
    requires r.header.Some? && r.header.value != "" && !KeyUsed(s, r.header.value)
    ensures KeyUsed(PayQr(s, r, g).state, r.header.value) <==> PayQr(s, r, g).state.txs.Keys != s.txs.Keys
  {
    var s' := PayQr(s, r, g).state;
    if r.txId !in s.txs && r.txId in s'.txs { assert s'.txs[r.txId].key == r.header.value; }
    if g.QrPaid? && PaymentId(r, g) !in s.txs && PaymentId(r, g) in s'.txs {
      assert s'.txs[PaymentId(r, g)].key == r.header.value;
    }
    if s'.txs.Keys == s.txs.Keys {
      PayEvolves(s, r, g);
      assert forall t | t in s'.txs :: s'.txs[t].key == s.txs[t].key;
    }
  }

  /** Once a request has left its key in the table, accepted or refused, every later request with the
      same key changes nothing at all (no row, no hold, no balance), whatever happened in between. The
      payment of one's own charge leaves no key; there the charge itself is never paid again. */
  lemma RepeatChangesNothing(s: State, first: Event, between: seq<Event>, again: Event)
    requires RequestKey(first).Some? && RequestKey(again) == RequestKey(first)
    requires KeyUsed(Step(s, first), RequestKey(first).value)
          || (PaysOwnCharge(s, first) && Handle(s, first).reply.Accepted? && again.Pay? && again.pay.charge == first.pay.charge)
    ensures Step(Run(Step(s, first), between), again) == Run(Step(s, first), between)
  {
    var s1 := Step(s, first);
    var s2 := Run(s1, between);
    RunEvolves(s1, between);
    if KeyUsed(s1, RequestKey(first).value) {
      UsedKeyStaysUsed(s1, s2, RequestKey(first).value);
      UsedKeyIsIdle(s2, again);
    } else {
      OwnChargeRecordsNoKey(s, first.pay, first.payAnswer);
      assert RowEvolves(s1.txs[first.pay.charge.value], s2.txs[first.pay.charge.value]);
      assert PaidCharge(s2, again.pay.charge);
    }
  }

  lemma UsedKeyStaysUsed(s: State, s': State, key: string)
    requires KeyUsed(s, key) && Evolves(s, s')
    ensures KeyUsed(s', key)
  {
    var t :| t in s.txs && s.txs[t].key == key;
    assert RowEvolves(s.txs[t], s'.txs[t]);
  }

  lemma UsedKeyIsIdle(s: State, e: Event)
    requires RequestKey(e).Some? && KeyUsed(s, RequestKey(e).value)
    ensures Step(s, e) == s
  {
  }

  // ---------------------------------------------------------------- unique columns

  /** No two rows share an idempotency key, or an owner and a payload. */
  ghost predicate UniqueRows(s: State) {
    forall t, u | t in s.txs && u in s.txs && t != u :: !SameUniqueColumns(s.txs[t], s.txs[u])
  }

  lemma InsertKeepsUnique(s: State, id: Id, row: Tx)
    requires UniqueRows(s) && !Clashes(s, id, row)
    ensures UniqueRows(InsertTx(s, id, row))
  {
    forall t | t in s.txs
      ensures !SameUniqueColumns(s.txs[t], row) && !SameUniqueColumns(row, s.txs[t])
    {
    }
  }

  /** Only the primary key and the columns outside the constraints may differ. */
  lemma ClashesByColumns(s: State, id: Id, row: Tx, id': Id, row': Tx)
    requires !Clashes(s, id, row) && id' !in s.txs
    requires row'.key == row.key && row'.owner == row.owner && row'.payloadHash == row.payloadHash
    ensures !Clashes(s, id', row')
  {
    forall t | t in s.txs
      ensures !SameUniqueColumns(s.txs[t], row')
    {
      assert !SameUniqueColumns(s.txs[t], row);
    }
  }

  lemma EvolvedKeepsUnique(s: State, s': State)
    requires UniqueRows(s) && Evolves(s, s') && s'.txs.Keys == s.txs.Keys
    ensures UniqueRows(s')
  {
    forall t, u | t in s'.txs && u in s'.txs && t != u
      ensures !SameUniqueColumns(s'.txs[t], s'.txs[u])
    {
      assert RowEvolves(s.txs[t], s'.txs[t]) && RowEvolves(s.txs[u], s'.txs[u]);
    }
  }

  lemma SendKeepsUnique(s: State, r: SendRequest, g: SendAnswer)
    requires UniqueRows(s)
    ensures UniqueRows(CreatePix(s, r, g).state)
  {
    hide SameUniqueColumns, UniqueRows, Clashes;
    var s' := CreatePix(s, r, g).state;
    if r.value > 0 && r.user in s.accounts && !KeyUsed(s, r.key) {
      if r.scheduled {
        if s' != s { InsertKeepsUnique(s, r.txId, ScheduledRow(r)); }
      } else if r.recipient.Some? && r.recipient.value in s.accounts {
        if s' != s {
          InsertKeepsUnique(s, r.txId, SentRow(r));
          InsertKeepsUnique(InsertTx(s, r.txId, SentRow(r)), r.recvId, ReceivedRow(r, r.recipient.value));
          TransferTables(s, r, r.recipient.value);
        }
      } else {
        ExternalSendKeepsUnique(s, r, g);
      }
    }
  }

  lemma TransferTables(s: State, r: SendRequest, to: Id)
    requires r.user in s.accounts && to in s.accounts && InternalTransfer(s, r, to).reply.Accepted?
    requires UniqueRows(InsertTx(InsertTx(s, r.txId, SentRow(r)), r.recvId, ReceivedRow(r, to)))
    ensures UniqueRows(InternalTransfer(s, r, to).state)
  {
    hide SameUniqueColumns, Clashes;
  }

  lemma ExternalSendKeepsUnique(s: State, r: SendRequest, g: SendAnswer)
    requires UniqueRows(s) && r.user in s.accounts
    ensures UniqueRows(SendExternal(s, r, g).state)
  {
    var row := OutboundRow(s.accounts[r.user].document, r);
    if !Clashes(s, r.txId, row) {
      ClashesByColumns(s, r.txId, row, r.txId, row.(status := Failed));
      InsertKeepsUnique(s, r.txId, row);
      InsertKeepsUnique(s, r.txId, row.(status := Failed));
    }
    hide SameUniqueColumns, Clashes;
  }

  lemma ExternalQrKeepsUnique(s: State, r: QrRequest, g: QrAnswer)
    requires UniqueRows(s) && r.user in s.accounts
    ensures UniqueRows(PayExternalQr(s, r, g).state)
  {
    var document := s.accounts[r.user].document;
    var row := ProvisionalRow(document, r);
    if !Clashes(s, r.txId, row) {
      ClashesByColumns(s, r.txId, row, r.txId, row.(status := Failed));
      InsertKeepsUnique(s, r.txId, row.(status := Failed));
      if g.QrPaid? && PaymentId(r, g) !in s.txs {
        ClashesByColumns(s, r.txId, row, PaymentId(r, g), QrOutboundRow(document, r, g));
        InsertKeepsUnique(s, PaymentId(r, g), QrOutboundRow(document, r, g));
      }
    }
    hide SameUniqueColumns, Clashes;
  }

  lemma InternalChargeKeepsUnique(s: State, r: QrRequest, charge: Id)
    requires UniqueRows(s) && r.user in s.accounts && charge in s.txs
    ensures UniqueRows(PayInternalCharge(s, r, charge).state)
  {
    var s', row := PayInternalCharge(s, r, charge).state, QrSentRow(r, s.txs[charge].value);
    PayInternalEvolves(s, r, charge);
    if !Clashes(s, r.txId, row) {
      InsertKeepsUnique(s, r.txId, row);
      if r.txId in s'.txs { PaidTables(s, s', r.txId, row); }
    }
    if s'.txs.Keys == s.txs.Keys { EvolvedKeepsUnique(s, s'); }
  }

  lemma PaidTables(s: State, s': State, id: Id, row: Tx)
    requires UniqueRows(InsertTx(s, id, row)) && id !in s.txs && Evolves(s, s') && s'.txs.Keys == s.txs.Keys + {id}
    requires s'.txs[id] == row
    ensures UniqueRows(s')
  {
    var s1 := InsertTx(s, id, row);
    forall t | t in s1.txs
      ensures t in s'.txs && RowEvolves(s1.txs[t], s'.txs[t])
    {
      if t != id { assert RowEvolves(s.txs[t], s'.txs[t]); }
    }
    EvolvedKeepsUnique(s1, s');
  }

  lemma PayKeepsUnique(s: State, r: QrRequest, g: QrAnswer)
    requires UniqueRows(s)
    ensures UniqueRows(PayQr(s, r, g).state)
  {
    hide UniqueRows, PayInternalCharge, PayExternalQr;
    if r.user in s.accounts {
      if OpenCharge(s, r.charge) { InternalChargeKeepsUnique(s, r, r.charge.value); }
      ExternalQrKeepsUnique(s, r, g);
    }
  }

  lemma NewRowsKeepUnique(s: State, e: Event)
    requires UniqueRows(s) && (e.NewCharge? || e.ChargePaid?)
    ensures UniqueRows(Step(s, e))
  {
    var s' := Step(s, e);
    StepEvolves(s, e);
    if s'.txs.Keys == s.txs.Keys {
      EvolvedKeepsUnique(s, s');
    } else if e.ChargePaid? {
      InsertKeepsUnique(s, e.payment, InboundRow(s.accounts[e.recipient.value].document, e.recipient.value, e.payment, e.amount));
      PaidTables(s, s', e.payment, s'.txs[e.payment]);
    } else if e.answered.Some? && s' == InsertTx(s, e.answered.value, GatewayChargeRow(e.user, e.value, e.correlation)) {
      InsertKeepsUnique(s, e.answered.value, GatewayChargeRow(e.user, e.value, e.correlation));
    } else {
      InsertKeepsUnique(s, e.localId, LocalChargeRow(e.user, e.value, e.localId));
    }
  }

  lemma StepKeepsUnique(s: State, e: Event)
    requires UniqueRows(s)
    ensures UniqueRows(Step(s, e))
  {
    if e.Send? { SendKeepsUnique(s, e.send, e.sendAnswer); }
    else if e.Pay? { PayKeepsUnique(s, e.pay, e.payAnswer); }
    else if e.NewCharge? || e.ChargePaid? { NewRowsKeepUnique(s, e); }
    else {
      StepEvolves(s, e);
      OtherRoutesInsertNothing(s, e);
      EvolvedKeepsUnique(s, Step(s, e));
    }
  }

  lemma OtherRoutesInsertNothing(s: State, e: Event)
    requires !e.Send? && !e.Pay? && !e.NewCharge? && !e.ChargePaid?
    ensures Step(s, e).txs.Keys == s.txs.Keys
  {
    if (e.Receipt? || e.Verify? || e.Refresh?) && e.charge in s.txs { ConfirmEvolves(s, e.charge); }
    hide ConfirmCharge;
  }

  /** Over every run the keys stay unique, so the row that answers a repeated request is the one that
      the first request left. */
  lemma {:induction false} RunKeepsUnique(s: State, events: seq<Event>)
    requires UniqueRows(s)
    ensures UniqueRows(Run(s, events))
    decreases |events|
  {
    hide UniqueRows, Step;
    if events != [] {
      StepKeepsUnique(s, events[0]);
      RunKeepsUnique(Step(s, events[0]), events[1..]);
    }
  }

  /** A row stays the only one under its key, with its owner, amounts and recipient, over any run: it is
      the row that answers every repetition of the request it came from. */
  lemma ReplayFindsFirstRow(s: State, t: Id, events: seq<Event>)
    requires UniqueRows(s) && t in s.txs
    ensures var s' := Run(s, events);
      && t in s'.txs && RowEvolves(s.txs[t], s'.txs[t])
      && forall u | u in s'.txs && s'.txs[u].key == s.txs[t].key :: u == t
  {
    hide Run, Step;
    RunEvolves(s, events);
    RunKeepsUnique(s, events);
    var s' := Run(s, events);
    assert t in s'.txs && RowEvolves(s.txs[t], s'.txs[t]);
    forall u | u in s'.txs && s'.txs[u].key == s.txs[t].key
      ensures u == t
    {
      assert u != t ==> !SameUniqueColumns(s'.txs[u], s'.txs[t]);
    }
  }
}
