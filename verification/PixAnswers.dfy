/**
 * What each request and each delivery is answered, and the tables it leaves: stated column by column,
 * for every state, and apart from the functions that compute it.
 */
module PixAnswers {
  import opened Wrappers
  import opened Sums
  import opened PixModel
  import opened PixHolds
  import Fees

  // ---------------------------------------------------------------- what may change

  /** Balances move by given amounts and nothing else about accounts does, credit limits aside. */
  ghost predicate BalancesMove(s: State, s': State, moves: map<Id, int>) {
    && s'.accounts.Keys == s.accounts.Keys && s'.matrix == s.matrix
    && forall a | a in s.accounts ::
      && s'.accounts[a].document == s.accounts[a].document
      && s'.accounts[a].balance == s.accounts[a].balance + if a in moves then moves[a] else 0
  }

  /** Only the transaction table changes: one row is written. */
  ghost predicate OnlyRow(s: State, s': State, id: Id, row: Tx) {
    s' == s.(txs := s.txs[id := row])
  }

  /** A send goes in flight: its row, and one PENDING debit of value and fee. */
  ghost predicate GoesInFlight(s: State, s': State, id: Id, row: Tx) {
    && s' == s.(txs := s.txs[id := row], ledger := s.ledger + [Entry(row.owner, Debit, row.value + row.fee, Pending, id)])
    && row.kind == Sent && row.status == Processing
  }

  /** A row is confirmed and its owner credited with its whole value. */
  ghost predicate ConfirmsAndCredits(s: State, s': State, t: Id) {
    && t in s.txs && s'.ledger == s.ledger && s'.txs == s.txs[t := s.txs[t].(status := Confirmed)]
    && BalancesMove(s, s', map[s.txs[t].owner := s.txs[t].value])
  }

  /** The balance less value and fee of the account's sends in flight. */
  ghost function Free(s: State, a: Id): int
    requires a in s.accounts
  {
    s.accounts[a].balance - Held(s, a)
  }

  // ---------------------------------------------------------------- sends by key

  /** A well-formed request under a new key. */
  ghost predicate NewSend(s: State, r: SendRequest) {
    r.value > 0 && r.user in s.accounts && forall t | t in s.txs :: s.txs[t].key != r.key
  }

  lemma NewSendClashesById(s: State, r: SendRequest, row: Tx)
    requires NewSend(s, r) && row.key == r.key && row.payloadHash == None
    ensures Clashes(s, r.txId, row) <==> r.txId in s.txs
  {
  }

  /** Answers that change nothing: a value that is not positive, nobody, a key that is used. */
  lemma EarlySendAnswer(s: State, r: SendRequest, g: SendAnswer)
    requires !NewSend(s, r)
    ensures CreatePix(s, r, g).state == s
    ensures CreatePix(s, r, g).reply
         == if r.value <= 0 then Refused(InvalidValue) else if r.user !in s.accounts then Refused(Unauthenticated) else Replayed
  {
  }

  /** A send for later is written down and moves nothing. */
  lemma ScheduledSendAnswer(s: State, r: SendRequest, g: SendAnswer)
    requires NewSend(s, r) && r.scheduled
    ensures var o := CreatePix(s, r, g);
      if r.txId in s.txs then o == Outcome(s, Refused(Conflict))
      else o.reply == Accepted(r.txId) && OnlyRow(s, o.state, r.txId, Tx(r.user, Sent, Scheduled, r.value, 0, r.key, None))
  {
    NewSendClashesById(s, r, Tx(r.user, Sent, Scheduled, r.value, 0, r.key, None));
    hide Clashes;
  }

  /** A send that leaves the bank. It is accepted if and only if what is free covers value and fee and the
      gateway does not reject it; then it goes in flight with exactly that value and fee. A rejected one
      leaves a FAILED row and nothing else. */
  lemma ExternalSendAnswer(s: State, r: SendRequest, g: SendAnswer)
    requires NewSend(s, r) && !r.scheduled && (r.recipient.Some? ==> r.recipient.value !in s.accounts)
    ensures var o, fee := CreatePix(s, r, g), Fees.OutboundFee(s.accounts[r.user].document, r.value);
      if Free(s, r.user) < r.value + fee then o == Outcome(s, Refused(InsufficientBalance))
      else if r.txId in s.txs then o == Outcome(s, Refused(Conflict))
      else if g == Rejected then
        o.reply == Refused(GatewayRefused) && OnlyRow(s, o.state, r.txId, Tx(r.user, Sent, Failed, r.value, fee, r.key, None))
      else
        o.reply == Accepted(r.txId) && GoesInFlight(s, o.state, r.txId, Tx(r.user, Sent, Processing, r.value, fee, r.key, None))
  {
    var fee := Fees.OutboundFee(s.accounts[r.user].document, r.value);
    NewSendClashesById(s, r, Tx(r.user, Sent, Processing, r.value, fee, r.key, None));
    hide Clashes, Held, Fees.OutboundFee;
  }

  lemma HeldInFlight(s: State, id: Id, row: Tx, a: Id)
    requires id !in s.txs && row.kind == Sent && row.status == Processing
    ensures Held(s.(txs := s.txs[id := row]), a) == Held(s, a) + if a == row.owner then row.value + row.fee else 0
  {
    DispatchHolds(s.txs, id, row, a);
  }

  lemma HeldFailed(s: State, id: Id, row: Tx, a: Id)
    requires id !in s.txs && row.status != Processing
    ensures Held(s.(txs := s.txs[id := row]), a) == Held(s, a)
  {
    assert Holds(s.txs[id := row], a) == Holds(s.txs, a);
  }

  /** What that means for what is held: an accepted send holds value and fee for its sender and nothing for
      anybody else; any other answer holds nothing more. */
  lemma ExternalSendHolds(s: State, r: SendRequest, g: SendAnswer, a: Id)
    requires NewSend(s, r) && !r.scheduled && (r.recipient.Some? ==> r.recipient.value !in s.accounts)
    ensures var o, fee := CreatePix(s, r, g), Fees.OutboundFee(s.accounts[r.user].document, r.value);
      Held(o.state, a) == Held(s, a) + if o.reply.Accepted? && a == r.user then r.value + fee else 0
  {
    ExternalSendAnswer(s, r, g);
    var fee := Fees.OutboundFee(s.accounts[r.user].document, r.value);
    hide CreatePix, Fees.OutboundFee;
    if r.txId !in s.txs {
      HeldInFlight(s, r.txId, Tx(r.user, Sent, Processing, r.value, fee, r.key, None), a);
      HeldFailed(s, r.txId, Tx(r.user, Sent, Failed, r.value, fee, r.key, None), a);
    }
    hide Held;
  }

  /** A send to an account of the bank: free, against the raw balance, both rows at once. */
  lemma InternalSendAnswer(s: State, r: SendRequest, g: SendAnswer)
    requires NewSend(s, r) && !r.scheduled && r.recipient.Some? && r.recipient.value in s.accounts
    ensures var o, to, recvKey := CreatePix(s, r, g), r.recipient.value, "internal-recv-" + r.key;
      if r.user == to then o == Outcome(s, Refused(SelfTransfer))
      else if s.accounts[r.user].balance < r.value then o == Outcome(s, Refused(InsufficientBalance))
      else if r.txId in s.txs || r.recvId in s.txs || r.recvId == r.txId || (exists t | t in s.txs :: s.txs[t].key == recvKey)
      then o == Outcome(s, Refused(Conflict))
      else
        && o.reply == Accepted(r.txId) && o.state.ledger == s.ledger
        && o.state.txs == s.txs[r.txId := Tx(r.user, Sent, Confirmed, r.value, 0, r.key, None)]
                               [r.recvId := Tx(to, Received, Confirmed, r.value, 0, recvKey, None)]
        && BalancesMove(s, o.state, map[r.user := -r.value, to := r.value])
  {
    var sent := Tx(r.user, Sent, Confirmed, r.value, 0, r.key, None);
    var received := Tx(r.recipient.value, Received, Confirmed, r.value, 0, "internal-recv-" + r.key, None);
    NewSendClashesById(s, r, sent);
    SecondRowClashes(s, r, sent, received);
    hide Clashes;
  }

  lemma SecondRowClashes(s: State, r: SendRequest, sent: Tx, received: Tx)
    requires NewSend(s, r) && sent.key == r.key && received.key == "internal-recv-" + r.key && received.payloadHash == None
    ensures Clashes(InsertTx(s, r.txId, sent), r.recvId, received) && r.txId !in s.txs
       <==> r.txId !in s.txs && (r.recvId in s.txs || r.recvId == r.txId || exists t | t in s.txs :: s.txs[t].key == received.key)
  {
    var s1 := InsertTx(s, r.txId, sent);
    assert |received.key| != |sent.key|;
    if r.txId !in s.txs {
      if t :| t in s.txs && s.txs[t].key == received.key { assert SameUniqueColumns(s1.txs[t], received); }
    }
  }

  /** Only the owner can cancel, and only a send that is scheduled. */
  lemma CancelAnswer(s: State, user: Id, t: Id)
    ensures var o := Handle(s, Cancel(user, t));
      if t in s.txs && s.txs[t].owner == user && s.txs[t].status == Scheduled
      then o.reply == Accepted(t) && OnlyRow(s, o.state, t, s.txs[t].(status := Canceled))
      else o == Outcome(s, Refused(if t in s.txs && s.txs[t].owner == user then InvalidStatus else NotFound))
  {
  }

  // ---------------------------------------------------------------- QR payments

  /** A well-formed payment that repeats none: neither its header key is used, nor did this user pay or
      start to pay the same payload. */
  ghost predicate NewPayment(s: State, r: QrRequest) {
    && (r.clientValue.Some? ==> r.clientValue.value > 0) && r.user in s.accounts
    && (r.header.Some? && r.header.value != "" ==> forall t | t in s.txs :: s.txs[t].key != r.header.value)
    && forall t | t in s.txs && s.txs[t].owner == r.user && s.txs[t].payloadHash == Some(r.hash) ::
      s.txs[t].status != Confirmed && s.txs[t].status != Processing
  }

  /** The key of the row: the header's, or one drawn here. */
  function KeyOf(r: QrRequest): string {
    if r.header.None? || r.header.value == "" then r.freshKey else r.header.value
  }

  /** Whether the new row can be inserted: its id and key are new, and so is the payload for this user. */
  ghost predicate Fits(s: State, r: QrRequest) {
    && r.txId !in s.txs
    && forall t | t in s.txs :: s.txs[t].key != KeyOf(r) && !(s.txs[t].owner == r.user && s.txs[t].payloadHash == Some(r.hash))
  }

  ghost predicate NamesCharge(s: State, r: QrRequest, status: Status) {
    r.charge.Some? && r.charge.value in s.txs && s.txs[r.charge.value].kind == Received && s.txs[r.charge.value].status == status
  }

  lemma FitsExactly(s: State, r: QrRequest, row: Tx)
    requires row.key == KeyOf(r) && row.owner == r.user && row.payloadHash == Some(r.hash)
    ensures Clashes(s, r.txId, row) <==> !Fits(s, r)
  {
    if Fits(s, r) {
      forall t | t in s.txs
        ensures !SameUniqueColumns(s.txs[t], row)
      {
      }
    } else if r.txId !in s.txs {
      var t :| t in s.txs && (s.txs[t].key == KeyOf(r) || (s.txs[t].owner == r.user && s.txs[t].payloadHash == Some(r.hash)));
      assert SameUniqueColumns(s.txs[t], row);
    }
  }

  lemma NewPaymentExactly(s: State, r: QrRequest)
    requires (r.clientValue.Some? ==> r.clientValue.value > 0) && r.user in s.accounts
    ensures NewPayment(s, r) <==> !Duplicate(s, r)
  {
  }

  /** Answers that change nothing. */
  lemma EarlyPayAnswer(s: State, r: QrRequest, g: QrAnswer)
    requires !NewPayment(s, r) || NamesCharge(s, r, Confirmed)
    ensures PayQr(s, r, g).state == s
    ensures PayQr(s, r, g).reply
         == if r.clientValue.Some? && r.clientValue.value <= 0 then Refused(InvalidValue)
            else if r.user !in s.accounts then Refused(Unauthenticated)
            else if !NewPayment(s, r) then Replayed
            else Refused(AlreadyPaid)
  {
    if (r.clientValue.Some? ==> r.clientValue.value > 0) && r.user in s.accounts { NewPaymentExactly(s, r); }
    hide Duplicate, NewPayment;
  }

  /** Paying the charge of another account here: value and 1.00 from the payer, the value to its owner, the
      1.00 to the matrix account if there is one. */
  lemma ChargePaymentAnswer(s: State, r: QrRequest, g: QrAnswer)
    requires NewPayment(s, r) && NamesCharge(s, r, Created) && s.txs[r.charge.value].value >= 0
    requires s.txs[r.charge.value].owner in s.accounts && s.txs[r.charge.value].owner != r.user
    ensures var o, c, value, owner := PayQr(s, r, g), r.charge.value, s.txs[r.charge.value].value, s.txs[r.charge.value].owner;
      if s.accounts[r.user].balance < value + 100 then o == Outcome(s, Refused(InsufficientBalance))
      else if !Fits(s, r) then o == Outcome(s, Refused(Conflict))
      else
        && o.reply == Accepted(r.txId) && o.state.ledger == s.ledger
        && o.state.txs == s.txs[c := s.txs[c].(status := Confirmed)]
                               [r.txId := Tx(r.user, Sent, Confirmed, value, 0, KeyOf(r), Some(r.hash))]
        && BalancesMove(s, o.state, ChargeMoves(s, r.user, owner, value))
  {
    var c, value, owner := r.charge.value, s.txs[r.charge.value].value, s.txs[r.charge.value].owner;
    NewPaymentExactly(s, r);
    FitsExactly(s, r, Tx(r.user, Sent, Confirmed, value, 0, KeyOf(r), Some(r.hash)));
    PayerMoves(s, r.user, value);
    ReceiptMoves(SetStatus(PayerCharged(s, r.user, value), c, Confirmed), owner, value, Some(0));
    hide CreditReceipt, PayerCharged, Clashes, Fits, Duplicate, NewPayment;
  }

  /** What that payment moves; the matrix account may be one of the parties. */
  ghost function ChargeMoves(s: State, payer: Id, owner: Id, value: int): map<Id, int> {
    map a | a in s.accounts ::
      (if a == owner then value else 0) - (if a == payer then value + 100 else 0) + if s.matrix == Some(a) then 100 else 0
  }

  lemma PayerMoves(s: State, payer: Id, value: int)
    requires payer in s.accounts
    ensures PayerCharged(s, payer, value).txs == s.txs && PayerCharged(s, payer, value).ledger == s.ledger
    ensures BalancesMove(s, PayerCharged(s, payer, value),
                         map a | a in s.accounts :: (if s.matrix == Some(a) then 100 else 0) - if a == payer then value + 100 else 0)
  {
  }

  /** A receipt is credited whole: receiving is free. */
  lemma ReceiptMoves(s: State, a: Id, gross: nat, feeOverride: Option<int>)
    requires a in s.accounts && (feeOverride.None? || feeOverride == Some(0))
    ensures var s' := CreditReceipt(s, a, gross, feeOverride);
      s'.txs == s.txs && s'.ledger == s.ledger && BalancesMove(s, s', map[a := gross])
  {
  }

  /** Paying one's own charge is a deposit. */
  lemma OwnChargeAnswer(s: State, r: QrRequest, g: QrAnswer)
    requires NewPayment(s, r) && NamesCharge(s, r, Created) && s.txs[r.charge.value].owner == r.user && s.txs[r.charge.value].value >= 0
    ensures PayQr(s, r, g).reply == Accepted(r.charge.value)
    ensures ConfirmsAndCredits(s, PayQr(s, r, g).state, r.charge.value)
  {
    NewPaymentExactly(s, r);
    ReceiptMoves(SetStatus(s, r.charge.value, Confirmed), r.user, s.txs[r.charge.value].value, Some(0));
    hide CreditReceipt, Duplicate, NewPayment;
  }

  /** A payment that goes to the gateway. */
  ghost predicate ExternalPayment(s: State, r: QrRequest) {
    NewPayment(s, r) && !NamesCharge(s, r, Confirmed) && !NamesCharge(s, r, Created)
  }

  /** What is written down before the gateway has named the amount. */
  function GuessedRow(document: string, r: QrRequest, status: Status): Tx {
    if r.emvValue > 0 then Tx(r.user, Sent, status, r.emvValue, Fees.OutboundFee(document, r.emvValue), KeyOf(r), Some(r.hash))
    else if r.clientValue.Some?
    then Tx(r.user, Sent, status, r.clientValue.value, Fees.OutboundFee(document, r.clientValue.value), KeyOf(r), Some(r.hash))
    else Tx(r.user, Sent, status, 1, 0, KeyOf(r), Some(r.hash))
  }

  /** The answer ahead of the call, and to a rejection. */
  lemma UnpaidQrAnswer(s: State, r: QrRequest, g: QrAnswer)
    requires ExternalPayment(s, r)
    ensures var o, document, free := PayQr(s, r, g), s.accounts[r.user].document, Free(s, r.user);
      if (if r.emvValue > 0 then free < r.emvValue + Fees.OutboundFee(document, r.emvValue) else free <= 0)
      then o == Outcome(s, Refused(InsufficientBalance))
      else if g.QrUnavailable? then o == Outcome(s, Refused(GatewayUnavailable))
      else if !Fits(s, r) then o == Outcome(s, Refused(Conflict))
      else g.QrRejected? ==> o.reply == Refused(GatewayRefused) && OnlyRow(s, o.state, r.txId, GuessedRow(document, r, Failed))
  {
    NewPaymentExactly(s, r);
    FitsExactly(s, r, GuessedRow(s.accounts[r.user].document, r, Created));
    hide Clashes, Fits, Duplicate, NewPayment, Held, Fees.OutboundFee;
  }

  lemma PaidQrIsResolved(s: State, r: QrRequest, g: QrAnswer)
    requires g.QrPaid? && ExternalPayment(s, r) && Fits(s, r)
    requires var free := Free(s, r.user);
      if r.emvValue > 0 then free >= r.emvValue + Fees.OutboundFee(s.accounts[r.user].document, r.emvValue) else free > 0
    ensures PayQr(s, r, g) == AfterQrAnswer(s, r, g, s.accounts[r.user].document, Free(s, r.user))
  {
    NewPaymentExactly(s, r);
    FitsExactly(s, r, GuessedRow(s.accounts[r.user].document, r, Created));
    hide Clashes, Fits, Duplicate, NewPayment, Held, Fees.OutboundFee, AfterQrAnswer;
  }

  /** The answer once the gateway has paid: what counts is the gateway's amount, or field 54 when it names
      none, never the client's. The row under the payment's id holds exactly that amount and its fee. */
  lemma PaidQrAnswer(s: State, r: QrRequest, value: int, paymentId: Option<Id>)
    requires ExternalPayment(s, r) && Fits(s, r)
    requires var free := Free(s, r.user);
      if r.emvValue > 0 then free >= r.emvValue + Fees.OutboundFee(s.accounts[r.user].document, r.emvValue) else free > 0
    ensures var o, document := PayQr(s, r, QrPaid(value, paymentId)), s.accounts[r.user].document;
      var amount := if value == 0 then r.emvValue else value;
      var id := if paymentId.None? || paymentId.value == "" then r.txId else paymentId.value;
      var fee := Fees.OutboundFee(document, amount);
      if amount <= 0 then o == Outcome(s, Refused(ValueUnresolvable))
      else if Free(s, r.user) < amount + fee
      then o.reply == Refused(InsufficientBalance) && OnlyRow(s, o.state, r.txId, GuessedRow(document, r, Failed))
      else if id in s.txs then o == Outcome(s, Refused(Conflict))
      else o.reply == Accepted(id) && GoesInFlight(s, o.state, id, Tx(r.user, Sent, Processing, amount, fee, KeyOf(r), Some(r.hash)))
  {
    PaidQrIsResolved(s, r, QrPaid(value, paymentId));
    hide PayQr, Clashes, Fits, ExternalPayment, Held, Fees.OutboundFee;
  }

  /** The amount a client names never shows in an accepted external payment. */
  lemma ClientValueIsNotPaid(s: State, r: QrRequest, clientValue: Option<int>, g: QrAnswer)
    requires !NamesCharge(s, r, Created)
    requires PayQr(s, r, g).reply.Accepted? && PayQr(s, r.(clientValue := clientValue), g).reply.Accepted?
    ensures PayQr(s, r.(clientValue := clientValue), g) == PayQr(s, r, g)
  {
    hide PayQr, Fits, NewPayment, Held, Fees.OutboundFee;
    AcceptedIsPaid(s, r, g);
    AcceptedIsPaid(s, r.(clientValue := clientValue), g);
    PaidQrAnswer(s, r, g.value, g.paymentId);
    PaidQrAnswer(s, r.(clientValue := clientValue), g.value, g.paymentId);
  }

  lemma AcceptedIsPaid(s: State, r: QrRequest, g: QrAnswer)
    requires !NamesCharge(s, r, Created) && PayQr(s, r, g).reply.Accepted?
    ensures ExternalPayment(s, r) && g.QrPaid? && Fits(s, r)
    ensures var free := Free(s, r.user);
      if r.emvValue > 0 then free >= r.emvValue + Fees.OutboundFee(s.accounts[r.user].document, r.emvValue) else free > 0
  {
    if !NewPayment(s, r) || NamesCharge(s, r, Confirmed) {
      EarlyPayAnswer(s, r, g);
    } else {
      UnpaidQrAnswer(s, r, g);
    }
    hide PayQr, Fits, NewPayment, Held, Fees.OutboundFee;
  }

  /** A charge whose owner has no account is paid by nobody. */
  lemma OrphanChargeAnswer(s: State, r: QrRequest, g: QrAnswer)
    requires NewPayment(s, r) && NamesCharge(s, r, Created) && s.txs[r.charge.value].owner !in s.accounts
    ensures Handle(s, Pay(r, g)) == Outcome(s, Refused(NotFound))
  {
    NewPaymentExactly(s, r);
    hide Duplicate, NewPayment;
  }

  /** The row a repeated payment is answered from: the one under the header's key; or, if there is no
      header or its key is new, a row of this user for the same payload that is paid or in flight. */
  lemma ReplayAnswer(s: State, r: QrRequest, g: QrAnswer, t: Id)
    requires (r.clientValue.Some? ==> r.clientValue.value > 0) && r.user in s.accounts
    ensures var byKey := (u: Id) => u in s.txs && r.header.Some? && r.header.value != "" && s.txs[u].key == r.header.value;
      && (Answers(s, t, r) <==>
            || byKey(t)
            || (!(exists u :: byKey(u)) && t in s.txs && s.txs[t].owner == r.user && s.txs[t].payloadHash == Some(r.hash)
                && (s.txs[t].status == Confirmed || s.txs[t].status == Processing)))
      && (Answers(s, t, r) ==> Handle(s, Pay(r, g)) == Outcome(s, Replayed))
  {
    hide RouteQr;
  }

  lemma ReplayHasRow(s: State, r: QrRequest, g: QrAnswer)
    requires Handle(s, Pay(r, g)).reply == Replayed
    ensures exists t :: Answers(s, t, r)
  {
    ReplayedIsDuplicate(s, r, g);
    hide RouteQr;
    if r.header.Some? && r.header.value != "" && KeyUsed(s, r.header.value) {
      var t :| t in s.txs && s.txs[t].key == r.header.value;
      assert Answers(s, t, r);
    } else {
      var t :| t in s.txs && PaidByHash(s.txs[t], r);
      assert Answers(s, t, r);
    }
  }

  lemma ReplayedIsDuplicate(s: State, r: QrRequest, g: QrAnswer)
    requires PayQr(s, r, g).reply == Replayed
    ensures Duplicate(s, r)
  {
    hide Duplicate, Available, Clashes;
  }

  // ---------------------------------------------------------------- charges

  /** A charge of a positive value for a known user is recorded unpaid with exactly that value: under the
      gateway's id and a key of the correlation id, or under a local id and a key of that. */
  lemma ChargeAnswer(s: State, user: Id, value: int, answered: Option<Id>, correlation: string, localId: Id)
    requires value > 0 && user in s.accounts
    ensures var o := Handle(s, NewCharge(user, value, answered, correlation, localId));
      var there := answered.Some? && answered.value !in s.txs && forall t | t in s.txs :: s.txs[t].key != "cobrar-" + correlation;
      var here := localId !in s.txs && forall t | t in s.txs :: s.txs[t].key != "charge-" + localId;
      if there then
        o.reply == Accepted(answered.value)
        && OnlyRow(s, o.state, answered.value, Tx(user, Received, Created, value, 0, "cobrar-" + correlation, None))
      else if here then
        o.reply == Accepted(localId) && OnlyRow(s, o.state, localId, Tx(user, Received, Created, value, 0, "charge-" + localId, None))
      else o == Outcome(s, Refused(Conflict))
  {
    if answered.Some? { ChargeFits(s, answered.value, Tx(user, Received, Created, value, 0, "cobrar-" + correlation, None)); }
    ChargeFits(s, localId, Tx(user, Received, Created, value, 0, "charge-" + localId, None));
    hide Clashes;
  }

  lemma ChargeFits(s: State, id: Id, row: Tx)
    requires row.payloadHash == None
    ensures Clashes(s, id, row) <==> id in s.txs || exists t | t in s.txs :: s.txs[t].key == row.key
  {
    if t :| t in s.txs && s.txs[t].key == row.key { assert SameUniqueColumns(s.txs[t], row); }
  }

  lemma NoChargeAnswer(s: State, user: Id, value: int, answered: Option<Id>, correlation: string, localId: Id)
    requires value <= 0 || user !in s.accounts
    ensures Handle(s, NewCharge(user, value, answered, correlation, localId))
         == Outcome(s, Refused(if value <= 0 then InvalidValue else Unauthenticated))
  {
  }

  lemma ConfirmMoves(s: State, t: Id)
    requires t in s.txs && s.txs[t].value >= 0
    ensures ConfirmsAndCredits(s, ConfirmCharge(s, t), t)
  {
    if s.txs[t].owner in s.accounts { ReceiptMoves(SetStatus(s, t, Confirmed), s.txs[t].owner, s.txs[t].value, None); }
    hide CreditReceipt;
  }

  /** Confirmation by id: a charge that is CREATED, whoever asks; nothing else changes anything. */
  lemma ReceiptAnswer(s: State, c: Id)
    requires c in s.txs ==> s.txs[c].value >= 0
    ensures var o := Handle(s, Receipt(c));
      if c in s.txs && s.txs[c].status == Created then o.reply == Accepted(c) && ConfirmsAndCredits(s, o.state, c)
      else o == Outcome(s, Refused(if c !in s.txs then NotFound else if s.txs[c].status == Confirmed then AlreadyPaid else InvalidStatus))
  {
    if c in s.txs { ConfirmMoves(s, c); }
    hide ConfirmCharge;
  }

  /** Verification credits exactly when the gateway says it is paid, the charge is the user's own and it is
      CREATED. Otherwise it changes nothing. */
  lemma VerifyAnswer(s: State, user: Id, c: Id, paid: bool)
    requires c in s.txs ==> s.txs[c].value >= 0
    ensures var o := Handle(s, Verify(user, c, paid));
      if paid && c in s.txs && s.txs[c].owner == user && s.txs[c].status == Created
      then o.reply == Accepted(c) && ConfirmsAndCredits(s, o.state, c)
      else
        && o.state == s
        && o.reply == (if c !in s.txs || s.txs[c].owner != user then Refused(NotFound)
                       else if s.txs[c].status == Confirmed then Replayed
                       else if s.txs[c].status != Created then Refused(InvalidStatus)
                       else Refused(NotPaidYet))
  {
    if c in s.txs { ConfirmMoves(s, c); }
    hide ConfirmCharge;
  }

  /** Reading a transaction credits it exactly when the gateway says it is paid and it is the user's own
      CREATED charge. */
  lemma RefreshAnswer(s: State, user: Id, c: Id, paid: bool)
    requires c in s.txs ==> s.txs[c].value >= 0
    ensures var o := Handle(s, Refresh(user, c, paid));
      if paid && c in s.txs && s.txs[c].owner == user && s.txs[c].kind == Received && s.txs[c].status == Created
      then o.reply == Accepted(c) && ConfirmsAndCredits(s, o.state, c)
      else o == Outcome(s, if c in s.txs && s.txs[c].owner == user then Replayed else Refused(NotFound))
  {
    if c in s.txs { ConfirmMoves(s, c); }
    hide ConfirmCharge;
  }

  /** A charge that the gateway says is not paid is credited by neither route, in any state. */
  lemma UnpaidIsNotCredited(s: State, user: Id, c: Id)
    ensures Step(s, Verify(user, c, false)) == s && Step(s, Refresh(user, c, false)) == s
  {
    hide ConfirmCharge;
  }

  // ---------------------------------------------------------------- deliveries

  /** A payment delivery: a known row that is not CONFIRMED is confirmed and credited with its own value, an
      unknown payment with what arrived, once, for an account it resolves to. */
  lemma PaymentAnswer(s: State, payment: Id, to: Option<Id>, amount: int)
    requires payment in s.txs ==> s.txs[payment].value >= 0
    ensures var o := Handle(s, ChargePaid(payment, to, amount));
      if payment != "" && payment in s.txs && s.txs[payment].status != Confirmed
      then o.reply == Accepted(payment) && ConfirmsAndCredits(s, o.state, payment)
      else if payment != "" && payment !in s.txs && amount > 0 && to.Some? && to.value in s.accounts
              && forall t | t in s.txs :: s.txs[t].key != "inbound-" + payment
      then
        && o.reply == Accepted(payment) && o.state.ledger == s.ledger
        && o.state.txs == s.txs[payment := Tx(to.value, Received, Confirmed, amount, 0, "inbound-" + payment, None)]
        && BalancesMove(s, o.state, map[to.value := amount])
      else o == Outcome(s, if payment != "" && payment in s.txs then Replayed
                           else if payment != "" && amount > 0 && to.Some? && to.value in s.accounts then Refused(Conflict)
                           else Ignored)
  {
    if payment in s.txs {
      ConfirmMoves(s, payment);
    } else if amount > 0 && to.Some? && to.value in s.accounts {
      ChargeFits(s, payment, Tx(to.value, Received, Confirmed, amount, 0, "inbound-" + payment, None));
      ReceiptMoves(s, to.value, amount, None);
    }
    hide CreditReceipt, ConfirmCharge, Clashes;
  }

  /** A transfer delivery: only from PROCESSING. DONE confirms the row, settles its pending entries and takes
      value and fee from the sender, with what the fee exceeds 3.00 by going to the matrix account; FAILED
      fails the row, reverses the entries and moves nothing. */
  lemma TransferAnswer(s: State, t: Id, done: bool)
    ensures var o := Handle(s, Transfer(t, done));
      if t !in s.txs then o == Outcome(s, Ignored)
      else if s.txs[t].status != Processing then o == Outcome(s, Replayed)
      else
        && o.reply == Accepted(t)
        && o.state.txs == s.txs[t := s.txs[t].(status := if done then Confirmed else Failed)]
        && |o.state.ledger| == |s.ledger|
        && (forall i | 0 <= i < |s.ledger| ::
              o.state.ledger[i] == if s.ledger[i].tx == t && s.ledger[i].status == Pending
                                   then s.ledger[i].(status := if done then Settled else Reversed) else s.ledger[i])
        && BalancesMove(s, o.state, if done then DebitMoves(s, s.txs[t]) else map[])
  {
    hide CloseEntries, DebitSend, DebitMoves;
    ClosedEntries(s.ledger, t, if done then Settled else Reversed);
    if t in s.txs {
      SendDebited(s, SetStatus(s, t, Confirmed), t);
    }
  }

  lemma SendDebited(s: State, s1: State, t: Id)
    requires t in s.txs && s1 == SetStatus(s, t, Confirmed)
    ensures DebitSend(s1, t).txs == s1.txs && DebitSend(s1, t).ledger == s.ledger
    ensures BalancesMove(s, DebitSend(s1, t), DebitMoves(s, s.txs[t]))
  {
  }

  lemma ClosedEntries(ledger: seq<Entry>, t: Id, status: EntryStatus)
    ensures forall i | 0 <= i < |ledger| ::
      CloseEntries(ledger, t, status)[i]
      == if ledger[i].tx == t && ledger[i].status == Pending then ledger[i].(status := status) else ledger[i]
  {
  }

  /** What the debit of a row moves: nothing for a row that is no send, or whose owner has no account. */
  ghost function DebitMoves(s: State, row: Tx): map<Id, int> {
    if row.kind == Received || row.owner !in s.accounts then map[]
    else
      map a | a in s.accounts ::
        (if s.matrix == Some(a) && row.fee > 300 then row.fee - 300 else 0) - if a == row.owner then row.value + row.fee else 0
  }
}
