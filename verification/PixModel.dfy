/**
 * The PIX money machine as a state machine over database contents. Each function is one request
 * or one gateway delivery, an atomic step; amounts are integer cents. The classes of PixDatabase
 * change the same tables in place and are proved against these functions.
 */
module PixModel {
  import opened Wrappers
  import opened Sums
  import Fees

  type Id = string

  datatype Kind = Sent | Received
  datatype Status = Created | Processing | Confirmed | Failed | Canceled | Scheduled
  datatype EntryKind = Debit | Credit
  datatype EntryStatus = Pending | Settled | Reversed

  datatype Account = Account(balance: int, creditLimit: int, document: string)
  datatype Tx = Tx(owner: Id, kind: Kind, status: Status, value: int, fee: int, key: string,
                   payloadHash: Option<string>)
  datatype Entry = Entry(account: Id, kind: EntryKind, amount: int, status: EntryStatus, tx: Id)

  /** `matrix` is the fee-collection account, once it has been seeded. */
  datatype State = State(accounts: map<Id, Account>, txs: map<Id, Tx>, ledger: seq<Entry>, matrix: Option<Id>)

  datatype Refusal =
    | InvalidValue | Unauthenticated | NotFound | SelfTransfer | InsufficientBalance | Conflict
    | GatewayRefused | GatewayUnavailable | ValueUnresolvable | AlreadyPaid | InvalidStatus | NotPaidYet
    | InvalidPayload

  /** `Replayed`: the request or delivery was answered from an existing row. */
  datatype Reply = Accepted(tx: Id) | Replayed | Ignored | Refused(reason: Refusal)

  datatype Outcome = Outcome(state: State, reply: Reply)

  const CREDIT_LIMIT_CAP := 5_000_000

  // ---------------------------------------------------------------- row updates

  function SetStatus(s: State, t: Id, status: Status): State
    requires t in s.txs
  {
    s.(txs := s.txs[t := s.txs[t].(status := status)])
  }

  function AddBalance(s: State, a: Id, amount: int): State
    requires a in s.accounts
  {
    s.(accounts := s.accounts[a := s.accounts[a].(balance := s.accounts[a].balance + amount)])
  }

  function SetLimit(s: State, a: Id, limit: int): State
    requires a in s.accounts
  {
    s.(accounts := s.accounts[a := s.accounts[a].(creditLimit := limit)])
  }

  function AppendEntry(s: State, e: Entry): State {
    s.(ledger := s.ledger + [e])
  }

  /** The unique columns of the transaction table: primary key, idempotency key, and the payload
      hash within one user. An insert that clashes raises and the request is rolled back. */
  ghost predicate Clashes(s: State, id: Id, row: Tx) {
    id in s.txs || exists t | t in s.txs :: SameUniqueColumns(s.txs[t], row)
  }

  predicate SameUniqueColumns(a: Tx, b: Tx) {
    a.key == b.key || (a.payloadHash.Some? && a.owner == b.owner && a.payloadHash == b.payloadHash)
  }

  function InsertTx(s: State, id: Id, row: Tx): State {
    s.(txs := s.txs[id := row])
  }

  ghost predicate KeyUsed(s: State, key: string) {
    exists t | t in s.txs :: s.txs[t].key == key
  }

  // ---------------------------------------------------------------- ledger and available balance

  function CloseEntry(e: Entry, t: Id, status: EntryStatus): Entry {
    if e.tx == t && e.status == Pending then e.(status := status) else e
  }

  /** Settles or reverses every PENDING entry of one transaction. */
  function CloseEntries(ledger: seq<Entry>, t: Id, status: EntryStatus): (r: seq<Entry>)
    ensures |r| == |ledger|
  {
    seq(|ledger|, i requires 0 <= i < |ledger| => CloseEntry(ledger[i], t, status))
  }

  function CloseLedger(s: State, t: Id, status: EntryStatus): State {
    s.(ledger := CloseEntries(s.ledger, t, status))
  }

  predicate InFlight(row: Tx) {
    row.kind == Sent && row.status == Processing
  }

  /** value+fee of each send of account a that still awaits its transfer webhook. */
  ghost function Holds(txs: map<Id, Tx>, a: Id): map<Id, int> {
    map t | t in txs && InFlight(txs[t]) && txs[t].owner == a :: txs[t].value + txs[t].fee
  }

  ghost function Held(s: State, a: Id): int {
    MapSum(Holds(s.txs, a))
  }

  ghost function Available(s: State, a: Id): int
    requires a in s.accounts
  {
    s.accounts[a].balance - Held(s, a)
  }

  // ---------------------------------------------------------------- credits

  function CreditFee(s: State, amount: int): State {
    if amount <= 0 || s.matrix.None? || s.matrix.value !in s.accounts then s
    else AddBalance(s, s.matrix.value, amount)
  }

  function Min(a: int, b: int): int { if a <= b then a else b }

  /** Half the receipt is added to the limit, capped, then rounded half up to a cent. */
  function RaisedLimit(limit: int, gross: int): int {
    Min((2 * limit + gross + 1) / 2, CREDIT_LIMIT_CAP)
  }

  function ReceiptFee(document: string, gross: int, feeOverride: Option<int>): int {
    if feeOverride.Some? then feeOverride.value else Fees.PixFee(document, gross, true, true)
  }

  function CreditNet(s: State, a: Id, net: int, limit: int): State
    requires a in s.accounts
  {
    SetLimit(AddBalance(s, a, net), a, limit)
  }

  /** The single receipt routine behind every confirmation route. */
  function CreditReceipt(s: State, a: Id, gross: int, feeOverride: Option<int>): State
    requires a in s.accounts
  {
    var fee := ReceiptFee(s.accounts[a].document, gross, feeOverride);
    CreditFee(CreditNet(s, a, Fees.Max(0, gross - fee), RaisedLimit(s.accounts[a].creditLimit, gross)), fee)
  }

  /** Confirms a charge and credits its owner, if that account exists. */
  function ConfirmCharge(s: State, charge: Id): State
    requires charge in s.txs
  {
    var s1 := SetStatus(s, charge, Confirmed);
    if s.txs[charge].owner in s.accounts
    then CreditReceipt(s1, s.txs[charge].owner, s.txs[charge].value, None)
    else s1
  }

  // ---------------------------------------------------------------- sending by key

  /** `recipient` is the account the key resolves to, if any; ids are freshly drawn by the caller. */
  datatype SendRequest = SendRequest(user: Id, value: int, recipient: Option<Id>, scheduled: bool,
                                     key: string, txId: Id, recvId: Id)

  /** What the gateway answers to a key transfer. Without a gateway the send proceeds locally. */
  datatype SendAnswer = NotConfigured | Dispatched | Rejected

  const RECEIVED_KEY_PREFIX := "internal-recv-"

  ghost function CreatePix(s: State, r: SendRequest, g: SendAnswer): Outcome {
    if r.value <= 0 then Outcome(s, Refused(InvalidValue))
    else if r.user !in s.accounts then Outcome(s, Refused(Unauthenticated))
    else if KeyUsed(s, r.key) then Outcome(s, Replayed)
    else if r.scheduled then
      if Clashes(s, r.txId, ScheduledRow(r)) then Outcome(s, Refused(Conflict))
      else Outcome(InsertTx(s, r.txId, ScheduledRow(r)), Accepted(r.txId))
    else if r.recipient.Some? && r.recipient.value in s.accounts then InternalTransfer(s, r, r.recipient.value)
    else SendExternal(s, r, g)
  }

  function ScheduledRow(r: SendRequest): Tx {
    Tx(r.user, Sent, Scheduled, r.value, 0, r.key, None)
  }

  function SentRow(r: SendRequest): Tx {
    Tx(r.user, Sent, Confirmed, r.value, 0, r.key, None)
  }

  function ReceivedRow(r: SendRequest, to: Id): Tx {
    Tx(to, Received, Confirmed, r.value, 0, RECEIVED_KEY_PREFIX + r.key, None)
  }

  /** Both rows of an internal transfer, unless either clashes. */
  ghost function TransferRecorded(s: State, r: SendRequest, to: Id): Option<State> {
    var s1 := InsertTx(s, r.txId, SentRow(r));
    if Clashes(s, r.txId, SentRow(r)) || Clashes(s1, r.recvId, ReceivedRow(r, to)) then None
    else Some(InsertTx(s1, r.recvId, ReceivedRow(r, to)))
  }

  function MoveMoney(s: State, from: Id, to: Id, amount: int): State
    requires from in s.accounts && to in s.accounts
  {
    AddBalance(AddBalance(s, from, -amount), to, amount)
  }

  /** Peer to peer, free, checked against the raw balance. */
  ghost function InternalTransfer(s: State, r: SendRequest, to: Id): Outcome
    requires r.user in s.accounts && to in s.accounts
  {
    if r.user == to then Outcome(s, Refused(SelfTransfer))
    else if s.accounts[r.user].balance < r.value then Outcome(s, Refused(InsufficientBalance))
    else
      match TransferRecorded(s, r, to)
      case None => Outcome(s, Refused(Conflict))
      case Some(s2) => Outcome(MoveMoney(s2, r.user, to, r.value), Accepted(r.txId))
  }

  /** The row of an external send, as it goes in flight. */
  function OutboundRow(document: string, r: SendRequest): Tx {
    Tx(r.user, Sent, Processing, r.value, Fees.PixFee(document, r.value, true, false), r.key, None)
  }

  /** Deferred debit: the send is checked against the available balance and leaves a PENDING hold. */
  ghost function SendExternal(s: State, r: SendRequest, g: SendAnswer): Outcome
    requires r.user in s.accounts
  {
    var row := OutboundRow(s.accounts[r.user].document, r);
    if Available(s, r.user) < row.value + row.fee then Outcome(s, Refused(InsufficientBalance))
    else if Clashes(s, r.txId, row) then Outcome(s, Refused(Conflict))
    else if g == Rejected then Outcome(InsertTx(s, r.txId, row.(status := Failed)), Refused(GatewayRefused))
    else Outcome(Dispatch(s, r.txId, row), Accepted(r.txId))
  }

  /** The row goes in flight together with the PENDING debit of its value and fee. */
  function Dispatch(s: State, id: Id, row: Tx): State {
    AppendEntry(InsertTx(s, id, row), Entry(row.owner, Debit, row.value + row.fee, Pending, id))
  }

  // ---------------------------------------------------------------- paying a QR code

  /** `header` is the optional idempotency header and `freshKey` its generated stand-in; `charge` is
      the internal charge the payload names, if any; `emvValue` is EMV field 54 (0 when absent). */
  datatype QrRequest = QrRequest(user: Id, header: Option<string>, freshKey: string, hash: string,
                                 charge: Option<Id>, emvValue: int, clientValue: Option<int>, txId: Id)

  /** `QrUnavailable`: no gateway, or sandbox mode. `paymentId` replaces the provisional id. */
  datatype QrAnswer = QrUnavailable | QrRejected | QrPaid(value: int, paymentId: Option<Id>)

  function QrKey(r: QrRequest): string {
    if r.header.Some? && r.header.value != "" then r.header.value else r.freshKey
  }

  predicate PaidByHash(row: Tx, r: QrRequest) {
    row.owner == r.user && row.payloadHash == Some(r.hash) && row.status in {Confirmed, Processing}
  }

  ghost predicate HashUsed(s: State, r: QrRequest) {
    exists t | t in s.txs :: PaidByHash(s.txs[t], r)
  }

  predicate OpenCharge(s: State, charge: Option<Id>) {
    charge.Some? && charge.value in s.txs && s.txs[charge.value].kind == Received
    && s.txs[charge.value].status == Created
  }

  predicate PaidCharge(s: State, charge: Option<Id>) {
    charge.Some? && charge.value in s.txs && s.txs[charge.value].kind == Received
    && s.txs[charge.value].status == Confirmed
  }

  ghost function PayQr(s: State, r: QrRequest, g: QrAnswer): Outcome {
    if r.clientValue.Some? && r.clientValue.value <= 0 then Outcome(s, Refused(InvalidValue))
    else if r.user !in s.accounts then Outcome(s, Refused(Unauthenticated))
    else if Duplicate(s, r) then Outcome(s, Replayed)
    else RouteQr(s, r, g)
  }

  /** An earlier transaction under the same header key, or a live one of this user for the same payload. */
  ghost predicate Duplicate(s: State, r: QrRequest) {
    (r.header.Some? && r.header.value != "" && KeyUsed(s, r.header.value)) || HashUsed(s, r)
  }

  /** The row that answers a duplicate: the header key decides before the payload does. */
  ghost predicate Answers(s: State, t: Id, r: QrRequest) {
    t in s.txs && if r.header.Some? && r.header.value != "" && KeyUsed(s, r.header.value)
                  then s.txs[t].key == r.header.value
                  else PaidByHash(s.txs[t], r)
  }

  /** An internal charge is paid here; anything else goes to the gateway. */
  ghost function RouteQr(s: State, r: QrRequest, g: QrAnswer): Outcome
    requires r.user in s.accounts
  {
    if PaidCharge(s, r.charge) then Outcome(s, Refused(AlreadyPaid))
    else if OpenCharge(s, r.charge) then PayInternalCharge(s, r, r.charge.value)
    else PayExternalQr(s, r, g)
  }

  function QrSentRow(r: QrRequest, value: int): Tx {
    Tx(r.user, Sent, Confirmed, value, 0, QrKey(r), Some(r.hash))
  }

  /** The payer covers the charge and the maintenance fee; a self-paid charge is a deposit. */
  ghost function PayInternalCharge(s: State, r: QrRequest, charge: Id): Outcome
    requires r.user in s.accounts && charge in s.txs
  {
    var owner, value := s.txs[charge].owner, s.txs[charge].value;
    if owner !in s.accounts then Outcome(s, Refused(NotFound))
    else if owner == r.user then
      Outcome(CreditReceipt(SetStatus(s, charge, Confirmed), owner, value, Some(0)), Accepted(charge))
    else if s.accounts[r.user].balance < value + Fees.MAINTENANCE_FEE then Outcome(s, Refused(InsufficientBalance))
    else if Clashes(s, r.txId, QrSentRow(r, value)) then Outcome(s, Refused(Conflict))
    else
      Outcome(InsertTx(ChargeMoneyMoved(s, r.user, owner, value, charge), r.txId, QrSentRow(r, value)), Accepted(r.txId))
  }

  /** The payer covers the value and the maintenance fee, which goes to the matrix account. */
  function PayerCharged(s: State, payer: Id, value: int): State
    requires payer in s.accounts
  {
    CreditFee(AddBalance(s, payer, -(value + Fees.MAINTENANCE_FEE)), Fees.MAINTENANCE_FEE)
  }

  function ChargeMoneyMoved(s: State, payer: Id, owner: Id, value: int, charge: Id): State
    requires payer in s.accounts && owner in s.accounts && charge in s.txs
  {
    CreditReceipt(SetStatus(PayerCharged(s, payer, value), charge, Confirmed), owner, value, Some(0))
  }

  /** The row persisted before the gateway is called. */
  function ProvisionalRow(document: string, r: QrRequest): Tx {
    var value := if r.emvValue > 0 then r.emvValue else if r.clientValue.Some? then r.clientValue.value else 1;
    var fee := if r.emvValue > 0 || r.clientValue.Some? then Fees.PixFee(document, value, true, false) else 0;
    Tx(r.user, Sent, Created, value, fee, QrKey(r), Some(r.hash))
  }

  /** The gateway's amount, or EMV field 54 when it gives none; the client's amount is never used. */
  function ResolvedValue(r: QrRequest, g: QrAnswer): int
    requires g.QrPaid?
  {
    if g.value != 0 then g.value else r.emvValue
  }

  function QrOutboundRow(document: string, r: QrRequest, g: QrAnswer): Tx
    requires g.QrPaid?
  {
    var value := ResolvedValue(r, g);
    Tx(r.user, Sent, Processing, value, Fees.PixFee(document, value, true, false), QrKey(r), Some(r.hash))
  }

  predicate QrAffordable(r: QrRequest, document: string, available: int) {
    if r.emvValue > 0 then available >= r.emvValue + Fees.PixFee(document, r.emvValue, true, false)
    else available > 0
  }

  ghost function PayExternalQr(s: State, r: QrRequest, g: QrAnswer): Outcome
    requires r.user in s.accounts
  {
    var document := s.accounts[r.user].document;
    var row := ProvisionalRow(document, r);
    if !QrAffordable(r, document, Available(s, r.user)) then Outcome(s, Refused(InsufficientBalance))
    else if g == QrUnavailable then Outcome(s, Refused(GatewayUnavailable))
    else if Clashes(s, r.txId, row) then Outcome(s, Refused(Conflict))
    else AfterQrAnswer(s, r, g, document, Available(s, r.user))
  }

  /** What becomes of the provisional row once the gateway has answered. */
  ghost function AfterQrAnswer(s: State, r: QrRequest, g: QrAnswer, document: string, available: int): Outcome
    requires g != QrUnavailable
  {
    var failed := ProvisionalRow(document, r).(status := Failed);
    if g == QrRejected then Outcome(InsertTx(s, r.txId, failed), Refused(GatewayRefused))
    else if ResolvedValue(r, g) <= 0 then Outcome(s, Refused(ValueUnresolvable))
    else
      var paid := QrOutboundRow(document, r, g);
      if available < paid.value + paid.fee then Outcome(InsertTx(s, r.txId, failed), Refused(InsufficientBalance))
      else if PaymentId(r, g) in s.txs then Outcome(s, Refused(Conflict))
      else Outcome(Dispatch(s, PaymentId(r, g), paid), Accepted(PaymentId(r, g)))
  }

  function PaymentId(r: QrRequest, g: QrAnswer): Id
    requires g.QrPaid?
  {
    if g.paymentId.Some? && g.paymentId.value != "" then g.paymentId.value else r.txId
  }

  // ---------------------------------------------------------------- charges

  const GATEWAY_CHARGE_PREFIX := "cobrar-"
  const LOCAL_CHARGE_PREFIX := "charge-"

  function ChargeRow(user: Id, value: int, key: string): Tx {
    Tx(user, Received, Created, value, 0, key, None)
  }

  function GatewayChargeRow(user: Id, value: int, correlation: string): Tx {
    ChargeRow(user, value, GATEWAY_CHARGE_PREFIX + correlation)
  }

  function LocalChargeRow(user: Id, value: int, localId: Id): Tx {
    ChargeRow(user, value, LOCAL_CHARGE_PREFIX + localId)
  }

  /** A charge under the gateway's id, if the gateway gave one; when it did not, or the insert clashes,
      a charge generated here under a fresh id. */
  ghost function CreateCharge(s: State, user: Id, value: int, answered: Option<Id>, correlation: string, localId: Id): Outcome {
    if value <= 0 then Outcome(s, Refused(InvalidValue))
    else if user !in s.accounts then Outcome(s, Refused(Unauthenticated))
    else if answered.Some? && !Clashes(s, answered.value, GatewayChargeRow(user, value, correlation)) then
      Outcome(InsertTx(s, answered.value, GatewayChargeRow(user, value, correlation)), Accepted(answered.value))
    else if Clashes(s, localId, LocalChargeRow(user, value, localId)) then Outcome(s, Refused(Conflict))
    else Outcome(InsertTx(s, localId, LocalChargeRow(user, value, localId)), Accepted(localId))
  }

  /** Confirmation by charge id alone. */
  function ConfirmReceipt(s: State, charge: Id): Outcome {
    if charge !in s.txs then Outcome(s, Refused(NotFound))
    else if s.txs[charge].status == Confirmed then Outcome(s, Refused(AlreadyPaid))
    else if s.txs[charge].status != Created then Outcome(s, Refused(InvalidStatus))
    else Outcome(ConfirmCharge(s, charge), Accepted(charge))
  }

  /** Confirmation on the owner's request, after asking the gateway (`paid`). */
  function VerifyCharge(s: State, user: Id, charge: Id, paid: bool): Outcome {
    if charge !in s.txs || s.txs[charge].owner != user then Outcome(s, Refused(NotFound))
    else if s.txs[charge].status == Confirmed then Outcome(s, Replayed)
    else if s.txs[charge].status != Created then Outcome(s, Refused(InvalidStatus))
    else if !paid then Outcome(s, Refused(NotPaidYet))
    else Outcome(ConfirmCharge(s, charge), Accepted(charge))
  }

  /** Reading a transaction refreshes an unpaid charge against the gateway. */
  function RefreshCharge(s: State, user: Id, charge: Id, paid: bool): Outcome {
    if charge !in s.txs || s.txs[charge].owner != user then Outcome(s, Refused(NotFound))
    else if s.txs[charge].kind == Received && s.txs[charge].status == Created && paid
    then Outcome(ConfirmCharge(s, charge), Accepted(charge))
    else Outcome(s, Replayed)
  }

  function CancelPix(s: State, user: Id, t: Id): Outcome {
    if t !in s.txs || s.txs[t].owner != user then Outcome(s, Refused(NotFound))
    else if s.txs[t].status != Scheduled then Outcome(s, Refused(InvalidStatus))
    else Outcome(SetStatus(s, t, Canceled), Accepted(t))
  }

  // ---------------------------------------------------------------- gateway deliveries

  const INBOUND_KEY_PREFIX := "inbound-"

  function InboundRow(document: string, to: Id, payment: Id, value: int): Tx {
    var fee := Fees.PixFee(document, value, true, true);
    Tx(to, Received, Confirmed, Fees.Max(0, value - fee), fee, INBOUND_KEY_PREFIX + payment, None)
  }

  /** PAYMENT_RECEIVED / PAYMENT_CONFIRMED. A known transaction is confirmed and credited whatever
      its kind, unless it is CONFIRMED already; an unknown one is an inbound deposit to `recipient`. */
  ghost function ChargeWebhook(s: State, payment: Id, recipient: Option<Id>, value: int): Outcome {
    if payment == "" then Outcome(s, Ignored)
    else if payment in s.txs then
      if s.txs[payment].status == Confirmed then Outcome(s, Replayed)
      else Outcome(ConfirmCharge(s, payment), Accepted(payment))
    else if value > 0 && recipient.Some? && recipient.value in s.accounts then
      InboundDeposit(s, payment, recipient.value, value)
    else Outcome(s, Ignored)
  }

  ghost function InboundDeposit(s: State, payment: Id, to: Id, value: int): Outcome
    requires to in s.accounts
  {
    var row := InboundRow(s.accounts[to].document, to, payment, value);
    if Clashes(s, payment, row) then Outcome(s, Refused(Conflict))
    else Outcome(InsertTx(CreditReceipt(s, to, value, None), payment, row), Accepted(payment))
  }

  /** TRANSFER_DONE debits and settles, TRANSFER_FAILED reverses; both only from PROCESSING. */
  function TransferWebhook(s: State, t: Id, done: bool): Outcome {
    if t !in s.txs then Outcome(s, Ignored)
    else if s.txs[t].status != Processing then Outcome(s, Replayed)
    else if done then Outcome(CloseLedger(DebitSend(SetStatus(s, t, Confirmed), t), t, Settled), Accepted(t))
    else Outcome(CloseLedger(SetStatus(s, t, Failed), t, Reversed), Accepted(t))
  }

  /** The deferred debit, and the service margin above the network fee for the matrix account. */
  function DebitSend(s: State, t: Id): State
    requires t in s.txs
  {
    var row := s.txs[t];
    if row.kind != Sent || row.owner !in s.accounts then s
    else CreditFee(AddBalance(s, row.owner, -(row.value + row.fee)), row.fee - Fees.NETWORK_FEE)
  }

  // ---------------------------------------------------------------- runs

  datatype Event =
    | Send(send: SendRequest, sendAnswer: SendAnswer)
    | Pay(pay: QrRequest, payAnswer: QrAnswer)
    | NewCharge(user: Id, value: int, answered: Option<Id>, correlation: string, localId: Id)
    | Receipt(charge: Id)
    | Verify(user: Id, charge: Id, paid: bool)
    | Refresh(user: Id, charge: Id, paid: bool)
    | Cancel(user: Id, tx: Id)
    | ChargePaid(payment: Id, recipient: Option<Id>, amount: int)
    | Transfer(tx: Id, done: bool)

  ghost function Handle(s: State, e: Event): Outcome {
    match e
    case Send(r, g) => CreatePix(s, r, g)
    case Pay(r, g) => PayQr(s, r, g)
    case NewCharge(user, value, answered, correlation, localId) =>
      CreateCharge(s, user, value, answered, correlation, localId)
    case Receipt(charge) => ConfirmReceipt(s, charge)
    case Verify(user, charge, paid) => VerifyCharge(s, user, charge, paid)
    case Refresh(user, charge, paid) => RefreshCharge(s, user, charge, paid)
    case Cancel(user, t) => CancelPix(s, user, t)
    case ChargePaid(payment, recipient, amount) => ChargeWebhook(s, payment, recipient, amount)
    case Transfer(t, done) => TransferWebhook(s, t, done)
  }

  ghost function Step(s: State, e: Event): State {
    Handle(s, e).state
  }

  ghost function Run(s: State, events: seq<Event>): State
    decreases |events|
  {
    if events == [] then s else Run(Step(s, events[0]), events[1..])
  }
}
