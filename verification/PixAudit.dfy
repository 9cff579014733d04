/**
 * The money machine and the audit together: runs in which audit cycles fall between requests and
 * deliveries, set against the gateway's own book.
 */
module PixAudit {
  import opened Wrappers
  import opened Sums
  import opened PixModel
  import opened PixHolds
  import opened PixLifecycle
  import opened PixConservation
  import opened Audit
  import Fees

  const SURPLUS_PER_SEND := Fees.NETWORK_FEE - Fees.GATEWAY_OUTBOUND_COST

  // ---------------------------------------------------------------- mixed runs

  /** A request or delivery, or the correction of an audit cycle on whatever it measured before. */
  datatype Turn = Served(e: Event) | Audited(snap: Snapshot, gateway: Option<int>)

  ghost function Next(s: State, t: Turn): State {
    match t
    case Served(e) => Step(s, e)
    case Audited(snap, gateway) => Cycle(s, snap, gateway).state
  }

  ghost function Play(s: State, turns: seq<Turn>): State
    decreases |turns|
  {
    if turns == [] then s else Play(Next(s, turns[0]), turns[1..])
  }

  /** What the audit cycles of a run add to the matrix account in all. */
  ghost function Corrections(s: State, turns: seq<Turn>): int
    decreases |turns|
  {
    if turns == [] then 0
    else (if turns[0].Audited? then Correction(s, turns[0].snap, turns[0].gateway) else 0)
         + Corrections(Next(s, turns[0]), turns[1..])
  }

  /** The receipt a turn books: a charge or deposit and its gross. */
  ghost predicate BooksReceipt(s: State, t: Turn) {
    t.Served? && Settles(s, t.e).Some? && !t.e.Transfer?
  }

  /** The send a turn confirms. */
  ghost predicate BooksSend(s: State, t: Turn) {
    t.Served? && Settles(s, t.e).Some? && t.e.Transfer?
  }

  /** Gross by transaction of everything the bank booked as received. */
  ghost function Receipts(s: State, turns: seq<Turn>): map<Id, int>
    decreases |turns|
  {
    if turns == [] then map[]
    else
      var rest := Receipts(Next(s, turns[0]), turns[1..]);
      if BooksReceipt(s, turns[0]) then rest[Settles(s, turns[0].e).value := Flow(s, turns[0].e)] else rest
  }

  /** Value by transaction of every send the bank booked as confirmed. */
  ghost function Sends(s: State, turns: seq<Turn>): map<Id, int>
    decreases |turns|
  {
    if turns == [] then map[]
    else
      var rest := Sends(Next(s, turns[0]), turns[1..]);
      if BooksSend(s, turns[0]) then rest[turns[0].e.tx := -Flow(s, turns[0].e) - Fees.NETWORK_FEE] else rest
  }

  // ---------------------------------------------------------------- holds and solvency

  /** A correction moves no hold. */
  lemma CycleKeepsHolds(s: State, snap: Snapshot, gateway: Option<int>)
    requires HoldInv(s)
    ensures HoldInv(Cycle(s, snap, gateway).state)
    ensures forall a: Id :: Held(Cycle(s, snap, gateway).state, a) == Held(s, a)
  {
    CycleIsCorrection(s, snap, gateway);
    HoldsFrame(s, Cycle(s, snap, gateway).state);
  }

  /** The matrix account can give up the correction without touching money it holds for its sends. */
  ghost predicate Affordable(s: State, snap: Snapshot, gateway: Option<int>) {
    MatrixSeeded(s) ==> -Correction(s, snap, gateway) <= Available(s, s.matrix.value)
  }

  /** A solvent bank stays solvent through a cycle exactly when the debit fits into what the matrix
      account has available: the cycle tests the raw balance. */
  lemma CycleSolvencyExactly(s: State, snap: Snapshot, gateway: Option<int>)
    requires HoldInv(s) && Solvent(s)
    ensures Solvent(Cycle(s, snap, gateway).state) <==> Affordable(s, snap, gateway)
  {
    var after, c := Cycle(s, snap, gateway).state, Correction(s, snap, gateway);
    CycleIsCorrection(s, snap, gateway);
    CycleKeepsHolds(s, snap, gateway);
    hide Cycle, HoldInv, Held, Correction;
    if MatrixSeeded(s) {
      var m := s.matrix.value;
      assert Available(s, m) >= 0;
      if c != 0 { SolventAfterDebit(s, after, m, -c); }
    }
  }

  /** No turn is aimed at a send in flight, or spends money on hold. */
  ghost predicate Orderly(s: State, turns: seq<Turn>)
    decreases |turns|
  {
    turns == [] ||
    (&& (match turns[0]
         case Served(e) => !Misdirected(s, e) && !Overspends(s, e)
         case Audited(snap, gateway) => Affordable(s, snap, gateway))
     && Orderly(Next(s, turns[0]), turns[1..]))
  }

  lemma TurnStaysSolvent(s: State, t: Turn)
    requires HoldInv(s) && Solvent(s)
    requires match t
             case Served(e) => !Misdirected(s, e) && !Overspends(s, e)
             case Audited(snap, gateway) => Affordable(s, snap, gateway)
    ensures HoldInv(Next(s, t)) && Solvent(Next(s, t))
  {
    hide HoldInv, Solvent, Step, Cycle, Affordable, Overspends;
    match t
    case Served(e) =>
      HoldsSurviveExactly(s, e);
      SolvencySurvivesExactly(s, e);
    case Audited(snap, gateway) =>
      CycleKeepsHolds(s, snap, gateway);
      CycleSolvencyExactly(s, snap, gateway);
  }

  /** Over every such run, audits included, every account covers its holds. */
  lemma {:induction false} PlayStaysSolvent(s: State, turns: seq<Turn>)
    requires HoldInv(s) && Solvent(s) && Orderly(s, turns)
    ensures HoldInv(Play(s, turns)) && Solvent(Play(s, turns))
    decreases |turns|
  {
    hide HoldInv, Solvent, Next, Affordable, Overspends;
    if turns != [] {
      TurnStaysSolvent(s, turns[0]);
      PlayStaysSolvent(Next(s, turns[0]), turns[1..]);
    }
  }

  // ---------------------------------------------------------------- conservation

  lemma CycleKeepsRows(s: State, snap: Snapshot, gateway: Option<int>)
    requires RowsOk(s)
    ensures var after := Cycle(s, snap, gateway).state;
            RowsOk(after) && after.txs == s.txs && KeepsAccounts(s, after)
  {
    CycleIsCorrection(s, snap, gateway);
    hide Cycle;
  }

  lemma TurnKeepsRows(s: State, t: Turn)
    requires RowsOk(s)
    ensures RowsOk(Next(s, t)) && KeepsAccounts(s, Next(s, t)) && Evolves(s, Next(s, t))
  {
    hide RowsOk, Step, Cycle;
    match t
    case Served(e) =>
      StepKeepsRows(s, e);
      StepEvolves(s, e);
    case Audited(snap, gateway) =>
      CycleKeepsRows(s, snap, gateway);
  }

  /** A confirmed transaction is booked by no later turn. */
  lemma {:induction false} ConfirmedIsBookedOnce(s: State, turns: seq<Turn>, t: Id)
    requires RowsOk(s) && IsConfirmed(s, t)
    ensures t !in Receipts(s, turns) && t !in Sends(s, turns)
    decreases |turns|
  {
    if turns != [] {
      TurnKeepsRows(s, turns[0]);
      assert RowEvolves(s.txs[t], Next(s, turns[0]).txs[t]);
      if turns[0].Served? && Settles(s, turns[0].e).Some? { SettlingConfirms(s, turns[0].e); }
      hide Settles, Flow, Next, RowsOk;
      ConfirmedIsBookedOnce(Next(s, turns[0]), turns[1..], t);
    }
  }

  /** What the receipts, the confirmed sends and the corrections of a run add up to. */
  ghost function Booked(s: State, turns: seq<Turn>): int {
    MapSum(Receipts(s, turns)) - MapSum(Sends(s, turns)) - Fees.NETWORK_FEE * |Sends(s, turns)| + Corrections(s, turns)
  }

  lemma BookedFirst(s: State, turns: seq<Turn>)
    requires turns != [] && RowsOk(s) && MatrixSeeded(s)
    ensures Booked(s, turns) == Total(Next(s, turns[0])) - Total(s) + Booked(Next(s, turns[0]), turns[1..])
  {
    var t, s1, rest := turns[0], Next(s, turns[0]), turns[1..];
    TurnKeepsRows(s, t);
    if t.Audited? {
      CycleTotal(s, t.snap, t.gateway);
    } else {
      StepTotal(s, t.e);
      if Settles(s, t.e).Some? {
        SettlingConfirms(s, t.e);
        BookedSettlement(s, turns);
      } else {
        hide Settles, Next, Total, Receipts, Sends;
        NothingBooked(s, turns);
      }
    }
  }

  lemma NothingBooked(s: State, turns: seq<Turn>)
    requires turns != [] && turns[0].Served? && Settles(s, turns[0].e).None?
    ensures Receipts(s, turns) == Receipts(Next(s, turns[0]), turns[1..])
    ensures Sends(s, turns) == Sends(Next(s, turns[0]), turns[1..])
    ensures Flow(s, turns[0].e) == 0
  {
    hide Settles, Next;
  }

  lemma BookedSettlement(s: State, turns: seq<Turn>)
    requires turns != [] && RowsOk(s) && turns[0].Served? && Settles(s, turns[0].e).Some?
    requires RowsOk(Next(s, turns[0])) && IsConfirmed(Next(s, turns[0]), Settles(s, turns[0].e).value)
    ensures Booked(s, turns) == Flow(s, turns[0].e) + Booked(Next(s, turns[0]), turns[1..])
  {
    var e, s1, rest := turns[0].e, Next(s, turns[0]), turns[1..];
    var t := Settles(s, e).value;
    ConfirmedIsBookedOnce(s1, rest, t);
    assert e.Transfer? ==> t == e.tx;
    hide Settles, Flow, Next;
    if e.Transfer? {
      MapSumAdd(Sends(s1, rest), t, -Flow(s, e) - Fees.NETWORK_FEE);
    } else {
      MapSumAdd(Receipts(s1, rest), t, Flow(s, e));
    }
  }

  /** Over every run, audits included, the total is the initial total plus receipts, minus value and
      network fee of each confirmed send, plus the corrections. */
  lemma {:induction false} PlayConserves(s: State, turns: seq<Turn>)
    requires RowsOk(s) && MatrixSeeded(s)
    ensures Total(Play(s, turns)) == Total(s) + Booked(s, turns)
    decreases |turns|
  {
    if turns != [] {
      TurnKeepsRows(s, turns[0]);
      BookedFirst(s, turns);
      hide Next, Total, Booked, RowsOk;
      PlayConserves(Next(s, turns[0]), turns[1..]);
    } else {
      assert MapSum(map[]) == 0;
    }
  }

  // ---------------------------------------------------------------- the gateway

  /** The gateway's own book: what outside payers paid, by payment, and what it paid out, by transfer.
      It is independent of the bank; each transfer costs the platform a fixed amount on top. */
  datatype Book = Book(received: map<Id, int>, sent: map<Id, int>)

  ghost function GatewayBalance(opening: int, book: Book): int {
    opening + MapSum(book.received) - MapSum(book.sent) - Fees.GATEWAY_OUTBOUND_COST * |book.sent|
  }

  /** Receipts the gateway did not receive, and payouts the bank has not confirmed, net. */
  ghost function Unmatched(book: Book, s: State, turns: seq<Turn>): int {
    MapSum(Receipts(s, turns)) - MapSum(book.received)
    + MapSum(book.sent) + Fees.GATEWAY_OUTBOUND_COST * |book.sent|
    - MapSum(Sends(s, turns)) - Fees.GATEWAY_OUTBOUND_COST * |Sends(s, turns)|
  }

  /** Entry by entry, both books tell the same story. */
  ghost predicate BooksAgree(book: Book, s: State, turns: seq<Turn>) {
    book.received == Receipts(s, turns) && book.sent == Sends(s, turns)
  }

  /** The only differences are to the bank's cost: the gateway received no more than was booked for any
      payment, and paid out no less than was confirmed. */
  ghost predicate OnlyShortfalls(book: Book, s: State, turns: seq<Turn>) {
    var receipts, sends := Receipts(s, turns), Sends(s, turns);
    && book.received.Keys <= receipts.Keys && (forall t | t in book.received :: book.received[t] <= receipts[t])
    && Within(sends, book.sent)
  }

  lemma {:induction false} BookedReceiptsArePositive(s: State, turns: seq<Turn>)
    requires RowsOk(s)
    ensures forall t | t in Receipts(s, turns) :: Receipts(s, turns)[t] > 0
    decreases |turns|
  {
    if turns != [] {
      TurnKeepsRows(s, turns[0]);
      if BooksReceipt(s, turns[0]) { ReceiptIsPositive(s, turns[0].e); }
      hide Settles, Flow, Next, RowsOk;
      BookedReceiptsArePositive(Next(s, turns[0]), turns[1..]);
    }
  }

  lemma ReceiptIsPositive(s: State, e: Event)
    requires RowsOk(s) && Settles(s, e).Some? && !e.Transfer?
    ensures Flow(s, e) > 0
  {
    var t := Settles(s, e).value;
    if t in s.txs { assert RowOk(s, s.txs[t]); }
  }

  /** When all differences are to the bank's cost, nothing is unmatched exactly when the books agree
      entry by entry. */
  lemma MatchedExactlyWhenBooksAgree(book: Book, s: State, turns: seq<Turn>)
    requires RowsOk(s) && OnlyShortfalls(book, s, turns)
    ensures Unmatched(book, s, turns) >= 0
    ensures Unmatched(book, s, turns) == 0 <==> BooksAgree(book, s, turns)
  {
    BookedReceiptsArePositive(s, turns);
    hide Receipts, Sends;
    MapSumWithin(book.received, Receipts(s, turns));
    MapSumWithin(Sends(s, turns), book.sent);
    KeysWithin(Sends(s, turns), book.sent);
  }

  /** From a level start, the gateway ends ahead of the bank by 1.00 for each confirmed send, less what
      is unmatched and what the audits have already taken in. */
  lemma PlaySurplus(s: State, turns: seq<Turn>, book: Book)
    requires RowsOk(s) && MatrixSeeded(s)
    ensures GatewayBalance(Total(s), book) - Total(Play(s, turns))
         == SURPLUS_PER_SEND * |Sends(s, turns)| - Unmatched(book, s, turns) - Corrections(s, turns)
  {
    PlayConserves(s, turns);
    hide Total, Play, Receipts, Sends, Corrections;
  }

  lemma {:induction false} PlayKeepsMatrix(s: State, turns: seq<Turn>)
    requires RowsOk(s) && MatrixSeeded(s)
    ensures MatrixSeeded(Play(s, turns)) && Play(s, turns).matrix == s.matrix
    decreases |turns|
  {
    hide Next, RowsOk;
    if turns != [] {
      TurnKeepsRows(s, turns[0]);
      PlayKeepsMatrix(Next(s, turns[0]), turns[1..]);
    }
  }

  /** A cycle that measures the bank as it is takes in a given surplus exactly when that is what the
      gateway is ahead by. */
  lemma CreditIsExact(bank: State, gateway: int, surplus: int)
    requires MatrixSeeded(bank) && surplus >= 2
    ensures Correction(bank, Measured(bank), Some(gateway)) == surplus <==> gateway - Total(bank) == surplus
  {
    hide Total;
  }

  /** Bank and gateway start level. After any run, audits included, whatever the gateway's own book
      says: the next cycle credits the matrix account exactly 1.00 for each confirmed send, less what
      earlier cycles took in, if and only if nothing is unmatched, and then both are level again. */
  lemma AuditCollectsTheSurplus(s: State, turns: seq<Turn>, book: Book)
    requires RowsOk(s) && MatrixSeeded(s)
    requires SURPLUS_PER_SEND * |Sends(s, turns)| - Corrections(s, turns) >= 2
    ensures var bank, gateway := Play(s, turns), GatewayBalance(Total(s), book);
            var due := SURPLUS_PER_SEND * |Sends(s, turns)| - Corrections(s, turns);
            && (Correction(bank, Measured(bank), Some(gateway)) == due <==> Unmatched(book, s, turns) == 0)
            && (Unmatched(book, s, turns) == 0 ==> Total(Cycle(bank, Measured(bank), Some(gateway)).state) == gateway)
  {
    var bank, gateway := Play(s, turns), GatewayBalance(Total(s), book);
    hide Play, Total, GatewayBalance, Sends, Corrections, Unmatched, RowsOk, Cycle, Correction;
    PlaySurplus(s, turns, book);
    PlayKeepsMatrix(s, turns);
    CreditIsExact(bank, gateway, SURPLUS_PER_SEND * |Sends(s, turns)| - Corrections(s, turns));
    CycleTotal(bank, Measured(bank), Some(gateway));
  }

  /** Several audits: whenever a run ends with bank and gateway level, the corrections of all its cycles
      add up to exactly 1.00 for each confirmed send, less what is unmatched. */
  lemma CorrectionsAddUp(s: State, turns: seq<Turn>, book: Book)
    requires RowsOk(s) && MatrixSeeded(s) && Total(Play(s, turns)) == GatewayBalance(Total(s), book)
    ensures Corrections(s, turns) == SURPLUS_PER_SEND * |Sends(s, turns)| - Unmatched(book, s, turns)
  {
    PlaySurplus(s, turns, book);
    hide Total, Play, Sends, Unmatched, Corrections;
  }

  // ---------------------------------------------------------------- one gap for each turn

  ghost predicate Disjoint(x: Book, y: Book) {
    x.received.Keys !! y.received.Keys && x.sent.Keys !! y.sent.Keys
  }

  ghost function Merge(x: Book, y: Book): Book {
    Book(x.received + y.received, x.sent + y.sent)
  }

  /** What the gateway took in on balance. */
  ghost function Net(book: Book): int {
    MapSum(book.received) - MapSum(book.sent) - Fees.GATEWAY_OUTBOUND_COST * |book.sent|
  }

  /** What the bank credits for a turn, and the cost of the send it confirms. */
  ghost function Credits(s: State, t: Turn): int {
    if BooksReceipt(s, t) then Flow(s, t.e)
    else if BooksSend(s, t) then Flow(s, t.e) + Fees.NETWORK_FEE - Fees.GATEWAY_OUTBOUND_COST
    else 0
  }

  /** The part of a turn in what is unmatched, for the entries of the gateway that go with it. */
  ghost function Gap(book: Book, s: State, t: Turn): int {
    Credits(s, t) - Net(book)
  }

  ghost function Gaps(books: seq<Book>, s: State, turns: seq<Turn>): int
    requires |books| == |turns|
    decreases |turns|
  {
    if turns == [] then 0 else Gap(books[0], s, turns[0]) + Gaps(books[1..], Next(s, turns[0]), turns[1..])
  }

  ghost function MergeAll(books: seq<Book>): Book
    decreases |books|
  {
    if books == [] then Book(map[], map[]) else Merge(books[0], MergeAll(books[1..]))
  }

  /** No entry of the gateway goes with two turns. */
  ghost predicate AllDisjoint(books: seq<Book>)
    decreases |books|
  {
    books == [] || (Disjoint(books[0], MergeAll(books[1..])) && AllDisjoint(books[1..]))
  }

  lemma NetOfMerge(x: Book, y: Book)
    requires Disjoint(x, y)
    ensures Net(Merge(x, y)) == Net(x) + Net(y)
  {
    MapSumMerge(x.received, y.received);
    MapSumMerge(x.sent, y.sent);
    MergeSize(x.sent, y.sent);
  }

  /** What the bank credits over a run. */
  ghost function Credited(s: State, turns: seq<Turn>): int {
    MapSum(Receipts(s, turns)) - MapSum(Sends(s, turns)) - Fees.GATEWAY_OUTBOUND_COST * |Sends(s, turns)|
  }

  lemma CreditedFirst(s: State, turns: seq<Turn>)
    requires turns != [] && RowsOk(s)
    ensures Credited(s, turns) == Credits(s, turns[0]) + Credited(Next(s, turns[0]), turns[1..])
  {
    var t, s1, rest := turns[0], Next(s, turns[0]), turns[1..];
    if t.Served? && Settles(s, t.e).Some? {
      SettlingConfirms(s, t.e);
      TurnKeepsRows(s, t);
      CreditedSettlement(s, turns);
    } else {
      hide Settles, Flow, Next;
      assert Receipts(s, turns) == Receipts(s1, rest) && Sends(s, turns) == Sends(s1, rest);
    }
  }

  lemma CreditedSettlement(s: State, turns: seq<Turn>)
    requires turns != [] && turns[0].Served? && Settles(s, turns[0].e).Some? && RowsOk(Next(s, turns[0]))
    requires IsConfirmed(Next(s, turns[0]), Settles(s, turns[0].e).value)
    ensures Credited(s, turns) == Credits(s, turns[0]) + Credited(Next(s, turns[0]), turns[1..])
  {
    var e, s1, rest := turns[0].e, Next(s, turns[0]), turns[1..];
    var t := Settles(s, e).value;
    ConfirmedIsBookedOnce(s1, rest, t);
    assert e.Transfer? ==> t == e.tx;
    hide Settles, Flow, Next;
    if e.Transfer? {
      MapSumAdd(Sends(s1, rest), t, -Flow(s, e) - Fees.NETWORK_FEE);
    } else {
      MapSumAdd(Receipts(s1, rest), t, Flow(s, e));
    }
  }

  /** Over every run, and however the gateway's entries are shared out among its turns, what is unmatched is
      the sum of one gap for each turn. */
  lemma {:induction false} UnmatchedIsSumOfGaps(books: seq<Book>, s: State, turns: seq<Turn>)
    requires RowsOk(s) && |books| == |turns| && AllDisjoint(books)
    ensures Unmatched(MergeAll(books), s, turns) == Gaps(books, s, turns)
    decreases |turns|
  {
    if turns == [] {
      assert MapSum(map[]) == 0;
    } else {
      TurnKeepsRows(s, turns[0]);
      CreditedFirst(s, turns);
      NetOfMerge(books[0], MergeAll(books[1..]));
      hide Receipts, Sends, RowsOk, Next, Credits, MapSum;
      UnmatchedIsSumOfGaps(books[1..], Next(s, turns[0]), turns[1..]);
    }
  }

  lemma OneTurnBooked(s: State, t: Turn)
    ensures Receipts(s, [t]) == if BooksReceipt(s, t) then map[Settles(s, t.e).value := Flow(s, t.e)] else map[]
    ensures Sends(s, [t]) == if BooksSend(s, t) then map[t.e.tx := -Flow(s, t.e) - Fees.NETWORK_FEE] else map[]
  {
    assert [t][1..] == [];
    hide Settles, Flow, Next;
  }

  lemma SumOfOne(t: Id, amount: int)
    ensures MapSum(map[t := amount]) == amount && MapSum(map[]) == 0
  {
    MapSumAdd(map[], t, amount);
    assert map[t := amount] == map[][t := amount];
  }

  /** The gap of a turn is what is unmatched in a run of that turn alone. */
  lemma OneTurnGap(book: Book, s: State, t: Turn)
    ensures Unmatched(book, s, [t]) == Gap(book, s, t)
  {
    hide Settles, Flow, Next, Receipts, Sends, MapSum;
    OneTurnBooked(s, t);
    if BooksReceipt(s, t) {
      SumOfOne(Settles(s, t.e).value, Flow(s, t.e));
    } else if BooksSend(s, t) {
      SumOfOne(t.e.tx, -Flow(s, t.e) - Fees.NETWORK_FEE);
    } else {
      SumOfOne("", 0);
    }
  }

  // ---------------------------------------------------------------- which turns leave a gap

  /** The gateway's entry for a payment that arrived. */
  ghost function Arrived(payment: Id, amount: int): Book {
    Book(map[payment := amount], map[])
  }

  /** The gateway's entry for a payout. */
  ghost function PaidOut(transfer: Id, value: int): Book {
    Book(map[], map[transfer := value])
  }

  ghost const NOTHING: Book := Book(map[], map[])

  lemma NetOfEntries(id: Id, amount: int)
    ensures Net(NOTHING) == 0 && Net(Arrived(id, amount)) == amount
    ensures Net(PaidOut(id, amount)) == -amount - Fees.GATEWAY_OUTBOUND_COST
  {
    hide MapSum;
    SumOfOne(id, amount);
  }

  /** What a payment delivery credits: the value of an unconfirmed row, whatever arrived; for an unknown
      payment what arrived, if it resolves to somebody; nothing otherwise. */
  ghost function DeliveryCredits(s: State, payment: Id, to: Option<Id>, amount: int): int {
    if payment == "" then 0
    else if payment in s.txs then if s.txs[payment].status == Confirmed then 0 else s.txs[payment].value
    else if amount > 0 && to.Some? && to.value in s.accounts
         && !Clashes(s, payment, InboundRow(s.accounts[to.value].document, to.value, payment, amount)) then amount
    else 0
  }

  /** The gap of a delivered payment, in every state: it is closed exactly when what arrived is what is
      credited, so not for a charge of another value, nor for a deposit that resolves to nobody. */
  lemma DeliveredPaymentGap(s: State, payment: Id, to: Option<Id>, amount: int)
    ensures Gap(Arrived(payment, amount), s, Served(ChargePaid(payment, to, amount)))
         == DeliveryCredits(s, payment, to, amount) - amount
  {
    NetOfEntries(payment, amount);
    hide ConfirmCharge, CreditReceipt, Clashes, Net;
  }

  /** The gap of a payout reported done, in every state: it is closed exactly when the report names a send
      in flight of that value, so never for a send by key reported under the id the gateway drew. */
  lemma ReportedPayoutGap(s: State, transfer: Id, value: nat)
    ensures Gap(PaidOut(transfer, value), s, Served(Transfer(transfer, true)))
         == value + Fees.GATEWAY_OUTBOUND_COST
            - if transfer in s.txs && InFlight(s.txs[transfer]) then s.txs[transfer].value + Fees.GATEWAY_OUTBOUND_COST else 0
  {
    NetOfEntries(transfer, value);
    hide DebitSend, CloseEntries, Net;
  }

  /** The gap of a confirmation by id, which asks the gateway nothing: the whole value of a charge that
      nobody paid, and none when the value arrived. */
  lemma ConfirmationGap(s: State, charge: Id)
    requires charge in s.txs && s.txs[charge].status == Created
    ensures Gap(NOTHING, s, Served(Receipt(charge))) == s.txs[charge].value
    ensures Gap(Arrived(charge, s.txs[charge].value), s, Served(Receipt(charge))) == 0
  {
    NetOfEntries(charge, s.txs[charge].value);
    hide ConfirmCharge, Net;
  }

  /** Paying one's own charge brings nothing in. */
  lemma OwnChargeGap(s: State, r: QrRequest, g: QrAnswer)
    requires PaysOwnCharge(s, Pay(r, g)) && PayQr(s, r, g).reply.Accepted?
    ensures Gap(NOTHING, s, Served(Pay(r, g))) == s.txs[r.charge.value].value
  {
    NetOfEntries("", 0);
    hide PayQr, Net;
  }

  /** A QR payment for which the gateway is called. */
  ghost predicate AsksGateway(s: State, r: QrRequest) {
    && (r.clientValue.Some? ==> r.clientValue.value > 0) && r.user in s.accounts && !Duplicate(s, r)
    && !PaidCharge(s, r.charge) && !OpenCharge(s, r.charge)
    && QrAffordable(r, s.accounts[r.user].document, Available(s, r.user))
    && !Clashes(s, r.txId, ProvisionalRow(s.accounts[r.user].document, r))
  }

  /** What the bank finds wrong with a payment the gateway has made: no value, more than is available, or
      an id that is taken. */
  ghost predicate TurnsDown(s: State, r: QrRequest, g: QrAnswer)
    requires AsksGateway(s, r) && g.QrPaid?
  {
    var paid := QrOutboundRow(s.accounts[r.user].document, r, g);
    ResolvedValue(r, g) <= 0 || Available(s, r.user) < paid.value + paid.fee || PaymentId(r, g) in s.txs
  }

  lemma TurnedDownIsRefused(s: State, r: QrRequest, g: QrAnswer)
    requires AsksGateway(s, r) && g.QrPaid?
    ensures PayQr(s, r, g).reply.Refused? <==> TurnsDown(s, r, g)
  {
    hide Duplicate, Clashes, Available, Dispatch, ProvisionalRow;
  }

  /** A QR payment that the gateway has made and the bank then refuses leaves its whole cost as a gap. */
  lemma RefusedPayoutGap(s: State, r: QrRequest, g: QrAnswer)
    requires AsksGateway(s, r) && g.QrPaid? && TurnsDown(s, r, g)
    ensures PayQr(s, r, g).reply.Refused?
    ensures Gap(PaidOut(PaymentId(r, g), g.value), s, Served(Pay(r, g))) == g.value + Fees.GATEWAY_OUTBOUND_COST
  {
    TurnedDownIsRefused(s, r, g);
    NetOfEntries(PaymentId(r, g), g.value);
    hide PayQr, AsksGateway, TurnsDown, Net;
  }

  /** Confirmations that the gateway answers for: no gap when what arrived is the charge's value. */
  lemma AskedConfirmationGap(s: State, user: Id, charge: Id)
    requires charge in s.txs && s.txs[charge].status == Created && s.txs[charge].owner == user
    ensures Gap(Arrived(charge, s.txs[charge].value), s, Served(Verify(user, charge, true))) == 0
    ensures s.txs[charge].kind == Received ==> Gap(Arrived(charge, s.txs[charge].value), s, Served(Refresh(user, charge, true))) == 0
  {
    NetOfEntries(charge, s.txs[charge].value);
    hide ConfirmCharge, Net;
  }

  /** A turn of any other kind credits nothing and needs no entry: sends by key, charges made, cancellations,
      failed transfers, audit cycles, payments between two accounts here, and whatever is not accepted. */
  lemma OtherTurnsLeaveNoGap(s: State, t: Turn)
    requires t.Served? ==> t.e.Send? || t.e.NewCharge? || t.e.Cancel? || (t.e.Transfer? && !t.e.done)
                           || (t.e.Pay? && !PaysOwnCharge(s, t.e))
                           || !Handle(s, t.e).reply.Accepted?
    ensures Gap(NOTHING, s, t) == 0
  {
    NetOfEntries("", 0);
    hide Net, CreatePix, PayQr, CreateCharge;
  }
}
