/**
 * The tables as the service changes them: mutable rows reached through one session. Every method
 * is proved to take the abstract state exactly where the corresponding function of PixModel says.
 */
module PixDatabase {
  import opened Wrappers
  import opened Sums
  import opened PixModel
  import Fees

  class User {
    const id: Id
    var balance: int
    var creditLimit: int
    const document: string

    constructor (id: Id, row: Account)
      ensures this.id == id && Row() == row
    {
      this.id, balance, creditLimit, document := id, row.balance, row.creditLimit, row.document;
    }

    function Row(): Account
      reads this
    {
      Account(balance, creditLimit, document)
    }
  }

  class PixTransaction {
    const id: Id
    const owner: Id
    const kind: Kind
    const key: string
    const payloadHash: Option<string>
    var status: Status
    var value: int
    var fee: int

    constructor (id: Id, row: Tx)
      ensures this.id == id && Row() == row
    {
      this.id := id;
      owner, kind, key, payloadHash := row.owner, row.kind, row.key, row.payloadHash;
      status, value, fee := row.status, row.value, row.fee;
    }

    function Row(): Tx
      reads this
    {
      Tx(owner, kind, status, value, fee, key, payloadHash)
    }
  }

  /** `number` is the position of the entry in the table. */
  class LedgerEntry {
    const number: nat
    const account: Id
    const kind: EntryKind
    const amount: int
    const tx: Id
    var status: EntryStatus

    constructor (number: nat, row: Entry)
      ensures this.number == number && Row() == row
    {
      this.number := number;
      account, kind, amount, tx, status := row.account, row.kind, row.amount, row.tx, row.status;
    }

    function Row(): Entry
      reads this
    {
      Entry(account, kind, amount, status, tx)
    }
  }

  function EntryRows(entries: seq<LedgerEntry>): (rows: seq<Entry>)
    reads entries
    ensures |rows| == |entries|
    ensures forall i | 0 <= i < |entries| :: rows[i] == entries[i].Row()
  {
    if entries == [] then []
    else EntryRows(entries[..|entries| - 1]) + [entries[|entries| - 1].Row()]
  }

  lemma OneMoreRow(entries: seq<LedgerEntry>, entry: LedgerEntry)
    ensures EntryRows(entries + [entry]) == EntryRows(entries) + [entry.Row()]
  {
    assert (entries + [entry])[..|entries|] == entries;
  }

  ghost function Among(txs: map<Id, Tx>, ids: set<Id>): map<Id, Tx> {
    map t | t in txs && t in ids :: txs[t]
  }

  lemma HoldsOneByOne(txs: map<Id, Tx>, ids: set<Id>, t: Id, a: Id)
    requires t in ids && ids <= txs.Keys
    ensures MapSum(Holds(Among(txs, ids), a))
         == MapSum(Holds(Among(txs, ids - {t}), a))
            + if InFlight(txs[t]) && txs[t].owner == a then txs[t].value + txs[t].fee else 0
  {
    var all := Holds(Among(txs, ids), a);
    if InFlight(txs[t]) && txs[t].owner == a {
      assert Holds(Among(txs, ids - {t}), a) == all - {t};
      MapSumRemove(all, t);
    } else {
      assert Holds(Among(txs, ids - {t}), a) == all;
    }
  }

  lemma UndoneInsert(s: State, id: Id, row: Tx)
    requires id !in s.txs
    ensures var s1 := InsertTx(s, id, row); s1.(txs := s1.txs - {id}) == s
  {
    assert InsertTx(s, id, row).txs - {id} == s.txs;
  }

  /** What a send is answered before it is routed; no route answers from an existing row. */
  lemma SendAnswers(s: State, r: SendRequest, g: SendAnswer)
    ensures r.value <= 0 ==> PixModel.CreatePix(s, r, g) == Outcome(s, Refused(InvalidValue))
    ensures r.value > 0 && r.user !in s.accounts ==> PixModel.CreatePix(s, r, g) == Outcome(s, Refused(Unauthenticated))
    ensures r.value > 0 && r.user in s.accounts && KeyUsed(s, r.key) ==> PixModel.CreatePix(s, r, g) == Outcome(s, Replayed)
    ensures !KeyUsed(s, r.key) ==> !PixModel.CreatePix(s, r, g).reply.Replayed?
  {
    hide Clashes, KeyUsed, MoveMoney, Available;
  }

  /** The same for a QR payment. */
  lemma PayAnswers(s: State, r: QrRequest, g: QrAnswer)
    ensures r.clientValue.Some? && r.clientValue.value <= 0 ==> PayQr(s, r, g) == Outcome(s, Refused(InvalidValue))
    ensures (r.clientValue.Some? ==> r.clientValue.value > 0) ==>
      if r.user !in s.accounts then PayQr(s, r, g) == Outcome(s, Refused(Unauthenticated))
      else if Duplicate(s, r) then PayQr(s, r, g) == Outcome(s, Replayed)
      else PayQr(s, r, g) == PixModel.RouteQr(s, r, g) && !PayQr(s, r, g).reply.Replayed?
  {
    hide Duplicate, Clashes, ChargeMoneyMoved, CreditReceipt, Available;
  }

  class Database {
    var users: map<Id, User>
    var txs: map<Id, PixTransaction>
    var ledger: seq<LedgerEntry>
    var matrix: Option<Id>

    constructor ()
      ensures Valid() && State() == PixModel.State(map[], map[], [], None)
    {
      users, txs, ledger, matrix := map[], map[], [], None;
    }

    ghost function Rows(): set<object>
      reads this
    {
      (set a | a in users :: users[a] as object) + (set t | t in txs :: txs[t] as object)
      + (set i | 0 <= i < |ledger| :: ledger[i] as object)
    }

    /** One object per row, reached under its own id: the session's identity map. */
    ghost predicate Valid()
      reads this, Rows()
    {
      && (forall a | a in users :: users[a].id == a)
      && (forall t | t in txs :: txs[t].id == t)
      && (forall i | 0 <= i < |ledger| :: ledger[i].number == i)
    }

    ghost function AccountRows(): map<Id, Account>
      reads this`users, users.Values
    {
      map a | a in users :: users[a].Row()
    }

    ghost function TxRows(): map<Id, Tx>
      reads this`txs, txs.Values
    {
      map t | t in txs :: txs[t].Row()
    }

    ghost function State(): PixModel.State
      reads this, Rows()
    {
      PixModel.State(AccountRows(), TxRows(), EntryRows(ledger), matrix)
    }

    // -------------------------------------------------------------- row updates

    method AddToBalance(a: Id, amount: int)
      requires Valid() && a in users
      modifies users[a]
      ensures Valid() && State() == AddBalance(old(State()), a, amount)
    {
      hide TxRows, EntryRows;
      ghost var rows := AccountRows();
      users[a].balance := users[a].balance + amount;
      assert forall b | b in users && b != a :: users[b] != users[a] && users[b].Row() == rows[b];
      assert AccountRows() == rows[a := users[a].Row()];
    }

    method WriteLimit(a: Id, limit: int)
      requires Valid() && a in users
      modifies users[a]
      ensures Valid() && State() == SetLimit(old(State()), a, limit)
    {
      hide TxRows, EntryRows;
      ghost var rows := AccountRows();
      users[a].creditLimit := limit;
      assert forall b | b in users && b != a :: users[b] != users[a] && users[b].Row() == rows[b];
      assert AccountRows() == rows[a := users[a].Row()];
    }

    method WriteStatus(t: Id, status: Status)
      requires Valid() && t in txs
      modifies txs[t]
      ensures Valid() && State() == SetStatus(old(State()), t, status)
    {
      hide AccountRows, EntryRows;
      ghost var rows := TxRows();
      txs[t].status := status;
      assert txs[t].Row() == rows[t].(status := status);
      assert forall u | u in txs && u != t :: txs[u] != txs[t] && txs[u].Row() == rows[u];
      assert TxRows() == rows[t := txs[t].Row()];
    }

    method AddRow(id: Id, row: Tx)
      requires Valid() && id !in txs
      modifies this`txs
      ensures Valid() && State() == InsertTx(old(State()), id, row)
      ensures id in txs && txs == old(txs)[id := txs[id]] && fresh(txs[id])
    {
      hide AccountRows, EntryRows;
      var pix := new PixTransaction(id, row);
      txs := txs[id := pix];
      assert TxRows() == old(TxRows())[id := row];
    }

    /** Undoes an insert that was never committed. */
    method DropRow(id: Id)
      requires Valid() && id in txs
      modifies this`txs
      ensures Valid() && State() == old(State()).(txs := old(State()).txs - {id})
      ensures txs == old(txs) - {id}
    {
      txs := txs - {id};
      hide AccountRows, EntryRows;
      assert TxRows() == old(TxRows()) - {id};
    }

    method AddEntry(e: Entry)
      requires Valid()
      modifies this`ledger
      ensures Valid() && State() == AppendEntry(old(State()), e)
      ensures |ledger| == |old(ledger)| + 1 && ledger[..|old(ledger)|] == old(ledger) && fresh(ledger[|old(ledger)|])
    {
      hide AccountRows, TxRows, EntryRows;
      var entry := new LedgerEntry(|ledger|, e);
      OneMoreRow(ledger, entry);
      ledger := ledger + [entry];
    }

    // -------------------------------------------------------------- queries

    method FindByKey(key: string) returns (existing: Option<Id>)
      requires Valid()
      ensures existing.Some? <==> KeyUsed(State(), key)
      ensures existing.Some? ==> existing.value in State().txs && State().txs[existing.value].key == key
    {
      ghost var s := State();
      assert forall t | t in s.txs :: s.txs[t] == txs[t].Row();
      assert forall t | t in txs :: txs[t].key == s.txs[t].key;
      if t :| t in txs && txs[t].key == key {
        existing := Some(t);
      } else {
        existing := None;
      }
    }

    method FindByHash(r: QrRequest) returns (existing: Option<Id>)
      requires Valid()
      ensures existing.Some? <==> HashUsed(State(), r)
      ensures existing.Some? ==> existing.value in State().txs && PaidByHash(State().txs[existing.value], r)
    {
      ghost var s := State();
      assert forall t | t in s.txs :: s.txs[t] == txs[t].Row();
      assert forall t | t in txs :: txs[t].Row() == s.txs[t];
      if t :| t in txs && PaidByHash(txs[t].Row(), r) {
        existing := Some(t);
      } else {
        existing := None;
      }
    }

    method HasClash(id: Id, row: Tx) returns (clash: bool)
      requires Valid()
      ensures clash <==> Clashes(State(), id, row)
    {
      clash := id in txs || exists t | t in txs :: SameUniqueColumns(txs[t].Row(), row);
      assert forall t | t in State().txs :: State().txs[t] == txs[t].Row();
      assert forall t | t in txs :: txs[t].Row() == State().txs[t];
    }

    /** An insert that the unique columns may refuse. */
    method TryAddRow(id: Id, row: Tx) returns (added: bool)
      requires Valid()
      modifies this`txs
      ensures Valid()
      ensures added <==> !Clashes(old(State()), id, row)
      ensures State() == if added then InsertTx(old(State()), id, row) else old(State())
      ensures added ==> id in txs && txs == old(txs)[id := txs[id]] && fresh(txs[id])
      ensures !added ==> txs == old(txs)
    {
      ghost var s := State();
      var clash := HasClash(id, row);
      assert State() == s;
      assert clash <==> Clashes(s, id, row);
      if clash { return false; }
      AddRow(id, row);
      added := true;
    }

    /** The balance less value and fee of every PROCESSING send of the account. */
    method GetAvailableBalance(a: Id) returns (available: int)
      requires Valid() && a in users
      ensures available == Available(State(), a)
    {
      ghost var s := State();
      var balance := users[a].balance;
      assert s.accounts[a].balance == balance;
      var pending := 0;
      var rest := txs.Keys;
      assert Among(s.txs, rest) == s.txs;
      while rest != {}
        invariant State() == s && rest <= txs.Keys && txs.Keys == s.txs.Keys
        invariant pending + MapSum(Holds(Among(s.txs, rest), a)) == Held(s, a)
        decreases rest
      {
        var t :| t in rest;
        HoldsOneByOne(s.txs, rest, t, a);
        if InFlight(txs[t].Row()) && txs[t].owner == a {
          pending := pending + txs[t].value + txs[t].fee;
        }
        rest := rest - {t};
      }
      assert Holds(Among(s.txs, {}), a) == map[];
      assert pending == Held(s, a);
      available := balance - pending;
      assert available == Available(s, a);
    }

    // -------------------------------------------------------------- ledger

    /** The loop over the rows of one transaction. */
    method CloseRows(t: Id, status: EntryStatus)
      requires Valid()
      modifies ledger
      ensures forall k | 0 <= k < |ledger| :: ledger[k].Row() == CloseEntry(old(ledger[k].Row()), t, status)
    {
      for i := 0 to |ledger|
        modifies ledger
        invariant forall k | 0 <= k < i :: ledger[k].Row() == CloseEntry(old(ledger[k].Row()), t, status)
        invariant forall k | i <= k < |ledger| :: ledger[k].Row() == old(ledger[k].Row())
      {
        if ledger[i].tx == t && ledger[i].status == Pending {
          ledger[i].status := status;
        }
      }
    }

    /** Closes every PENDING entry of one transaction, settled or reversed. */
    method CloseLedgerEntries(t: Id, status: EntryStatus)
      requires Valid()
      modifies ledger
      ensures Valid() && State() == CloseLedger(old(State()), t, status)
    {
      CloseRows(t, status);
      assert State().ledger == CloseLedger(old(State()), t, status).ledger;
      assert State().accounts == old(State()).accounts;
      assert State().txs == old(State()).txs;
    }

    method SettleLedgerEntries(t: Id)
      requires Valid()
      modifies ledger
      ensures Valid() && State() == CloseLedger(old(State()), t, Settled)
    {
      CloseLedgerEntries(t, Settled);
    }

    method ReverseLedgerEntries(t: Id)
      requires Valid()
      modifies ledger
      ensures Valid() && State() == CloseLedger(old(State()), t, Reversed)
    {
      CloseLedgerEntries(t, Reversed);
    }

    // -------------------------------------------------------------- credits

    method CreditFeeToMatrix(amount: int)
      requires Valid()
      modifies users.Values
      ensures Valid() && State() == CreditFee(old(State()), amount)
    {
      if amount <= 0 { return; }
      if matrix.None? || matrix.value !in users { return; }
      AddToBalance(matrix.value, amount);
    }

    method CreditNetAmount(a: Id, net: int, limit: int)
      requires Valid() && a in users
      modifies users[a]
      ensures Valid() && State() == CreditNet(old(State()), a, net, limit)
    {
      AddToBalance(a, net);
      WriteLimit(a, limit);
    }

    method CreditPixReceipt(a: Id, gross: int, feeOverride: Option<int>)
      requires Valid() && a in users
      modifies users.Values
      ensures Valid() && State() == CreditReceipt(old(State()), a, gross, feeOverride)
    {
      assert State().accounts[a] == users[a].Row();
      var fee := ReceiptFee(users[a].document, gross, feeOverride);
      CreditBoth(a, Fees.Max(0, gross - fee), RaisedLimit(users[a].creditLimit, gross), fee);
    }

    method CreditBoth(a: Id, net: int, limit: int, fee: int)
      requires Valid() && a in users
      modifies users.Values
      ensures Valid() && State() == CreditFee(CreditNet(old(State()), a, net, limit), fee)
    {
      hide AccountRows, TxRows, EntryRows, CreditFee, CreditNet;
      CreditNetAmount(a, net, limit);
      CreditFeeToMatrix(fee);
    }

    method ConfirmAndCredit(charge: Id)
      requires Valid() && charge in txs
      modifies users.Values, txs.Values
      ensures Valid() && State() == ConfirmCharge(old(State()), charge)
    {
      WriteStatus(charge, Confirmed);
      if txs[charge].owner in users {
        CreditPixReceipt(txs[charge].owner, txs[charge].value, None);
      }
    }

    // -------------------------------------------------------------- charge routes

    method ConfirmReceipt(charge: Id) returns (reply: Reply)
      requires Valid()
      modifies users.Values, txs.Values
      ensures Valid() && Outcome(State(), reply) == PixModel.ConfirmReceipt(old(State()), charge)
    {
      if charge !in txs { return Refused(NotFound); }
      assert State().txs[charge] == txs[charge].Row();
      if txs[charge].status == Confirmed { return Refused(AlreadyPaid); }
      if txs[charge].status != Created { return Refused(InvalidStatus); }
      ConfirmAndCredit(charge);
      reply := Accepted(charge);
    }

    method VerifyCharge(user: Id, charge: Id, paid: bool) returns (reply: Reply)
      requires Valid()
      modifies users.Values, txs.Values
      ensures Valid() && Outcome(State(), reply) == PixModel.VerifyCharge(old(State()), user, charge, paid)
    {
      if charge !in txs { return Refused(NotFound); }
      assert State().txs[charge] == txs[charge].Row();
      if txs[charge].owner != user { return Refused(NotFound); }
      if txs[charge].status == Confirmed { return Replayed; }
      if txs[charge].status != Created { return Refused(InvalidStatus); }
      if !paid { return Refused(NotPaidYet); }
      ConfirmAndCredit(charge);
      reply := Accepted(charge);
    }

    method RefreshCharge(user: Id, charge: Id, paid: bool) returns (reply: Reply)
      requires Valid()
      modifies users.Values, txs.Values
      ensures Valid() && Outcome(State(), reply) == PixModel.RefreshCharge(old(State()), user, charge, paid)
    {
      if charge !in txs { return Refused(NotFound); }
      assert State().txs[charge] == txs[charge].Row();
      if txs[charge].owner != user { return Refused(NotFound); }
      reply := Replayed;
      if txs[charge].kind == Received && txs[charge].status == Created && paid {
        ConfirmAndCredit(charge);
        reply := Accepted(charge);
      }
    }

    method CancelPix(user: Id, t: Id) returns (reply: Reply)
      requires Valid()
      modifies txs.Values
      ensures Valid() && Outcome(State(), reply) == PixModel.CancelPix(old(State()), user, t)
    {
      if t !in txs { return Refused(NotFound); }
      assert State().txs[t] == txs[t].Row();
      if txs[t].owner != user { return Refused(NotFound); }
      if txs[t].status != Scheduled { return Refused(InvalidStatus); }
      WriteStatus(t, Canceled);
      reply := Accepted(t);
    }

    method CreateCharge(user: Id, value: int, answered: Option<Id>, correlation: string, localId: Id) returns (reply: Reply)
      requires Valid()
      modifies this`txs
      ensures Valid()
      ensures Outcome(State(), reply) == PixModel.CreateCharge(old(State()), user, value, answered, correlation, localId)
    {
      if value <= 0 { return Refused(InvalidValue); }
      if user !in users { return Refused(Unauthenticated); }
      if answered.Some? {
        ghost var s := State();
        var stored := TryAddRow(answered.value, GatewayChargeRow(user, value, correlation));
        if stored { return Accepted(answered.value); }
        assert State() == s;
      }
      var added := TryAddRow(localId, LocalChargeRow(user, value, localId));
      reply := if added then Accepted(localId) else Refused(Conflict);
    }

    // -------------------------------------------------------------- gateway deliveries

    method TransferDelivered(t: Id, done: bool) returns (reply: Reply)
      requires Valid()
      modifies users.Values, txs.Values, ledger
      ensures Valid() && Outcome(State(), reply) == TransferWebhook(old(State()), t, done)
    {
      if t !in txs { return Ignored; }
      assert State().txs[t] == txs[t].Row();
      if txs[t].status != Processing { return Replayed; }
      if done {
        WriteStatus(t, Confirmed);
        DebitSender(t);
        SettleLedgerEntries(t);
      } else {
        WriteStatus(t, Failed);
        ReverseLedgerEntries(t);
      }
      reply := Accepted(t);
    }

    /** The deferred debit of a confirmed send. */
    method DebitSender(t: Id)
      requires Valid() && t in txs
      modifies users.Values
      ensures Valid() && State() == DebitSend(old(State()), t)
    {
      assert State().txs[t] == txs[t].Row();
      var pix := txs[t];
      if pix.kind == Sent && pix.owner in users {
        AddToBalance(pix.owner, -(pix.value + pix.fee));
        CreditFeeToMatrix(pix.fee - Fees.NETWORK_FEE);
      }
    }

    method ChargeDelivered(payment: Id, recipient: Option<Id>, value: int) returns (reply: Reply)
      requires Valid()
      modifies this`txs, users.Values, txs.Values
      ensures Valid() && Outcome(State(), reply) == ChargeWebhook(old(State()), payment, recipient, value)
    {
      if payment == "" { return Ignored; }
      if payment in txs {
        assert State().txs[payment] == txs[payment].Row();
        if txs[payment].status == Confirmed { return Replayed; }
        ConfirmAndCredit(payment);
        return Accepted(payment);
      }
      if value <= 0 || recipient.None? || recipient.value !in users { return Ignored; }
      reply := CreditInbound(payment, recipient.value, value);
    }

    method CreditInbound(payment: Id, to: Id, value: int) returns (reply: Reply)
      requires Valid() && to in users
      modifies this`txs, users.Values
      ensures Valid() && Outcome(State(), reply) == InboundDeposit(old(State()), payment, to, value)
    {
      ghost var s := State();
      assert s.accounts[to] == users[to].Row();
      var row := InboundRow(users[to].document, to, payment, value);
      var clash := HasClash(payment, row);
      assert State() == s;
      assert clash <==> Clashes(s, payment, row);
      if clash { return Refused(Conflict); }
      CreditPixReceipt(to, value, None);
      assert State() == CreditReceipt(s, to, value, None);
      AddRow(payment, row);
      assert State() == InsertTx(CreditReceipt(s, to, value, None), payment, row);
      reply := Accepted(payment);
    }

    // -------------------------------------------------------------- sending

    /** A repeated request is answered from the row that holds its key. */
    method CreatePix(r: SendRequest, g: SendAnswer) returns (reply: Reply, existing: Option<Id>)
      requires Valid()
      modifies this`txs, this`ledger, users.Values
      ensures Valid() && Outcome(State(), reply) == PixModel.CreatePix(old(State()), r, g)
      ensures existing.Some? <==> reply.Replayed?
      ensures existing.Some? ==> existing.value in State().txs && State().txs[existing.value].key == r.key
    {
      assert State().accounts.Keys == users.Keys;
      hide PixModel.CreatePix, KeyUsed, AccountRows, TxRows, EntryRows;
      SendAnswers(State(), r, g);
      existing := None;
      if r.value <= 0 { return Refused(InvalidValue), None; }
      if r.user !in users { return Refused(Unauthenticated), None; }
      ghost var s := State();
      existing := FindByKey(r.key);
      assert State() == s;
      if existing.Some? { return Replayed, existing; }
      reply := RouteSend(r, g);
    }

    method RouteSend(r: SendRequest, g: SendAnswer) returns (reply: Reply)
      requires Valid() && r.value > 0 && r.user in users && !KeyUsed(State(), r.key)
      modifies this`txs, this`ledger, users.Values
      ensures Valid() && Outcome(State(), reply) == PixModel.CreatePix(old(State()), r, g)
    {
      if r.scheduled {
        reply := Schedule(r);
      } else if r.recipient.Some? && r.recipient.value in users {
        reply := ExecuteInternalTransfer(r, r.recipient.value);
      } else {
        reply := SendThroughGateway(r, g);
      }
    }

    method Schedule(r: SendRequest) returns (reply: Reply)
      requires Valid()
      modifies this`txs
      ensures Valid()
      ensures Outcome(State(), reply) == (if Clashes(old(State()), r.txId, ScheduledRow(r))
                                          then Outcome(old(State()), Refused(Conflict))
                                          else Outcome(InsertTx(old(State()), r.txId, ScheduledRow(r)), Accepted(r.txId)))
    {
      var added := TryAddRow(r.txId, ScheduledRow(r));
      reply := if added then Accepted(r.txId) else Refused(Conflict);
    }

    method ExecuteInternalTransfer(r: SendRequest, to: Id) returns (reply: Reply)
      requires Valid() && r.user in users && to in users
      modifies this`txs, users.Values
      ensures Valid() && Outcome(State(), reply) == InternalTransfer(old(State()), r, to)
    {
      ghost var s := State();
      assert s.accounts[r.user] == users[r.user].Row();
      if r.user == to { return Refused(SelfTransfer); }
      if users[r.user].balance < r.value { return Refused(InsufficientBalance); }
      var recorded := RecordTransfer(r, to);
      if !recorded { return Refused(Conflict); }
      TransferBalance(r.user, to, r.value);
      reply := Accepted(r.txId);
    }

    method TransferBalance(from: Id, to: Id, amount: int)
      requires Valid() && from in users && to in users
      modifies users.Values
      ensures Valid() && State() == MoveMoney(old(State()), from, to, amount)
    {
      hide AccountRows, TxRows, EntryRows, AddBalance;
      AddToBalance(from, -amount);
      AddToBalance(to, amount);
    }

    /** Both rows of an internal transfer, or neither. */
    method RecordTransfer(r: SendRequest, to: Id) returns (recorded: bool)
      requires Valid()
      modifies this`txs
      ensures Valid()
      ensures recorded <==> TransferRecorded(old(State()), r, to).Some?
      ensures State() == if recorded then TransferRecorded(old(State()), r, to).value else old(State())
    {
      ghost var s := State();
      recorded := TryAddRow(r.txId, SentRow(r));
      if !recorded { return; }
      assert State() == InsertTx(s, r.txId, SentRow(r));
      recorded := TryAddRow(r.recvId, ReceivedRow(r, to));
      if !recorded {
        DropRow(r.txId);
        UndoneInsert(s, r.txId, SentRow(r));
      }
    }

    lemma OutboundIsProcessing(document: string, r: SendRequest)
      ensures OutboundRow(document, r).status == Processing
    {
    }

    /** The row is persisted before the gateway is called, and put in flight or failed afterwards. */
    method SendThroughGateway(r: SendRequest, g: SendAnswer) returns (reply: Reply)
      requires Valid() && r.user in users
      modifies this`txs, this`ledger
      ensures Valid() && Outcome(State(), reply) == SendExternal(old(State()), r, g)
    {
      hide Held, Dispatch, EntryRows, OutboundRow, SameUniqueColumns;
      ghost var s := State();
      assert s.accounts[r.user] == users[r.user].Row();
      var row := OutboundRow(users[r.user].document, r);
      OutboundIsProcessing(users[r.user].document, r);
      var available := GetAvailableBalance(r.user);
      assert State() == s;
      if available < row.value + row.fee { return Refused(InsufficientBalance); }
      var clash := HasClash(r.txId, row);
      assert State() == s;
      if clash { return Refused(Conflict); }
      reply := PersistAndDispatch(r.txId, row, g);
    }

    method PersistAndDispatch(id: Id, row: Tx, g: SendAnswer) returns (reply: Reply)
      requires Valid() && id !in txs && row.status == Processing
      modifies this`txs, this`ledger
      ensures Valid()
      ensures Outcome(State(), reply) == (if g == Rejected
                                          then Outcome(InsertTx(old(State()), id, row.(status := Failed)), Refused(GatewayRefused))
                                          else Outcome(Dispatch(old(State()), id, row), Accepted(id)))
    {
      hide AccountRows, TxRows, EntryRows, InsertTx, State;
      ghost var s := State();
      AddRow(id, row.(status := Created));
      if g == Rejected {
        MarkRow(id, row.(status := Created), Failed, s);
        return Refused(GatewayRefused);
      }
      MarkRow(id, row.(status := Created), Processing, s);
      AddEntry(Entry(row.owner, Debit, row.value + row.fee, Pending, id));
      reply := Accepted(id);
    }

    // -------------------------------------------------------------- paying a QR code

    method PayPixQrCode(r: QrRequest, g: QrAnswer) returns (reply: Reply, existing: Option<Id>)
      requires Valid()
      modifies this`txs, this`ledger, users.Values, txs.Values
      ensures Valid() && Outcome(State(), reply) == PayQr(old(State()), r, g)
      ensures existing.Some? <==> reply.Replayed?
      ensures existing.Some? ==> Answers(State(), existing.value, r)
    {
      assert State().accounts.Keys == users.Keys;
      hide PayQr, PixModel.RouteQr, Duplicate, Answers, AccountRows, TxRows, EntryRows;
      PayAnswers(State(), r, g);
      existing := None;
      if r.clientValue.Some? && r.clientValue.value <= 0 { return Refused(InvalidValue), None; }
      if r.user !in users { return Refused(Unauthenticated), None; }
      ghost var s := State();
      existing := FindDuplicate(r);
      assert State() == s;
      if existing.Some? { return Replayed, existing; }
      reply := RouteQr(r, g);
    }

    /** The row under the header key answers first, then one for the same payload. */
    method FindDuplicate(r: QrRequest) returns (existing: Option<Id>)
      requires Valid()
      ensures existing.Some? <==> Duplicate(State(), r)
      ensures existing.Some? ==> Answers(State(), existing.value, r)
    {
      ghost var s := State();
      if r.header.Some? && r.header.value != "" {
        existing := FindByKey(r.header.value);
        assert State() == s;
        if existing.Some? { return; }
      }
      existing := FindByHash(r);
      assert State() == s;
    }

    /** An internal charge is paid here; anything else goes to the gateway. */
    method RouteQr(r: QrRequest, g: QrAnswer) returns (reply: Reply)
      requires Valid() && r.user in users
      modifies this`txs, this`ledger, users.Values, txs.Values
      ensures Valid() && Outcome(State(), reply) == PixModel.RouteQr(old(State()), r, g)
    {
      if r.charge.Some? && r.charge.value in txs {
        assert State().txs[r.charge.value] == txs[r.charge.value].Row();
        if txs[r.charge.value].kind == Received && txs[r.charge.value].status == Confirmed {
          return Refused(AlreadyPaid);
        }
        if txs[r.charge.value].kind == Received && txs[r.charge.value].status == Created {
          reply := PayCharge(r, r.charge.value);
          return;
        }
      }
      reply := PayThroughGateway(r, g);
    }

    method PayCharge(r: QrRequest, charge: Id) returns (reply: Reply)
      requires Valid() && r.user in users && charge in txs
      modifies this`txs, users.Values, txs.Values
      ensures Valid() && Outcome(State(), reply) == PayInternalCharge(old(State()), r, charge)
    {
      ghost var s := State();
      assert s.txs[charge] == txs[charge].Row() && s.accounts[r.user] == users[r.user].Row();
      assert s.txs.Keys == txs.Keys && s.accounts.Keys == users.Keys;
      hide AccountRows, TxRows, EntryRows, CreditReceipt, ChargeMoneyMoved, SameUniqueColumns;
      var owner, value := txs[charge].owner, txs[charge].value;
      if owner !in users { return Refused(NotFound); }
      if owner == r.user {
        Deposit(charge, owner, value);
        return Accepted(charge);
      }
      if users[r.user].balance < value + Fees.MAINTENANCE_FEE { return Refused(InsufficientBalance); }
      var clash := HasClash(r.txId, QrSentRow(r, value));
      assert State() == s;
      if clash { return Refused(Conflict); }
      MoveChargeMoney(r.user, owner, value, charge);
      AddRow(r.txId, QrSentRow(r, value));
      reply := Accepted(r.txId);
    }

    method Deposit(charge: Id, owner: Id, value: int)
      requires Valid() && owner in users && charge in txs
      modifies users.Values, txs.Values
      ensures Valid() && State() == CreditReceipt(SetStatus(old(State()), charge, Confirmed), owner, value, Some(0))
    {
      WriteStatus(charge, Confirmed);
      CreditPixReceipt(owner, value, Some(0));
    }

    method ChargePayer(payer: Id, value: int)
      requires Valid() && payer in users
      modifies users.Values
      ensures Valid() && State() == PayerCharged(old(State()), payer, value)
    {
      hide AccountRows, TxRows, EntryRows, AddBalance, CreditFee;
      AddToBalance(payer, -(value + Fees.MAINTENANCE_FEE));
      CreditFeeToMatrix(Fees.MAINTENANCE_FEE);
    }

    method MoveChargeMoney(payer: Id, owner: Id, value: int, charge: Id)
      requires Valid() && payer in users && owner in users && charge in txs
      modifies users.Values, txs.Values
      ensures Valid()
      ensures State() == ChargeMoneyMoved(old(State()), payer, owner, value, charge)
    {
      ChargePayer(payer, value);
      Deposit(charge, owner, value);
    }

    method PayThroughGateway(r: QrRequest, g: QrAnswer) returns (reply: Reply)
      requires Valid() && r.user in users
      modifies this`txs, this`ledger
      ensures Valid() && Outcome(State(), reply) == PayExternalQr(old(State()), r, g)
    {
      ghost var s := State();
      assert s.accounts[r.user] == users[r.user].Row();
      var document := users[r.user].document;
      var available := GetAvailableBalance(r.user);
      assert State() == s;
      if !QrAffordable(r, document, available) { return Refused(InsufficientBalance); }
      if g == QrUnavailable { return Refused(GatewayUnavailable); }
      var row := ProvisionalRow(document, r);
      var clash := HasClash(r.txId, row);
      assert State() == s;
      if clash { return Refused(Conflict); }
      reply := PersistAndPay(r, g, document, available);
    }

    method PersistAndPay(r: QrRequest, g: QrAnswer, document: string, available: int) returns (reply: Reply)
      requires Valid() && g != QrUnavailable && r.txId !in txs
      modifies this`txs, this`ledger
      ensures Valid() && Outcome(State(), reply) == AfterQrAnswer(old(State()), r, g, document, available)
    {
      ghost var s := State();
      AddRow(r.txId, ProvisionalRow(document, r));
      if g == QrRejected {
        MarkRow(r.txId, ProvisionalRow(document, r), Failed, s);
        return Refused(GatewayRefused);
      }
      var paid := QrOutboundRow(document, r, g);
      if ResolvedValue(r, g) > 0 && available < paid.value + paid.fee {
        MarkRow(r.txId, ProvisionalRow(document, r), Failed, s);
        return Refused(InsufficientBalance);
      }
      DropRow(r.txId);
      UndoneInsert(s, r.txId, ProvisionalRow(document, r));
      if ResolvedValue(r, g) <= 0 { return Refused(ValueUnresolvable); }
      reply := TakeInFlight(PaymentId(r, g), paid);
    }

    /** Moves a row this request has just inserted to its next status. */
    method MarkRow(id: Id, row: Tx, status: Status, ghost s: PixModel.State)
      requires Valid() && id in txs && State() == InsertTx(s, id, row)
      modifies txs[id]
      ensures Valid() && State() == InsertTx(s, id, row.(status := status))
    {
      WriteStatus(id, status);
      assert State().txs == s.txs[id := row.(status := status)];
    }

    /** Writes the row under the id the gateway answered with, if that is free, and takes it in flight. */
    method TakeInFlight(id: Id, paid: Tx) returns (reply: Reply)
      requires Valid()
      modifies this`txs, this`ledger
      ensures Valid()
      ensures Outcome(State(), reply) == (if id in old(State()).txs then Outcome(old(State()), Refused(Conflict))
                                          else Outcome(Dispatch(old(State()), id, paid), Accepted(id)))
    {
      if id in txs { return Refused(Conflict); }
      AddRow(id, paid);
      AddEntry(Entry(paid.owner, Debit, paid.value + paid.fee, Pending, id));
      reply := Accepted(id);
    }
  }
}
