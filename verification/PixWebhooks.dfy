/**
 * Confluence of transfer deliveries. A gateway redelivers and reorders its webhooks; the outcome
 * depends only on the first delivery that reaches each transaction in flight.
 */
module PixWebhooks {
  import opened Wrappers
  import opened Sums
  import opened PixModel
  import Fees

  ghost predicate Deliveries(events: seq<Event>) {
    forall i | 0 <= i < |events| :: events[i].Transfer?
  }

  /** The first verdict (done or failed) a list of deliveries gives each transaction. */
  function First(events: seq<Event>): map<Id, bool>
    requires Deliveries(events)
  {
    if events == [] then map[]
    else First(events[1..])[events[0].tx := events[0].done]
  }

  // ---------------------------------------------------------------- the outcome, stated independently

  /** A PROCESSING row that received a verdict. */
  predicate Lands(s: State, first: map<Id, bool>, t: Id) {
    t in s.txs && s.txs[t].status == Processing && t in first
  }

  function FinalRow(s: State, first: map<Id, bool>, t: Id): Tx
    requires t in s.txs
  {
    if Lands(s, first, t) then s.txs[t].(status := if first[t] then Confirmed else Failed) else s.txs[t]
  }

  function FinalEntry(s: State, first: map<Id, bool>, e: Entry): Entry {
    if e.status == Pending && Lands(s, first, e.tx)
    then e.(status := if first[e.tx] then Settled else Reversed) else e
  }

  predicate Debited(s: State, first: map<Id, bool>, t: Id) {
    Lands(s, first, t) && first[t] && s.txs[t].kind == Sent && s.txs[t].owner in s.accounts
  }

  /** value+fee of each send of account a whose verdict is done. */
  ghost function Debits(s: State, first: map<Id, bool>, a: Id): map<Id, int> {
    map t | t in s.txs && Debited(s, first, t) && s.txs[t].owner == a :: s.txs[t].value + s.txs[t].fee
  }

  /** The part of each such fee above the network fee. */
  ghost function Margins(s: State, first: map<Id, bool>): map<Id, int> {
    map t | t in s.txs && Debited(s, first, t) && s.txs[t].fee > Fees.NETWORK_FEE :: s.txs[t].fee - Fees.NETWORK_FEE
  }

  ghost function FinalBalance(s: State, first: map<Id, bool>, a: Id): int
    requires a in s.accounts
  {
    s.accounts[a].balance - MapSum(Debits(s, first, a))
    + if s.matrix == Some(a) then MapSum(Margins(s, first)) else 0
  }

  ghost function Final(s: State, first: map<Id, bool>): State {
    State(map a | a in s.accounts :: s.accounts[a].(balance := FinalBalance(s, first, a)),
          map t | t in s.txs :: FinalRow(s, first, t),
          seq(|s.ledger|, i requires 0 <= i < |s.ledger| => FinalEntry(s, first, s.ledger[i])),
          s.matrix)
  }

  // ---------------------------------------------------------------- one delivery, then the rest

  ghost function Deliver(s: State, t: Id, done: bool): State {
    TransferWebhook(s, t, done).state
  }

  lemma DeliverAccounts(s: State, t: Id, done: bool)
    ensures Deliver(s, t, done).accounts.Keys == s.accounts.Keys && Deliver(s, t, done).matrix == s.matrix
    ensures forall a | a in s.accounts :: Deliver(s, t, done).accounts[a].creditLimit == s.accounts[a].creditLimit
                                          && Deliver(s, t, done).accounts[a].document == s.accounts[a].document
  {
  }

  lemma DeliverTxs(s: State, t: Id, done: bool)
    requires t in s.txs && s.txs[t].status == Processing
    ensures Deliver(s, t, done).txs == s.txs[t := s.txs[t].(status := if done then Confirmed else Failed)]
    ensures Deliver(s, t, done).ledger == CloseEntries(s.ledger, t, if done then Settled else Reversed)
  {
  }

  lemma DeliverBalance(s: State, t: Id, done: bool, a: Id)
    requires t in s.txs && s.txs[t].status == Processing && a in s.accounts
    ensures var row := s.txs[t];
            var hit := done && row.kind == Sent && row.owner in s.accounts;
            Deliver(s, t, done).accounts[a].balance
            == s.accounts[a].balance
               - (if hit && row.owner == a then row.value + row.fee else 0)
               + (if hit && s.matrix == Some(a) && row.fee > Fees.NETWORK_FEE then row.fee - Fees.NETWORK_FEE else 0)
  {
  }

  /** What one landed row t leaves for the remaining verdicts. */
  ghost predicate Landed(s: State, s1: State, first: map<Id, bool>, all: map<Id, bool>, t: Id) {
    && s1.txs.Keys == s.txs.Keys
    && (forall u | u in s.txs && u != t :: s1.txs[u] == s.txs[u])
    && (forall u :: Debited(s1, first, u) <==> u != t && Debited(s, all, u))
  }

  lemma DeliveryLands(s: State, first: map<Id, bool>, t: Id, done: bool)
    requires t in s.txs && s.txs[t].status == Processing
    ensures Landed(s, Deliver(s, t, done), first, first[t := done], t)
  {
    DeliverAccounts(s, t, done);
    DeliverTxs(s, t, done);
  }

  predicate TakesFrom(s: State, all: map<Id, bool>, t: Id, a: Id)
    requires t in s.txs
  {
    Debited(s, all, t) && s.txs[t].owner == a
  }

  lemma DebitsLessOne(s: State, s1: State, first: map<Id, bool>, all: map<Id, bool>, t: Id, a: Id)
    requires t in s.txs && Landed(s, s1, first, all, t) && TakesFrom(s, all, t, a)
    ensures Debits(s1, first, a) == Debits(s, all, a) - {t}
    ensures t in Debits(s, all, a) && Debits(s, all, a)[t] == s.txs[t].value + s.txs[t].fee
  {
  }

  lemma DebitsStay(s: State, s1: State, first: map<Id, bool>, all: map<Id, bool>, t: Id, a: Id)
    requires t in s.txs && Landed(s, s1, first, all, t) && !TakesFrom(s, all, t, a)
    ensures Debits(s1, first, a) == Debits(s, all, a)
  {
  }

  lemma DebitsSplit(s: State, s1: State, first: map<Id, bool>, all: map<Id, bool>, t: Id, a: Id)
    requires t in s.txs && Landed(s, s1, first, all, t)
    ensures MapSum(Debits(s, all, a))
         == MapSum(Debits(s1, first, a)) + if TakesFrom(s, all, t, a) then s.txs[t].value + s.txs[t].fee else 0
  {
    hide MapSum, Debits, Landed, TakesFrom;
    if TakesFrom(s, all, t, a) {
      DebitsLessOne(s, s1, first, all, t, a);
      MapSumRemove(Debits(s, all, a), t);
    } else {
      DebitsStay(s, s1, first, all, t, a);
    }
  }

  predicate LeavesMargin(s: State, all: map<Id, bool>, t: Id)
    requires t in s.txs
  {
    Debited(s, all, t) && s.txs[t].fee > Fees.NETWORK_FEE
  }

  lemma MarginsLessOne(s: State, s1: State, first: map<Id, bool>, all: map<Id, bool>, t: Id)
    requires t in s.txs && Landed(s, s1, first, all, t) && LeavesMargin(s, all, t)
    ensures Margins(s1, first) == Margins(s, all) - {t}
    ensures t in Margins(s, all) && Margins(s, all)[t] == s.txs[t].fee - Fees.NETWORK_FEE
  {
  }

  lemma MarginsStay(s: State, s1: State, first: map<Id, bool>, all: map<Id, bool>, t: Id)
    requires t in s.txs && Landed(s, s1, first, all, t) && !LeavesMargin(s, all, t)
    ensures Margins(s1, first) == Margins(s, all)
  {
  }

  lemma MarginsSplit(s: State, s1: State, first: map<Id, bool>, all: map<Id, bool>, t: Id)
    requires t in s.txs && Landed(s, s1, first, all, t)
    ensures MapSum(Margins(s, all))
         == MapSum(Margins(s1, first)) + if LeavesMargin(s, all, t) then s.txs[t].fee - Fees.NETWORK_FEE else 0
  {
    hide MapSum, Margins, Landed, LeavesMargin;
    if LeavesMargin(s, all, t) {
      MarginsLessOne(s, s1, first, all, t);
      MapSumRemove(Margins(s, all), t);
    } else {
      MarginsStay(s, s1, first, all, t);
    }
  }

  lemma FinalBalanceStep(s: State, first: map<Id, bool>, t: Id, done: bool, a: Id)
    requires t in s.txs && s.txs[t].status == Processing && a in s.accounts && a in Deliver(s, t, done).accounts
    ensures FinalBalance(Deliver(s, t, done), first, a) == FinalBalance(s, first[t := done], a)
  {
    var s1 := Deliver(s, t, done);
    DeliverAccounts(s, t, done);
    DeliverBalance(s, t, done, a);
    DeliveryLands(s, first, t, done);
    DebitsSplit(s, s1, first, first[t := done], t, a);
    MarginsSplit(s, s1, first, first[t := done], t);
  }

  lemma FinalAccountsStep(s: State, first: map<Id, bool>, t: Id, done: bool)
    requires t in s.txs && s.txs[t].status == Processing
    ensures Final(Deliver(s, t, done), first).accounts == Final(s, first[t := done]).accounts
  {
    var s1 := Deliver(s, t, done);
    DeliverAccounts(s, t, done);
    forall a | a in s.accounts
      ensures FinalBalance(s1, first, a) == FinalBalance(s, first[t := done], a)
    {
      FinalBalanceStep(s, first, t, done, a);
    }
  }

  lemma FinalTablesStep(s: State, first: map<Id, bool>, t: Id, done: bool)
    requires t in s.txs && s.txs[t].status == Processing
    ensures Final(Deliver(s, t, done), first).txs == Final(s, first[t := done]).txs
    ensures Final(Deliver(s, t, done), first).ledger == Final(s, first[t := done]).ledger
  {
    DeliverTxs(s, t, done);
  }

  /** Both give every row in flight the same verdict, or none. */
  ghost predicate SameVerdicts(s: State, first: map<Id, bool>, second: map<Id, bool>) {
    forall t | t in s.txs && s.txs[t].status == Processing
      :: (t in first <==> t in second) && (t in first ==> first[t] == second[t])
  }

  lemma SameSums(s: State, first: map<Id, bool>, second: map<Id, bool>)
    requires SameVerdicts(s, first, second)
    ensures Margins(s, first) == Margins(s, second)
    ensures forall a: Id :: Debits(s, first, a) == Debits(s, second, a)
  {
  }

  lemma SameTables(s: State, first: map<Id, bool>, second: map<Id, bool>)
    requires SameVerdicts(s, first, second)
    ensures Final(s, first).txs == Final(s, second).txs
    ensures Final(s, first).ledger == Final(s, second).ledger
  {
  }

  lemma SameBalances(s: State, first: map<Id, bool>, second: map<Id, bool>, a: Id)
    requires SameVerdicts(s, first, second) && a in s.accounts
    ensures FinalBalance(s, first, a) == FinalBalance(s, second, a)
  {
    SameSums(s, first, second);
  }

  /** Verdicts on rows that are not in flight do not matter. */
  lemma FinalAgrees(s: State, first: map<Id, bool>, second: map<Id, bool>)
    requires SameVerdicts(s, first, second)
    ensures Final(s, first) == Final(s, second)
  {
    SameTables(s, first, second);
    hide SameVerdicts, FinalRow, FinalEntry, FinalBalance;
    forall a | a in s.accounts
      ensures FinalBalance(s, first, a) == FinalBalance(s, second, a)
    {
      SameBalances(s, first, second, a);
    }
    assert Final(s, first).accounts == Final(s, second).accounts;
  }

  lemma FinalStep(s: State, first: map<Id, bool>, t: Id, done: bool)
    ensures Final(Deliver(s, t, done), first) == Final(s, first[t := done])
  {
    if t in s.txs && s.txs[t].status == Processing {
      DeliverAccounts(s, t, done);
      FinalAccountsStep(s, first, t, done);
      FinalTablesStep(s, first, t, done);
    } else {
      FinalAgrees(s, first, first[t := done]);
    }
  }

  lemma NothingLands(s: State)
    ensures Final(s, map[]) == s
  {
    assert Margins(s, map[]) == map[];
    forall a | a in s.accounts
      ensures FinalBalance(s, map[], a) == s.accounts[a].balance
    {
      assert Debits(s, map[], a) == map[];
    }
    assert Final(s, map[]).accounts == s.accounts;
    assert Final(s, map[]).txs == s.txs;
    assert Final(s, map[]).ledger == s.ledger;
  }

  /** Every finite list of deliveries, duplicated and reordered at will, ends in the closed form of
      its first verdicts: each send done is debited once, its margin credited once, its entries
      settled; each send failed only has its entries reversed; nothing else moves. */
  lemma {:induction false} DeliveriesLand(s: State, events: seq<Event>)
    requires Deliveries(events)
    ensures Run(s, events) == Final(s, First(events))
    decreases |events|
  {
    if events == [] {
      NothingLands(s);
    } else {
      DeliveriesLand(Step(s, events[0]), events[1..]);
      FinalStep(s, First(events[1..]), events[0].tx, events[0].done);
    }
  }

  /** Confluence: two delivery lists that agree on the first verdict of every send in flight leave
      the same balances, statuses and ledger. */
  lemma DeliveriesConfluent(s: State, one: seq<Event>, other: seq<Event>)
    requires Deliveries(one) && Deliveries(other)
    requires SameVerdicts(s, First(one), First(other))
    ensures Run(s, one) == Run(s, other)
  {
    DeliveriesLand(s, one);
    DeliveriesLand(s, other);
    FinalAgrees(s, First(one), First(other));
  }

  /** Redelivering a whole batch, in any order and any number of times, changes nothing. */
  lemma RedeliveryIsIdle(s: State, events: seq<Event>, again: seq<Event>)
    requires Deliveries(events) && Deliveries(again)
    requires forall i | 0 <= i < |again| :: again[i].tx in First(events)
    ensures Run(Run(s, events), again) == Run(s, events)
  {
    var s1 := Run(s, events);
    DeliveriesLand(s, events);
    DeliveriesLand(s1, again);
    FirstNames(again);
    NothingLands(s1);
    FinalAgrees(s1, First(again), map[]);
  }

  lemma {:induction false} FirstNames(events: seq<Event>)
    requires Deliveries(events)
    ensures forall t | t in First(events) :: exists i | 0 <= i < |events| :: events[i].tx == t
  {
    if events != [] {
      var rest := events[1..];
      FirstNames(rest);
      forall t | t in First(events)
        ensures exists i | 0 <= i < |events| :: events[i].tx == t
      {
        if t == events[0].tx {
          assert events[0].tx == t;
        } else {
          assert t in First(rest);
          var i :| 0 <= i < |rest| && rest[i].tx == t;
          assert events[i + 1].tx == t;
        }
      }
    }
  }
}
