/**
 * The monthly plan: activation, renewal from the balance when polled, trial and expiry.
 * Money in cents, time in seconds.
 */
module Subscription {

  import opened Wrappers

  const AMOUNT: int := 990
  const DAY: int := 86400
  const PERIOD: int := 30 * DAY
  const TRIAL: int := 24 * 3600

  datatype Status = ACTIVE | INACTIVE | EXPIRED

  /** A user's balance and subscription row. */
  datatype Account = Account(balance: int, status: Status, expires: Option<int>, autoRenew: bool, trialUsed: bool)

  datatype Op = Poll | Chat | PayBalance | PayCard(usable: bool) | Cancel | StartTrial | Grant | Deposit(amount: nat)

  predicate Overdue(a: Account, now: int) {
    a.status.ACTIVE? && a.expires.Some? && a.expires.value < now
  }

  /** Whether a poll renews. */
  predicate Renews(a: Account, now: int) {
    Overdue(a, now) && a.autoRenew && AMOUNT <= a.balance
  }

  /** Whether the trial starts. */
  predicate TrialStarts(a: Account) {
    !a.trialUsed && !a.status.ACTIVE?
  }

  function Activate(a: Account, until: int, autoRenew: bool): Account {
    a.(status := ACTIVE, expires := Some(until), autoRenew := autoRenew)
  }

  function Apply(a: Account, now: int, op: Op): Account {
    match op
    case Poll =>
      if Renews(a, now) then a.(balance := a.balance - AMOUNT, expires := Some(now + PERIOD))
      else if Overdue(a, now) then a.(status := EXPIRED)
      else a
    case Chat => if Overdue(a, now) then a.(status := EXPIRED) else a
    case PayBalance =>
      if a.balance < AMOUNT then a
      else Activate(a.(balance := a.balance - AMOUNT), now + PERIOD, true)
    case PayCard(usable) => if usable then Activate(a, now + PERIOD, true) else a
    case Cancel => if a.status.ACTIVE? then a.(autoRenew := false) else a
    case StartTrial => if TrialStarts(a) then Activate(a.(trialUsed := true), now + TRIAL, false) else a
    case Grant => Activate(a, now + PERIOD, false)
    case Deposit(amount) => a.(balance := a.balance + amount)
  }

  // ---------------------------------------------------------------- the objects

  class User {
    var balance: int

    constructor (balance: int)
      ensures this.balance == balance
    {
      this.balance := balance;
    }
  }

  class UserSubscription {
    const user: User
    var status: Status
    var expiresAt: Option<int>
    var autoRenew: bool
    var trialUsed: bool

    ghost function Value(): Account
      reads this, user
    {
      Account(user.balance, status, expiresAt, autoRenew, trialUsed)
    }

    /** The row made for a user who has none. */
    constructor (user: User)
      ensures this.user == user && Value() == Account(user.balance, INACTIVE, None, true, false)
    {
      this.user := user;
      status, expiresAt, autoRenew, trialUsed := INACTIVE, None, true, false;
    }

    method CheckExpiry(now: int)
      modifies this, user
      ensures Value() == Apply(old(Value()), now, Poll)
    {
      if status.ACTIVE? && expiresAt.Some? {
        if expiresAt.value < now {
          if autoRenew {
            if AMOUNT <= user.balance {
              user.balance := user.balance - AMOUNT;
              expiresAt := Some(now + PERIOD);
              return;
            }
          }
          status := EXPIRED;
        }
      }
    }

    /** The gate of the chat: it marks an overdue plan as expired without trying to renew it. */
    method RequireActive(now: int) returns (allowed: bool)
      modifies this
      ensures Value() == Apply(old(Value()), now, Chat)
      ensures allowed <==> old(status.ACTIVE? && !Overdue(Value(), now))
    {
      if !status.ACTIVE? { return false; }
      if expiresAt.Some? && expiresAt.value < now {
        status := EXPIRED;
        return false;
      }
      return true;
    }

    method SubscribeWithBalance(now: int) returns (ok: bool)
      modifies this, user
      ensures Value() == Apply(old(Value()), now, PayBalance)
      ensures ok <==> AMOUNT <= old(user.balance)
    {
      if user.balance < AMOUNT { return false; }
      user.balance := user.balance - AMOUNT;
      status, expiresAt, autoRenew := ACTIVE, Some(now + PERIOD), true;
      return true;
    }

    /** For a card that is on file and not blocked, or not. */
    method SubscribeWithCard(now: int, usable: bool) returns (ok: bool)
      modifies this
      ensures Value() == Apply(old(Value()), now, PayCard(usable)) && ok == usable
    {
      if !usable { return false; }
      status, expiresAt, autoRenew := ACTIVE, Some(now + PERIOD), true;
      return true;
    }

    method CancelSubscription(now: int) returns (ok: bool)
      modifies this
      ensures Value() == Apply(old(Value()), now, Cancel) && (ok <==> old(status).ACTIVE?)
    {
      if !status.ACTIVE? { return false; }
      autoRenew := false;
      return true;
    }

    method ActivateTrial(now: int) returns (ok: bool)
      modifies this
      ensures Value() == Apply(old(Value()), now, StartTrial) && (ok <==> TrialStarts(old(Value())))
    {
      if trialUsed { return false; }
      if status.ACTIVE? { return false; }
      status, expiresAt, autoRenew, trialUsed := ACTIVE, Some(now + TRIAL), false, true;
      return true;
    }

    method AdminGrant(now: int)
      modifies this
      ensures Value() == Apply(old(Value()), now, Grant)
    {
      status, expiresAt, autoRenew := ACTIVE, Some(now + PERIOD), false;
    }
  }

  // ---------------------------------------------------------------- runs

  datatype Timed = Timed(at: int, op: Op)

  function Run(a: Account, ops: seq<Timed>): Account
    decreases |ops|
  {
    if ops == [] then a else Run(Apply(a, ops[0].at, ops[0].op), ops[1..])
  }

  /** The clock never runs back. */
  predicate InOrder(clock: int, ops: seq<Timed>)
    decreases |ops|
  {
    ops == [] || (clock <= ops[0].at && InOrder(ops[0].at, ops[1..]))
  }

  /** A plan runs at most one period ahead, and one that is not active is over. */
  predicate Current(a: Account, clock: int) {
    && (a.status.ACTIVE? ==> a.expires.Some?)
    && (a.expires.Some? ==> a.expires.value <= clock + PERIOD)
    && (a.expires.Some? && !a.status.ACTIVE? ==> a.expires.value < clock)
  }

  predicate NotEarlier(before: Option<int>, after: Option<int>) {
    before.Some? ==> after.Some? && before.value <= after.value
  }

  lemma ApplyKeepsCurrent(a: Account, clock: int, now: int, op: Op)
    requires Current(a, clock) && clock <= now
    ensures Current(Apply(a, now, op), now) && NotEarlier(a.expires, Apply(a, now, op).expires)
  {
  }

  /** Over any run, whoever polls and whenever, the expiry date never moves back. */
  lemma {:induction false} ExpiryNeverMovesBack(a: Account, clock: int, ops: seq<Timed>)
    requires Current(a, clock) && InOrder(clock, ops)
    ensures NotEarlier(a.expires, Run(a, ops).expires)
    decreases |ops|
  {
    if ops != [] {
      ApplyKeepsCurrent(a, clock, ops[0].at, ops[0].op);
      ExpiryNeverMovesBack(Apply(a, ops[0].at, ops[0].op), ops[0].at, ops[1..]);
    }
  }

  /** The times at which the balance was charged for a renewal. */
  function RenewalTimes(a: Account, ops: seq<Timed>): seq<int>
    decreases |ops|
  {
    if ops == [] then []
    else
      var rest := RenewalTimes(Apply(a, ops[0].at, ops[0].op), ops[1..]);
      if ops[0].op.Poll? && Renews(a, ops[0].at) then [ops[0].at] + rest else rest
  }

  lemma {:induction false} RenewalsComeAfterExpiry(a: Account, clock: int, ops: seq<Timed>)
    requires Current(a, clock) && InOrder(clock, ops) && a.expires.Some?
    ensures forall i | 0 <= i < |RenewalTimes(a, ops)| :: a.expires.value < RenewalTimes(a, ops)[i]
    decreases |ops|
  {
    if ops != [] {
      ApplyKeepsCurrent(a, clock, ops[0].at, ops[0].op);
      RenewalsComeAfterExpiry(Apply(a, ops[0].at, ops[0].op), ops[0].at, ops[1..]);
    }
  }

  /** Successive automatic charges are more than thirty days apart. */
  lemma {:induction false} RenewalsAreFarApart(a: Account, clock: int, ops: seq<Timed>)
    requires Current(a, clock) && InOrder(clock, ops)
    ensures forall i, j | 0 <= i < j < |RenewalTimes(a, ops)| ::
      RenewalTimes(a, ops)[i] + PERIOD < RenewalTimes(a, ops)[j]
    decreases |ops|
  {
    if ops != [] {
      var b, now := Apply(a, ops[0].at, ops[0].op), ops[0].at;
      ApplyKeepsCurrent(a, clock, now, ops[0].op);
      RenewalsAreFarApart(b, now, ops[1..]);
      if ops[0].op.Poll? && Renews(a, now) {
        RenewalsComeAfterExpiry(b, now, ops[1..]);
        assert RenewalTimes(a, ops) == [now] + RenewalTimes(b, ops[1..]);
      }
    }
  }

  function TrialStartsIn(a: Account, ops: seq<Timed>): nat
    decreases |ops|
  {
    if ops == [] then 0
    else (if ops[0].op.StartTrial? && TrialStarts(a) then 1 else 0) + TrialStartsIn(Apply(a, ops[0].at, ops[0].op), ops[1..])
  }

  /** The trial starts at most once in a run, and never again after it was used. */
  lemma {:induction false} TrialStartsOnce(a: Account, ops: seq<Timed>)
    ensures TrialStartsIn(a, ops) <= if a.trialUsed then 0 else 1
    decreases |ops|
  {
    if ops != [] {
      TrialStartsOnce(Apply(a, ops[0].at, ops[0].op), ops[1..]);
    }
  }

  /** Activations and renewals paid from the balance. */
  function Charges(a: Account, ops: seq<Timed>): nat
    decreases |ops|
  {
    if ops == [] then 0
    else
      (if ops[0].op.PayBalance? && AMOUNT <= a.balance then 1 else 0) + Charges(Apply(a, ops[0].at, ops[0].op), ops[1..])
      + if ops[0].op.Poll? && Renews(a, ops[0].at) then 1 else 0
  }

  function Deposits(ops: seq<Timed>): nat
    decreases |ops|
  {
    if ops == [] then 0 else (if ops[0].op.Deposit? then ops[0].op.amount else 0) + Deposits(ops[1..])
  }

  /** The balance falls by exactly the price of each charge, and never below zero. */
  lemma {:induction false} BalancePaysForCharges(a: Account, ops: seq<Timed>)
    ensures Run(a, ops).balance == a.balance + Deposits(ops) - AMOUNT * Charges(a, ops)
    ensures a.balance >= 0 ==> Run(a, ops).balance >= 0
    decreases |ops|
  {
    if ops != [] {
      BalancePaysForCharges(Apply(a, ops[0].at, ops[0].op), ops[1..]);
    }
  }

  // ---------------------------------------------------------------- polls and chats on an overdue plan

  /** Opening the chat on an overdue plan ends it: the renewal that a poll would have made at that
      moment is not made by any later poll. */
  lemma ChatPreventsRenewal(a: Account, now: int, later: int)
    requires Renews(a, now)
    ensures Apply(a, now, Poll) == a.(balance := a.balance - AMOUNT, expires := Some(now + PERIOD))
    ensures Apply(Apply(a, now, Chat), later, Poll) == a.(status := EXPIRED)
  {
  }

  /** The requests of a user who just uses the site, with money coming in. */
  predicate JustVisits(ops: seq<Timed>) {
    forall i | 0 <= i < |ops| :: ops[i].op.Poll? || ops[i].op.Chat? || ops[i].op.Deposit?
  }

  /** The first poll or chat after the expiry date. */
  function FirstLate(expiry: int, ops: seq<Timed>): (j: nat)
    ensures j <= |ops|
    ensures j < |ops| ==> !ops[j].op.Deposit? && expiry < ops[j].at
    ensures forall i | 0 <= i < j :: ops[i].op.Deposit? || ops[i].at <= expiry
    decreases |ops|
  {
    if ops == [] then 0
    else if !ops[0].op.Deposit? && expiry < ops[0].at then 0
    else FirstLate(expiry, ops[1..]) + 1
  }

  lemma {:induction false} ExpiredStaysExpired(a: Account, ops: seq<Timed>)
    requires a.status.EXPIRED? && JustVisits(ops)
    ensures RenewalTimes(a, ops) == [] && Run(a, ops) == a.(balance := a.balance + Deposits(ops))
    decreases |ops|
  {
    if ops != [] {
      ExpiredStaysExpired(Apply(a, ops[0].at, ops[0].op), ops[1..]);
    }
  }

  /** Whether a plan set to renew is ever renewed is decided by the first visit after its expiry date: it
      has to be a poll, and the balance of that moment has to cover the price. If that visit opens the
      chat, the plan is over, however many polls follow and whatever the balance. */
  lemma {:induction false} FirstLateVisitDecides(a: Account, expiry: int, ops: seq<Timed>)
    requires a.status.ACTIVE? && a.autoRenew && a.expires == Some(expiry) && JustVisits(ops)
    ensures var j := FirstLate(expiry, ops);
      && (RenewalTimes(a, ops) != [] <==> j < |ops| && ops[j].op.Poll? && AMOUNT <= a.balance + Deposits(ops[..j]))
      && (RenewalTimes(a, ops) != [] ==> RenewalTimes(a, ops)[0] == ops[j].at)
      && (Run(a, ops).status.ACTIVE? ==> j == |ops| || RenewalTimes(a, ops) != [])
    decreases |ops|
  {
    if ops != [] {
      var b := Apply(a, ops[0].at, ops[0].op);
      var j := FirstLate(expiry, ops);
      if j == 0 {
        if !b.status.ACTIVE? { ExpiredStaysExpired(b, ops[1..]); }
      } else {
        FirstLateVisitDecides(b, expiry, ops[1..]);
        if j < |ops| {
          assert ops[..j] == [ops[0]] + ops[1..][..j - 1];
        }
      }
    }
  }

  /** A chat right before a poll changes what the poll does exactly when the poll would renew. */
  lemma ChatMattersExactly(a: Account, now: int)
    ensures Apply(Apply(a, now, Chat), now, Poll) == Apply(a, now, Poll) <==> !Renews(a, now)
  {
    if Renews(a, now) {
      ChatPreventsRenewal(a, now, now);
    }
  }

  /** The same over a whole run: opening the chat ahead of it takes renewals away exactly when the plan is
      overdue by then and the first late visit of the run is a poll that the balance covers. */
  lemma ChatFirstMattersExactly(a: Account, expiry: int, now: int, ops: seq<Timed>)
    requires a.status.ACTIVE? && a.autoRenew && a.expires == Some(expiry) && JustVisits(ops)
    ensures var j := FirstLate(expiry, ops);
      RenewalTimes(a, [Timed(now, Chat)] + ops) != RenewalTimes(a, ops)
      <==> expiry < now && j < |ops| && ops[j].op.Poll? && AMOUNT <= a.balance + Deposits(ops[..j])
  {
    assert ([Timed(now, Chat)] + ops)[1..] == ops;
    FirstLateVisitDecides(a, expiry, ops);
    if expiry < now {
      ExpiredStaysExpired(Apply(a, now, Chat), ops);
    }
  }

  // ---------------------------------------------------------------- what a plan gives, and what it takes

  /** Whether the chat lets a user in. */
  predicate LetsIn(a: Account, now: int) {
    a.status.ACTIVE? && (a.expires.Some? ==> now <= a.expires.value)
  }

  /** A plan paid from the balance costs 9.90, lets its user in until thirty days later and renews itself;
      without the money nothing happens. */
  lemma PaidPlan(a: Account, now: int, later: int)
    ensures var b := Apply(a, now, PayBalance);
      if a.balance >= 990 then
        && b.balance == a.balance - 990 && b.autoRenew && b.trialUsed == a.trialUsed
        && (LetsIn(b, later) <==> later <= now + 30 * 86400)
        && b.status.ACTIVE? && b.expires.Some?
      else b == a
  {
  }

  /** A plan paid by card is the same and leaves the balance alone; with a card that cannot be used nothing
      happens. */
  lemma CardPlan(a: Account, now: int, usable: bool, later: int)
    ensures var b := Apply(a, now, PayCard(usable));
      if usable then
        && b.balance == a.balance && b.autoRenew && b.trialUsed == a.trialUsed
        && (LetsIn(b, later) <==> later <= now + 30 * 86400) && b.status.ACTIVE? && b.expires.Some?
      else b == a
  {
  }

  /** The trial is free, lasts a day, does not renew itself and is used up; it starts for nobody who used it or
      has a plan. A plan granted by an administrator is free, lasts thirty days and does not renew itself. */
  lemma FreePlans(a: Account, now: int, later: int)
    ensures var b := Apply(a, now, StartTrial);
      if !a.trialUsed && !a.status.ACTIVE? then
        && b.balance == a.balance && !b.autoRenew && b.trialUsed
        && (LetsIn(b, later) <==> later <= now + 86400) && b.status.ACTIVE? && b.expires.Some?
      else b == a
    ensures var b := Apply(a, now, Grant);
      && b.balance == a.balance && !b.autoRenew && b.trialUsed == a.trialUsed
      && (LetsIn(b, later) <==> later <= now + 30 * 86400) && b.status.ACTIVE? && b.expires.Some?
  {
  }

  /** A poll, in full: an overdue plan that renews itself and can be paid is charged 9.90 and lets its user in
      for thirty days more; any other overdue plan ends; one that is not overdue stays. The chat only ends. */
  lemma VisitAnswer(a: Account, now: int, later: int)
    ensures var b, overdue := Apply(a, now, Poll), a.status.ACTIVE? && !LetsIn(a, now);
      if !overdue then b == a
      else if a.autoRenew && a.balance >= 990 then
        && b == a.(balance := a.balance - 990, expires := b.expires) && b.expires.Some?
        && (LetsIn(b, later) <==> later <= now + 30 * 86400)
      else b == a.(status := EXPIRED)
    ensures Apply(a, now, Chat) == if a.status.ACTIVE? && !LetsIn(a, now) then a.(status := EXPIRED) else a
  {
  }

  /** Cancelling keeps what was paid for and only stops the renewal of a plan that is active; a deposit only
      adds money. */
  lemma CancelKeepsPeriod(a: Account, now: int, amount: nat)
    ensures Apply(a, now, Cancel) == if a.status.ACTIVE? then a.(autoRenew := false) else a
    ensures Apply(a, now, Deposit(amount)) == a.(balance := a.balance + amount)
  {
  }
}
