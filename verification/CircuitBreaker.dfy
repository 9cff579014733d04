/**
 * The circuit breaker in front of the payment gateway, against the history of what happened to it.
 */
module CircuitBreaker {

  import opened Wrappers

  datatype Event = Success | Failure(at: int) | Query(at: int)

  // ---------------------------------------------------------------- the history

  /** Failures since the last success. */
  function FailuresInARow(history: seq<Event>): nat
    decreases |history|
  {
    if history == [] then 0
    else
      var n := |history| - 1;
      match history[n]
      case Success => 0
      case Failure(_) => FailuresInARow(history[..n]) + 1
      case Query(_) => FailuresInARow(history[..n])
  }

  /** The time of the last failure; 0 before any. */
  function LastFailure(history: seq<Event>): int
    decreases |history|
  {
    if history == [] then 0
    else
      var n := |history| - 1;
      if history[n].Failure? then history[n].at else LastFailure(history[..n])
  }

  /** What the breaker promises: requests pass while the failures in a row stay below the threshold,
      and again once the recovery time has passed since the last failure. */
  predicate Permits(history: seq<Event>, threshold: int, recovery: int, now: int) {
    FailuresInARow(history) == 0 || FailuresInARow(history) < threshold || recovery <= now - LastFailure(history)
  }

  lemma OneMore(history: seq<Event>, e: Event)
    ensures FailuresInARow(history + [e])
         == match e case Success => 0 case Failure(_) => FailuresInARow(history) + 1 case Query(_) => FailuresInARow(history)
    ensures LastFailure(history + [e]) == if e.Failure? then e.at else LastFailure(history)
  {
    assert (history + [e])[..|history|] == history;
  }

  // ---------------------------------------------------------------- the breaker

  /** How a request ends: the last answer of the gateway, or none if its last attempt was rejected. */
  function LastResponse(history: seq<Event>, tries: seq<Try>, threshold: int, recovery: int): Option<Response>
    decreases |tries|
  {
    if tries == [] then None
    else
      var h := AfterTry(history, tries[0], threshold, recovery);
      if TriedAgain(history, tries[0], threshold, recovery) && |tries| > 1
      then LastResponse(h, tries[1..], threshold, recovery)
      else if Permits(history, threshold, recovery, tries[0].at) then Some(tries[0].response)
      else None
  }

  datatype Circuit = Closed | Open | HalfOpen

  datatype Response = Answer | UnreadableAnswer | ServerError | ClientError | Timeout | NetworkError | OtherError

  /** What the gateway would do with an attempt, and when. */
  datatype Try = Try(at: int, response: Response, answered: int)

  const MAX_ATTEMPTS: nat := 3

  /** Attempts follow one another in time. */
  predicate InOrder(clock: int, tries: seq<Try>)
    decreases |tries|
  {
    tries != [] ==> clock <= tries[0].at <= tries[0].answered && InOrder(tries[0].answered, tries[1..])
  }

  /** What an attempt that reaches the gateway adds to the history. */
  function Recorded(response: Response, answered: int): seq<Event> {
    match response
    case Answer => [Success]
    case UnreadableAnswer => [Success, Failure(answered)]
    case ClientError => []
    case _ => [Failure(answered)]
  }

  function AfterTry(history: seq<Event>, t: Try, threshold: int, recovery: int): seq<Event> {
    history + [Query(t.at)] + if Permits(history, threshold, recovery, t.at) then Recorded(t.response, t.answered) else []
  }

  /** A rejection by the breaker is a connection error, and is tried again like one. */
  predicate TriedAgain(history: seq<Event>, t: Try, threshold: int, recovery: int) {
    Permits(history, threshold, recovery, t.at) ==> t.response.Timeout? || t.response.NetworkError?
  }

  /** The history after a request, tried as long as attempts are left and the last one is to be tried again. */
  function AfterRequest(history: seq<Event>, tries: seq<Try>, threshold: int, recovery: int): seq<Event>
    decreases |tries|
  {
    if tries == [] then history
    else
      var h := AfterTry(history, tries[0], threshold, recovery);
      if TriedAgain(history, tries[0], threshold, recovery) then AfterRequest(h, tries[1..], threshold, recovery) else h
  }

  lemma EarlierClock(clock: int, later: int, tries: seq<Try>)
    requires clock <= later && InOrder(later, tries)
    ensures InOrder(clock, tries)
  {
  }

  class Breaker {
    const threshold: int
    const recovery: int
    var failureCount: nat
    var lastFailureTime: int
    var circuit: Circuit
    /** Everything that happened so far, and the latest time seen. */
    ghost var history: seq<Event>
    ghost var clock: int

    ghost predicate Valid()
      reads this
    {
      && failureCount == FailuresInARow(history)
      && lastFailureTime == LastFailure(history)
      && (circuit.Closed? <==> failureCount == 0 || failureCount < threshold)
      && (circuit.HalfOpen? ==> recovery <= clock - lastFailureTime)
    }

    constructor (threshold: int, recovery: int)
      ensures Valid() && history == [] && this.threshold == threshold && this.recovery == recovery
    {
      this.threshold, this.recovery := threshold, recovery;
      failureCount, lastFailureTime, circuit := 0, 0, Closed;
      history := [];
    }

    /** Reading the state can change it: an open circuit becomes half open. */
    method State(now: int) returns (current: Circuit)
      requires Valid() && clock <= now
      modifies this
      ensures Valid() && clock == now && history == old(history) + [Query(now)]
      ensures current == circuit && (current.Open? <==> !Permits(old(history), threshold, recovery, now))
    {
      OneMore(history, Query(now));
      history, clock := history + [Query(now)], now;
      if circuit.Open? && recovery <= now - lastFailureTime { circuit := HalfOpen; }
      current := circuit;
    }

    method AllowRequest(now: int) returns (allowed: bool)
      requires Valid() && clock <= now
      modifies this
      ensures Valid() && clock == now && history == old(history) + [Query(now)]
      ensures allowed <==> Permits(old(history), threshold, recovery, now)
    {
      var current := State(now);
      allowed := current.Closed? || current.HalfOpen?;
    }

    method RecordSuccess()
      requires Valid()
      modifies this
      ensures Valid() && clock == old(clock) && history == old(history) + [Success]
    {
      OneMore(history, Success);
      history := history + [Success];
      failureCount, circuit := 0, Closed;
    }

    method RecordFailure(now: int)
      requires Valid() && clock <= now
      modifies this
      ensures Valid() && clock == now && history == old(history) + [Failure(now)]
    {
      OneMore(history, Failure(now));
      history, clock := history + [Failure(now)], now;
      failureCount := failureCount + 1;
      lastFailureTime := now;
      if threshold <= failureCount { circuit := Open; }
    }

    /** One attempt at the gateway. A rejected attempt never reaches it; an answer that cannot be read
        counts as a success and then as a failure; a refusal by the gateway counts as neither. */
    method Attempt(t: Try) returns (sent: bool)
      requires Valid() && clock <= t.at <= t.answered
      modifies this
      ensures Valid() && t.at <= clock <= t.answered
      ensures sent <==> Permits(old(history), threshold, recovery, t.at)
      ensures history == AfterTry(old(history), t, threshold, recovery)
    {
      sent := AllowRequest(t.at);
      if !sent { return; }
      match t.response
      case ClientError =>
      case Answer => RecordSuccess();
      case UnreadableAnswer =>
        RecordSuccess();
        RecordFailure(t.answered);
      case ServerError | Timeout | NetworkError | OtherError => RecordFailure(t.answered);
    }

    /** A request: three attempts at most, going on after a rejection, a timeout or a network error. */
    method Request(tries: seq<Try>) returns (response: Option<Response>)
      requires Valid() && |tries| == MAX_ATTEMPTS && InOrder(clock, tries)
      modifies this
      ensures Valid() && history == AfterRequest(old(history), tries, threshold, recovery)
      ensures response == LastResponse(old(history), tries, threshold, recovery)
    {
      response := None;
      ghost var h := history;
      for k := 0 to MAX_ATTEMPTS
        invariant Valid() && InOrder(clock, tries[k..])
        invariant AfterRequest(history, tries[k..], threshold, recovery) == AfterRequest(h, tries, threshold, recovery)
        invariant k < MAX_ATTEMPTS ==>
          LastResponse(history, tries[k..], threshold, recovery) == LastResponse(h, tries, threshold, recovery)
        invariant k == MAX_ATTEMPTS ==> response == LastResponse(h, tries, threshold, recovery)
      {
        assert tries[k..][0] == tries[k] && tries[k..][1..] == tries[k + 1..];
        var sent := Attempt(tries[k]);
        EarlierClock(clock, tries[k].answered, tries[k + 1..]);
        response := if sent then Some(tries[k].response) else None;
        if sent && !tries[k].response.Timeout? && !tries[k].response.NetworkError? { return; }
      }
    }
  }

  // ---------------------------------------------------------------- what the promise means

  /** A run of failures, with queries in between and no success, of length at least one and the
      threshold shuts the breaker until the recovery time has passed since the last failure. */
  lemma ShutExactlyDuringRecovery(history: seq<Event>, at: int, threshold: int, recovery: int, now: int)
    requires FailuresInARow(history) + 1 >= threshold
    ensures Permits(history + [Failure(at)], threshold, recovery, now) <==> recovery <= now - at
  {
    OneMore(history, Failure(at));
  }

  /** Queries never change what the breaker permits. */
  lemma {:induction false} QueriesDoNotCount(history: seq<Event>, queries: seq<Event>, threshold: int, recovery: int, now: int)
    requires forall i | 0 <= i < |queries| :: queries[i].Query?
    ensures Permits(history + queries, threshold, recovery, now) == Permits(history, threshold, recovery, now)
    decreases |queries|
  {
    if queries == [] {
      assert history + queries == history;
    } else {
      var n := |queries| - 1;
      QueriesDoNotCount(history, queries[..n], threshold, recovery, now);
      OneMore(history + queries[..n], queries[n]);
      assert history + queries == history + queries[..n] + [queries[n]];
    }
  }

  /** While the breaker is shut nothing is sent: a request all of whose attempts fall into the recovery
      time leaves nothing in the history but queries, however often it is tried again. */
  lemma {:induction false} ShutSendsNothing(history: seq<Event>, tries: seq<Try>, threshold: int, recovery: int)
    requires 0 < FailuresInARow(history) && threshold <= FailuresInARow(history)
    requires forall i | 0 <= i < |tries| :: tries[i].at - LastFailure(history) < recovery
    ensures LastResponse(history, tries, threshold, recovery) == None
    ensures FailuresInARow(AfterRequest(history, tries, threshold, recovery)) == FailuresInARow(history)
    ensures LastFailure(AfterRequest(history, tries, threshold, recovery)) == LastFailure(history)
    decreases |tries|
  {
    if tries != [] {
      var h := AfterTry(history, tries[0], threshold, recovery);
      assert h == history + [Query(tries[0].at)];
      OneMore(history, Query(tries[0].at));
      ShutSendsNothing(h, tries[1..], threshold, recovery);
    }
  }

  lemma TryCounts(history: seq<Event>, t: Try, threshold: int, recovery: int)
    ensures var n, after := FailuresInARow(history), FailuresInARow(AfterTry(history, t, threshold, recovery));
      if !Permits(history, threshold, recovery, t.at) then after == n
      else match t.response
        case Answer => after == 0
        case UnreadableAnswer => after == 1
        case ClientError => after == n
        case _ => after == n + 1
  {
    var asked := history + [Query(t.at)];
    OneMore(history, Query(t.at));
    OneMore(asked, Success);
    OneMore(asked, Failure(t.answered));
    OneMore(asked + [Success], Failure(t.answered));
    assert asked + [Success] + [Failure(t.answered)] == asked + [Success, Failure(t.answered)];
    assert asked + [] == asked;
  }

  /** What a request leaves behind: no failures if it ends with a readable answer, one if the answer
      cannot be read; otherwise those before it, and at most one more for each attempt. */
  lemma {:induction false} RequestCounts(history: seq<Event>, tries: seq<Try>, threshold: int, recovery: int)
    ensures var n, after := FailuresInARow(history), FailuresInARow(AfterRequest(history, tries, threshold, recovery));
      match LastResponse(history, tries, threshold, recovery)
      case Some(Answer) => after == 0
      case Some(UnreadableAnswer) => after == 1
      case _ => n <= after <= n + |tries|
    decreases |tries|
  {
    if tries != [] {
      hide AfterTry, FailuresInARow, Permits;
      var h := AfterTry(history, tries[0], threshold, recovery);
      TryCounts(history, tries[0], threshold, recovery);
      RequestCounts(h, tries[1..], threshold, recovery);
      assert |tries| == 1 ==> tries[1..] == [];
    }
  }

  function FailuresIn(events: seq<Event>): nat
    decreases |events|
  {
    if events == [] then 0
    else FailuresIn(events[..|events| - 1]) + if events[|events| - 1].Failure? then 1 else 0
  }

  lemma {:induction false} SuccessForgets(before: seq<Event>, since: seq<Event>)
    requires Success !in since
    ensures FailuresInARow(before + [Success] + since) == FailuresIn(since)
    decreases |since|
  {
    if since == [] {
      assert before + [Success] + since == before + [Success];
      OneMore(before, Success);
    } else {
      var n := |since| - 1;
      SuccessForgets(before, since[..n]);
      OneMore(before + [Success] + since[..n], since[n]);
      assert before + [Success] + since == before + [Success] + since[..n] + [since[n]];
    }
  }

  lemma {:induction false} LastFailureIsRecent(before: seq<Event>, since: seq<Event>)
    requires FailuresIn(since) > 0
    ensures LastFailure(before + since) == LastFailure(since)
    decreases |since|
  {
    var n := |since| - 1;
    assert (before + since)[..|before + since| - 1] == before + since[..n];
    if !since[n].Failure? {
      LastFailureIsRecent(before, since[..n]);
    }
  }

  /** A success makes the breaker forget: what is permitted afterwards is what a new breaker would permit
      that had seen only what came since. */
  lemma SuccessStartsAfresh(before: seq<Event>, since: seq<Event>, threshold: int, recovery: int, now: int)
    requires Success !in since
    ensures Permits(before + [Success] + since, threshold, recovery, now) == Permits(since, threshold, recovery, now)
  {
    SuccessForgets(before, since);
    FailuresAreAll(since);
    if FailuresIn(since) > 0 {
      LastFailureIsRecent(before + [Success], since);
    }
  }

  lemma {:induction false} FailuresAreAll(since: seq<Event>)
    requires Success !in since
    ensures FailuresInARow(since) == FailuresIn(since)
    decreases |since|
  {
    if since != [] {
      FailuresAreAll(since[..|since| - 1]);
    }
  }

  /** Below the threshold everything is permitted, whenever it is asked. */
  lemma BelowThresholdPermits(history: seq<Event>, threshold: int, recovery: int, now: int)
    requires FailuresInARow(history) < threshold
    ensures Permits(history, threshold, recovery, now)
  {
  }

  /** How many attempts a request makes: it goes on from one that the breaker rejects, that times out or that
      meets a network error, as long as there is another; any other answer ends it. */
  function Attempts(history: seq<Event>, tries: seq<Try>, threshold: int, recovery: int): nat
    decreases |tries|
  {
    if tries == [] then 0
    else 1 + Attempts(AfterTry(history, tries[0], threshold, recovery),
                      if TriedAgain(history, tries[0], threshold, recovery) then tries[1..] else [], threshold, recovery)
  }

  function Queries(history: seq<Event>): nat
    decreases |history|
  {
    if history == [] then 0
    else Queries(history[..|history| - 1]) + if history[|history| - 1].Query? then 1 else 0
  }

  lemma OneMoreQuery(history: seq<Event>, e: Event)
    ensures Queries(history + [e]) == Queries(history) + if e.Query? then 1 else 0
  {
    assert (history + [e])[..|history|] == history;
  }

  lemma TryQueries(history: seq<Event>, t: Try, threshold: int, recovery: int)
    ensures Queries(AfterTry(history, t, threshold, recovery)) == Queries(history) + 1
  {
    var asked := history + [Query(t.at)];
    OneMoreQuery(history, Query(t.at));
    OneMoreQuery(asked, Success);
    OneMoreQuery(asked, Failure(t.answered));
    OneMoreQuery(asked + [Success], Failure(t.answered));
    assert asked + [Success] + [Failure(t.answered)] == asked + [Success, Failure(t.answered)];
    assert asked + [] == asked;
  }

  /** The attempts of a request are the questions its breaker was asked. */
  lemma {:induction false} AttemptsAreQueries(history: seq<Event>, tries: seq<Try>, threshold: int, recovery: int)
    ensures Queries(AfterRequest(history, tries, threshold, recovery)) == Queries(history) + Attempts(history, tries, threshold, recovery)
    ensures Attempts(history, tries, threshold, recovery) <= |tries|
    decreases |tries|
  {
    if tries != [] {
      TryQueries(history, tries[0], threshold, recovery);
      hide AfterTry, TriedAgain, Queries;
      AttemptsAreQueries(AfterTry(history, tries[0], threshold, recovery), tries[1..], threshold, recovery);
    }
  }

  /** A second attempt is made exactly when the first one did not reach the gateway, timed out or met a network
      error, and another one is left. */
  lemma SecondAttemptExactly(history: seq<Event>, tries: seq<Try>, threshold: int, recovery: int)
    requires tries != []
    ensures Attempts(history, tries, threshold, recovery) > 1 <==>
      |tries| > 1 && (!Permits(history, threshold, recovery, tries[0].at) || tries[0].response.Timeout? || tries[0].response.NetworkError?)
    ensures MAX_ATTEMPTS == 3
  {
    hide AfterTry;
    if |tries| == 1 { assert tries[1..] == []; }
  }

  function AfterTries(history: seq<Event>, tries: seq<Try>, threshold: int, recovery: int): seq<Event>
    decreases |tries|
  {
    if tries == [] then history else AfterTries(AfterTry(history, tries[0], threshold, recovery), tries[1..], threshold, recovery)
  }

  /** A request ends as its last attempt did: with what the gateway answered it, or with nothing if the breaker
      rejected it. */
  lemma {:induction false} LastAttemptDecides(history: seq<Event>, tries: seq<Try>, threshold: int, recovery: int)
    requires tries != []
    ensures 1 <= Attempts(history, tries, threshold, recovery) <= |tries|
    ensures var last := Attempts(history, tries, threshold, recovery) - 1;
      var before := AfterTries(history, tries[..last], threshold, recovery);
      LastResponse(history, tries, threshold, recovery)
      == if Permits(before, threshold, recovery, tries[last].at) then Some(tries[last].response) else None
    decreases |tries|
  {
    var h, rest := AfterTry(history, tries[0], threshold, recovery), tries[1..];
    hide AfterTry, Permits, TriedAgain;
    if TriedAgain(history, tries[0], threshold, recovery) && rest != [] {
      LastAttemptDecides(h, rest, threshold, recovery);
      var n := Attempts(h, rest, threshold, recovery);
      assert tries[..n] == [tries[0]] + rest[..n - 1];
    } else {
      assert tries[..0] == [];
      assert Attempts(h, [], threshold, recovery) == 0;
    }
  }
}
