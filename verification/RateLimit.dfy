/**
 * The sliding-window rate limiter: a store of timestamp queues, one for each client.
 */
module RateLimit {

  // ---------------------------------------------------------------- admissions in a window

  predicate Ascending(h: seq<int>) {
    forall i, j | 0 <= i <= j < |h| :: h[i] <= h[j]
  }

  /** How many admissions happened from a time to another, both included. */
  function Between(h: seq<int>, from: int, to: int): (n: nat)
    ensures n <= |h|
    decreases |h|
  {
    if h == [] then 0
    else (if from <= h[0] <= to then 1 else 0) + Between(h[1..], from, to)
  }

  /** The queue without its expired front. */
  function Evict(h: seq<int>, cutoff: int): seq<int>
    decreases |h|
  {
    if h != [] && h[0] < cutoff then Evict(h[1..], cutoff) else h
  }

  /** Admissions in the closed interval as long as the window that starts at t. */
  function WindowFrom(h: seq<int>, t: int, window: nat): nat {
    Between(h, t, t + window)
  }

  /** In any closed interval as long as the window there are at most max admissions. */
  ghost predicate Limited(h: seq<int>, max: nat, window: nat) {
    forall t :: WindowFrom(h, t, window) <= max
  }

  lemma {:induction false} AllBetween(h: seq<int>, from: int, to: int)
    requires forall i | 0 <= i < |h| :: from <= h[i] <= to
    ensures Between(h, from, to) == |h|
    decreases |h|
  {
    if h != [] {
      AllBetween(h[1..], from, to);
    }
  }

  /** What eviction leaves of an ascending history is exactly what lies in the window. */
  lemma {:induction false} EvictedAreOutside(h: seq<int>, cutoff: int, now: int)
    requires Ascending(h) && forall i | 0 <= i < |h| :: h[i] <= now
    ensures |Evict(h, cutoff)| == Between(h, cutoff, now)
    decreases |h|
  {
    if h != [] && h[0] < cutoff {
      EvictedAreOutside(h[1..], cutoff, now);
    } else {
      AllBetween(h, cutoff, now);
    }
  }

  /** Evicting twice, with a later cutoff, is evicting once with the later one. */
  lemma {:induction false} EvictTwice(h: seq<int>, early: int, late: int)
    requires early <= late
    ensures Evict(Evict(h, early), late) == Evict(h, late)
    decreases |h|
  {
    if h != [] && h[0] < early {
      EvictTwice(h[1..], early, late);
    }
  }

  lemma {:induction false} BetweenAppend(h: seq<int>, now: int, from: int, to: int)
    ensures Between(h + [now], from, to) == Between(h, from, to) + if from <= now <= to then 1 else 0
    decreases |h|
  {
    if h == [] {
      assert h + [now] == [now];
    } else {
      assert (h + [now])[1..] == h[1..] + [now];
      BetweenAppend(h[1..], now, from, to);
    }
  }

  lemma {:induction false} BetweenNarrower(h: seq<int>, from: int, early: int, to: int, late: int)
    requires from >= early && forall i | 0 <= i < |h| :: h[i] <= late
    ensures Between(h, from, to) <= Between(h, early, late)
    decreases |h|
  {
    if h != [] {
      BetweenNarrower(h[1..], from, early, to, late);
    }
  }

  /** One more admission, made while the window held fewer than max, keeps every interval limited. */
  lemma AdmissionKeepsLimit(h: seq<int>, now: int, max: nat, window: nat)
    requires Limited(h, max, window) && forall i | 0 <= i < |h| :: h[i] <= now
    requires Between(h, now - window, now) < max
    ensures Limited(h + [now], max, window)
  {
    forall t
      ensures WindowFrom(h + [now], t, window) <= max
    {
      BetweenAppend(h, now, t, t + window);
      assert WindowFrom(h, t, window) <= max;
      if t <= now <= t + window {
        BetweenNarrower(h, t, now - window, t + window, now);
      }
    }
  }

  lemma {:induction false} EvictAppend(h: seq<int>, now: int, cutoff: int)
    requires cutoff <= now
    ensures Evict(h + [now], cutoff) == Evict(h, cutoff) + [now]
    decreases |h|
  {
    if h == [] {
      assert h + [now] == [now];
    } else {
      assert (h + [now])[1..] == h[1..] + [now];
      EvictAppend(h[1..], now, cutoff);
    }
  }

  // ---------------------------------------------------------------- the store

  /** The history of a client obeys the limit up to a time, and its queue is the recent end of it. */
  ghost predicate Tracks(h: seq<int>, queue: seq<int>, clock: int, max: nat, window: nat) {
    && Ascending(h) && (forall i | 0 <= i < |h| :: h[i] <= clock)
    && Limited(h, max, window)
    && IsRecent(h, queue, clock - window)
  }

  /** The queue is the history without some front, cut no later than given. */
  ghost predicate IsRecent(h: seq<int>, queue: seq<int>, latest: int) {
    exists cutoff :: IsEnd(h, queue, cutoff, latest)
  }

  ghost predicate IsEnd(h: seq<int>, queue: seq<int>, cutoff: int, latest: int) {
    cutoff <= latest && queue == Evict(h, cutoff)
  }

  lemma TracksNothing(clock: int, max: nat, window: nat)
    ensures Tracks([], [], clock, max, window)
  {
    assert IsEnd([], [], clock - window, clock - window);
    assert forall t :: WindowFrom([], t, window) == 0;
  }

  lemma TracksLater(h: seq<int>, queue: seq<int>, clock: int, now: int, max: nat, window: nat)
    requires Tracks(h, queue, clock, max, window) && clock <= now
    ensures Tracks(h, queue, now, max, window)
  {
    var cutoff :| IsEnd(h, queue, cutoff, clock - window);
    assert IsEnd(h, queue, cutoff, now - window);
  }

  lemma EvictRecent(h: seq<int>, queue: seq<int>, latest: int, cutoff: int)
    requires IsRecent(h, queue, latest) && latest <= cutoff
    ensures Evict(queue, cutoff) == Evict(h, cutoff)
    ensures IsRecent(h, Evict(queue, cutoff), cutoff)
  {
    hide Evict;
    var early :| IsEnd(h, queue, early, latest);
    EvictTwice(h, early, cutoff);
    assert IsEnd(h, Evict(queue, cutoff), cutoff, cutoff);
  }

  lemma AppendRecent(h: seq<int>, now: int, cutoff: int)
    requires cutoff <= now
    ensures IsRecent(h + [now], Evict(h, cutoff) + [now], cutoff)
  {
    EvictAppend(h, now, cutoff);
    assert IsEnd(h + [now], Evict(h, cutoff) + [now], cutoff, cutoff);
  }

  lemma AppendAscends(h: seq<int>, now: int)
    requires Ascending(h) && forall i | 0 <= i < |h| :: h[i] <= now
    ensures Ascending(h + [now]) && forall i | 0 <= i <= |h| :: (h + [now])[i] <= now
  {
  }

  /** What a request does to a history and its queue. */
  lemma RequestTracks(h: seq<int>, queue: seq<int>, clock: int, now: int, max: nat, window: nat)
    requires Tracks(h, queue, clock, max, window) && clock <= now
    ensures |Evict(queue, now - window)| == Between(h, now - window, now)
    ensures Tracks(h, Evict(queue, now - window), now, max, window)
    ensures |Evict(queue, now - window)| < max ==> Tracks(h + [now], Evict(queue, now - window) + [now], now, max, window)
  {
    hide Evict, Between, Limited, IsRecent, Ascending;
    EvictRecent(h, queue, clock - window, now - window);
    EvictedAreOutside(h, now - window, now);
    if |Evict(queue, now - window)| < max {
      AdmissionKeepsLimit(h, now, max, window);
      AppendRecent(h, now, now - window);
      AppendAscends(h, now);
    }
  }

  ghost predicate AllTrack(store: map<string, seq<int>>, history: map<string, seq<int>>, clock: int, max: nat, window: nat) {
    && store.Keys == history.Keys
    && forall client | client in store :: Tracks(history[client], store[client], clock, max, window)
  }

  lemma UpdateTracks(store: map<string, seq<int>>, history: map<string, seq<int>>, client: string,
                     queue: seq<int>, h: seq<int>, clock: int, now: int, max: nat, window: nat)
    requires AllTrack(store, history, clock, max, window) && clock <= now && Tracks(h, queue, now, max, window)
    ensures AllTrack(store[client := queue], history[client := h], now, max, window)
  {
    hide Tracks;
    forall other | other in store
      ensures Tracks(history[other], store[other], now, max, window)
    {
      TracksLater(history[other], store[other], clock, now, max, window);
    }
  }

  class Limiter {
    const max: nat
    const window: nat
    var store: map<string, seq<int>>
    /** Every admission ever made, for each client, and the time of the last request. */
    ghost var history: map<string, seq<int>>
    ghost var clock: int

    ghost function Admissions(client: string): seq<int>
      reads this
    {
      if client in history then history[client] else []
    }

    ghost predicate Valid()
      reads this
    {
      AllTrack(store, history, clock, max, window)
    }

    constructor (max: nat, window: nat)
      ensures Valid() && this.max == max && this.window == window && history == map[]
    {
      this.max, this.window := max, window;
      store, history := map[], map[];
    }

    /** With a clock that never runs back, a request is admitted exactly when fewer than max requests
        of that client were admitted in the closed window that ends now. */
    method Check(client: string, now: int) returns (admitted: bool)
      requires Valid() && clock <= now
      modifies this
      ensures Valid() && clock == now
      ensures admitted <==> Between(old(Admissions(client)), now - window, now) < max
      ensures history == old(history)[client := if admitted then old(Admissions(client)) + [now] else old(Admissions(client))]
    {
      hide Tracks, Between, Evict;
      ghost var h := Admissions(client);
      var queue := if client in store then store[client] else [];
      if client !in store { TracksNothing(clock, max, window); }
      RequestTracks(h, queue, clock, now, max, window);
      var timestamps := EvictFront(queue, now - window);
      admitted := |timestamps| < max;
      if admitted {
        timestamps := timestamps + [now];
        h := h + [now];
      }
      UpdateTracks(store, history, client, timestamps, h, clock, now, max, window);
      hide AllTrack;
      store := store[client := timestamps];
      history := history[client := h];
      clock := now;
    }

    /** No closed interval as long as the window ever holds more than max admissions of a client. */
    lemma NeverMoreThanMax(client: string, t: int)
      requires Valid()
      ensures Between(Admissions(client), t, t + window) <= max
    {
      if client in history {
        assert WindowFrom(history[client], t, window) <= max;
      }
    }
  }

  /** The eviction loop. */
  method EvictFront(queue: seq<int>, cutoff: int) returns (timestamps: seq<int>)
    ensures timestamps == Evict(queue, cutoff)
  {
    timestamps := queue;
    while timestamps != [] && timestamps[0] < cutoff
      invariant Evict(timestamps, cutoff) == Evict(queue, cutoff)
    {
      timestamps := timestamps[1..];
    }
  }
}
