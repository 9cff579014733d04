/**
 * When the audit loop runs its end-of-day sweep instead of a regular cycle.
 */
module AuditSchedule {

  import opened Wrappers

  /** One turn of the loop: the UTC date, the minute of the day, and whether a sweep started then
      would complete. */
  datatype Tick = Tick(day: int, minute: nat, completes: bool)

  /** From 03:00 to 03:04 UTC, which is midnight in Brasilia. */
  predicate InWindow(t: Tick) {
    t.minute / 60 == 3 && t.minute % 60 < 5
  }

  predicate StartsSweep(lastDay: Option<int>, t: Tick) {
    InWindow(t) && lastDay != Some(t.day)
  }

  /** The days swept by a run of the loop, in order. A sweep that fails is not recorded, so it is tried
      again at the next turn inside the window. */
  method RunLoop(ticks: seq<Tick>) returns (swept: seq<int>)
    ensures swept == Swept(None, ticks)
  {
    var lastDay: Option<int> := None;
    swept := [];
    for i := 0 to |ticks|
      invariant swept + Swept(lastDay, ticks[i..]) == Swept(None, ticks)
    {
      var t := ticks[i];
      assert ticks[i..][1..] == ticks[i + 1..];
      if StartsSweep(lastDay, t) && t.completes {
        lastDay := Some(t.day);
        swept := swept + [t.day];
      }
    }
  }

  function Swept(lastDay: Option<int>, ticks: seq<Tick>): seq<int>
    decreases |ticks|
  {
    if ticks == [] then []
    else if StartsSweep(lastDay, ticks[0]) && ticks[0].completes
    then [ticks[0].day] + Swept(Some(ticks[0].day), ticks[1..])
    else Swept(lastDay, ticks[1..])
  }

  predicate DaysInOrder(ticks: seq<Tick>) {
    forall i, j | 0 <= i < j < |ticks| :: ticks[i].day <= ticks[j].day
  }

  /** Some turn of the day in the five minutes from 180 on completes. */
  ghost predicate Sweepable(ticks: seq<Tick>, day: int) {
    exists i | 0 <= i < |ticks| :: ticks[i].day == day && 180 <= ticks[i].minute < 185 && ticks[i].completes
  }

  /** With dates that never run back, a day is swept exactly when one of its turns can do it, and never
      twice. */
  lemma {:induction false} SweptOnceWhenPossible(lastDay: Option<int>, ticks: seq<Tick>)
    requires DaysInOrder(ticks) && (lastDay.Some? ==> forall i | 0 <= i < |ticks| :: lastDay.value <= ticks[i].day)
    ensures forall day :: day in Swept(lastDay, ticks) <==> Sweepable(ticks, day) && lastDay != Some(day)
    ensures forall i, j | 0 <= i < j < |Swept(lastDay, ticks)| :: Swept(lastDay, ticks)[i] < Swept(lastDay, ticks)[j]
    ensures lastDay.Some? ==> forall i | 0 <= i < |Swept(lastDay, ticks)| :: lastDay.value < Swept(lastDay, ticks)[i]
    decreases |ticks|
  {
    if ticks != [] {
      var t, rest := ticks[0], ticks[1..];
      var sweeps := StartsSweep(lastDay, t) && t.completes;
      SweptOnceWhenPossible(if sweeps then Some(t.day) else lastDay, rest);
      forall day
        ensures Sweepable(ticks, day) <==> Sweepable(rest, day) || (t.day == day && 180 <= t.minute < 185 && t.completes)
      {
        SweepableByFirst(ticks, day);
      }
    }
  }

  lemma SweepableByFirst(ticks: seq<Tick>, day: int)
    requires ticks != []
    ensures Sweepable(ticks, day) <==>
      Sweepable(ticks[1..], day) || (ticks[0].day == day && 180 <= ticks[0].minute < 185 && ticks[0].completes)
  {
    if Sweepable(ticks[1..], day) {
      var i :| 0 <= i < |ticks[1..]| && ticks[1..][i].day == day && 180 <= ticks[1..][i].minute < 185 && ticks[1..][i].completes;
      assert ticks[i + 1] == ticks[1..][i];
    }
    if Sweepable(ticks, day) {
      var i :| 0 <= i < |ticks| && ticks[i].day == day && 180 <= ticks[i].minute < 185 && ticks[i].completes;
      if i > 0 { assert ticks[1..][i - 1] == ticks[i]; }
    }
  }
}
