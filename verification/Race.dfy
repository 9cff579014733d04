/**
 * The race between models: waves of probes share a queue, and the first text commits the answer to
 * the model that sent it.
 */
module Race {

  import opened Wrappers
  import opened Thinking
  import Probe

  const POOL: nat := 4

  /** What a probe puts into the queue, and what waiting on the queue can give instead. */
  datatype Poll =
    | Text(model: string, text: string)
    | Done(model: string)
    | Error(model: string)
    | TimedOut
    | OutOfBudget

  datatype Output = Shown(model: string, text: string) | Finished(model: string) | Failed

  /** The place in the list of models, the winner if any, the errors of the current wave, what was
      yielded, and whether the generator has returned. */
  datatype State = State(next: nat, committed: Option<string>, errors: nat, out: seq<Output>, returned: bool)

  function Min(a: nat, b: nat): nat {
    if a < b then a else b
  }

  /** Starts the wave at the next model, or gives up when there is none left. */
  function StartWave(models: seq<string>, st: State): State {
    if st.next < |models| then st.(next := Min(st.next + POOL, |models|), errors := 0)
    else st.(out := st.out + [Failed], returned := true)
  }

  /** The models of the wave that ends before position next. */
  function WaveSize(next: nat): nat {
    if next == 0 then 0 else (next - 1) % POOL + 1
  }

  function EndWave(models: seq<string>, st: State): State {
    if st.committed.Some? then st.(returned := true) else StartWave(models, st)
  }

  predicate Ignored(st: State, model: string) {
    st.committed.Some? && st.committed.value != model
  }

  function Step(models: seq<string>, st: State, poll: Poll): State {
    if st.returned then st
    else
      match poll
      case OutOfBudget => st.(returned := true)
      case TimedOut => EndWave(models, st)
      case Error(_) =>
        var st := st.(errors := st.errors + 1);
        if WaveSize(st.next) <= st.errors && st.committed.None? then EndWave(models, st) else st
      case Done(model) =>
        if Ignored(st, model) then st else st.(out := st.out + [Finished(model)], returned := true)
      case Text(model, text) =>
        if Ignored(st, model) then st
        else
          var winner := if st.committed.None? && text != "" then Some(model) else st.committed;
          st.(committed := winner, out := st.out + [Shown(model, text)])
  }

  function Start(models: seq<string>): State {
    StartWave(models, State(0, None, 0, [], false))
  }

  function Run(models: seq<string>, st: State, polls: seq<Poll>): State
    decreases |polls|
  {
    if polls == [] then st else Run(models, Step(models, st, polls[0]), polls[1..])
  }

  // ---------------------------------------------------------------- the generator

  /** The generator, run until it returns or has used up the polls. */
  method RaceStream(models: seq<string>, polls: seq<Poll>) returns (out: seq<Output>)
    ensures out == Run(models, Start(models), polls).out
  {
    var committed: Option<string> := None;
    var i, p := 0, 0;
    out := [];
    ghost var st := State(0, None, 0, [], false);
    while i < |models|
      invariant i <= |models| && p <= |polls|
      invariant st.next == i && st.out == out && !st.returned && st.committed == committed == None
      invariant Run(models, StartWave(models, st), polls[p..]) == Run(models, Start(models), polls)
      decreases |models| - i
    {
      st := StartWave(models, st);
      i := Min(i + POOL, |models|);
      var size, waveErrors := WaveSize(i), 0;
      while true
        invariant p <= |polls|
        invariant st == State(i, committed, waveErrors, out, false)
        invariant Run(models, st, polls[p..]) == Run(models, Start(models), polls)
        decreases |polls| - p
      {
        if p == |polls| { return; }
        var poll := polls[p];
        assert polls[p..][0] == poll && polls[p..][1..] == polls[p + 1..];
        p := p + 1;
        ghost var before := st;
        st := Step(models, st, poll);
        ReturnedStays(models, st, polls[p..]);
        if poll.OutOfBudget? { return; }
        if poll.TimedOut? {
          st := before;
          break;
        }
        if poll.Error? {
          waveErrors := waveErrors + 1;
          if size <= waveErrors && committed.None? {
            st := before.(errors := waveErrors);
            break;
          }
          continue;
        }
        if committed.Some? && poll.model != committed.value { continue; }
        if committed.None? && poll.Text? && poll.text != "" { committed := Some(poll.model); }
        out := out + [if poll.Text? then Shown(poll.model, poll.text) else Finished(poll.model)];
        if poll.Done? { return; }
      }
      if committed.Some? { return; }
    }
    out := out + [Failed];
    ReturnedStays(models, StartWave(models, st), polls[p..]);
  }

  lemma {:induction false} ReturnedStays(models: seq<string>, st: State, polls: seq<Poll>)
    ensures st.returned ==> Run(models, st, polls) == st
    decreases |polls|
  {
    if polls != [] {
      ReturnedStays(models, st, polls[1..]);
    }
  }

  // ---------------------------------------------------------------- safety of every interleaving

  /** The texts of one model, in the order the queue delivered them. */
  function TextsOf(polls: seq<Poll>, model: string): seq<string>
    decreases |polls|
  {
    if polls == [] then []
    else
      var last := polls[|polls| - 1];
      var texts := TextsOf(polls[..|polls| - 1], model);
      if last.Text? && last.model == model then texts + [last.text] else texts
  }

  predicate NoEmptyText(polls: seq<Poll>) {
    forall i | 0 <= i < |polls| && polls[i].Text? :: polls[i].text != ""
  }

  /** A prefix of one model's texts, possibly closed by that model's end. */
  ghost predicate FromOne(out: seq<Output>, model: string, texts: seq<string>) {
    forall i | 0 <= i < |out| ::
      || (i < |texts| && out[i] == Shown(model, texts[i]))
      || (i == |out| - 1 && out[i] == Finished(model))
  }

  ghost predicate Safe(st: State, seen: seq<Poll>) {
    match st.committed
    case None =>
      if st.returned then st.out == [] || st.out == [Failed] || (|st.out| == 1 && st.out[0].Finished?)
      else st.out == [] && forall m :: TextsOf(seen, m) == []
    case Some(model) =>
      var texts := TextsOf(seen, model);
      && FromOne(st.out, model, texts) && st.out != [] && st.out[0].Shown?
      && (!st.returned ==> |st.out| == |texts| && forall i | 0 <= i < |st.out| :: st.out[i].Shown?)
  }

  lemma OneMoreText(seen: seq<Poll>, poll: Poll, model: string)
    ensures TextsOf(seen + [poll], model)
         == TextsOf(seen, model) + if poll.Text? && poll.model == model then [poll.text] else []
  {
    assert (seen + [poll])[..|seen|] == seen;
  }

  lemma MoreTexts(out: seq<Output>, model: string, texts: seq<string>, more: seq<string>)
    requires FromOne(out, model, texts)
    ensures FromOne(out, model, texts + more)
  {
  }

  lemma StepIsSafe(models: seq<string>, st: State, seen: seq<Poll>, poll: Poll)
    requires Safe(st, seen) && (poll.Text? ==> poll.text != "")
    ensures Safe(Step(models, st, poll), seen + [poll])
  {
    hide TextsOf;
    forall m
      ensures TextsOf(seen + [poll], m) == TextsOf(seen, m) + if poll.Text? && poll.model == m then [poll.text] else []
    {
      OneMoreText(seen, poll, m);
    }
    if st.committed.Some? {
      var m := st.committed.value;
      MoreTexts(st.out, m, TextsOf(seen, m), if poll.Text? && poll.model == m then [poll.text] else []);
    }
  }

  lemma {:induction false} RunIsSafe(models: seq<string>, st: State, seen: seq<Poll>, polls: seq<Poll>)
    requires Safe(st, seen) && NoEmptyText(polls)
    ensures Safe(Run(models, st, polls), seen + polls)
    decreases |polls|
  {
    hide Safe, Step;
    if polls == [] {
      assert seen + polls == seen;
    } else {
      StepIsSafe(models, st, seen, polls[0]);
      RunIsSafe(models, Step(models, st, polls[0]), seen + [polls[0]], polls[1..]);
      assert seen + [polls[0]] + polls[1..] == seen + polls;
    }
  }

  /** Whatever the interleaving over all waves, what is yielded is a prefix of the texts of one single
      model, in order, possibly closed by its end; or an end without text; or the failure alone. */
  lemma OneModelWins(models: seq<string>, polls: seq<Poll>)
    requires NoEmptyText(polls)
    ensures var out := Run(models, Start(models), polls).out;
      || out == [] || out == [Failed] || (|out| == 1 && out[0].Finished?)
      || (out[0].Shown? && FromOne(out, out[0].model, TextsOf(polls, out[0].model)))
  {
    RunIsSafe(models, Start(models), [], polls);
    assert [] + polls == polls;
    hide Run, TextsOf;
  }

  /** Once a text was yielded no further wave starts. */
  lemma {:induction false} NoWaveAfterText(models: seq<string>, st: State, polls: seq<Poll>)
    requires st.committed.Some?
    ensures Run(models, st, polls).next == st.next
    decreases |polls|
  {
    if polls != [] {
      NoWaveAfterText(models, Step(models, st, polls[0]), polls[1..]);
    }
  }

  /** The texts of each model in the queue are what its own probe pushed, in that order: then the
      answer is a prefix of what one probe pushed, up to a closing end. */
  lemma AnswerIsOneStream(models: seq<string>, polls: seq<Poll>, decode: string -> Option<string>, streams: string -> string)
    requires forall m :: TextsOf(polls, m) <= Probe.Stream(decode, streams(m)).filter.pushed
    ensures var out := Run(models, Start(models), polls).out;
      || out == [] || out == [Failed] || (|out| == 1 && out[0].Finished?)
      || (out[0].Shown? && FromOne(out, out[0].model, Probe.Stream(decode, streams(out[0].model)).filter.pushed))
  {
    hide Probe.Stream, Run, TextsOf;
    forall i | 0 <= i < |polls| && polls[i].Text?
      ensures polls[i].text != ""
    {
      Probe.StreamPushesText(decode, streams(polls[i].model));
      TextIsListed(polls, i);
    }
    OneModelWins(models, polls);
    var out := Run(models, Start(models), polls).out;
    if out != [] && out[0].Shown? {
      var texts, pushed := TextsOf(polls, out[0].model), Probe.Stream(decode, streams(out[0].model)).filter.pushed;
      MoreTexts(out, out[0].model, texts, pushed[|texts|..]);
      assert texts + pushed[|texts|..] == pushed;
    }
  }

  lemma {:induction false} TextIsListed(polls: seq<Poll>, i: nat)
    requires i < |polls| && polls[i].Text?
    ensures polls[i].text in TextsOf(polls, polls[i].model)
    decreases |polls|
  {
    if i < |polls| - 1 {
      TextIsListed(polls[..|polls| - 1], i);
    }
  }

  predicate AllErrors(polls: seq<Poll>) {
    forall i | 0 <= i < |polls| :: polls[i].Error?
  }

  /** A wave in progress in which nothing but errors has arrived. */
  predicate OnlyErrorsSoFar(models: seq<string>, st: State) {
    && !st.returned && st.committed == None && st.out == []
    && 1 <= st.next <= |models| && (st.next == |models| || st.next % POOL == 0)
    && st.errors < WaveSize(st.next)
  }

  /** How many models have not failed yet. */
  function Hopes(models: seq<string>, st: State): int {
    |models| - st.next + WaveSize(st.next) - st.errors
  }

  lemma ErrorCostsOneHope(models: seq<string>, st: State, model: string)
    requires OnlyErrorsSoFar(models, st)
    ensures Hopes(models, st) >= 1
    ensures var after := Step(models, st, Error(model));
      if Hopes(models, st) == 1 then after.returned && after.out == [Failed]
      else OnlyErrorsSoFar(models, after) && Hopes(models, after) == Hopes(models, st) - 1
  {
  }

  lemma {:induction false} ErrorsUseUpHopes(models: seq<string>, st: State, polls: seq<Poll>)
    requires OnlyErrorsSoFar(models, st) && AllErrors(polls)
    ensures Run(models, st, polls).out == if Hopes(models, st) <= |polls| then [Failed] else []
    decreases |polls|
  {
    hide Step, Hopes, OnlyErrorsSoFar;
    if polls == [] {
      HopeIsLeft(models, st);
    } else {
      var after := Step(models, st, polls[0]);
      ErrorCostsOneHope(models, st, polls[0].model);
      if Hopes(models, st) == 1 {
        ReturnedStays(models, after, polls[1..]);
      } else {
        ErrorsUseUpHopes(models, after, polls[1..]);
      }
    }
  }

  lemma HopeIsLeft(models: seq<string>, st: State)
    requires OnlyErrorsSoFar(models, st)
    ensures Hopes(models, st) >= 1 && st.out == []
  {
  }

  /** When nothing but errors arrives, the failure is reported exactly when every model of every wave
      has failed, and nothing is yielded before. */
  lemma FailureAfterAllModelsExactly(models: seq<string>, polls: seq<Poll>)
    requires AllErrors(polls)
    ensures Run(models, Start(models), polls).out == if |models| <= |polls| then [Failed] else []
  {
    if models == [] {
      ReturnedStays(models, Start(models), polls);
    } else {
      assert OnlyErrorsSoFar(models, Start(models)) && Hopes(models, Start(models)) == |models|;
      ErrorsUseUpHopes(models, Start(models), polls);
    }
  }

  // ---------------------------------------------------------------- the outcome of every race

  /** Items that show nothing by themselves: a model failed, or the wait for an item was too long. */
  predicate Quiet(polls: seq<Poll>) {
    forall i | 0 <= i < |polls| :: polls[i].Error? || polls[i].TimedOut?
  }

  /** The first item that is not quiet. */
  function QuietLength(polls: seq<Poll>): (k: nat)
    ensures k <= |polls| && Quiet(polls[..k])
    ensures k < |polls| ==> !polls[k].Error? && !polls[k].TimedOut?
    decreases |polls|
  {
    if polls == [] || (!polls[0].Error? && !polls[0].TimedOut?) then 0
    else
      var k := QuietLength(polls[1..]);
      assert polls[..k + 1] == [polls[0]] + polls[1..][..k];
      k + 1
  }

  /** How many of n models are used up by quiet items: an error costs one model, a timeout the whole
      wave, and waves are cut off the list four by four. */
  function Spent(n: nat, quiet: seq<Poll>): (spent: nat)
    ensures spent <= n
    decreases |quiet|
  {
    if quiet == [] then 0
    else
      var before := Spent(n, quiet[..|quiet| - 1]);
      if before == n then n
      else if quiet[|quiet| - 1].TimedOut? then Min((before / POOL + 1) * POOL, n)
      else before + 1
  }

  /** What quiet items leave: a wave in which the models used up so far have failed, or the failure. */
  predicate LeftBy(models: seq<string>, st: State, spent: nat) {
    if spent < |models|
    then st == State(Min((spent / POOL + 1) * POOL, |models|), None, spent % POOL, [], false)
    else st.returned && st.out == [Failed]
  }

  /** Where the wave of a model ends, and when its last model is used up. */
  lemma WaveOf(n: nat, spent: nat)
    requires spent < n
    ensures var next := Min((spent / POOL + 1) * POOL, n);
      && WaveSize(next) == next - spent / POOL * POOL && spent < next
      && (WaveSize(next) <= spent % POOL + 1 <==> spent + 1 == next)
      && (spent + 1 < next ==> (spent + 1) / POOL == spent / POOL && (spent + 1) % POOL == spent % POOL + 1)
      && (next < n ==> next % POOL == 0 && (next / POOL + 1) * POOL == next + POOL)
  {
    var q, r := spent / POOL, spent % POOL;
    assert spent == 4 * q + r;
    var next := Min((q + 1) * POOL, n);
    assert next - 1 == 4 * q + (next - 1 - 4 * q) && 0 <= next - 1 - 4 * q < 4;
  }

  lemma QuietStep(models: seq<string>, st: State, spent: nat, poll: Poll)
    requires spent < |models| && LeftBy(models, st, spent) && (poll.Error? || poll.TimedOut?)
    ensures LeftBy(models, Step(models, st, poll), if poll.TimedOut? then Min((spent / POOL + 1) * POOL, |models|) else spent + 1)
  {
    WaveOf(|models|, spent);
    hide WaveSize;
  }

  lemma RunLast(models: seq<string>, st: State, polls: seq<Poll>, last: Poll)
    ensures Run(models, st, polls + [last]) == Step(models, Run(models, st, polls), last)
  {
    RunSplit(models, st, polls, [last]);
    assert [last][1..] == [];
  }

  lemma {:induction false} RunSplit(models: seq<string>, st: State, x: seq<Poll>, y: seq<Poll>)
    ensures Run(models, st, x + y) == Run(models, Run(models, st, x), y)
    decreases |x|
  {
    hide Step;
    if x == [] {
      assert x + y == y;
    } else {
      assert (x + y)[1..] == x[1..] + y;
      RunSplit(models, Step(models, st, x[0]), x[1..], y);
    }
  }

  lemma {:induction false} QuietRun(models: seq<string>, quiet: seq<Poll>)
    requires Quiet(quiet)
    ensures LeftBy(models, Run(models, Start(models), quiet), Spent(|models|, quiet))
    decreases |quiet|
  {
    if quiet != [] {
      hide Step, LeftBy;
      var n := |quiet| - 1;
      QuietRun(models, quiet[..n]);
      assert quiet == quiet[..n] + [quiet[n]];
      RunLast(models, Start(models), quiet[..n], quiet[n]);
      if Spent(|models|, quiet[..n]) < |models| {
        QuietStep(models, Run(models, Start(models), quiet[..n]), Spent(|models|, quiet[..n]), quiet[n]);
      } else {
        FailureStays(models, Run(models, Start(models), quiet[..n]), quiet[n]);
      }
    }
  }

  lemma FailureStays(models: seq<string>, st: State, poll: Poll)
    requires LeftBy(models, st, |models|)
    ensures LeftBy(models, Step(models, st, poll), |models|)
  {
  }

  /** What the winner goes on to show: its texts up to its end, a timeout or the end of the budget. */
  function Following(model: string, polls: seq<Poll>): seq<Output>
    decreases |polls|
  {
    if polls == [] || polls[0].TimedOut? || polls[0].OutOfBudget? then []
    else if polls[0] == Done(model) then [Finished(model)]
    else
      var rest := Following(model, polls[1..]);
      if polls[0].Text? && polls[0].model == model then [Shown(model, polls[0].text)] + rest else rest
  }

  lemma {:induction false} WinnerGoesOn(models: seq<string>, st: State, model: string, polls: seq<Poll>)
    requires !st.returned && st.committed == Some(model)
    ensures Run(models, st, polls).out == st.out + Following(model, polls)
    decreases |polls|
  {
    if polls != [] {
      var next := Step(models, st, polls[0]);
      if next.returned {
        ReturnedStays(models, next, polls[1..]);
      } else {
        WinnerGoesOn(models, next, model, polls[1..]);
      }
    }
  }

  /** What the race yields, from the first item that is neither an error nor a timeout: if the models are
      used up before it, the failure; if there is none, nothing; a text commits the race to its model; an
      end without text is all that is yielded. */
  function Outcome(models: seq<string>, polls: seq<Poll>): seq<Output> {
    var k := QuietLength(polls);
    if |models| == Spent(|models|, polls[..k]) then [Failed]
    else if k == |polls| then []
    else
      match polls[k]
      case Text(model, text) => [Shown(model, text)] + Following(model, polls[k + 1..])
      case Done(model) => [Finished(model)]
      case _ => []
  }

  lemma RunFrom(models: seq<string>, polls: seq<Poll>, k: nat)
    requires k <= |polls|
    ensures Run(models, Start(models), polls) == Run(models, Run(models, Start(models), polls[..k]), polls[k..])
  {
    hide Run, Start;
    assert polls == polls[..k] + polls[k..];
    RunSplit(models, Start(models), polls[..k], polls[k..]);
  }

  lemma RunTail(models: seq<string>, st: State, polls: seq<Poll>, k: nat)
    requires k <= |polls|
    ensures k == |polls| ==> Run(models, st, polls[k..]) == st
    ensures k < |polls| ==> Run(models, st, polls[k..]) == Run(models, Step(models, st, polls[k]), polls[k + 1..])
  {
    hide Step;
    if k < |polls| {
      assert polls[k..][0] == polls[k] && polls[k..][1..] == polls[k + 1..];
    }
  }

  /** A race up to its first item that is not quiet. */
  lemma UpToFirst(models: seq<string>, polls: seq<Poll>) returns (st: State)
    ensures var k := QuietLength(polls);
      && LeftBy(models, st, Spent(|models|, polls[..k]))
      && (k == |polls| || st.returned ==> Run(models, Start(models), polls) == st)
      && (k < |polls| ==> Run(models, Start(models), polls) == Run(models, Step(models, st, polls[k]), polls[k + 1..]))
  {
    hide Spent, QuietLength, Run, Start, LeftBy, Step;
    var k := QuietLength(polls);
    st := Run(models, Start(models), polls[..k]);
    QuietRun(models, polls[..k]);
    RunFrom(models, polls, k);
    RunTail(models, st, polls, k);
    ReturnedStays(models, st, polls[k..]);
  }

  /** The whole outcome of every race, whatever the interleaving. */
  lemma RaceOutcomeExactly(models: seq<string>, polls: seq<Poll>)
    requires NoEmptyText(polls)
    ensures Run(models, Start(models), polls).out == Outcome(models, polls)
  {
    hide Spent, QuietLength, Run, Start;
    var k := QuietLength(polls);
    var st := UpToFirst(models, polls);
    if !st.returned && k < |polls| {
      var next := Step(models, st, polls[k]);
      if polls[k].Text? {
        WinnerGoesOn(models, next, polls[k].model, polls[k + 1..]);
      } else {
        ReturnedStays(models, next, polls[k + 1..]);
      }
    }
  }

  lemma {:induction false} OutputStays(models: seq<string>, st: State, polls: seq<Poll>)
    ensures st.out <= Run(models, st, polls).out
    decreases |polls|
  {
    if polls != [] {
      OutputStays(models, Step(models, st, polls[0]), polls[1..]);
    }
  }

  /** How every race starts, empty texts allowed. */
  lemma FirstOutput(models: seq<string>, polls: seq<Poll>)
    ensures var out, k := Run(models, Start(models), polls).out, QuietLength(polls);
      if |models| == Spent(|models|, polls[..k]) then out == [Failed]
      else if k == |polls| then out == []
      else
        match polls[k]
        case Text(model, text) => out != [] && out[0] == Shown(model, text)
        case Done(model) => out == [Finished(model)]
        case _ => out == []
  {
    hide Spent, QuietLength, Run, Start;
    var k := QuietLength(polls);
    var st := UpToFirst(models, polls);
    if !st.returned && k < |polls| {
      var next := Step(models, st, polls[k]);
      OutputStays(models, next, polls[k + 1..]);
      ReturnedStays(models, next, polls[k + 1..]);
    }
  }

  /** A text is shown if and only if the first item that is neither an error nor a timeout is a text, and
      some model is left by then. */
  lemma TextIsShownExactly(models: seq<string>, polls: seq<Poll>)
    ensures var k := QuietLength(polls);
      (exists output :: output in Run(models, Start(models), polls).out && output.Shown?)
      <==> k < |polls| && polls[k].Text? && Spent(|models|, polls[..k]) < |models|
  {
    FirstOutput(models, polls);
    hide Spent, QuietLength, Run, Start;
    var out, k := Run(models, Start(models), polls).out, QuietLength(polls);
    if k < |polls| && polls[k].Text? && Spent(|models|, polls[..k]) < |models| {
      assert out[0] in out;
    }
  }

  /** A model that ends without any text ends the race, although others might still answer. */
  lemma EmptyAnswerEndsRace(models: seq<string>, quiet: seq<Poll>, model: string, polls: seq<Poll>)
    requires Quiet(quiet) && Spent(|models|, quiet) < |models|
    ensures Run(models, Start(models), quiet + [Done(model)] + polls).out == [Finished(model)]
  {
    hide Spent, Run, Start;
    var st := Run(models, Start(models), quiet);
    QuietRun(models, quiet);
    RunLast(models, Start(models), quiet, Done(model));
    RunSplit(models, Start(models), quiet + [Done(model)], polls);
    ReturnedStays(models, Step(models, st, Done(model)), polls);
  }

  /** That is the only way: an end is all that is yielded if and only if that first item is a model's end. */
  lemma EmptyAnswerExactly(models: seq<string>, polls: seq<Poll>, model: string)
    ensures var k := QuietLength(polls);
      Run(models, Start(models), polls).out == [Finished(model)]
      <==> k < |polls| && polls[k] == Done(model) && Spent(|models|, polls[..k]) < |models|
  {
    FirstOutput(models, polls);
    hide Spent, QuietLength, Run, Start;
    var out := Run(models, Start(models), polls).out;
    if out == [Finished(model)] {
      assert out[0].Finished?;
    }
  }

  // ---------------------------------------------------------------- timeouts and empty texts

  predicate AllTimeouts(polls: seq<Poll>) {
    forall i | 0 <= i < |polls| :: polls[i].TimedOut?
  }

  lemma {:induction false} TimeoutsSpendFour(n: nat, polls: seq<Poll>)
    requires AllTimeouts(polls)
    ensures Spent(n, polls) == if 4 * |polls| <= n then 4 * |polls| else n
    decreases |polls|
  {
    if polls != [] {
      TimeoutsSpendFour(n, polls[..|polls| - 1]);
    }
  }

  lemma {:induction false} TimeoutsAreQuiet(polls: seq<Poll>)
    requires AllTimeouts(polls)
    ensures QuietLength(polls) == |polls|
    decreases |polls|
  {
    if polls != [] {
      TimeoutsAreQuiet(polls[1..]);
    }
  }

  /** When nothing but timeouts happens, each gives up four models: the failure is reported exactly when
      that uses them up. */
  lemma FailureAfterTimeoutsExactly(models: seq<string>, polls: seq<Poll>)
    requires AllTimeouts(polls)
    ensures Run(models, Start(models), polls).out == if |models| <= 4 * |polls| then [Failed] else []
  {
    FirstOutput(models, polls);
    TimeoutsAreQuiet(polls);
    TimeoutsSpendFour(|models|, polls);
    assert polls[..|polls|] == polls;
    hide Run, Start, Spent;
  }

  lemma {:induction false} OutputOnlyGrows(models: seq<string>, st: State, polls: seq<Poll>, ahead: seq<Output>)
    ensures Run(models, st.(out := ahead + st.out), polls) == Run(models, st, polls).(out := ahead + Run(models, st, polls).out)
    decreases |polls|
  {
    if polls != [] {
      StepOnlyAppends(models, st, polls[0], ahead);
      OutputOnlyGrows(models, Step(models, st, polls[0]), polls[1..], ahead);
    }
  }

  lemma StepOnlyAppends(models: seq<string>, st: State, poll: Poll, ahead: seq<Output>)
    ensures Step(models, st.(out := ahead + st.out), poll) == Step(models, st, poll).(out := ahead + Step(models, st, poll).out)
  {
    forall output: Output
      ensures ahead + st.out + [output] == ahead + (st.out + [output])
    {
    }
  }

  /** An empty text is yielded but decides nothing: the race goes on as if it had not been there. */
  lemma EmptyTextDoesNotWin(models: seq<string>, model: string, polls: seq<Poll>)
    requires models != []
    ensures Run(models, Start(models), [Text(model, "")] + polls).out == [Shown(model, "")] + Run(models, Start(models), polls).out
  {
    var st := Start(models);
    assert Step(models, st, Text(model, "")) == st.(out := [Shown(model, "")] + st.out);
    assert ([Text(model, "")] + polls)[1..] == polls;
    OutputOnlyGrows(models, st, polls, [Shown(model, "")]);
  }
}
