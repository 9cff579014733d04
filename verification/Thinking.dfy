/**
 * The filter that keeps a model's thinking out of the answer, one token at a time.
 */
module Thinking {

  import opened Wrappers
  import opened Text

  const OPEN: string := "<think>"
  const CLOSE: string := "</think>"

  datatype Phase = Buffering | Pondering | Streaming

  /** What is held back, and the texts pushed so far. */
  datatype Filter = Filter(phase: Phase, pre: string, pushed: seq<string>)

  const START: Filter := Filter(Buffering, "", [])

  /** Whether held-back text that shows no opening tag can be let through. */
  predicate IsAnswer(stripped: string) {
    || (stripped != "" && stripped[0] != '<')
    || (|stripped| >= 7 && !StartsWith(stripped, "<think"))
  }

  function Push(pushed: seq<string>, text: string): seq<string> {
    if text == "" then pushed else pushed + [text]
  }

  function OnToken(f: Filter, token: string): Filter {
    var pre := f.pre + token;
    match f.phase
    case Streaming => f.(pushed := f.pushed + [token])
    case Buffering =>
      var stripped := LStrip(pre);
      if Contains(stripped, OPEN) then f.(phase := Pondering, pre := pre)
      else if IsAnswer(stripped) then Filter(Streaming, "", f.pushed + [pre])
      else f.(pre := pre)
    case Pondering =>
      match Find(pre, CLOSE)
      case None => f.(pre := pre)
      case Some(i) => Filter(Streaming, "", Push(f.pushed, LStrip(pre[i + 8..])))
  }

  datatype Cut = Cut(before: string, after: string)

  /** The text around the first thinking block, without the blanks that follow the block. */
  function CutBlock(s: string): (cut: Option<Cut>)
    ensures cut.Some? ==> |cut.value.after| < |s|
  {
    match Find(s, OPEN)
    case None => None
    case Some(i) =>
      match FindFrom(s, CLOSE, i + 7)
      case None => None
      case Some(j) => Some(Cut(s[..i], LStrip(s[j + 8..])))
  }

  function RemoveThinking(s: string): string
    decreases |s|
  {
    match CutBlock(s)
    case None => s
    case Some(cut) => cut.before + RemoveThinking(cut.after)
  }

  /** The end marker flushes what is still held back, cleaned. */
  function OnDone(f: Filter): Filter {
    if f.phase != Streaming && Strip(f.pre) != ""
    then f.(pushed := Push(f.pushed, Strip(RemoveThinking(f.pre))))
    else f
  }

  function RunTokens(f: Filter, tokens: seq<string>): Filter
    decreases |tokens|
  {
    if tokens == [] then f else RunTokens(OnToken(f, tokens[0]), tokens[1..])
  }

  function Join(parts: seq<string>): string
    decreases |parts|
  {
    if parts == [] then "" else parts[0] + Join(parts[1..])
  }

  /** Everything the filter lets through when the tokens are followed by the end marker. */
  function Answer(tokens: seq<string>): string {
    Join(OnDone(RunTokens(START, tokens)).pushed)
  }

  // ---------------------------------------------------------------- joining and trimming

  lemma {:induction false} JoinAppend(x: seq<string>, y: seq<string>)
    ensures Join(x + y) == Join(x) + Join(y)
    decreases |x|
  {
    if x == [] {
      assert x + y == y;
    } else {
      assert (x + y)[1..] == x[1..] + y;
      JoinAppend(x[1..], y);
    }
  }

  lemma JoinPush(pushed: seq<string>, text: string)
    ensures Join(Push(pushed, text)) == Join(pushed) + text
  {
    if text != "" {
      JoinAppend(pushed, [text]);
      assert [text][1..] == [];
    }
  }

  lemma {:induction false} LStripAppend(a: string, b: string)
    requires LStrip(a) != ""
    ensures LStrip(a + b) == LStrip(a) + b
    decreases |a|
  {
    hide LStrip;
    LStripEmpty(a);
    if IsSpace(a[0]) {
      LStripStep(a);
      LStripStep(a + b);
      assert (a + b)[1..] == a[1..] + b;
      LStripAppend(a[1..], b);
    } else {
      LStripStop(a);
      LStripStop(a + b);
    }
  }

  lemma LStripEmpty(s: string)
    requires LStrip(s) != ""
    ensures s != ""
  {
  }

  lemma LStripStep(s: string)
    requires s != "" && IsSpace(s[0])
    ensures LStrip(s) == LStrip(s[1..])
  {
  }

  lemma LStripStop(s: string)
    requires s != "" && !IsSpace(s[0])
    ensures LStrip(s) == s
  {
  }

  /** Blanks dropped at the start do not show after trimming the whole. */
  lemma StripAfterLStrip(a: string, b: string)
    ensures Strip(LStrip(a) + b) == Strip(a + b)
  {
    if LStrip(a) == "" {
      StripIgnoresLeadingBlank(a, b);
      assert LStrip(a) + b == b;
    } else {
      LStripAppend(a, b);
      StripOfLStrip(a + b);
    }
  }

  // ---------------------------------------------------------------- trimming once

  predicate TrimsAt(text: string, seen: string, k: nat) {
    k <= |seen| && text == LStrip(seen[..k]) + seen[k..]
  }

  /** A text from which blanks were dropped at the start of its first characters only. */
  ghost predicate Trims(text: string, seen: string) {
    exists k :: TrimsAt(text, seen, k)
  }

  lemma TrimsStart(seen: string)
    ensures Trims(LStrip(seen), seen)
  {
    hide LStrip;
    assert seen[..|seen|] == seen && LStrip(seen) == LStrip(seen[..|seen|]) + seen[|seen|..];
    assert TrimsAt(LStrip(seen), seen, |seen|);
  }

  lemma TrimsMoreAt(text: string, seen: string, token: string, k: nat)
    requires TrimsAt(text, seen, k)
    ensures TrimsAt(text + token, seen + token, k)
  {
    hide LStrip;
    assert (seen + token)[..k] == seen[..k];
    assert (seen + token)[k..] == seen[k..] + token;
  }

  lemma TrimsMore(text: string, seen: string, token: string)
    requires Trims(text, seen)
    ensures Trims(text + token, seen + token)
  {
    hide TrimsAt;
    var k :| TrimsAt(text, seen, k);
    TrimsMoreAt(text, seen, token, k);
  }

  lemma TrimsEndAt(text: string, seen: string, k: nat)
    requires TrimsAt(text, seen, k)
    ensures Strip(text) == Strip(seen)
  {
    hide LStrip, Strip;
    StripAfterLStrip(seen[..k], seen[k..]);
    assert seen == seen[..k] + seen[k..];
  }

  lemma TrimsEnd(text: string, seen: string)
    requires Trims(text, seen)
    ensures Strip(text) == Strip(seen)
  {
    hide TrimsAt, Strip;
    var k :| TrimsAt(text, seen, k);
    TrimsEndAt(text, seen, k);
  }

  // ---------------------------------------------------------------- tags

  lemma CharMiss(s: string, needle: string, i: nat, k: nat)
    requires k < |needle| && i + k < |s| && s[i + k] != needle[k]
    ensures !OccursAt(s, needle, i)
  {
    if i + |needle| <= |s| {
      assert s[i..i + |needle|][k] == s[i + k];
    }
  }

  lemma CloseChars()
    ensures |CLOSE| == 8 && CLOSE[0] == '<' && CLOSE[1] == '/' && forall k | 0 < k < 8 :: CLOSE[k] != '<'
  {
  }

  lemma OpenChars()
    ensures |OPEN| == 7 && OPEN[0] == '<' && OPEN[1] == 't' && forall k | 0 < k < 7 :: OPEN[k] != '<'
  {
  }

  lemma OccursInPrefix(s: string, needle: string, n: nat, i: nat)
    requires n <= |s|
    ensures OccursAt(s[..n], needle, i) <==> i + |needle| <= n && OccursAt(s, needle, i)
  {
    if i + |needle| <= n {
      assert s[..n][i..i + |needle|] == s[i..i + |needle|];
    }
  }

  lemma FindIs(s: string, needle: string, at: nat)
    requires OccursAt(s, needle, at) && forall i: nat | i < at :: !OccursAt(s, needle, i)
    ensures Find(s, needle) == Some(at)
  {
  }

  lemma TagInLonger(s: string, needle: string, from: nat, to: nat)
    requires from <= to <= |s| && Contains(s[from..to], needle)
    ensures Contains(s, needle)
  {
    var part := s[from..to];
    var i :| 0 <= i <= |part| && OccursAt(part, needle, i);
    SliceOfSlice(s, from, to, i, i + |needle|);
    assert OccursAt(s, needle, from + i);
  }

  lemma SliceOfSlice(s: string, from: nat, to: nat, i: nat, j: nat)
    requires from <= to <= |s| && i <= j <= to - from
    ensures s[from..to][i..j] == s[from + i..from + j]
  {
    var a, b := s[from..to][i..j], s[from + i..from + j];
    assert forall k | 0 <= k < j - i :: a[k] == s[from..to][i + k] == s[from + i + k] == b[k];
  }

  lemma NoBlock(s: string)
    requires !Contains(s, OPEN)
    ensures CutBlock(s) == None
  {
    var i := Find(s, OPEN);
    hide Find;
    OpenChars();
  }

  lemma NoTagNoFind(s: string)
    requires !Contains(s, CLOSE)
    ensures Find(s, CLOSE) == None
  {
    var i := Find(s, CLOSE);
    hide Find;
    CloseChars();
  }

  lemma FindInPrefix(s: string, needle: string, n: nat)
    requires n <= |s| && Find(s[..n], needle).Some?
    ensures Find(s, needle) == Find(s[..n], needle)
  {
    var i := Find(s[..n], needle).value;
    hide FindFrom, OccursAt;
    forall j: nat | j <= i
      ensures OccursAt(s[..n], needle, j) ==> OccursAt(s, needle, j)
      ensures j < i ==> !OccursAt(s, needle, j)
    {
      OccursInPrefix(s, needle, n, j);
      EndsInside(s[..n], needle, i);
    }
    FindIs(s, needle, i);
  }

  lemma EndsInside(s: string, needle: string, i: nat)
    requires OccursAt(s, needle, i)
    ensures i + |needle| <= |s|
  {
  }

  lemma BlankAhead(s: string)
    ensures forall i | 0 <= i < |s| - |LStrip(s)| :: IsSpace(s[i])
  {
    var ahead := s[..|s| - |LStrip(s)|];
    assert IsBlank(ahead);
    hide LStrip, IsSpace;
    assert forall i | 0 <= i < |ahead| :: s[i] == ahead[i];
  }

  lemma NoBlankInside(s: string, i: nat)
    requires i < |s| && !IsSpace(s[i])
    ensures |s| - |LStrip(s)| <= i
  {
    hide LStrip, IsSpace;
    BlankAhead(s);
  }

  lemma OccursInSuffix(s: string, needle: string, i: nat, d: nat)
    requires d <= i && d <= |s| && OccursAt(s, needle, i)
    ensures OccursAt(s[d..], needle, i - d)
  {
    assert s[d..][i - d..i - d + |needle|] == s[i..i + |needle|];
  }

  lemma TagIsVisible(s: string, i: nat)
    requires OccursAt(s, OPEN, i)
    ensures i < |s| && !IsSpace(s[i])
  {
    OpenChars();
    assert s[i..i + 7][0] == s[i];
  }

  /** Blanks hide no opening tag. */
  lemma TagAfterBlanks(s: string)
    requires Contains(s, OPEN)
    ensures Contains(LStrip(s), OPEN)
  {
    hide LStrip, IsSpace, OccursAt;
    var i :| 0 <= i <= |s| && OccursAt(s, OPEN, i);
    TagIsVisible(s, i);
    NoBlankInside(s, i);
    var d := |s| - |LStrip(s)|;
    OccursInSuffix(s, OPEN, i, d);
    assert LStrip(s) == s[d..];
  }

  lemma NonBlankStrip(s: string, more: string)
    requires LStrip(s) != ""
    ensures Strip(s + more) != ""
  {
    LStripAppend(s, more);
    hide LStrip;
    var l := LStrip(s) + more;
    assert l[0] == LStrip(s)[0];
    RStripKeepsFirst(l);
  }

  lemma RStripKeepsFirst(l: string)
    requires l != "" && !IsSpace(l[0])
    ensures RStrip(l) != ""
  {
  }

  // ---------------------------------------------------------------- what becomes of any token list

  /** The first token after which the filter leaves off buffering: it lets text through, or the opening
      tag is complete after so many tokens. */
  datatype Verdict = Undecided | ShownAtOnce | Pondered(count: nat)

  function Decide(seen: string, tokens: seq<string>): (v: Verdict)
    ensures v.Pondered? ==> 1 <= v.count <= |tokens|
    decreases |tokens|
  {
    if tokens == [] then Undecided
    else
      var stripped := LStrip(seen + tokens[0]);
      if Contains(stripped, OPEN) then Pondered(1)
      else if IsAnswer(stripped) then ShownAtOnce
      else
        match Decide(seen + tokens[0], tokens[1..])
        case Undecided => Undecided
        case ShownAtOnce => ShownAtOnce
        case Pondered(n) => Pondered(n + 1)
  }

  lemma JoinNothing(text: string)
    ensures Join([]) + text == text
  {
  }

  lemma JoinOneMore(pushed: seq<string>, token: string)
    ensures Join(pushed + [token]) == Join(pushed) + token
  {
    JoinAppend(pushed, [token]);
    assert [token][1..] == [];
  }

  lemma {:induction false} StreamingIsVerbatim(f: Filter, tokens: seq<string>)
    requires f.phase == Streaming
    ensures RunTokens(f, tokens).phase == Streaming
    ensures Join(RunTokens(f, tokens).pushed) == Join(f.pushed) + Join(tokens)
    decreases |tokens|
  {
    hide Find;
    if tokens == [] {
      assert Join(f.pushed) + Join(tokens) == Join(f.pushed);
    } else {
      JoinOneMore(f.pushed, tokens[0]);
      StreamingIsVerbatim(OnToken(f, tokens[0]), tokens[1..]);
    }
  }

  lemma BufferStep(seen: string, token: string)
    ensures var f, now := OnToken(Filter(Buffering, seen, []), token), seen + token;
      var stripped := LStrip(now);
      f == if Contains(stripped, OPEN) then Filter(Pondering, now, [])
           else if IsAnswer(stripped) then Filter(Streaming, "", [now])
           else Filter(Buffering, now, [])
  {
    hide LStrip, Contains, IsAnswer, Find;
    assert [] + [seen + token] == [seen + token];
  }

  /** While buffering, the verdict says where the run goes. */
  lemma {:induction false} BufferingRun(seen: string, tokens: seq<string>)
    ensures var r := RunTokens(Filter(Buffering, seen, []), tokens);
      match Decide(seen, tokens)
      case Undecided => r == Filter(Buffering, seen + Join(tokens), [])
      case ShownAtOnce => r.phase == Streaming && Join(r.pushed) == seen + Join(tokens)
      case Pondered(n) => r == RunTokens(Filter(Pondering, seen + Join(tokens[..n]), []), tokens[n..])
    decreases |tokens|
  {
    hide OnToken, LStrip, Contains, IsAnswer;
    if tokens == [] {
      assert seen + Join(tokens) == seen;
    } else {
      var now, rest := seen + tokens[0], tokens[1..];
      var stripped := LStrip(now);
      BufferStep(seen, tokens[0]);
      assert now + Join(rest) == seen + Join(tokens);
      if Contains(stripped, OPEN) {
        assert tokens[..1] == [tokens[0]];
        JoinOneMore([], tokens[0]);
        assert Join(tokens[..1]) == tokens[0];
      } else if IsAnswer(stripped) {
        StreamingIsVerbatim(Filter(Streaming, "", [now]), rest);
        JoinOneMore([], now);
      } else {
        BufferingRun(now, rest);
        if Decide(now, rest).Pondered? { OneTokenLonger(seen, tokens, Decide(now, rest).count); }
      }
    }
  }

  lemma OneTokenLonger(seen: string, tokens: seq<string>, n: nat)
    requires tokens != [] && n < |tokens|
    ensures seen + tokens[0] + Join(tokens[1..][..n]) == seen + Join(tokens[..n + 1])
    ensures tokens[1..][n..] == tokens[n + 1..]
  {
    assert tokens[..n + 1] == [tokens[0]] + tokens[1..][..n];
  }

  lemma PonderStep(f: Filter, token: string, pre: string)
    requires f.phase == Pondering && pre == f.pre + token
    ensures Find(pre, CLOSE).None? ==> OnToken(f, token) == f.(pre := pre)
    ensures Find(pre, CLOSE).Some? ==> Find(pre, CLOSE).value + 8 <= |pre|
    ensures Find(pre, CLOSE).Some? ==>
      OnToken(f, token) == Filter(Streaming, "", Push(f.pushed, LStrip(pre[Find(pre, CLOSE).value + 8..])))
  {
    CloseChars();
    var i := Find(pre, CLOSE);
    hide Find, LStrip, Push;
  }

  /** Where the text after the first closing tag starts. */
  function PastClose(text: string): Option<nat> {
    match Find(text, CLOSE)
    case None => None
    case Some(i) => Some(i + 8)
  }

  /** A run that ponders on all of a text, or that has let through what follows position at, but for
      blanks at its start. */
  ghost predicate Ponders(r: Filter, text: string, at: Option<nat>) {
    match at
    case None => r == Filter(Pondering, text, [])
    case Some(i) => r.phase == Streaming && i <= |text| && Trims(Join(r.pushed), text[i..])
  }

  /** While pondering, everything up to the first closing tag is dropped, once a further token shows it. */
  lemma {:induction false} PonderingRun(pre: string, tokens: seq<string>)
    ensures Ponders(RunTokens(Filter(Pondering, pre, []), tokens), pre + Join(tokens),
                    if tokens == [] then None else PastClose(pre + Join(tokens)))
    decreases |tokens|
  {
    hide OnToken, Find, Trims;
    if tokens == [] {
      assert pre + Join(tokens) == pre;
    } else {
      var now, rest := pre + tokens[0], tokens[1..];
      assert pre + Join(tokens) == now + Join(rest);
      PonderStep(Filter(Pondering, pre, []), tokens[0], now);
      if Find(now, CLOSE).None? {
        PonderingRun(now, rest);
        assert rest == [] ==> now + Join(rest) == now;
      } else {
        PonderingEnds(now, rest);
      }
    }
  }

  lemma PonderingEnds(now: string, rest: seq<string>)
    requires Find(now, CLOSE).Some?
    ensures Find(now, CLOSE).value + 8 <= |now|
    ensures var shown := LStrip(now[Find(now, CLOSE).value + 8..]);
      Ponders(RunTokens(Filter(Streaming, "", Push([], shown)), rest), now + Join(rest), PastClose(now + Join(rest)))
  {
    hide *;
    var text, at := now + Join(rest), Find(now, CLOSE).value + 8;
    CloseFound(now, text);
    var shown := LStrip(now[at..]);
    ShowsAfter(now, Join(rest), at);
    StreamingIsVerbatim(Filter(Streaming, "", Push([], shown)), rest);
    JoinPush([], shown);
    JoinNothing(shown);
    PondersPast(RunTokens(Filter(Streaming, "", Push([], shown)), rest), text, at);
  }

  lemma CloseFound(now: string, text: string)
    requires now <= text && Find(now, CLOSE).Some?
    ensures Find(now, CLOSE).value + 8 <= |now| && PastClose(text) == Some(Find(now, CLOSE).value + 8)
  {
    CloseChars();
    hide Find;
    assert text[..|now|] == now;
    FindInPrefix(text, CLOSE, |now|);
  }

  lemma PondersPast(r: Filter, text: string, at: nat)
    requires r.phase == Streaming && at <= |text| && Trims(Join(r.pushed), text[at..])
    ensures Ponders(r, text, Some(at))
  {
  }

  lemma ShowsAfter(now: string, more: string, at: nat)
    requires at <= |now|
    ensures Trims(LStrip(now[at..]) + more, (now + more)[at..])
  {
    hide LStrip, Trims, TrimsAt;
    TrimsStart(now[at..]);
    TrimsMore(LStrip(now[at..]), now[at..], more);
    assert (now + more)[at..] == now[at..] + more;
  }

  /** Where the text goes on after the thinking, if the filter finds that out. */
  function Resumes(tokens: seq<string>): Option<nat> {
    match Decide("", tokens)
    case Pondered(n) => if n == |tokens| then None else PastClose(Join(tokens))
    case _ => None
  }

  lemma WholeJoin(tokens: seq<string>, n: nat)
    requires n <= |tokens|
    ensures Join(tokens[..n]) + Join(tokens[n..]) == Join(tokens)
  {
    assert tokens == tokens[..n] + tokens[n..];
    JoinAppend(tokens[..n], tokens[n..]);
  }

  /** What has been pushed after any tokens at all, ended or interrupted. */
  lemma PushedSoFar(tokens: seq<string>)
    ensures var r, text := RunTokens(START, tokens), Join(tokens);
      match Decide("", tokens)
      case Undecided => r == Filter(Buffering, text, [])
      case ShownAtOnce => r.phase == Streaming && Join(r.pushed) == text
      case Pondered(_) => Ponders(r, text, Resumes(tokens))
  {
    hide RunTokens, Decide, Ponders, PastClose;
    BufferingRun("", tokens);
    assert "" + Join(tokens) == Join(tokens);
    if Decide("", tokens).Pondered? { PonderedSoFar(tokens, Decide("", tokens).count); }
  }

  lemma PonderedSoFar(tokens: seq<string>, n: nat)
    requires n <= |tokens| && Decide("", tokens) == Pondered(n)
    requires RunTokens(START, tokens) == RunTokens(Filter(Pondering, "" + Join(tokens[..n]), []), tokens[n..])
    ensures Ponders(RunTokens(START, tokens), Join(tokens), Resumes(tokens))
  {
    hide RunTokens, Decide, Ponders, PastClose, Join;
    PonderingRun("" + Join(tokens[..n]), tokens[n..]);
    WholeJoin(tokens, n);
    assert "" + Join(tokens[..n]) == Join(tokens[..n]);
  }

  // ---------------------------------------------------------------- the flush at the end

  lemma FlushOf(f: Filter)
    requires f.phase != Streaming && Strip(f.pre) != "" && f.pushed == []
    ensures Join(OnDone(f).pushed) == Strip(RemoveThinking(f.pre))
  {
    hide RemoveThinking, Strip, Join, Push;
    JoinPush([], Strip(RemoveThinking(f.pre)));
    JoinNothing(Strip(RemoveThinking(f.pre)));
  }

  lemma StripTwice(s: string)
    ensures Strip(Strip(s)) == Strip(s)
  {
    StripIsTrimmed(s);
    StripOfTrimmed(Strip(s));
  }

  lemma {:induction false} UndecidedHasNoTag(seen: string, tokens: seq<string>)
    requires tokens != [] && Decide(seen, tokens) == Undecided
    ensures !Contains(LStrip(seen + Join(tokens)), OPEN)
    decreases |tokens|
  {
    hide LStrip, Contains, IsAnswer;
    var now, rest := seen + tokens[0], tokens[1..];
    assert now + Join(rest) == seen + Join(tokens);
    if rest == [] {
      assert now + Join(rest) == now;
    } else {
      UndecidedHasNoTag(now, rest);
    }
  }

  lemma {:induction false} PonderedHasTag(seen: string, tokens: seq<string>)
    requires Decide(seen, tokens).Pondered?
    ensures Contains(LStrip(seen + Join(tokens[..Decide(seen, tokens).count])), OPEN)
    decreases |tokens|
  {
    hide LStrip, Contains, IsAnswer;
    var now, rest := seen + tokens[0], tokens[1..];
    if Contains(LStrip(now), OPEN) {
      assert tokens[..1] == [] + [tokens[0]];
      JoinOneMore([], tokens[0]);
      assert Join(tokens[..1]) == tokens[0];
    } else {
      PonderedHasTag(now, rest);
      OneTokenLonger(seen, tokens, Decide(now, rest).count);
    }
  }

  lemma TagIsSomething(s: string)
    requires Contains(s, OPEN)
    ensures s != ""
  {
    var i :| 0 <= i <= |s| && OccursAt(s, OPEN, i);
    OpenChars();
  }

  lemma PonderedIsNotBlank(tokens: seq<string>)
    requires Decide("", tokens).Pondered?
    ensures Strip(Join(tokens)) != "" && Contains(Join(tokens), OPEN)
  {
    hide Decide, LStrip, Strip, Contains;
    PonderedHasTag("", tokens);
    var n := Decide("", tokens).count;
    var first := "" + Join(tokens[..n]);
    WholeJoin(tokens, n);
    assert first + Join(tokens[n..]) == Join(tokens) && Join(tokens)[..|first|] == first;
    TagIsSomething(LStrip(first));
    NonBlankStrip(first, Join(tokens[n..]));
    TagOfStripped(Join(tokens), |first|);
  }

  lemma TagOfStripped(s: string, n: nat)
    requires n <= |s| && Contains(LStrip(s[..n]), OPEN)
    ensures Contains(s, OPEN)
  {
    var l := LStrip(s[..n]);
    var d := n - |l|;
    hide LStrip, Contains;
    assert l == s[d..n];
    TagInLonger(s, OPEN, d, n);
  }

  lemma AnswerOfUndecided(tokens: seq<string>)
    requires Decide("", tokens) == Undecided
    ensures Strip(Answer(tokens)) == Strip(Join(tokens))
  {
    var text, f := Join(tokens), Filter(Buffering, Join(tokens), []);
    PushedSoFar(tokens);
    assert "" + text == text;
    if tokens != [] { UndecidedHasNoTag("", tokens); }
    hide RunTokens, Decide, LStrip, Strip, Join;
    if Strip(text) != "" {
      if Contains(text, OPEN) { TagAfterBlanks(text); EmptyHasNoTag(tokens); }
      NoBlock(text);
      FlushOf(f);
      StripTwice(text);
    } else {
      JoinOfNone();
      StripOfNone();
    }
  }

  lemma JoinOfNone()
    ensures Join([]) == ""
  {
  }

  lemma StripOfNone()
    ensures Strip("") == ""
  {
  }

  lemma EmptyHasNoTag(tokens: seq<string>)
    ensures tokens == [] ==> !Contains(Join(tokens), OPEN)
  {
    OpenChars();
  }

  lemma AnswerOfPondered(tokens: seq<string>)
    requires Decide("", tokens).Pondered?
    ensures Resumes(tokens).Some? ==> Resumes(tokens).value <= |Join(tokens)|
    ensures Strip(Answer(tokens))
         == if Resumes(tokens).Some? then Strip(Join(tokens)[Resumes(tokens).value..]) else Strip(RemoveThinking(Join(tokens)))
  {
    var text := Join(tokens);
    PushedSoFar(tokens);
    PonderedIsNotBlank(tokens);
    hide RunTokens, Decide, Resumes, RemoveThinking, Strip, Join, Trims;
    if Resumes(tokens).Some? {
      TrimsEnd(Join(RunTokens(START, tokens).pushed), text[Resumes(tokens).value..]);
    } else {
      FlushOf(Filter(Pondering, text, []));
      StripTwice(RemoveThinking(text));
    }
  }

  /** The answer to every list of tokens, up to surrounding blanks. A text that shows visible characters
      before its opening tag is complete is shown as it is. Otherwise, once the token that completes the
      tag is followed by another and a closing tag is there, everything up to the first closing tag is
      dropped; in the remaining case the flush removes complete blocks. */
  lemma AnswerExactly(tokens: seq<string>)
    ensures var text := Join(tokens);
      match Decide("", tokens)
      case Undecided => Strip(Answer(tokens)) == Strip(text)
      case ShownAtOnce => Answer(tokens) == text
      case Pondered(_) =>
        && (Resumes(tokens).Some? ==> Resumes(tokens).value <= |text|)
        && Strip(Answer(tokens))
        == if Resumes(tokens).Some? then Strip(text[Resumes(tokens).value..]) else Strip(RemoveThinking(text))
  {
    hide RunTokens, RemoveThinking, Strip, Join, Resumes;
    match Decide("", tokens)
    case Undecided => AnswerOfUndecided(tokens);
    case ShownAtOnce => PushedSoFar(tokens);
    case Pondered(_) => AnswerOfPondered(tokens);
  }

  // ---------------------------------------------------------------- visible text ahead of the tag

  /** The flush keeps whatever is ahead of the first opening tag. */
  lemma RemovalKeepsVisible(s: string)
    requires Find(s, OPEN).Some?
    ensures Find(s, OPEN).value <= |s| && s[..Find(s, OPEN).value] <= RemoveThinking(s)
  {
    var i := Find(s, OPEN).value;
    OpenChars();
    hide FindFrom, LStrip, Contains;
    if CutBlock(s).Some? {
      assert CutBlock(s).value.before == s[..i];
    }
  }

  /** Visible text in the token that completes the opening tag, and ahead of the tag: it is shown with
      the flush exactly when no further token shows a closing tag; otherwise it is dropped together with
      the thinking, up to the first closing tag. */
  lemma VisibleTextIsKeptExactly(tokens: seq<string>)
    requires Decide("", tokens).Pondered?
    ensures Find(Join(tokens), OPEN).Some?
    ensures var text := Join(tokens);
      if Resumes(tokens).None?
      then Strip(Answer(tokens)) == Strip(RemoveThinking(text)) && text[..Find(text, OPEN).value] <= RemoveThinking(text)
      else Resumes(tokens).value <= |text| && Strip(Answer(tokens)) == Strip(text[Resumes(tokens).value..])
  {
    PonderedIsNotBlank(tokens);
    FindsTag(Join(tokens));
    AnswerOfPondered(tokens);
    RemovalKeepsVisible(Join(tokens));
    hide Decide, Resumes, RemoveThinking, Find, Join, Strip;
  }

  lemma FindsTag(s: string)
    requires Contains(s, OPEN)
    ensures Find(s, OPEN).Some?
  {
    var i :| 0 <= i <= |s| && OccursAt(s, OPEN, i);
    hide Contains;
    var j := Find(s, OPEN);
  }

  /** A first token that completes the opening tag, and a second one that completes a closing tag: whatever
      comes ahead of the closing tag is gone, as "Hi" is in ["Hi <think>x", "</think> bye"]. */
  lemma TextAheadOfTagIsLost(first: string, second: string, text: string, i: nat)
    requires Contains(LStrip(first), OPEN) && text == first + second && Find(text, CLOSE) == Some(i)
    ensures i + 8 <= |text| && Answer([first, second]) == LStrip(text[i + 8..])
  {
    hide *;
    TwoTokens(first, second);
    FirstTokenPonders(first);
    PonderStep(Filter(Pondering, first, []), second, text);
    DoneShows(LStrip(text[i + 8..]));
  }

  lemma FirstTokenPonders(first: string)
    requires Contains(LStrip(first), OPEN)
    ensures OnToken(Filter(Buffering, "", []), first) == Filter(Pondering, first, [])
  {
    hide *;
    BufferStep("", first);
    assert "" + first == first;
  }

  lemma DoneShows(shown: string)
    ensures Join(OnDone(Filter(Streaming, "", Push([], shown))).pushed) == shown
  {
    hide Join, Push;
    JoinPush([], shown);
    JoinNothing(shown);
  }

  lemma TwoTokens(first: string, second: string)
    ensures RunTokens(START, [first, second]) == OnToken(OnToken(Filter(Buffering, "", []), first), second)
    ensures Answer([first, second]) == Join(OnDone(RunTokens(START, [first, second])).pushed)
  {
    hide OnToken, OnDone, Join;
    var f := OnToken(Filter(Buffering, "", []), first);
    assert [first, second][1..] == [second] && [second][1..] == [];
    assert RunTokens(START, [first, second]) == RunTokens(f, [second]) == RunTokens(OnToken(f, second), []);
  }

  /** Once a first token shows visible text, everything is pushed as it comes: a later thinking block
      is not removed. */
  lemma VisibleTextFirstShowsAll(first: string, tokens: seq<string>)
    requires IsAnswer(LStrip(first)) && !Contains(LStrip(first), OPEN)
    ensures Answer([first] + tokens) == first + Join(tokens)
  {
    var f := OnToken(START, first);
    hide LStrip, Contains, IsAnswer, Find;
    assert "" + first == first && ([first] + tokens)[1..] == tokens;
    JoinOneMore([], first);
    JoinNothing(first);
    StreamingIsVerbatim(f, tokens);
    assert f.pushed == [] + [first];
  }

  /** What a first token without the opening tag shows: nothing as long as it could still turn into the
      tag, that is, as it is blank, or begins with a bracket and is short or begins like the tag. */
  lemma FirstTokenShownExactly(token: string)
    requires !Contains(LStrip(token), "<think>")
    ensures var s, f := LStrip(token), OnToken(Filter(Buffering, "", []), token);
      if s == "" || (s[0] == '<' && (|s| < 7 || s[..6] == "<think")) then f == Filter(Buffering, token, [])
      else f == Filter(Streaming, "", [token])
  {
    hide LStrip, Contains, OnToken, IsAnswer;
    BufferStep("", token);
    assert "" + token == token;
    AnswerChars(LStrip(token));
  }

  lemma AnswerChars(s: string)
    ensures IsAnswer(s) <==> s != "" && !(s[0] == '<' && (|s| < 7 || s[..6] == "<think"))
  {
    if |s| >= 6 { assert s[0..6] == s[..6] && s[..6][0] == s[0]; }
  }

  // ---------------------------------------------------------------- text without a complete block

  /** A text in which no block can be recognised: a tag is missing altogether. */
  ghost predicate Untagged(text: string) {
    !Contains(text, OPEN) || !Contains(text, CLOSE)
  }

  lemma UntaggedHasNoBlock(s: string)
    requires Untagged(s)
    ensures RemoveThinking(s) == s
  {
    if !Contains(s, OPEN) {
      NoBlock(s);
    } else {
      OpenChars();
      CloseChars();
      var i := Find(s, OPEN);
      if i.Some? {
        var j := FindFrom(s, CLOSE, i.value + 7);
        hide FindFrom, Find;
        assert j.Some? ==> Contains(s, CLOSE);
      }
    }
  }

  /** A text without an opening tag, or without a closing one, is pushed whole, up to leading and
      trailing blanks: thinking that is never closed reaches the user, tag included. */
  lemma UntaggedIsPushedWhole(tokens: seq<string>)
    requires Untagged(Join(tokens))
    ensures Strip(Answer(tokens)) == Strip(Join(tokens))
  {
    AnswerExactly(tokens);
    UntaggedHasNoBlock(Join(tokens));
    if Decide("", tokens).Pondered? {
      PonderedIsNotBlank(tokens);
      NoTagNoFind(Join(tokens));
    }
    hide Decide, RemoveThinking, Strip, Join, Find, Contains;
  }

  // ---------------------------------------------------------------- text that opens with thinking

  /** Blanks, a thinking block, and any rest at all. */
  datatype Parts = Parts(blank: string, thoughts: string, rest: string)
  {
    ghost predicate Valid() {
      IsBlank(blank) && !Contains(thoughts, CLOSE)
    }

    function Whole(): string {
      blank + OPEN + thoughts + CLOSE + rest
    }

    /** Where the thinking block ends. */
    function End(): nat {
      |blank| + 7 + |thoughts| + 8
    }
  }

  lemma CharsOfWhole(p: Parts)
    ensures var s := p.Whole();
      && |s| == p.End() + |p.rest|
      && s[..|p.blank|] == p.blank
      && s[|p.blank|..|p.blank| + 7] == OPEN
      && s[|p.blank| + 7..p.End() - 8] == p.thoughts
      && s[p.End() - 8..p.End()] == CLOSE
      && s[p.End()..] == p.rest
  {
  }

  lemma CharsOfBlankAndOpen(p: Parts, i: nat)
    requires IsBlank(p.blank) && i < |p.blank| + 7
    ensures var s := p.Whole();
      if i < |p.blank| then IsSpace(s[i]) else s[i] == OPEN[i - |p.blank|]
  {
    CharsOfWhole(p);
    var s, w := p.Whole(), |p.blank|;
    if i < w { assert s[..w][i] == p.blank[i]; } else { assert s[w..w + 7][i - w] == s[i]; }
  }

  /** The first closing tag is the one that ends the block. */
  lemma FirstClose(p: Parts, i: nat)
    requires p.Valid() && i < p.End() - 8
    ensures !OccursAt(p.Whole(), CLOSE, i)
  {
    var s, w := p.Whole(), |p.blank|;
    CharsOfWhole(p);
    CloseChars();
    OpenChars();
    if i < w + 7 {
      CharsOfBlankAndOpen(p, i);
      if i == w {
        CharsOfBlankAndOpen(p, i + 1);
        CharMiss(s, CLOSE, i, 1);
      } else {
        CharMiss(s, CLOSE, i, 0);
      }
    } else {
      NoCloseInThoughts(p, i);
    }
  }

  lemma NoCloseInThoughts(p: Parts, i: nat)
    requires p.Valid() && |p.blank| + 7 <= i < p.End() - 8
    ensures !OccursAt(p.Whole(), CLOSE, i)
  {
    var s, t := p.Whole(), |p.blank| + 7;
    CharsOfWhole(p);
    CloseChars();
    if i + 8 <= p.End() - 8 {
      assert p.thoughts[i - t..i - t + 8] == s[i..i + 8];
      assert !OccursAt(p.thoughts, CLOSE, i - t);
    } else {
      var k := p.End() - 8 - i;
      assert s[p.End() - 8..p.End()][0] == s[i + k];
      CharMiss(s, CLOSE, i, k);
    }
  }

  // ---------------------------------------------------------------- prefixes of such a text

  /** Before the opening tag is complete, trimming leaves a part of it. */
  lemma TrimmedStart(p: Parts, n: nat)
    requires p.Valid() && n <= |p.Whole()|
    ensures n <= |p.blank| ==> LStrip(p.Whole()[..n]) == ""
    ensures |p.blank| < n ==> LStrip(p.Whole()[..n]) == p.Whole()[|p.blank|..n]
  {
    var s, w := p.Whole(), |p.blank|;
    CharsOfWhole(p);
    if n <= w {
      assert s[..n] == p.blank[..n] && s[..n] == s[..n] + "";
      LStripOfBlank(p.blank[..n], "");
    } else {
      assert s[..n] == p.blank + s[w..n];
      LStripOfBlank(p.blank, s[w..n]);
      CharsOfBlankAndOpen(p, w);
      assert s[w..n][0] == s[w];
      LStripStop(s[w..n]);
    }
  }

  lemma PartOfTagIsHeld(p: Parts, n: nat)
    requires p.Valid() && n < |p.blank| + 7
    ensures n <= |p.Whole()|
    ensures var stripped := LStrip(p.Whole()[..n]); !Contains(stripped, OPEN) && !IsAnswer(stripped)
  {
    CharsOfWhole(p);
    TrimmedStart(p, n);
    hide LStrip;
    OpenChars();
    if |p.blank| < n {
      CharsOfBlankAndOpen(p, |p.blank|);
    }
  }

  lemma TagIsSeen(p: Parts, n: nat)
    requires p.Valid() && |p.blank| + 7 <= n <= |p.Whole()|
    ensures Contains(LStrip(p.Whole()[..n]), OPEN)
  {
    var s, w := p.Whole(), |p.blank|;
    CharsOfWhole(p);
    TrimmedStart(p, n);
    hide LStrip;
    OpenChars();
    assert s[w..n][0..7] == s[w..w + 7];
    assert OccursAt(LStrip(s[..n]), OPEN, 0);
  }

  /** Where the closing tag is found in a prefix. */
  lemma CloseInPrefix(p: Parts, n: nat)
    requires p.Valid() && n <= |p.Whole()|
    ensures Find(p.Whole()[..n], CLOSE) == if n < p.End() then None else Some(p.End() - 8)
  {
    var s, at := p.Whole(), p.End() - 8;
    CharsOfWhole(p);
    CloseChars();
    assert OccursAt(s, CLOSE, at);
    hide OccursAt, FindFrom, Contains, Parts.Whole, Parts.Valid;
    forall i: nat | i < at || n < p.End()
      ensures !OccursAt(s[..n], CLOSE, i)
    {
      OccursInPrefix(s, CLOSE, n, i);
      if i < at { FirstClose(p, i); }
    }
    if p.End() <= n {
      OccursInPrefix(s, CLOSE, n, at);
      FindIs(s[..n], CLOSE, at);
    }
  }

  /** A prefix of such a text is undecided until its opening tag is complete, and pondered from the token
      that completes the tag. */
  lemma {:induction false} DecideParts(p: Parts, k: nat, tokens: seq<string>, n: nat)
    requires p.Valid() && k <= n <= |p.Whole()| && k < |p.blank| + 7
    requires p.Whole()[..k] + Join(tokens) == p.Whole()[..n]
    ensures match Decide(p.Whole()[..k], tokens)
      case Undecided => n < |p.blank| + 7
      case ShownAtOnce => false
      case Pondered(m) => k + |Join(tokens[..m - 1])| < |p.blank| + 7 <= k + |Join(tokens[..m])|
    decreases |tokens|
  {
    hide LStrip, Contains, IsAnswer, Parts.Whole, Parts.Valid;
    var s := p.Whole();
    if tokens == [] {
      assert s[..k] + Join(tokens) == s[..k];
    } else {
      var j, rest := k + |tokens[0]|, tokens[1..];
      NextCut(s, k, tokens[0], Join(rest), n);
      if j < |p.blank| + 7 {
        PartOfTagIsHeld(p, j);
        DecideParts(p, j, rest, n);
        if Decide(s[..j], rest).Pondered? { CountsShift(tokens, Decide(s[..j], rest).count); }
      } else {
        TagIsSeen(p, j);
        CountsStart(tokens);
      }
    }
  }

  lemma NextCut(s: string, k: nat, token: string, more: string, n: nat)
    requires k <= n <= |s| && s[..k] + (token + more) == s[..n]
    ensures k + |token| <= n && s[..k] + token == s[..k + |token|] && s[..k + |token|] + more == s[..n]
  {
    var t := s[..k] + (token + more);
    assert |t| == n;
    assert s[..k + |token|] == t[..k + |token|] == s[..k] + token;
  }

  lemma CountsShift(tokens: seq<string>, m: nat)
    requires tokens != [] && 1 <= m < |tokens|
    ensures |Join(tokens[..m])| == |tokens[0]| + |Join(tokens[1..][..m - 1])|
    ensures |Join(tokens[..m + 1])| == |tokens[0]| + |Join(tokens[1..][..m])|
  {
    assert tokens[..m] == [tokens[0]] + tokens[1..][..m - 1];
    assert tokens[..m + 1] == [tokens[0]] + tokens[1..][..m];
  }

  lemma CountsStart(tokens: seq<string>)
    requires tokens != []
    ensures |Join(tokens[..0])| == 0 && |Join(tokens[..1])| == |tokens[0]|
  {
    assert tokens[..1] == [] + [tokens[0]];
    JoinOneMore([], tokens[0]);
  }

  // ---------------------------------------------------------------- an answer that opens with thinking

  lemma FirstOpen(p: Parts)
    requires p.Valid()
    ensures Find(p.Whole(), OPEN) == Some(|p.blank|)
  {
    var s, w := p.Whole(), |p.blank|;
    CharsOfWhole(p);
    OpenChars();
    forall i: nat | i < w
      ensures !OccursAt(s, OPEN, i)
    {
      CharsOfBlankAndOpen(p, i);
      CharMiss(s, OPEN, i, 0);
    }
    assert OccursAt(s, OPEN, w);
  }

  lemma CloseAfterOpen(p: Parts)
    requires p.Valid()
    ensures |p.blank| + 7 <= |p.Whole()|
    ensures FindFrom(p.Whole(), CLOSE, |p.blank| + 7) == Some(p.End() - 8)
  {
    CharsOfWhole(p);
    CloseChars();
    assert OccursAt(p.Whole(), CLOSE, p.End() - 8);
    forall i: nat | |p.blank| + 7 <= i < p.End() - 8
      ensures !OccursAt(p.Whole(), CLOSE, i)
    {
      FirstClose(p, i);
    }
  }

  lemma BlockAt(s: string, i: nat, j: nat)
    requires Find(s, OPEN) == Some(i) && i + 7 <= |s| && FindFrom(s, CLOSE, i + 7) == Some(j) && j + 8 <= |s|
    ensures CutBlock(s) == Some(Cut(s[..i], LStrip(s[j + 8..])))
  {
    hide Find, FindFrom, LStrip, OccursAt, Contains;
    assert CutBlock(s).Some?;
  }

  lemma BlockOfWhole(p: Parts)
    requires p.Valid()
    ensures CutBlock(p.Whole()) == Some(Cut(p.blank, LStrip(p.rest)))
  {
    hide *;
    CharsOfWhole(p);
    FirstOpen(p);
    CloseAfterOpen(p);
    BlockAt(p.Whole(), |p.blank|, p.End() - 8);
  }

  /** The flush of a whole text is that of its rest. */
  lemma FlushWhole(p: Parts)
    requires p.Valid()
    ensures Strip(RemoveThinking(p.Whole())) == Strip(RemoveThinking(LStrip(p.rest)))
  {
    hide CutBlock, LStrip, Strip, Parts.Whole, Parts.Valid;
    BlockOfWhole(p);
    assert RemoveThinking(p.Whole()) == p.blank + RemoveThinking(LStrip(p.rest));
    BlankIsBlank(p);
    StripIgnoresLeadingBlank(p.blank, RemoveThinking(LStrip(p.rest)));
  }

  lemma BlankIsBlank(p: Parts)
    requires p.Valid()
    ensures IsBlank(p.blank)
  {
  }

  lemma DecideWhole(p: Parts, tokens: seq<string>, n: nat)
    requires p.Valid() && n <= |p.Whole()| && Join(tokens) == p.Whole()[..n]
    ensures match Decide("", tokens)
      case Undecided => n < |p.blank| + 7
      case ShownAtOnce => false
      case Pondered(m) => |Join(tokens[..m - 1])| < |p.blank| + 7 <= |Join(tokens[..m])|
  {
    hide Decide, Parts.Whole, Parts.Valid;
    assert p.Whole()[..0] == "" && "" + Join(tokens) == Join(tokens);
    DecideParts(p, 0, tokens, n);
  }

  /** However a text of blanks, a thinking block and any rest is cut into tokens: when a token follows the
      one that completes the opening tag, what is pushed is the rest as it is; when none does, the rest
      without its complete blocks; both up to surrounding blanks. */
  lemma ThinkingIsHidden(p: Parts, tokens: seq<string>)
    requires p.Valid() && Join(tokens) == p.Whole()
    ensures Decide("", tokens).Pondered?
    ensures var m := Decide("", tokens).count;
      && |Join(tokens[..m - 1])| < |p.blank| + 7 <= |Join(tokens[..m])|
      && Strip(Answer(tokens)) == if m < |tokens| then Strip(p.rest) else Strip(RemoveThinking(LStrip(p.rest)))
  {
    var s := p.Whole();
    assert s[..|s|] == s;
    CharsOfWhole(p);
    hide Decide, Strip, RemoveThinking, Parts.Whole, Parts.Valid, LStrip, Find;
    DecideWhole(p, tokens, |s|);
    CloseInPrefix(p, |s|);
    AnswerOfPondered(tokens);
    FlushWhole(p);
  }

  /** A rest without a complete block of its own comes out the same either way. */
  lemma PlainRestIsShown(p: Parts, tokens: seq<string>)
    requires p.Valid() && Join(tokens) == p.Whole() && CutBlock(LStrip(p.rest)).None?
    ensures Strip(Answer(tokens)) == Strip(p.rest)
  {
    hide Decide, Strip, CutBlock, Parts.Whole, Parts.Valid, LStrip, Answer;
    ThinkingIsHidden(p, tokens);
    StripOfLStrip(p.rest);
  }

  /** A stream that is interrupted anywhere in such a text has pushed nothing but the start of the rest,
      up to blanks at its beginning: never a character of the thinking. */
  lemma InterruptedShowsOnlyRest(p: Parts, tokens: seq<string>, n: nat)
    requires p.Valid() && n <= |p.Whole()| && Join(tokens) == p.Whole()[..n]
    ensures var pushed := RunTokens(START, tokens).pushed;
      pushed == [] || (p.End() <= n && Trims(Join(pushed), p.Whole()[p.End()..n]))
  {
    hide Decide, Find, RunTokens, Trims, Parts.Whole, Parts.Valid;
    PushedSoFar(tokens);
    DecideWhole(p, tokens, n);
    CloseInPrefix(p, n);
    if Resumes(tokens).Some? { CutTwice(p.Whole(), p.End(), n); }
  }

  lemma CutTwice(s: string, i: nat, n: nat)
    requires i <= n <= |s|
    ensures s[..n][i..] == s[i..n]
  {
  }

}
