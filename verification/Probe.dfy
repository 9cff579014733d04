/**
 * One model's stream: server-sent events cut into lines, decoded into tokens and filtered.
 */
module Probe {

  import opened Wrappers
  import opened Text
  import opened Thinking

  // ---------------------------------------------------------------- lines

  /** The complete lines of a text; what follows the last line break is not one. */
  function Lines(s: string): seq<string>
    decreases |s|
  {
    match Find(s, "\n")
    case None => []
    case Some(i) => [s[..i]] + Lines(s[i + 1..])
  }

  lemma {:induction false} BreakInPrefix(s: string, more: string)
    requires Find(s, "\n").Some?
    ensures Find(s + more, "\n") == Find(s, "\n")
  {
    var at := Find(s, "\n").value;
    hide FindFrom;
    assert (s + more)[..|s|] == s;
    forall i: nat | i <= at
      ensures OccursAt(s + more, "\n", i) == OccursAt(s, "\n", i)
    {
      OccursInPrefix(s + more, "\n", |s|, i);
    }
    FindIs(s + more, "\n", at);
  }

  // ---------------------------------------------------------------- the state of a stream

  /** The filter, and whether the end marker has been seen. */
  datatype State = State(filter: Filter, done: bool)

  const DATA: string := "data: "

  /** The payload of a data line. */
  function DataOf(line: string): Option<string> {
    if |line| >= 6 && line[..6] == DATA then Some(line[6..]) else None
  }

  /** One line of the event stream, for a given way of decoding a token out of its payload. */
  function OnLine(decode: string -> Option<string>, st: State, line: string): State {
    var data := DataOf(Strip(line));
    if st.done || data.None? then st
    else if data.value == "[DONE]" then State(OnDone(st.filter), true)
    else
      var token := decode(data.value);
      if token.None? || token.value == "" then st else st.(filter := OnToken(st.filter, token.value))
  }

  function RunLines(decode: string -> Option<string>, st: State, lines: seq<string>): State
    decreases |lines|
  {
    if lines == [] then st else RunLines(decode, OnLine(decode, st, lines[0]), lines[1..])
  }

  const BEGIN: State := State(START, false)

  /** The state after a whole text, however it arrives. */
  function Stream(decode: string -> Option<string>, text: string): State {
    RunLines(decode, BEGIN, Lines(text))
  }

  lemma {:induction false} DoneStays(decode: string -> Option<string>, st: State, lines: seq<string>)
    requires st.done
    ensures RunLines(decode, st, lines) == st
    decreases |lines|
  {
    if lines != [] {
      DoneStays(decode, st, lines[1..]);
    }
  }

  lemma FirstLine(decode: string -> Option<string>, st: State, s: string, more: string, i: nat)
    requires Find(s, "\n") == Some(i)
    ensures i < |s|
    ensures RunLines(decode, st, Lines(s + more)) == RunLines(decode, OnLine(decode, st, s[..i]), Lines(s[i + 1..] + more))
  {
    assert i + 1 <= |s|;
    BreakInPrefix(s, more);
    assert (s + more)[..i] == s[..i] && (s + more)[i + 1..] == s[i + 1..] + more;
    hide Find, OnLine;
    assert Lines(s + more) == [s[..i]] + Lines(s[i + 1..] + more);
  }

  /** What reaches the queue depends on the text alone, not on how it was cut into chunks. */
  method Run(chunks: seq<string>, decode: string -> Option<string>) returns (st: State)
    ensures st == Stream(decode, Join(chunks))
  {
    hide OnLine, Find;
    st := BEGIN;
    var buffer := "";
    assert chunks[0..] == chunks && "" + Join(chunks) == Join(chunks);
    for k := 0 to |chunks|
      invariant RunLines(decode, st, Lines(buffer + Join(chunks[k..]))) == Stream(decode, Join(chunks))
      invariant Find(buffer, "\n").None?
    {
      assert chunks[k..][0] == chunks[k] && chunks[k..][1..] == chunks[k + 1..];
      ghost var rest := Join(chunks[k + 1..]);
      assert buffer + Join(chunks[k..]) == (buffer + chunks[k]) + rest;
      buffer := buffer + chunks[k];
      while Find(buffer, "\n").Some?
        invariant RunLines(decode, st, Lines(buffer + rest)) == Stream(decode, Join(chunks))
        decreases |buffer|
      {
        var i := Find(buffer, "\n").value;
        FirstLine(decode, st, buffer, rest, i);
        st := OnLine(decode, st, buffer[..i]);
        buffer := buffer[i + 1..];
        if st.done {
          DoneStays(decode, st, Lines(buffer + rest));
          return;
        }
      }
    }
    assert buffer + Join(chunks[|chunks|..]) == buffer;
    NoLineLeft(decode, st, buffer);
  }

  lemma NoLineLeft(decode: string -> Option<string>, st: State, s: string)
    requires Find(s, "\n").None?
    ensures RunLines(decode, st, Lines(s)) == st
  {
  }

  // ---------------------------------------------------------------- the tokens of a stream

  datatype Event = Token(text: string) | End | Skip

  function EventOf(decode: string -> Option<string>, line: string): Event {
    match DataOf(Strip(line))
    case None => Skip
    case Some(data) =>
      if data == "[DONE]" then End
      else if decode(data).None? || decode(data).value == "" then Skip
      else Token(decode(data).value)
  }

  /** The tokens up to the end marker. */
  function TokensOf(decode: string -> Option<string>, lines: seq<string>): (tokens: seq<string>)
    ensures "" !in tokens
    decreases |lines|
  {
    if lines == [] || EventOf(decode, lines[0]).End? then []
    else if EventOf(decode, lines[0]).Token? then [EventOf(decode, lines[0]).text] + TokensOf(decode, lines[1..])
    else TokensOf(decode, lines[1..])
  }

  predicate Ends(decode: string -> Option<string>, lines: seq<string>)
    decreases |lines|
  {
    lines != [] && (EventOf(decode, lines[0]).End? || Ends(decode, lines[1..]))
  }

  lemma LineIsEvent(decode: string -> Option<string>, st: State, line: string)
    requires !st.done
    ensures OnLine(decode, st, line)
         == match EventOf(decode, line)
            case Skip => st
            case End => State(OnDone(st.filter), true)
            case Token(text) => st.(filter := OnToken(st.filter, text))
  {
    hide Strip, OnToken, OnDone;
  }

  lemma {:induction false} StreamFiltersTokens(decode: string -> Option<string>, st: State, lines: seq<string>)
    requires !st.done
    ensures RunLines(decode, st, lines)
         == var f := RunTokens(st.filter, TokensOf(decode, lines));
            if Ends(decode, lines) then State(OnDone(f), true) else State(f, false)
    decreases |lines|
  {
    hide OnLine, EventOf, OnToken, OnDone;
    if lines != [] {
      LineIsEvent(decode, st, lines[0]);
      if EventOf(decode, lines[0]).End? {
        DoneStays(decode, OnLine(decode, st, lines[0]), lines[1..]);
      } else {
        StreamFiltersTokens(decode, OnLine(decode, st, lines[0]), lines[1..]);
      }
    }
  }

  /** A stream that ends, and whose tokens spell blanks, a thinking block and a rest, delivers the rest
      as it is when a token follows the one that completes the opening tag, and the rest without its
      complete blocks when none does: whatever the chunks, the lines in between and the cut into tokens. */
  lemma StreamHidesThinking(decode: string -> Option<string>, text: string, p: Parts)
    requires p.Valid() && Ends(decode, Lines(text)) && Join(TokensOf(decode, Lines(text))) == p.Whole()
    ensures var tokens := TokensOf(decode, Lines(text));
      && Decide("", tokens).Pondered?
      && Strip(Join(Stream(decode, text).filter.pushed))
      == if Decide("", tokens).count < |tokens| then Strip(p.rest) else Strip(RemoveThinking(LStrip(p.rest)))
  {
    hide Lines, TokensOf, Ends, OnDone, RunTokens, Strip, Join, Decide, RemoveThinking, LStrip, Parts.Whole, Parts.Valid;
    StreamFiltersTokens(decode, BEGIN, Lines(text));
    ThinkingIsHidden(p, TokensOf(decode, Lines(text)));
  }

  /** A stream that stops anywhere, without an end marker, and whose tokens spell the start of such a text,
      has pushed nothing, or the start of the rest but for blanks at its beginning. */
  lemma InterruptedStreamHidesThinking(decode: string -> Option<string>, text: string, p: Parts, n: nat)
    requires p.Valid() && !Ends(decode, Lines(text))
    requires n <= |p.Whole()| && Join(TokensOf(decode, Lines(text))) == p.Whole()[..n]
    ensures var pushed := Stream(decode, text).filter.pushed;
      pushed == [] || (p.End() <= n && Trims(Join(pushed), p.Whole()[p.End()..n]))
  {
    hide Lines, TokensOf, Ends, OnDone, RunTokens, Join, Trims, Parts.Whole, Parts.Valid;
    StreamFiltersTokens(decode, BEGIN, Lines(text));
    InterruptedShowsOnlyRest(p, TokensOf(decode, Lines(text)), n);
  }

  // ---------------------------------------------------------------- what a line does

  lemma PayloadOf(payload: string)
    ensures "data: " <= "data: " + payload && DataOf("data: " + payload) == Some(payload)
  {
    assert ("data: " + payload)[..6] == "data: " && ("data: " + payload)[6..] == payload;
  }

  /** The line that ends a stream, whatever blanks surround it: what is held back is flushed. */
  lemma EndLine(decode: string -> Option<string>, f: Filter, line: string)
    requires Strip(line) == "data: [DONE]"
    ensures OnLine(decode, State(f, false), line) == State(OnDone(f), true)
    ensures EventOf(decode, line) == End
  {
    assert "data: [DONE]" == "data: " + "[DONE]";
    PayloadOf("[DONE]");
    hide Strip, OnDone, OnToken;
  }

  /** A line with a payload that decodes to a token hands the token to the filter; one whose payload decodes
      to nothing does nothing. */
  lemma TokenLine(decode: string -> Option<string>, f: Filter, line: string, payload: string)
    requires Strip(line) == "data: " + payload && payload != "[DONE]"
    ensures OnLine(decode, State(f, false), line)
         == if decode(payload).None? || decode(payload).value == "" then State(f, false)
            else State(OnToken(f, decode(payload).value), false)
    ensures EventOf(decode, line) == if decode(payload).None? || decode(payload).value == "" then Skip else Token(decode(payload).value)
  {
    PayloadOf(payload);
    hide Strip, OnDone, OnToken;
  }

  /** Any other line does nothing, and after the end no line does. */
  lemma OtherLine(decode: string -> Option<string>, st: State, line: string)
    requires !("data: " <= Strip(line)) || st.done
    ensures OnLine(decode, st, line) == st
    ensures !("data: " <= Strip(line)) ==> EventOf(decode, line) == Skip
  {
    hide Strip, OnDone, OnToken;
  }

  /** A line is what comes ahead of a line break; what follows the last break is not looked at yet. */
  lemma LinesExactly(line: string, rest: string)
    requires '\n' !in line
    ensures Lines(line + "\n" + rest) == [line] + Lines(rest) && Lines(line) == []
  {
    var s := line + "\n" + rest;
    assert s[|line|..|line| + 1] == "\n";
    forall i: nat | i < |line|
      ensures !OccursAt(s, "\n", i)
    {
      if i + 1 <= |s| { assert s[i..i + 1][0] == line[i]; }
    }
    FindIs(s, "\n", |line|);
    assert s[..|line|] == line && s[|line| + 1..] == rest;
    forall i: nat
      ensures !OccursAt(line, "\n", i)
    {
      if i + 1 <= |line| { assert line[i..i + 1][0] == line[i]; }
    }
    hide FindFrom;
  }

  /** A stream that holds one unfinished thought and then ends: the thought is shown. */
  lemma UnfinishedThoughtIsShown(decode: string -> Option<string>, payload: string)
    requires Trimmed("data: " + payload) && payload != "[DONE]" && '\n' !in payload && decode(payload) == Some("<think>x")
    ensures Stream(decode, "data: " + payload + "\n" + "data: [DONE]" + "\n").filter.pushed == ["<think>x"]
    ensures Stream(decode, "data: " + payload + "\n" + "data: [DONE]" + "\n").done
  {
    hide *;
    var first, last := "data: " + payload, "data: [DONE]";
    TwoLines(first, last);
    EndIsTrimmed();
    StripOfTrimmed(first);
    StripOfTrimmed(last);
    TokenLine(decode, START, first, payload);
    HeldThought();
    EndLine(decode, OnToken(START, "<think>x"), last);
    RunOfTwo(decode, first, last);
  }

  lemma EndIsTrimmed()
    ensures Trimmed("data: [DONE]")
  {
  }

  lemma HeldThought()
    ensures OnDone(OnToken(START, "<think>x")).pushed == ["<think>x"]
    ensures "<think>x" != ""
  {
    hide *;
    StartIsEmpty();
    ThoughtIsSeen("<think>x");
    FirstTokenPonders("<think>x");
    ThoughtHasNoEnd("<think>x");
    UntaggedIsFlushed("<think>x");
  }

  lemma StartIsEmpty()
    ensures START == Filter(Buffering, "", [])
  {
  }

  lemma ThoughtIsSeen(text: string)
    requires text == "<think>x"
    ensures Contains(LStrip(text), OPEN) && Trimmed(text)
  {
    assert LStrip(text) == text;
    hide LStrip;
    assert text[0..7] == OPEN;
    assert OccursAt(text, OPEN, 0);
  }

  lemma UntaggedIsFlushed(text: string)
    requires text != "" && Trimmed(text) && Untagged(text)
    ensures OnDone(Filter(Pondering, text, [])).pushed == [text]
  {
    hide Untagged, Strip, RemoveThinking, Trimmed;
    UntaggedHasNoBlock(text);
    StripOfTrimmed(text);
    assert [] + [text] == [text];
  }

  lemma ThoughtHasNoEnd(text: string)
    requires text == "<think>x"
    ensures Untagged(text)
  {
    forall i | 0 <= i <= |text|
      ensures !OccursAt(text, CLOSE, i)
    {
      CloseChars();
      if i + 8 <= |text| { assert i == 0 && text[0..8][1] == 't'; }
    }
  }

  lemma TwoLines(first: string, last: string)
    requires '\n' !in first && '\n' !in last
    ensures Lines(first + "\n" + last + "\n") == [first, last]
  {
    hide Lines;
    assert first + "\n" + last + "\n" == first + "\n" + (last + "\n" + "");
    LinesExactly(first, last + "\n" + "");
    LinesExactly(last, "");
    LinesExactly("", "");
  }

  lemma RunOfTwo(decode: string -> Option<string>, first: string, last: string)
    requires Lines(first + "\n" + last + "\n") == [first, last]
    ensures Stream(decode, first + "\n" + last + "\n") == OnLine(decode, OnLine(decode, State(START, false), first), last)
  {
    hide Lines, OnLine;
    var st := OnLine(decode, BEGIN, first);
    assert [first, last][1..] == [last] && [last][1..] == [];
    assert RunLines(decode, BEGIN, [first, last]) == RunLines(decode, st, [last]) == RunLines(decode, OnLine(decode, st, last), []);
  }

  // ---------------------------------------------------------------- what is pushed is never empty

  lemma TokenPushesText(f: Filter, token: string)
    requires "" !in f.pushed && token != ""
    ensures "" !in OnToken(f, token).pushed
    ensures f.pushed <= OnToken(f, token).pushed
  {
    var stripped := LStrip(f.pre + token);
    hide LStrip, Find, Contains;
  }

  lemma {:induction false} TokensPushText(f: Filter, tokens: seq<string>)
    requires "" !in f.pushed && "" !in tokens
    ensures "" !in RunTokens(f, tokens).pushed
    decreases |tokens|
  {
    hide OnToken;
    if tokens != [] {
      TokenPushesText(f, tokens[0]);
      TokensPushText(OnToken(f, tokens[0]), tokens[1..]);
    }
  }

  /** A stream never pushes an empty text, so any text it pushes can win the race. */
  lemma StreamPushesText(decode: string -> Option<string>, text: string)
    ensures "" !in Stream(decode, text).filter.pushed
  {
    hide Lines, TokensOf, Ends, OnToken, RunTokens, RemoveThinking, Strip;
    StreamFiltersTokens(decode, BEGIN, Lines(text));
    TokensPushText(START, TokensOf(decode, Lines(text)));
  }
}
