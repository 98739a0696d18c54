/** `parse_openai_sse` and `build_tool_call_thought` of plugins/services/llm/stream.rs,
    and `parse_openai_response` of executors/openai.rs for the same message in one piece. */
module OpenAiStream {
  import opened Json
  import opened Text
  import opened Thoughts
  import opened Wrappers

  datatype AccToolCall = AccToolCall(id: Option<string>, name: Option<string>, arguments: string)

  const EMPTY_ACC := AccToolCall(None, None, "")

  /** What one line of the body asks of the parser. */
  datatype Line =
    | Skip
    | Done
    | Delta(content: Option<string>, toolCalls: seq<Value>, finish: Option<string>)

  predicate IsData(line: string) {
    "data: " <= line
  }

  function DataOf(line: string): string
    requires IsData(line)
  {
    TrimEnd(TrimStart(line[|"data: "|..]))
  }

  function ReadLine(parse: Parser, line: string): Line {
    if !IsData(line) then Skip
    else if DataOf(line) == "[DONE]" then Done
    else
      var value := parse(DataOf(line));
      if value.None? then Skip
      else
        var choices := GetArray(value.value, "choices");
        if choices.None? || choices.value == [] then Skip
        else
          var choice := choices.value[0];
          var delta := Get(choice, "delta");
          if delta.None? then Skip
          else Delta(GetStr(delta.value, "content"),
                     GetArray(delta.value, "tool_calls").GetOr([]),
                     GetStr(choice, "finish_reason"))
  }

  function IndexOf(tc: Value): nat {
    GetNat(tc, "index").GetOr(0)
  }

  /** The accumulator of a call; one that was never written is empty. */
  function At(accs: seq<AccToolCall>, i: nat): AccToolCall {
    if i < |accs| then accs[i] else EMPTY_ACC
  }

  function Grown(accs: seq<AccToolCall>, index: nat): (r: seq<AccToolCall>)
    ensures |r| == if |accs| > index then |accs| else index + 1
    ensures forall i :: At(r, i) == At(accs, i)
    decreases index + 1 - |accs|
  {
    if |accs| <= index then Grown(accs + [EMPTY_ACC], index) else accs
  }

  function Extended(acc: AccToolCall, tc: Value): AccToolCall {
    var id, name := GetStr(tc, "id"), GetInnerStr(tc, "function", "name");
    AccToolCall(if id.Some? then id else acc.id,
                if name.Some? then name else acc.name,
                acc.arguments + GetInnerStr(tc, "function", "arguments").GetOr(""))
  }

  function Accumulated(accs: seq<AccToolCall>, tc: Value): seq<AccToolCall> {
    var grown := Grown(accs, IndexOf(tc));
    grown[IndexOf(tc) := Extended(grown[IndexOf(tc)], tc)]
  }

  function AccumulatedAll(accs: seq<AccToolCall>, tcs: seq<Value>): seq<AccToolCall>
    decreases |tcs|
  {
    if tcs == [] then accs else AccumulatedAll(Accumulated(accs, tcs[0]), tcs[1..])
  }

  function DeltaEvents(tcs: seq<Value>): seq<StreamEvent> {
    if tcs == [] then [] else [ToolCallDelta(IndexOf(tcs[0]), tcs[0])] + DeltaEvents(tcs[1..])
  }

  function CallsOf(parse: Parser, accs: seq<AccToolCall>): seq<ToolCall>
    decreases |accs|
  {
    if accs == [] then []
    else if accs[0].name.None? then CallsOf(parse, accs[1..])
    else [ToolCall(accs[0].id.GetOr(""), accs[0].name.GetOr(""), parse(accs[0].arguments).GetOr(Null))]
         + CallsOf(parse, accs[1..])
  }

  function BuildToolCallThought(parse: Parser, accs: seq<AccToolCall>, fullText: string): Thought {
    var calls := CallsOf(parse, accs);
    if calls == [] then Final(fullText) else ActionOf(calls)
  }

  datatype State = State(events: seq<StreamEvent>, fullText: string, accs: seq<AccToolCall>)

  const START := State([], "", [])

  function WithText(st: State, content: Option<string>): State {
    if content.Some? && content.value != "" then
      st.(fullText := st.fullText + content.value, events := st.events + [TextDelta(content.value)])
    else st
  }

  function WithToolCalls(st: State, tcs: seq<Value>): State {
    st.(accs := AccumulatedAll(st.accs, tcs), events := st.events + DeltaEvents(tcs))
  }

  function EndOf(parse: Parser, st: State, reason: string): StreamEvent {
    End(if reason == "tool_calls" then BuildToolCallThought(parse, st.accs, st.fullText) else Final(st.fullText))
  }

  function Closed(st: State): seq<StreamEvent> {
    if st.fullText != "" then st.events + [End(Final(st.fullText))] else st.events
  }

  /** The events of the lines that are left, from the state reached so far. */
  function EventsFrom(parse: Parser, st: State, lines: seq<string>): seq<StreamEvent>
    decreases |lines|
  {
    if lines == [] then Closed(st)
    else
      match ReadLine(parse, lines[0])
      case Skip => EventsFrom(parse, st, lines[1..])
      case Done => Closed(st)
      case Delta(content, tcs, finish) =>
        var st' := WithToolCalls(WithText(st, content), tcs);
        if finish.Some? then st'.events + [EndOf(parse, st', finish.value)]
        else EventsFrom(parse, st', lines[1..])
  }

  function OpenAiEvents(parse: Parser, body: string): seq<StreamEvent> {
    EventsFrom(parse, START, Lines(body))
  }

  /** The parser as it runs: nested loops over the lines and the tool-call deltas. */
  method ParseOpenAiSse(parse: Parser, body: string) returns (events: seq<StreamEvent>)
    ensures events == OpenAiEvents(parse, body)
  {
    events := [];
    var fullText := "";
    var toolAccs: seq<AccToolCall> := [];
    var lines := Lines(body);
    while lines != []
      invariant EventsFrom(parse, State(events, fullText, toolAccs), lines) == OpenAiEvents(parse, body)
      decreases |lines|
    {
      var line := lines[0];
      var here := ReadLine(parse, line);
      lines := lines[1..];
      if here.Skip? {
        continue;
      }
      if here.Done? {
        break;
      }
      if here.content.Some? && here.content.value != "" {
        fullText := fullText + here.content.value;
        events := events + [TextDelta(here.content.value)];
      }
      events, toolAccs := TakeToolCalls(events, toolAccs, here.toolCalls);
      if here.finish.Some? {
        if here.finish.value == "tool_calls" {
          return events + [End(BuildToolCallThought(parse, toolAccs, fullText))];
        }
        return events + [End(Final(fullText))];
      }
    }
    if fullText != "" {
      events := events + [End(Final(fullText))];
    }
  }

  method TakeToolCalls(events0: seq<StreamEvent>, accs0: seq<AccToolCall>, tcs: seq<Value>)
    returns (events: seq<StreamEvent>, accs: seq<AccToolCall>)
    ensures events == events0 + DeltaEvents(tcs) && accs == AccumulatedAll(accs0, tcs)
  {
    events, accs := events0, accs0;
    var left := tcs;
    while left != []
      invariant events + DeltaEvents(left) == events0 + DeltaEvents(tcs)
      invariant AccumulatedAll(accs, left) == AccumulatedAll(accs0, tcs)
      decreases |left|
    {
      var tc := left[0];
      var idx := IndexOf(tc);
      while |accs| <= idx
        invariant AccumulatedAll(accs, left) == AccumulatedAll(accs0, tcs)
        decreases idx + 1 - |accs|
      {
        accs := accs + [EMPTY_ACC];
      }
      accs := accs[idx := Extended(accs[idx], tc)];
      events := events + [ToolCallDelta(idx, tc)];
      left := left[1..];
    }
  }

  // What holds of every body.

  lemma {:induction false} DeltaEventsAreSilent(tcs: seq<Value>)
    ensures TextOf(DeltaEvents(tcs)) == "" && NoEnd(DeltaEvents(tcs))
  {
    if tcs != [] {
      DeltaEventsAreSilent(tcs[1..]);
    }
  }

  lemma EndingIsWell(events: seq<StreamEvent>, thought: Thought)
    requires NoEnd(events) && (thought.Final? ==> thought.answer == TextOf(events))
    ensures WellEnded(events + [End(thought)])
  {
    TextOfAppend(events, End(thought));
    assert (events + [End(thought)])[..|events|] == events;
  }

  lemma {:induction false} EventsFromEndWell(parse: Parser, st: State, lines: seq<string>)
    requires NoEnd(st.events) && st.fullText == TextOf(st.events)
    ensures WellEnded(EventsFrom(parse, st, lines))
    decreases |lines|
  {
    if lines == [] || ReadLine(parse, lines[0]).Done? {
      EndingIsWell(st.events, Final(st.fullText));
    } else {
      match ReadLine(parse, lines[0])
      case Skip => EventsFromEndWell(parse, st, lines[1..]);
      case Delta(content, tcs, finish) =>
        if content.Some? {
          TextOfAppend(st.events, TextDelta(content.value));
        }
        var texted := WithText(st, content);
        DeltaEventsAreSilent(tcs);
        TextOfConcat(texted.events, DeltaEvents(tcs));
        var st' := WithToolCalls(texted, tcs);
        if finish.Some? {
          EndingIsWell(st'.events, EndOf(parse, st', finish.value).thought);
        } else {
          EventsFromEndWell(parse, st', lines[1..]);
        }
    }
  }

  /** For every body and every JSON parser: at most one `End`, always last, and a `Final`
      answer is the concatenation of the emitted text. */
  lemma OpenAiEndsWell(parse: Parser, body: string)
    ensures WellEnded(OpenAiEvents(parse, body))
  {
    EventsFromEndWell(parse, START, Lines(body));
  }

  // A message cut into fragments against the same message in one piece.

  datatype ParseError = NoChoices | EmptyChoices | NoMessage | NoToolCalls | EmptyToolCalls | EmptyContent

  function ResponseCall(parse: Parser, tc: Value): ToolCall {
    var arguments := GetInnerStr(tc, "function", "arguments");
    ToolCall(GetStr(tc, "id").GetOr(""), GetInnerStr(tc, "function", "name").GetOr(""),
             if arguments.Some? then parse(arguments.value).GetOr(Null) else Null)
  }

  function ParseOpenAiResponse(parse: Parser, body: Value): Result<Thought, ParseError> {
    var choices := GetArray(body, "choices");
    if choices.None? then Err(NoChoices)
    else if choices.value == [] then Err(EmptyChoices)
    else
      var message := Get(choices.value[0], "message");
      if message.None? then Err(NoMessage)
      else if GetStr(choices.value[0], "finish_reason") == Some("tool_calls") then
        var tcs := GetArray(message.value, "tool_calls");
        if tcs.None? then Err(NoToolCalls)
        else if tcs.value == [] then Err(EmptyToolCalls)
        else Ok(ActionOf(seq(|tcs.value|, i requires 0 <= i < |tcs.value| => ResponseCall(parse, tcs.value[i]))))
      else
        var content := GetStr(message.value, "content").GetOr("");
        if content == "" then Err(EmptyContent) else Ok(Final(content))
  }

  /** A tool call before it is cut up; the argument text is still JSON to be parsed. */
  datatype RawCall = RawCall(id: Option<string>, name: string, arguments: string)

  /** The tool-call deltas the parser sees before it ends. */
  function Fragments(parse: Parser, lines: seq<string>): seq<Value>
    decreases |lines|
  {
    if lines == [] then []
    else
      match ReadLine(parse, lines[0])
      case Skip => Fragments(parse, lines[1..])
      case Done => []
      case Delta(_, tcs, finish) => if finish.Some? then tcs else tcs + Fragments(parse, lines[1..])
  }

  /** The first terminator of the body is the finish reason `tool_calls`. */
  predicate EndsInToolCalls(parse: Parser, lines: seq<string>)
    decreases |lines|
  {
    lines != [] &&
    match ReadLine(parse, lines[0])
    case Skip => EndsInToolCalls(parse, lines[1..])
    case Done => false
    case Delta(_, _, finish) =>
      if finish.Some? then finish.value == "tool_calls" else EndsInToolCalls(parse, lines[1..])
  }

  /** The fragments of one call, in order. */
  function Own(frs: seq<Value>, i: nat): seq<Value> {
    if frs == [] then []
    else if IndexOf(frs[0]) == i then [frs[0]] + Own(frs[1..], i)
    else Own(frs[1..], i)
  }

  function ArgumentsOf(frs: seq<Value>): string {
    if frs == [] then "" else GetInnerStr(frs[0], "function", "arguments").GetOr("") + ArgumentsOf(frs[1..])
  }

  /** The last value that is given, if any is. */
  function LastOf(values: seq<Option<string>>): Option<string> {
    if values == [] then None
    else
      var later := LastOf(values[1..]);
      if later.Some? then later else values[0]
  }

  function NamesOf(frs: seq<Value>): seq<Option<string>> {
    if frs == [] then [] else [GetInnerStr(frs[0], "function", "name")] + NamesOf(frs[1..])
  }

  function IdsOf(frs: seq<Value>): seq<Option<string>> {
    if frs == [] then [] else [GetStr(frs[0], "id")] + IdsOf(frs[1..])
  }

  /** The fragments are a cutting of `calls`: for each call, in whatever order the calls'
      fragments are interleaved, the argument pieces join to the call's arguments and the
      name and the id are the ones that were given last. */
  ghost predicate Cuts(frs: seq<Value>, calls: seq<RawCall>) {
    && (forall f | f in frs :: IndexOf(f) < |calls|)
    && (forall i | 0 <= i < |calls| ::
          && ArgumentsOf(Own(frs, i)) == calls[i].arguments
          && LastOf(NamesOf(Own(frs, i))) == Some(calls[i].name)
          && LastOf(IdsOf(Own(frs, i))) == calls[i].id)
  }

  /** The response carries `calls` in its first choice. */
  ghost predicate Carries(body: Value, calls: seq<RawCall>) {
    var choices := GetArray(body, "choices");
    && choices.Some? && choices.value != []
    && GetStr(choices.value[0], "finish_reason") == Some("tool_calls")
    && var message := Get(choices.value[0], "message");
    && message.Some?
    && var tcs := GetArray(message.value, "tool_calls");
    && tcs.Some? && |tcs.value| == |calls|
    && forall i | 0 <= i < |calls| ::
         && GetStr(tcs.value[i], "id") == calls[i].id
         && GetInnerStr(tcs.value[i], "function", "name") == Some(calls[i].name)
         && GetInnerStr(tcs.value[i], "function", "arguments") == Some(calls[i].arguments)
  }

  function ExtendedAll(acc: AccToolCall, frs: seq<Value>): AccToolCall
    decreases |frs|
  {
    if frs == [] then acc else ExtendedAll(Extended(acc, frs[0]), frs[1..])
  }

  /** Each call is built from its own fragments alone. */
  lemma {:induction false} AccumulatedByOwn(accs: seq<AccToolCall>, frs: seq<Value>, i: nat)
    ensures At(AccumulatedAll(accs, frs), i) == ExtendedAll(At(accs, i), Own(frs, i))
    decreases |frs|
  {
    if frs != [] {
      AccumulatedByOwn(Accumulated(accs, frs[0]), frs[1..], i);
      if IndexOf(frs[0]) == i {
        assert Own(frs, i)[1..] == Own(frs[1..], i);
        assert At(Accumulated(accs, frs[0]), i) == Extended(At(accs, i), frs[0]);
      }
    }
  }

  lemma {:induction false} ArgumentsJoin(acc: AccToolCall, frs: seq<Value>)
    ensures ExtendedAll(acc, frs).arguments == acc.arguments + ArgumentsOf(frs)
    decreases |frs|
  {
    if frs != [] {
      ArgumentsJoin(Extended(acc, frs[0]), frs[1..]);
    }
  }

  lemma {:induction false} LastNameWins(acc: AccToolCall, frs: seq<Value>)
    ensures var last := LastOf(NamesOf(frs));
      ExtendedAll(acc, frs).name == if last.Some? then last else acc.name
    decreases |frs|
  {
    if frs != [] {
      LastNameWins(Extended(acc, frs[0]), frs[1..]);
      assert NamesOf(frs)[1..] == NamesOf(frs[1..]);
    }
  }

  lemma {:induction false} LastIdWins(acc: AccToolCall, frs: seq<Value>)
    ensures var last := LastOf(IdsOf(frs));
      ExtendedAll(acc, frs).id == if last.Some? then last else acc.id
    decreases |frs|
  {
    if frs != [] {
      LastIdWins(Extended(acc, frs[0]), frs[1..]);
      assert IdsOf(frs)[1..] == IdsOf(frs[1..]);
    }
  }

  lemma {:induction false} AccumulatedSize(accs: seq<AccToolCall>, frs: seq<Value>, n: nat)
    requires |accs| <= n && forall f | f in frs :: IndexOf(f) < n
    ensures |AccumulatedAll(accs, frs)| <= n
    decreases |frs|
  {
    if frs != [] {
      AccumulatedSize(Accumulated(accs, frs[0]), frs[1..], n);
    }
  }

  lemma {:induction false} AccumulatedAppend(accs: seq<AccToolCall>, a: seq<Value>, b: seq<Value>)
    ensures AccumulatedAll(accs, a + b) == AccumulatedAll(AccumulatedAll(accs, a), b)
    decreases |a|
  {
    if a == [] {
      assert a + b == b;
    } else {
      assert (a + b)[1..] == a[1..] + b;
      AccumulatedAppend(Accumulated(accs, a[0]), a[1..], b);
    }
  }

  ghost predicate LastIs(events: seq<StreamEvent>, e: StreamEvent) {
    events != [] && events[|events| - 1] == e
  }

  lemma FinishEvents(parse: Parser, st: State, lines: seq<string>) returns (text: string)
    requires lines != [] && ReadLine(parse, lines[0]).Delta?
    requires ReadLine(parse, lines[0]).finish == Some("tool_calls")
    ensures LastIs(EventsFrom(parse, st, lines),
                   End(BuildToolCallThought(parse, AccumulatedAll(st.accs, ReadLine(parse, lines[0]).toolCalls), text)))
  {
    var here := ReadLine(parse, lines[0]);
    var st' := WithToolCalls(WithText(st, here.content), here.toolCalls);
    text := st'.fullText;
    assert EventsFrom(parse, st, lines) == st'.events + [EndOf(parse, st', "tool_calls")];
  }

  lemma {:induction false} EventsFromEnd(parse: Parser, st: State, lines: seq<string>) returns (text: string)
    requires EndsInToolCalls(parse, lines)
    ensures LastIs(EventsFrom(parse, st, lines),
                   End(BuildToolCallThought(parse, AccumulatedAll(st.accs, Fragments(parse, lines)), text)))
    decreases |lines|
  {
    match ReadLine(parse, lines[0])
    case Skip => text := EventsFromEnd(parse, st, lines[1..]);
    case Delta(content, tcs, finish) =>
      if finish.Some? {
        text := FinishEvents(parse, st, lines);
      } else {
        text := EventsFromEnd(parse, WithToolCalls(WithText(st, content), tcs), lines[1..]);
        AccumulatedAppend(st.accs, tcs, Fragments(parse, lines[1..]));
      }
  }

  // Which bodies yield a tool action, and what text a body carries.

  /** The body ends for tool calls, and one of them has a name. */
  predicate StopsForCalls(parse: Parser, accs: seq<AccToolCall>, lines: seq<string>) {
    EndsInToolCalls(parse, lines) && CallsOf(parse, AccumulatedAll(accs, Fragments(parse, lines))) != []
  }

  /** No line of the body is a terminator. */
  predicate BreaksOff(parse: Parser, lines: seq<string>)
    decreases |lines|
  {
    lines == [] ||
    (&& !ReadLine(parse, lines[0]).Done?
     && (ReadLine(parse, lines[0]).Delta? ==> ReadLine(parse, lines[0]).finish.None?)
     && BreaksOff(parse, lines[1..]))
  }

  /** The text of the body's deltas, up to the terminator if there is one. */
  function BodyText(parse: Parser, lines: seq<string>): string
    decreases |lines|
  {
    if lines == [] then ""
    else
      match ReadLine(parse, lines[0])
      case Skip => BodyText(parse, lines[1..])
      case Done => ""
      case Delta(content, _, finish) =>
        content.GetOr("") + if finish.Some? then "" else BodyText(parse, lines[1..])
  }

  lemma {:induction false} BrokenOffHasNoStop(parse: Parser, lines: seq<string>)
    requires BreaksOff(parse, lines)
    ensures !EndsInToolCalls(parse, lines)
    decreases |lines|
  {
    if lines != [] {
      BrokenOffHasNoStop(parse, lines[1..]);
    }
  }

  lemma DeltaText(st: State, content: Option<string>, tcs: seq<Value>)
    requires NoEnd(st.events)
    ensures var next := WithToolCalls(WithText(st, content), tcs);
      NoEnd(next.events) && TextOf(next.events) == TextOf(st.events) + content.GetOr("")
  {
    if content.Some? {
      TextOfAppend(st.events, TextDelta(content.value));
    }
    DeltaEventsAreSilent(tcs);
    TextOfConcat(WithText(st, content).events, DeltaEvents(tcs));
  }

  lemma TextOfEnded(events: seq<StreamEvent>, thought: Thought)
    ensures TextOf(events + [End(thought)]) == TextOf(events)
  {
    TextOfAppend(events, End(thought));
  }

  lemma Regroup(a: string, b: string, c: string)
    ensures a + b + c == a + (b + c) && a + "" == a && "" + b == b
  {
  }

  /** The parser emits exactly the body's text. */
  lemma {:induction false} EventsFromText(parse: Parser, st: State, lines: seq<string>)
    requires NoEnd(st.events)
    ensures TextOf(EventsFrom(parse, st, lines)) == TextOf(st.events) + BodyText(parse, lines)
    decreases |lines|
  {
    if lines == [] || ReadLine(parse, lines[0]).Done? {
      TextOfEnded(st.events, Final(st.fullText));
    } else {
      match ReadLine(parse, lines[0])
      case Skip => EventsFromText(parse, st, lines[1..]);
      case Delta(content, tcs, finish) =>
        var next := WithToolCalls(WithText(st, content), tcs);
        DeltaText(st, content, tcs);
        if finish.Some? {
          TextOfEnded(next.events, EndOf(parse, next, finish.value).thought);
        } else {
          EventsFromText(parse, next, lines[1..]);
          Regroup(TextOf(st.events), content.GetOr(""), BodyText(parse, lines[1..]));
        }
    }
  }

  /** Every `End` is a `Final`. */
  ghost predicate EndsAreFinal(events: seq<StreamEvent>) {
    forall e | e in events && e.End? :: e.thought.Final?
  }

  lemma ClosedIsFinal(st: State)
    requires NoEnd(st.events)
    ensures EndsAreFinal(Closed(st))
  {
  }

  lemma {:induction false} EventsFromFinal(parse: Parser, st: State, lines: seq<string>)
    requires NoEnd(st.events) && !StopsForCalls(parse, st.accs, lines)
    ensures EndsAreFinal(EventsFrom(parse, st, lines))
    decreases |lines|
  {
    if lines == [] || ReadLine(parse, lines[0]).Done? {
      ClosedIsFinal(st);
    } else {
      match ReadLine(parse, lines[0])
      case Skip => EventsFromFinal(parse, st, lines[1..]);
      case Delta(content, tcs, finish) =>
        var next := WithToolCalls(WithText(st, content), tcs);
        DeltaText(st, content, tcs);
        if finish.Some? {
          assert EventsFrom(parse, st, lines) == next.events + [EndOf(parse, next, finish.value)];
        } else {
          AccumulatedAppend(st.accs, tcs, Fragments(parse, lines[1..]));
          EventsFromFinal(parse, next, lines[1..]);
        }
    }
  }

  lemma StoppedActs(parse: Parser, body: string) returns (thought: Thought)
    requires StopsForCalls(parse, [], Lines(body))
    ensures thought.ActionThought? && LastIs(OpenAiEvents(parse, body), End(thought))
  {
    var text := EventsFromEnd(parse, START, Lines(body));
    thought := BuildToolCallThought(parse, AccumulatedAll([], Fragments(parse, Lines(body))), text);
  }

  /** A body ends with a tool action if it stops for named calls, and only then. */
  lemma OpenAiActsIffStopsForCalls(parse: Parser, body: string)
    ensures if StopsForCalls(parse, [], Lines(body))
      then exists thought: Thought :: thought.ActionThought? && LastIs(OpenAiEvents(parse, body), End(thought))
      else EndsAreFinal(OpenAiEvents(parse, body))
  {
    if StopsForCalls(parse, [], Lines(body)) {
      var thought := StoppedActs(parse, body);
    } else {
      EventsFromFinal(parse, START, Lines(body));
    }
  }

  lemma OpenAiEmitsBodyText(parse: Parser, body: string)
    ensures TextOf(OpenAiEvents(parse, body)) == BodyText(parse, Lines(body))
  {
    EventsFromText(parse, START, Lines(body));
    Regroup("", BodyText(parse, Lines(body)), "");
  }

  lemma {:induction false} NamedCalls(parse: Parser, accs: seq<AccToolCall>)
    requires forall a | a in accs :: a.name.Some?
    ensures |CallsOf(parse, accs)| == |accs|
    ensures forall i | 0 <= i < |accs| ::
      CallsOf(parse, accs)[i] ==
      ToolCall(accs[i].id.GetOr(""), accs[i].name.value, parse(accs[i].arguments).GetOr(Null))
    decreases |accs|
  {
    if accs != [] {
      NamedCalls(parse, accs[1..]);
    }
  }

  /** The accumulators of a cutting are the calls themselves. */
  lemma CutCallsRejoin(frs: seq<Value>, calls: seq<RawCall>)
    requires Cuts(frs, calls) && calls != []
    ensures |AccumulatedAll([], frs)| == |calls|
    ensures forall i | 0 <= i < |calls| :: (
      AccumulatedAll([], frs)[i] == AccToolCall(calls[i].id, Some(calls[i].name), calls[i].arguments))
  {
    var accs := AccumulatedAll([], frs);
    AccumulatedSize([], frs, |calls|);
    forall i | 0 <= i < |calls|
      ensures At(accs, i) == AccToolCall(calls[i].id, Some(calls[i].name), calls[i].arguments)
    {
      AccumulatedByOwn([], frs, i);
      ArgumentsJoin(EMPTY_ACC, Own(frs, i));
      LastNameWins(EMPTY_ACC, Own(frs, i));
      LastIdWins(EMPTY_ACC, Own(frs, i));
    }
    assert At(accs, |calls| - 1).name.Some?;
  }

  function WholeCall(parse: Parser, call: RawCall): ToolCall {
    ToolCall(call.id.GetOr(""), call.name, parse(call.arguments).GetOr(Null))
  }

  function WholeCalls(parse: Parser, calls: seq<RawCall>): seq<ToolCall> {
    seq(|calls|, i requires 0 <= i < |calls| => WholeCall(parse, calls[i]))
  }

  lemma CutCallsParse(parse: Parser, frs: seq<Value>, calls: seq<RawCall>)
    requires Cuts(frs, calls) && calls != []
    ensures CallsOf(parse, AccumulatedAll([], frs)) == WholeCalls(parse, calls)
  {
    CutCallsRejoin(frs, calls);
    NamedCalls(parse, AccumulatedAll([], frs));
  }

  lemma ResponseOfCarried(parse: Parser, response: Value, calls: seq<RawCall>)
    requires calls != [] && Carries(response, calls)
    ensures ParseOpenAiResponse(parse, response) == Ok(ActionOf(WholeCalls(parse, calls)))
  {
    var tcs := GetArray(Get(GetArray(response, "choices").value[0], "message").value, "tool_calls").value;
    assert seq(|tcs|, i requires 0 <= i < |tcs| => ResponseCall(parse, tcs[i])) == WholeCalls(parse, calls);
  }

  lemma StreamOfCut(parse: Parser, lines: seq<string>, frs: seq<Value>, calls: seq<RawCall>)
    requires calls != [] && EndsInToolCalls(parse, lines)
    requires frs == Fragments(parse, lines) && Cuts(frs, calls)
    ensures LastIs(EventsFrom(parse, START, lines), End(ActionOf(WholeCalls(parse, calls))))
  {
    var text := EventsFromEnd(parse, START, lines);
    var accs := AccumulatedAll([], frs);
    CutCallsParse(parse, frs, calls);
    assert BuildToolCallThought(parse, accs, text) == ActionOf(CallsOf(parse, accs));
  }

  /** However the arguments are cut and however the fragments interleave, the stream ends
      with the thought that the unsplit response gives, and that thought is an action that
      carries the calls in order. */
  lemma StreamMatchesResponse(parse: Parser, body: string, response: Value, calls: seq<RawCall>)
    requires calls != []
    requires EndsInToolCalls(parse, Lines(body)) && Cuts(Fragments(parse, Lines(body)), calls)
    requires Carries(response, calls)
    ensures LastIs(OpenAiEvents(parse, body), End(ActionOf(WholeCalls(parse, calls))))
    ensures ParseOpenAiResponse(parse, response) == Ok(ActionOf(WholeCalls(parse, calls)))
  {
    StreamOfCut(parse, Lines(body), Fragments(parse, Lines(body)), calls);
    ResponseOfCarried(parse, response, calls);
  }

  // Every way of cutting up calls is a `Cuts`: whole calls are one, and splitting the
  // arguments of a fragment or exchanging fragments of different calls keeps it one.

  function WholeFragment(call: RawCall, i: nat): Value {
    var body := Object(map["name" := Str(call.name), "arguments" := Str(call.arguments)]);
    if call.id.Some?
    then Object(map["index" := Number(i), "id" := Str(call.id.value), "function" := body])
    else Object(map["index" := Number(i), "function" := body])
  }

  function WholeFragments(calls: seq<RawCall>): seq<Value> {
    if calls == [] then []
    else
      var last := |calls| - 1;
      WholeFragments(calls[..last]) + [WholeFragment(calls[last], last)]
  }

  lemma {:induction false} OwnAppend(a: seq<Value>, b: seq<Value>, i: nat)
    ensures Own(a + b, i) == Own(a, i) + Own(b, i)
  {
    if a == [] {
      assert a + b == b;
    } else {
      assert (a + b)[1..] == a[1..] + b;
      OwnAppend(a[1..], b, i);
    }
  }

  lemma {:induction false} OwnOfWhole(calls: seq<RawCall>, i: nat)
    ensures Own(WholeFragments(calls), i) == if i < |calls| then [WholeFragment(calls[i], i)] else []
    ensures forall f | f in WholeFragments(calls) :: IndexOf(f) < |calls|
  {
    if calls != [] {
      var last := |calls| - 1;
      OwnOfWhole(calls[..last], i);
      OwnAppend(WholeFragments(calls[..last]), [WholeFragment(calls[last], last)], i);
    }
  }

  lemma OneWholeFragment(call: RawCall, i: nat)
    ensures var own := [WholeFragment(call, i)];
      ArgumentsOf(own) == call.arguments && NamesOf(own) == [Some(call.name)] && IdsOf(own) == [call.id]
  {
  }

  lemma WholeCallsAreCuts(calls: seq<RawCall>)
    ensures Cuts(WholeFragments(calls), calls)
  {
    OwnOfWhole(calls, 0);
    forall i | 0 <= i < |calls|
      ensures Own(WholeFragments(calls), i) == [WholeFragment(calls[i], i)]
    {
      OwnOfWhole(calls, i);
    }
    forall i | 0 <= i < |calls| {
      OneWholeFragment(calls[i], i);
    }
  }

  lemma SwapKeepsCuts(a: seq<Value>, f: Value, g: Value, b: seq<Value>, calls: seq<RawCall>)
    requires IndexOf(f) != IndexOf(g) && Cuts(a + [f, g] + b, calls)
    ensures Cuts(a + [g, f] + b, calls)
  {
    forall i: nat
      ensures Own(a + [g, f] + b, i) == Own(a + [f, g] + b, i)
    {
      OwnAppend(a + [g, f], b, i);
      OwnAppend(a, [g, f], i);
      OwnAppend(a + [f, g], b, i);
      OwnAppend(a, [f, g], i);
      assert [g, f][1..] == [f] && [f, g][1..] == [g] && [f][1..] == [] && [g][1..] == [];
    }
    forall h | h in a + [g, f] + b
      ensures IndexOf(h) < |calls|
    {
      assert h in a + [f, g] + b;
    }
  }

  /** `f` in two parts: the first keeps the id and the name, and the arguments are cut. */
  ghost predicate SplitsInto(f: Value, f1: Value, f2: Value) {
    && IndexOf(f1) == IndexOf(f2) == IndexOf(f)
    && GetStr(f1, "id") == GetStr(f, "id") && GetStr(f2, "id") == None
    && GetInnerStr(f1, "function", "name") == GetInnerStr(f, "function", "name")
    && GetInnerStr(f2, "function", "name") == None
    && GetInnerStr(f1, "function", "arguments").GetOr("") + GetInnerStr(f2, "function", "arguments").GetOr("")
       == GetInnerStr(f, "function", "arguments").GetOr("")
  }

  lemma SplitKeepsExtended(acc: AccToolCall, f: Value, f1: Value, f2: Value)
    requires SplitsInto(f, f1, f2)
    ensures Extended(Extended(acc, f1), f2) == Extended(acc, f)
  {
  }

  lemma {:induction false} ExtendedAppend(acc: AccToolCall, a: seq<Value>, b: seq<Value>)
    ensures ExtendedAll(acc, a + b) == ExtendedAll(ExtendedAll(acc, a), b)
    decreases |a|
  {
    if a == [] {
      assert a + b == b;
    } else {
      assert (a + b)[1..] == a[1..] + b;
      ExtendedAppend(Extended(acc, a[0]), a[1..], b);
    }
  }

  /** A fragment list is a cutting exactly when its calls accumulate to the given ones. */
  lemma CutsByExtended(frs: seq<Value>, calls: seq<RawCall>)
    ensures Cuts(frs, calls) <==>
      && (forall f | f in frs :: IndexOf(f) < |calls|)
      && (forall i | 0 <= i < |calls| ::
            ExtendedAll(EMPTY_ACC, Own(frs, i)) == AccToolCall(calls[i].id, Some(calls[i].name), calls[i].arguments))
  {
    forall i | 0 <= i < |calls|
      ensures ExtendedAll(EMPTY_ACC, Own(frs, i))
        == AccToolCall(LastOf(IdsOf(Own(frs, i))), LastOf(NamesOf(Own(frs, i))), ArgumentsOf(Own(frs, i)))
    {
      ArgumentsJoin(EMPTY_ACC, Own(frs, i));
      LastNameWins(EMPTY_ACC, Own(frs, i));
      LastIdWins(EMPTY_ACC, Own(frs, i));
    }
  }

  lemma SplitKeepsCuts(a: seq<Value>, f: Value, f1: Value, f2: Value, b: seq<Value>, calls: seq<RawCall>)
    requires SplitsInto(f, f1, f2) && Cuts(a + [f] + b, calls)
    ensures Cuts(a + [f1, f2] + b, calls)
  {
    CutsByExtended(a + [f] + b, calls);
    CutsByExtended(a + [f1, f2] + b, calls);
    forall i: nat
      ensures ExtendedAll(EMPTY_ACC, Own(a + [f1, f2] + b, i)) == ExtendedAll(EMPTY_ACC, Own(a + [f] + b, i))
    {
      OwnSplit(a, f, f1, f2, b, i);
    }
    forall h | h in a + [f1, f2] + b
      ensures IndexOf(h) < |calls|
    {
      assert f in a + [f] + b;
      assert h != f1 && h != f2 ==> h in a + [f] + b;
    }
  }

  lemma OwnSplit(a: seq<Value>, f: Value, f1: Value, f2: Value, b: seq<Value>, i: nat)
    requires SplitsInto(f, f1, f2)
    ensures ExtendedAll(EMPTY_ACC, Own(a + [f1, f2] + b, i)) == ExtendedAll(EMPTY_ACC, Own(a + [f] + b, i))
  {
    OwnAppend(a + [f1, f2], b, i);
    OwnAppend(a, [f1, f2], i);
    OwnAppend(a + [f], b, i);
    OwnAppend(a, [f], i);
    var acc := ExtendedAll(EMPTY_ACC, Own(a, i));
    ExtendedAppend(EMPTY_ACC, Own(a, i) + Own([f1, f2], i), Own(b, i));
    ExtendedAppend(EMPTY_ACC, Own(a, i), Own([f1, f2], i));
    ExtendedAppend(EMPTY_ACC, Own(a, i) + Own([f], i), Own(b, i));
    ExtendedAppend(EMPTY_ACC, Own(a, i), Own([f], i));
    assert ExtendedAll(acc, Own([f1, f2], i)) == ExtendedAll(acc, Own([f], i)) by {
      SplitKeepsExtended(acc, f, f1, f2);
      assert [f1, f2][1..] == [f2] && [f2][1..] == [] && [f][1..] == [];
    }
  }
}
