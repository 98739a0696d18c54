/** `parse_anthropic_sse` of plugins/services/llm/stream.rs. */
module AnthropicStream {
  import opened Json
  import opened Text
  import opened Thoughts
  import opened Wrappers
  import OpenAiStream

  /** What one line of the body asks of the parser. */
  datatype Line =
    | Skip
    | StartTool(id: Option<string>, name: Option<string>)
    | Text(text: string)
    | ToolInput(part: string)
    | StopForTool
    | StopOther
    | MessageStop

  function ReadBlockStart(value: Value): Line {
    var block := Get(value, "content_block");
    if block.Some? && GetStr(block.value, "type") == Some("tool_use")
    then StartTool(GetStr(block.value, "id"), GetStr(block.value, "name"))
    else Skip
  }

  function ReadBlockDelta(value: Value): Line {
    var delta := Get(value, "delta");
    if delta.None? then Skip
    else if GetStr(delta.value, "type") == Some("text_delta") then
      var text := GetStr(delta.value, "text");
      if text.Some? then Text(text.value) else Skip
    else if GetStr(delta.value, "type") == Some("input_json_delta") then
      var part := GetStr(delta.value, "partial_json");
      if part.Some? then ToolInput(part.value) else Skip
    else Skip
  }

  function ReadMessageDelta(value: Value): Line {
    var delta := Get(value, "delta");
    if delta.None? then Skip
    else if GetStr(delta.value, "stop_reason") == Some("tool_use") then StopForTool
    else StopOther
  }

  function ReadEvent(value: Value): Line {
    var kind := GetStr(value, "type");
    if kind == Some("content_block_start") then ReadBlockStart(value)
    else if kind == Some("content_block_delta") then ReadBlockDelta(value)
    else if kind == Some("message_delta") then ReadMessageDelta(value)
    else if kind == Some("message_stop") then MessageStop
    else Skip
  }

  function ReadLine(parse: Parser, line: string): Line {
    if !OpenAiStream.IsData(line) then Skip
    else
      var value := parse(OpenAiStream.DataOf(line));
      if value.None? then Skip else ReadEvent(value.value)
  }

  datatype State = State(
    events: seq<StreamEvent>,
    fullText: string,
    toolUseId: Option<string>,
    toolName: Option<string>,
    parts: seq<string>)

  const START := State([], "", None, None, [])

  function ToolThought(parse: Parser, st: State): Thought {
    var input := parse(Concat(st.parts)).GetOr(Null);
    ActionThought(Action(st.toolName.GetOr(""), input, st.toolUseId,
      Some([ToolCall(st.toolUseId.GetOr(""), st.toolName.GetOr(""), input)])))
  }

  /** The events of the lines that are left, from the state reached so far. */
  function EventsFrom(parse: Parser, st: State, lines: seq<string>): seq<StreamEvent>
    decreases |lines|
  {
    if lines == [] then st.events
    else
      match ReadLine(parse, lines[0])
      case Skip => EventsFrom(parse, st, lines[1..])
      case StartTool(id, name) =>
        EventsFrom(parse, st.(toolUseId := id, toolName := name, parts := []), lines[1..])
      case Text(text) =>
        EventsFrom(parse, st.(fullText := st.fullText + text, events := st.events + [TextDelta(text)]), lines[1..])
      case ToolInput(part) => EventsFrom(parse, st.(parts := st.parts + [part]), lines[1..])
      case StopForTool => st.events + [End(ToolThought(parse, st))]
      case StopOther => st.events + [End(Final(st.fullText))]
      case MessageStop => OpenAiStream.Closed(OpenAiStream.State(st.events, st.fullText, []))
  }

  function AnthropicEvents(parse: Parser, body: string): seq<StreamEvent> {
    EventsFrom(parse, START, Lines(body))
  }

  method ParseAnthropicSse(parse: Parser, body: string) returns (events: seq<StreamEvent>)
    ensures events == AnthropicEvents(parse, body)
  {
    events := [];
    var fullText := "";
    var toolUseId, toolName: Option<string> := None, None;
    var parts: seq<string> := [];
    var lines := Lines(body);
    while lines != []
      invariant EventsFrom(parse, State(events, fullText, toolUseId, toolName, parts), lines)
             == AnthropicEvents(parse, body)
      decreases |lines|
    {
      var here := ReadLine(parse, lines[0]);
      lines := lines[1..];
      match here {
        case Skip =>
        case StartTool(id, name) =>
          toolUseId, toolName, parts := id, name, [];
        case Text(text) =>
          fullText := fullText + text;
          events := events + [TextDelta(text)];
        case ToolInput(part) =>
          parts := parts + [part];
        case StopForTool =>
          var input := parse(Concat(parts)).GetOr(Null);
          var call := ToolCall(toolUseId.GetOr(""), toolName.GetOr(""), input);
          return events + [End(ActionThought(Action(toolName.GetOr(""), input, toolUseId, Some([call]))))];
        case StopOther =>
          return events + [End(Final(fullText))];
        case MessageStop =>
          if fullText != "" {
            events := events + [End(Final(fullText))];
          }
          return;
      }
    }
  }

  lemma {:induction false} EventsFromEndWell(parse: Parser, st: State, lines: seq<string>)
    requires NoEnd(st.events) && st.fullText == TextOf(st.events)
    ensures WellEnded(EventsFrom(parse, st, lines))
    decreases |lines|
  {
    if lines != [] {
      match ReadLine(parse, lines[0])
      case Skip => EventsFromEndWell(parse, st, lines[1..]);
      case StartTool(id, name) =>
        EventsFromEndWell(parse, st.(toolUseId := id, toolName := name, parts := []), lines[1..]);
      case Text(text) =>
        TextOfAppend(st.events, TextDelta(text));
        EventsFromEndWell(parse, st.(fullText := st.fullText + text, events := st.events + [TextDelta(text)]), lines[1..]);
      case ToolInput(part) => EventsFromEndWell(parse, st.(parts := st.parts + [part]), lines[1..]);
      case StopForTool => OpenAiStream.EndingIsWell(st.events, ToolThought(parse, st));
      case StopOther => OpenAiStream.EndingIsWell(st.events, Final(st.fullText));
      case MessageStop => OpenAiStream.EndingIsWell(st.events, Final(st.fullText));
    }
  }

  /** For every body and every JSON parser: at most one `End`, always last, and a `Final`
      answer is the concatenation of the emitted text. */
  lemma AnthropicEndsWell(parse: Parser, body: string)
    ensures WellEnded(AnthropicEvents(parse, body))
  {
    EventsFromEndWell(parse, START, Lines(body));
  }

  /** The tool the body asks for: the last one it started before the stop, with the pieces
      of its input joined. `None` unless the body stops for a tool. */
  function RequestedTool(parse: Parser, tool: OpenAiStream.AccToolCall, lines: seq<string>): Option<OpenAiStream.AccToolCall>
    decreases |lines|
  {
    if lines == [] then None
    else
      match ReadLine(parse, lines[0])
      case Skip => RequestedTool(parse, tool, lines[1..])
      case Text(_) => RequestedTool(parse, tool, lines[1..])
      case StartTool(id, name) => RequestedTool(parse, OpenAiStream.AccToolCall(id, name, ""), lines[1..])
      case ToolInput(part) => RequestedTool(parse, tool.(arguments := tool.arguments + part), lines[1..])
      case StopForTool => Some(tool)
      case StopOther => None
      case MessageStop => None
  }

  /** The end of a stream that asks for one tool, whose input is parsed as one piece. */
  function ToolEnd(parse: Parser, tool: OpenAiStream.AccToolCall): StreamEvent {
    var input := parse(tool.arguments).GetOr(Null);
    End(ActionThought(Action(tool.name.GetOr(""), input, tool.id,
      Some([ToolCall(tool.id.GetOr(""), tool.name.GetOr(""), input)]))))
  }

  lemma {:induction false} ToolFrom(parse: Parser, st: State, lines: seq<string>)
    ensures var tool := RequestedTool(parse, OpenAiStream.AccToolCall(st.toolUseId, st.toolName, Concat(st.parts)), lines);
      tool.Some? ==> OpenAiStream.LastIs(EventsFrom(parse, st, lines), ToolEnd(parse, tool.value))
    decreases |lines|
  {
    if lines != [] {
      match ReadLine(parse, lines[0])
      case Skip => ToolFrom(parse, st, lines[1..]);
      case StartTool(id, name) => ToolFrom(parse, st.(toolUseId := id, toolName := name, parts := []), lines[1..]);
      case Text(text) =>
        ToolFrom(parse, st.(fullText := st.fullText + text, events := st.events + [TextDelta(text)]), lines[1..]);
      case ToolInput(part) =>
        ConcatAppend(st.parts, part);
        ToolFrom(parse, st.(parts := st.parts + [part]), lines[1..]);
      case _ =>
    }
  }

  /** A body that stops for a tool ends with that tool's call, whatever the cutting of its
      input and whatever text comes between the pieces. */
  lemma AnthropicToolRejoins(parse: Parser, body: string)
    ensures var tool := RequestedTool(parse, OpenAiStream.EMPTY_ACC, Lines(body));
      tool.Some? ==> OpenAiStream.LastIs(AnthropicEvents(parse, body), ToolEnd(parse, tool.value))
  {
    ToolFrom(parse, START, Lines(body));
  }

  // Which bodies yield a tool action, and what text a body carries.

  predicate Stops(here: Line) {
    here.StopForTool? || here.StopOther? || here.MessageStop?
  }

  /** No line of the body is a terminator. */
  predicate BreaksOff(parse: Parser, lines: seq<string>)
    decreases |lines|
  {
    lines == [] ||
    (!Stops(ReadLine(parse, lines[0])) && BreaksOff(parse, lines[1..]))
  }

  /** The text of the body's deltas, up to the terminator if there is one. */
  function BodyText(parse: Parser, lines: seq<string>): string
    decreases |lines|
  {
    if lines == [] then ""
    else
      var here := ReadLine(parse, lines[0]);
      if Stops(here) then ""
      else (if here.Text? then here.text else "") + BodyText(parse, lines[1..])
  }

  /** The tool in progress after a line that is no terminator. */
  function ToolAfter(tool: OpenAiStream.AccToolCall, here: Line): OpenAiStream.AccToolCall {
    match here
    case StartTool(id, name) => OpenAiStream.AccToolCall(id, name, "")
    case ToolInput(part) => tool.(arguments := tool.arguments + part)
    case _ => tool
  }

  lemma {:induction false} BrokenOffRequestsNoTool(parse: Parser, tool: OpenAiStream.AccToolCall, lines: seq<string>)
    requires BreaksOff(parse, lines)
    ensures RequestedTool(parse, tool, lines).None?
    decreases |lines|
  {
    if lines != [] {
      BrokenOffRequestsNoTool(parse, ToolAfter(tool, ReadLine(parse, lines[0])), lines[1..]);
    }
  }

  /** The state after a line that is no terminator. */
  function After(st: State, here: Line): State {
    match here
    case StartTool(id, name) => st.(toolUseId := id, toolName := name, parts := [])
    case Text(text) => st.(fullText := st.fullText + text, events := st.events + [TextDelta(text)])
    case ToolInput(part) => st.(parts := st.parts + [part])
    case _ => st
  }

  lemma EventsGoOn(parse: Parser, st: State, lines: seq<string>)
    requires lines != [] && !Stops(ReadLine(parse, lines[0]))
    ensures EventsFrom(parse, st, lines) == EventsFrom(parse, After(st, ReadLine(parse, lines[0])), lines[1..])
  {
  }

  lemma AfterText(st: State, here: Line)
    requires NoEnd(st.events)
    ensures NoEnd(After(st, here).events)
    ensures TextOf(After(st, here).events) == TextOf(st.events) + if here.Text? then here.text else ""
  {
    if here.Text? {
      TextOfAppend(st.events, TextDelta(here.text));
    } else {
      assert TextOf(st.events) + "" == TextOf(st.events);
    }
  }

  lemma StoppedText(parse: Parser, st: State, lines: seq<string>)
    requires lines == [] || Stops(ReadLine(parse, lines[0]))
    ensures TextOf(EventsFrom(parse, st, lines)) == TextOf(st.events)
  {
    OpenAiStream.TextOfEnded(st.events, ToolThought(parse, st));
    OpenAiStream.TextOfEnded(st.events, Final(st.fullText));
  }

  /** The parser emits exactly the body's text. */
  lemma {:induction false} EventsFromText(parse: Parser, st: State, lines: seq<string>)
    requires NoEnd(st.events)
    ensures TextOf(EventsFrom(parse, st, lines)) == TextOf(st.events) + BodyText(parse, lines)
    decreases |lines|
  {
    if lines == [] || Stops(ReadLine(parse, lines[0])) {
      StoppedText(parse, st, lines);
      assert TextOf(st.events) + "" == TextOf(st.events);
    } else {
      var here := ReadLine(parse, lines[0]);
      EventsGoOn(parse, st, lines);
      AfterText(st, here);
      EventsFromText(parse, After(st, here), lines[1..]);
      OpenAiStream.Regroup(TextOf(st.events), if here.Text? then here.text else "", BodyText(parse, lines[1..]));
    }
  }

  lemma {:induction false} EventsFromFinal(parse: Parser, st: State, tool: OpenAiStream.AccToolCall, lines: seq<string>)
    requires NoEnd(st.events) && RequestedTool(parse, tool, lines).None?
    ensures OpenAiStream.EndsAreFinal(EventsFrom(parse, st, lines))
    decreases |lines|
  {
    if lines != [] && !Stops(ReadLine(parse, lines[0])) {
      var here := ReadLine(parse, lines[0]);
      EventsGoOn(parse, st, lines);
      AfterText(st, here);
      EventsFromFinal(parse, After(st, here), ToolAfter(tool, here), lines[1..]);
    }
  }

  /** A body ends with a tool action if it stops for a tool, and only then. */
  lemma AnthropicActsIffStopsForTool(parse: Parser, body: string)
    ensures var tool := RequestedTool(parse, OpenAiStream.EMPTY_ACC, Lines(body));
      if tool.Some? then OpenAiStream.LastIs(AnthropicEvents(parse, body), ToolEnd(parse, tool.value))
      else OpenAiStream.EndsAreFinal(AnthropicEvents(parse, body))
  {
    if RequestedTool(parse, OpenAiStream.EMPTY_ACC, Lines(body)).None? {
      EventsFromFinal(parse, START, OpenAiStream.EMPTY_ACC, Lines(body));
    } else {
      AnthropicToolRejoins(parse, body);
    }
  }

  lemma AnthropicEmitsBodyText(parse: Parser, body: string)
    ensures TextOf(AnthropicEvents(parse, body)) == BodyText(parse, Lines(body))
  {
    EventsFromText(parse, START, Lines(body));
    OpenAiStream.Regroup("", BodyText(parse, Lines(body)), "");
  }
}
