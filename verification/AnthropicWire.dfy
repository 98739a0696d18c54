/** What a body of the Anthropic stream says, written out as JSON and lines of text, and the
    events that the parser makes of it. */
module AnthropicWire {
  import opened AnthropicStream
  import opened Json
  import opened Text
  import opened Thoughts
  import opened Wrappers
  import OpenAiStream
  import OpenAiWire

  ghost predicate IsKind(v: Value, kind: string) {
    HasStr(v, "type", Some(kind))
  }

  /** A field that has this type. */
  ghost predicate HasTyped(v: Value, key: string, kind: string) {
    HasField(v, key) && IsKind(v.fields[key], kind)
  }

  /** What an event asks for, from its JSON. An event that asks for nothing is `Skip`. */
  ghost predicate Means(v: Value, e: Line) {
    match e
    case StartTool(id, name) =>
      && IsKind(v, "content_block_start") && HasTyped(v, "content_block", "tool_use")
      && HasStr(v.fields["content_block"], "id", id) && HasStr(v.fields["content_block"], "name", name)
    case Text(text) =>
      && IsKind(v, "content_block_delta") && HasTyped(v, "delta", "text_delta")
      && HasStr(v.fields["delta"], "text", Some(text))
    case ToolInput(part) =>
      && IsKind(v, "content_block_delta") && HasTyped(v, "delta", "input_json_delta")
      && HasStr(v.fields["delta"], "partial_json", Some(part))
    case StopForTool =>
      IsKind(v, "message_delta") && HasField(v, "delta") && HasStr(v.fields["delta"], "stop_reason", Some("tool_use"))
    case StopOther =>
      IsKind(v, "message_delta") && HasField(v, "delta") && !HasStr(v.fields["delta"], "stop_reason", Some("tool_use"))
    case MessageStop => IsKind(v, "message_stop")
    case Skip => AsksNothing(v)
  }

  ghost predicate AsksNothing(v: Value) {
    && !IsKind(v, "message_stop")
    && (IsKind(v, "content_block_start") ==> !HasTyped(v, "content_block", "tool_use"))
    && (IsKind(v, "message_delta") ==> !HasField(v, "delta"))
    && (IsKind(v, "content_block_delta") ==>
          && (HasTyped(v, "delta", "text_delta") ==> HasStr(v.fields["delta"], "text", None))
          && (HasTyped(v, "delta", "input_json_delta") ==> HasStr(v.fields["delta"], "partial_json", None)))
  }

  /** Events as the service writes them. */
  function EventJson(e: Line): Value
    requires !e.Skip?
  {
    match e
    case StartTool(id, name) =>
      Object(map["type" := Str("content_block_start"), "content_block" := Object(map[
        "type" := Str("tool_use"), "id" := OpenAiWire.OrNull(id), "name" := OpenAiWire.OrNull(name)])])
    case Text(text) =>
      Object(map["type" := Str("content_block_delta"),
                 "delta" := Object(map["type" := Str("text_delta"), "text" := Str(text)])])
    case ToolInput(part) =>
      Object(map["type" := Str("content_block_delta"),
                 "delta" := Object(map["type" := Str("input_json_delta"), "partial_json" := Str(part)])])
    case StopForTool =>
      Object(map["type" := Str("message_delta"), "delta" := Object(map["stop_reason" := Str("tool_use")])])
    case StopOther =>
      Object(map["type" := Str("message_delta"), "delta" := Object(map["stop_reason" := Str("end_turn")])])
    case MessageStop => Object(map["type" := Str("message_stop")])
  }

  lemma EventJsonMeans(e: Line)
    requires !e.Skip?
    ensures Means(EventJson(e), e)
  {
    var v := EventJson(e);
    match e
    case StartTool(id, name) =>
      var block := v.fields["content_block"];
      assert block.fields["type"] == Str("tool_use");
      assert block.fields["id"] == OpenAiWire.OrNull(id) && block.fields["name"] == OpenAiWire.OrNull(name);
    case _ =>
  }

  // Lines of text.

  /** What a payload asks for; one that is no JSON asks for nothing. */
  ghost predicate Asks(payload: Option<Value>, e: Line) {
    if payload.Some? then Means(payload.value, e) else e.Skip?
  }

  ghost predicate Shows(parse: Parser, line: string, e: Line) {
    if |line| >= 6 && line[..6] == "data: "
    then exists payload :: OpenAiWire.Sends(line, payload) && Asks(parse(payload), e)
    else e.Skip?
  }

  lemma KindIs(v: Value, kind: string)
    ensures GetStr(v, "type") == Some(kind) <==> IsKind(v, kind)
  {
  }

  lemma TypedIs(v: Value, key: string, kind: string)
    ensures HasTyped(v, key, kind) <==> Get(v, key).Some? && GetStr(Get(v, key).value, "type") == Some(kind)
  {
  }

  lemma ReadsStart(v: Value, e: Line)
    requires IsKind(v, "content_block_start") && Means(v, e)
    ensures ReadBlockStart(v) == e
  {
    TypedIs(v, "content_block", "tool_use");
    if e.StartTool? {
      StrIs(v.fields["content_block"], "id", e.id);
      StrIs(v.fields["content_block"], "name", e.name);
    }
  }

  lemma ReadsDelta(v: Value, e: Line)
    requires IsKind(v, "content_block_delta") && Means(v, e)
    ensures ReadBlockDelta(v) == e
  {
    TypedIs(v, "delta", "text_delta");
    TypedIs(v, "delta", "input_json_delta");
    match e
    case Text(text) => StrIs(v.fields["delta"], "text", Some(text));
    case ToolInput(part) => StrIs(v.fields["delta"], "partial_json", Some(part));
    case Skip =>
      if HasTyped(v, "delta", "text_delta") {
        StrIs(v.fields["delta"], "text", None);
      }
      if HasTyped(v, "delta", "input_json_delta") {
        StrIs(v.fields["delta"], "partial_json", None);
      }
    case _ =>
  }

  lemma ReadsMessageDelta(v: Value, e: Line)
    requires IsKind(v, "message_delta") && Means(v, e)
    ensures ReadMessageDelta(v) == e
  {
  }

  lemma ReadsEvent(v: Value, e: Line)
    requires Means(v, e)
    ensures ReadEvent(v) == e
  {
    KindIs(v, "content_block_start");
    KindIs(v, "content_block_delta");
    KindIs(v, "message_delta");
    KindIs(v, "message_stop");
    if IsKind(v, "content_block_start") {
      ReadsStart(v, e);
    } else if IsKind(v, "content_block_delta") {
      ReadsDelta(v, e);
    } else if IsKind(v, "message_delta") {
      ReadsMessageDelta(v, e);
    }
  }

  lemma Reads(parse: Parser, line: string, e: Line)
    requires Shows(parse, line, e)
    ensures ReadLine(parse, line) == e
  {
    if OpenAiStream.IsData(line) {
      assert line[..6] == "data: ";
      var payload :| OpenAiWire.Sends(line, payload) && Asks(parse(payload), e);
      OpenAiWire.SentIsData(line, payload);
      if parse(payload).Some? {
        ReadsEvent(parse(payload).value, e);
      }
    }
  }

  // What a body says.

  ghost predicate ShowEach(parse: Parser, lines: seq<string>, es: seq<Line>) {
    |es| <= |lines| && forall i | 0 <= i < |es| :: Shows(parse, lines[i], es[i])
  }

  predicate GoesOn(e: Line) {
    e.Skip? || e.StartTool? || e.Text? || e.ToolInput?
  }

  /** The first lines show events, none of which ends the stream. */
  ghost predicate StartsWith(parse: Parser, lines: seq<string>, es: seq<Line>) {
    ShowEach(parse, lines, es) && forall i | 0 <= i < |es| :: GoesOn(es[i])
  }

  /** The texts, in order, even empty ones. */
  function Texts(es: seq<Line>): seq<string> {
    if es == [] then []
    else Texts(es[..|es| - 1]) + if es[|es| - 1].Text? then [es[|es| - 1].text] else []
  }

  function Inputs(es: seq<Line>): seq<string> {
    if es == [] then []
    else Inputs(es[..|es| - 1]) + if es[|es| - 1].ToolInput? then [es[|es| - 1].part] else []
  }

  function Deltas(texts: seq<string>): seq<StreamEvent> {
    seq(|texts|, i requires 0 <= i < |texts| => TextDelta(texts[i]))
  }

  function StateAfter(st: State, es: seq<Line>): State {
    if es == [] then st else After(StateAfter(st, es[..|es| - 1]), es[|es| - 1])
  }

  lemma LastEvent(st: State, es: seq<Line>, e: Line)
    ensures StateAfter(st, es + [e]) == After(StateAfter(st, es), e)
    ensures Texts(es + [e]) == Texts(es) + if e.Text? then [e.text] else []
    ensures Inputs(es + [e]) == Inputs(es) + if e.ToolInput? then [e.part] else []
  {
    assert (es + [e])[..|es|] == es;
  }

  lemma {:induction false} EventsAfter(parse: Parser, lines: seq<string>, es: seq<Line>)
    requires StartsWith(parse, lines, es)
    ensures EventsFrom(parse, START, lines) == EventsFrom(parse, StateAfter(START, es), lines[|es|..])
    decreases |es|
  {
    if es == [] {
      assert lines[0..] == lines;
    } else {
      var n := |es| - 1;
      EventsAfter(parse, lines, es[..n]);
      assert lines[n..][0] == lines[n] && lines[n..][1..] == lines[n + 1..];
      Reads(parse, lines[n], es[n]);
      EventsGoOn(parse, StateAfter(START, es[..n]), lines[n..]);
    }
  }

  /** The texts and their concatenation are collected. */
  lemma {:induction false} TextsCollected(es: seq<Line>)
    ensures StateAfter(START, es).events == Deltas(Texts(es))
    ensures StateAfter(START, es).fullText == Concat(Texts(es))
  {
    if es != [] {
      var n := |es| - 1;
      var st := StateAfter(START, es[..n]);
      TextsCollected(es[..n]);
      assert es == es[..n] + [es[n]];
      LastEvent(START, es[..n], es[n]);
      if es[n].Text? {
        ConcatAppend(Texts(es[..n]), es[n].text);
      } else {
        assert Texts(es[..n]) + [] == Texts(es[..n]);
      }
    }
  }

  predicate NoStart(es: seq<Line>) {
    forall i | 0 <= i < |es| :: !es[i].StartTool?
  }

  /** Without a start the tool stays, and its input grows. */
  lemma {:induction false} InputsCollected(st: State, es: seq<Line>)
    requires NoStart(es)
    ensures var after := StateAfter(st, es);
      after.toolUseId == st.toolUseId && after.toolName == st.toolName && after.parts == st.parts + Inputs(es)
  {
    if es != [] {
      var n := |es| - 1;
      InputsCollected(st, es[..n]);
      assert es == es[..n] + [es[n]];
      LastEvent(st, es[..n], es[n]);
    }
  }

  lemma {:induction false} StateAfterConcat(st: State, a: seq<Line>, b: seq<Line>)
    ensures StateAfter(st, a + b) == StateAfter(StateAfter(st, a), b)
    decreases |b|
  {
    if b == [] {
      assert a + b == a;
    } else {
      var n := |b| - 1;
      StateAfterConcat(st, a, b[..n]);
      assert a + b == (a + b[..n]) + [b[n]] && b == b[..n] + [b[n]];
      LastEvent(st, a + b[..n], b[n]);
      LastEvent(StateAfter(st, a), b[..n], b[n]);
    }
  }

  lemma EventsWhere(parse: Parser, body: string, es: seq<Line>)
    requires StartsWith(parse, Lines(body), es)
    ensures AnthropicEvents(parse, body) == EventsFrom(parse, StateAfter(START, es), Lines(body)[|es|..])
    ensures StateAfter(START, es).events == Deltas(Texts(es)) && StateAfter(START, es).fullText == Concat(Texts(es))
    ensures |es| < |Lines(body)| ==> Lines(body)[|es|..] != [] && Lines(body)[|es|..][0] == Lines(body)[|es|]
  {
    EventsAfter(parse, Lines(body), es);
    TextsCollected(es);
  }

  /** A body that breaks off emits its texts, and nothing else. */
  lemma AnthropicReadsBrokenOff(parse: Parser, body: string, es: seq<Line>)
    requires StartsWith(parse, Lines(body), es) && |es| == |Lines(body)|
    ensures AnthropicEvents(parse, body) == Deltas(Texts(es))
  {
    EventsWhere(parse, body, es);
  }

  /** A body that stops, but not for a tool, emits its texts and their concatenation as the
      answer; a bare `message_stop` gives no answer if there was no text. */
  lemma AnthropicReadsAnswer(parse: Parser, body: string, es: seq<Line>, stop: Line)
    requires StartsWith(parse, Lines(body), es) && |es| < |Lines(body)|
    requires Shows(parse, Lines(body)[|es|], stop) && (stop == StopOther || stop == MessageStop)
    ensures AnthropicEvents(parse, body) == Deltas(Texts(es))
      + if stop == MessageStop && Concat(Texts(es)) == "" then [] else [End(Final(Concat(Texts(es))))]
  {
    EventsWhere(parse, body, es);
    Reads(parse, Lines(body)[|es|], stop);
  }

  /** A body that stops for a tool emits its texts and the call of the tool that it started last,
      with the pieces of its input since then put together. */
  lemma AnthropicReadsTool(parse: Parser, body: string, before: seq<Line>, id: Option<string>, name: Option<string>,
                           after: seq<Line>)
    requires var es := before + [StartTool(id, name)] + after;
      && StartsWith(parse, Lines(body), es) && |es| < |Lines(body)| && NoStart(after)
      && Shows(parse, Lines(body)[|es|], StopForTool)
    ensures var input := parse(Concat(Inputs(after))).GetOr(Null);
      AnthropicEvents(parse, body) == Deltas(Texts(before + [StartTool(id, name)] + after))
        + [End(ActionThought(Action(name.GetOr(""), input, id, Some([ToolCall(id.GetOr(""), name.GetOr(""), input)]))))]
  {
    var es := before + [StartTool(id, name)] + after;
    EventsWhere(parse, body, es);
    Reads(parse, Lines(body)[|es|], StopForTool);
    StateAfterConcat(START, before + [StartTool(id, name)], after);
    LastEvent(START, before, StartTool(id, name));
    InputsCollected(StateAfter(START, before + [StartTool(id, name)]), after);
    assert [] + Inputs(after) == Inputs(after);
  }

  /** If it started none, the call has no id and no name. */
  lemma AnthropicReadsNoTool(parse: Parser, body: string, es: seq<Line>)
    requires StartsWith(parse, Lines(body), es) && |es| < |Lines(body)| && NoStart(es)
    requires Shows(parse, Lines(body)[|es|], StopForTool)
    ensures var input := parse(Concat(Inputs(es))).GetOr(Null);
      AnthropicEvents(parse, body)
      == Deltas(Texts(es)) + [End(ActionThought(Action("", input, None, Some([ToolCall("", "", input)]))))]
  {
    EventsWhere(parse, body, es);
    Reads(parse, Lines(body)[|es|], StopForTool);
    InputsCollected(START, es);
    assert [] + Inputs(es) == Inputs(es);
  }
}
