/** What a body of the OpenAI stream says, written out as JSON and lines of text, and the events
    that the parser makes of it. */
module OpenAiWire {
  import opened Json
  import opened OpenAiStream
  import opened Text
  import opened Thoughts
  import opened Wrappers

  // JSON.

  ghost predicate HasDelta(v: Value) {
    && HasField(v, "choices") && v.fields["choices"].Array? && v.fields["choices"].items != []
    && HasField(v.fields["choices"].items[0], "delta")
  }

  ghost predicate HasCalls(delta: Value, calls: seq<Value>) {
    if HasField(delta, "tool_calls") && delta.fields["tool_calls"].Array?
    then delta.fields["tool_calls"].items == calls
    else calls == []
  }

  /** What a chunk of the stream says in its first choice. */
  datatype Chunk = Chunk(content: Option<string>, calls: seq<Value>, finish: Option<string>)

  ghost predicate IsChunk(v: Value, c: Chunk) {
    && HasDelta(v)
    && var choice := v.fields["choices"].items[0];
    && HasStr(choice.fields["delta"], "content", c.content)
    && HasCalls(choice.fields["delta"], c.calls)
    && HasStr(choice, "finish_reason", c.finish)
  }

  /** The index a tool-call delta names, and 0 if it names none. */
  function IndexIn(tc: Value): nat {
    if tc.Object? && "index" in tc.fields && tc.fields["index"].Number? && tc.fields["index"].n >= 0
    then tc.fields["index"].n
    else 0
  }

  function OrNull(s: Option<string>): Value {
    if s.Some? then Str(s.value) else Null
  }

  /** A chunk as the service writes it. */
  function ChunkJson(c: Chunk): Value {
    Object(map["choices" := Array([Object(map[
      "index" := Number(0),
      "delta" := Object(map["content" := OrNull(c.content), "tool_calls" := Array(c.calls)]),
      "finish_reason" := OrNull(c.finish)])])])
  }

  function CallJson(index: nat, id: Option<string>, name: Option<string>, arguments: Option<string>): Value {
    Object(map[
      "index" := Number(index),
      "id" := OrNull(id),
      "function" := Object(map["name" := OrNull(name), "arguments" := OrNull(arguments)])])
  }

  lemma ChunkJsonIsChunk(c: Chunk)
    ensures IsChunk(ChunkJson(c), c)
  {
    var v := ChunkJson(c);
    var choice := v.fields["choices"].items[0];
    assert choice.fields["delta"].fields["content"] == OrNull(c.content);
    assert choice.fields["finish_reason"] == OrNull(c.finish);
  }

  /** What the parser and the notion of a cutting read in a tool-call delta. */
  lemma CallJsonReads(index: nat, id: Option<string>, name: Option<string>, arguments: Option<string>)
    ensures var tc := CallJson(index, id, name, arguments);
      && IndexIn(tc) == IndexOf(tc) == index
      && IdsOf([tc]) == [id] && NamesOf([tc]) == [name] && ArgumentsOf([tc]) == arguments.GetOr("")
  {
    var tc := CallJson(index, id, name, arguments);
    assert [tc][1..] == [];
    assert tc.fields["index"] == Number(index) && tc.fields["id"] == OrNull(id);
    assert tc.fields["function"].fields["name"] == OrNull(name);
    assert tc.fields["function"].fields["arguments"] == OrNull(arguments);
  }

  // Lines of text.

  /** The line carries a payload, with blanks around it. */
  ghost predicate Sends(line: string, payload: string) {
    && IsTrim(payload)
    && exists before, after :: AllBlank(before) && AllBlank(after) && line == "data: " + before + payload + after
  }

  lemma SentIsData(line: string, payload: string)
    requires Sends(line, payload)
    ensures IsData(line) && DataOf(line) == payload
  {
    var before, after :| AllBlank(before) && AllBlank(after) && line == "data: " + before + payload + after;
    assert line[6..] == before + payload + after by {
      assert line == "data: " + (before + payload + after);
    }
    TrimDropsBlanks(before, payload, after);
  }

  datatype Item = Noise | Sentinel | Sent(chunk: Chunk)

  /** The line has no payload, or one that is no JSON or not a chunk with a delta. */
  ghost predicate IsNoise(parse: Parser, line: string) {
    || !(|line| >= 6 && line[..6] == "data: ")
    || exists payload ::
         && Sends(line, payload) && payload != "[DONE]"
         && (parse(payload) == None || !HasDelta(parse(payload).value))
  }

  ghost predicate Shows(parse: Parser, line: string, item: Item) {
    match item
    case Noise => IsNoise(parse, line)
    case Sentinel => Sends(line, "[DONE]")
    case Sent(c) =>
      exists payload ::
        Sends(line, payload) && payload != "[DONE]" && parse(payload).Some? && IsChunk(parse(payload).value, c)
  }

  lemma ReadsNoise(parse: Parser, line: string)
    requires IsNoise(parse, line)
    ensures ReadLine(parse, line) == Skip
  {
    if IsData(line) {
      assert line[..6] == "data: ";
      var payload :| Sends(line, payload) && payload != "[DONE]"
        && (parse(payload) == None || !HasDelta(parse(payload).value));
      SentIsData(line, payload);
    }
  }

  lemma ReadsChunk(parse: Parser, line: string, c: Chunk)
    requires Shows(parse, line, Sent(c))
    ensures ReadLine(parse, line) == Delta(c.content, c.calls, c.finish)
  {
    var payload :|
      Sends(line, payload) && payload != "[DONE]" && parse(payload).Some? && IsChunk(parse(payload).value, c);
    SentIsData(line, payload);
    var v := parse(payload).value;
    var choice := v.fields["choices"].items[0];
    var delta := choice.fields["delta"];
    StrIs(delta, "content", c.content);
    StrIs(choice, "finish_reason", c.finish);
    CallsAre(delta, c.calls);
    FirstDelta(v, choice, delta);
  }

  lemma CallsAre(delta: Value, calls: seq<Value>)
    requires HasCalls(delta, calls)
    ensures GetArray(delta, "tool_calls").GetOr([]) == calls
  {
  }

  lemma FirstDelta(v: Value, choice: Value, delta: Value)
    requires HasDelta(v) && choice == v.fields["choices"].items[0] && delta == choice.fields["delta"]
    ensures var choices := GetArray(v, "choices");
      choices.Some? && choices.value != [] && choices.value[0] == choice && Get(choice, "delta") == Some(delta)
  {
  }

  lemma ReadsSentinel(parse: Parser, line: string)
    requires Shows(parse, line, Sentinel)
    ensures ReadLine(parse, line) == Done
  {
    SentIsData(line, "[DONE]");
  }

  // What a body says.

  function ContentIn(item: Item): string {
    if item.Sent? then item.chunk.content.GetOr("") else ""
  }

  function CallsIn(item: Item): seq<Value> {
    if item.Sent? then item.chunk.calls else []
  }

  function IndexedDeltas(tcs: seq<Value>): seq<StreamEvent> {
    seq(|tcs|, i requires 0 <= i < |tcs| => ToolCallDelta(IndexIn(tcs[i]), tcs[i]))
  }

  /** A text delta for a text that is not empty, then the tool-call deltas in order. */
  function EmittedBy(item: Item): seq<StreamEvent> {
    (if ContentIn(item) != "" then [TextDelta(ContentIn(item))] else [])
    + IndexedDeltas(CallsIn(item))
  }

  function Content(items: seq<Item>): string {
    if items == [] then "" else Content(items[..|items| - 1]) + ContentIn(items[|items| - 1])
  }

  function Calls(items: seq<Item>): seq<Value> {
    if items == [] then [] else Calls(items[..|items| - 1]) + CallsIn(items[|items| - 1])
  }

  function Emitted(items: seq<Item>): seq<StreamEvent> {
    if items == [] then [] else Emitted(items[..|items| - 1]) + EmittedBy(items[|items| - 1])
  }

  predicate GoesOn(item: Item) {
    item.Noise? || (item.Sent? && item.chunk.finish.None?)
  }

  /** The first lines show the items, none of which ends the stream. */
  ghost predicate StartsWith(parse: Parser, lines: seq<string>, items: seq<Item>) {
    |items| <= |lines| && forall i | 0 <= i < |items| :: Shows(parse, lines[i], items[i]) && GoesOn(items[i])
  }

  function StateAfter(items: seq<Item>): State {
    State(Emitted(items), Content(items), AccumulatedAll([], Calls(items)))
  }

  lemma {:induction false} DeltaEventsByIndex(tcs: seq<Value>)
    ensures DeltaEvents(tcs) == IndexedDeltas(tcs)
  {
    if tcs != [] {
      DeltaEventsByIndex(tcs[1..]);
    }
  }

  lemma LastItem(items: seq<Item>, item: Item)
    ensures Content(items + [item]) == Content(items) + ContentIn(item)
    ensures Calls(items + [item]) == Calls(items) + CallsIn(item)
    ensures Emitted(items + [item]) == Emitted(items) + EmittedBy(item)
  {
    assert (items + [item])[..|items|] == items;
  }

  lemma ChunkEvents(events: seq<StreamEvent>, c: Chunk)
    ensures events + EmittedBy(Sent(c))
      == WithText(State(events, "", []), c.content).events + DeltaEvents(c.calls)
  {
    DeltaEventsByIndex(c.calls);
    if c.content.GetOr("") == "" {
      assert EmittedBy(Sent(c)) == DeltaEvents(c.calls);
    } else {
      assert EmittedBy(Sent(c)) == [TextDelta(c.content.value)] + DeltaEvents(c.calls);
    }
  }

  lemma ItemStep(items: seq<Item>, c: Chunk)
    ensures WithToolCalls(WithText(StateAfter(items), c.content), c.calls) == StateAfter(items + [Sent(c)])
  {
    LastItem(items, Sent(c));
    ChunkEvents(Emitted(items), c);
    AccumulatedAppend([], Calls(items), c.calls);
    assert Content(items) + "" == Content(items);
  }

  lemma EventsStep(parse: Parser, items: seq<Item>, item: Item, rest: seq<string>)
    requires rest != [] && Shows(parse, rest[0], item) && GoesOn(item)
    ensures EventsFrom(parse, StateAfter(items), rest) == EventsFrom(parse, StateAfter(items + [item]), rest[1..])
  {
    LastItem(items, item);
    if item.Noise? {
      ReadsNoise(parse, rest[0]);
      assert StateAfter(items + [item]) == StateAfter(items) by {
        assert EmittedBy(item) == [] && Emitted(items) + [] == Emitted(items);
        assert Content(items) + "" == Content(items) && Calls(items) + [] == Calls(items);
      }
    } else {
      ReadsChunk(parse, rest[0], item.chunk);
      ItemStep(items, item.chunk);
    }
  }

  lemma {:induction false} EventsAfter(parse: Parser, lines: seq<string>, items: seq<Item>)
    requires StartsWith(parse, lines, items)
    ensures EventsFrom(parse, START, lines) == EventsFrom(parse, StateAfter(items), lines[|items|..])
    decreases |items|
  {
    if items == [] {
      assert lines[0..] == lines;
    } else {
      var n := |items| - 1;
      EventsAfter(parse, lines, items[..n]);
      NextLine(parse, lines, items, n);
      EventsStep(parse, items[..n], items[n], lines[n..]);
    }
  }

  lemma NextLine(parse: Parser, lines: seq<string>, items: seq<Item>, n: nat)
    requires StartsWith(parse, lines, items) && n + 1 == |items|
    ensures lines[n..] != [] && lines[n..][1..] == lines[n + 1..] && items == items[..n] + [items[n]]
    ensures Shows(parse, lines[n..][0], items[n]) && GoesOn(items[n])
  {
    assert lines[n..][0] == lines[n];
  }

  function Closing(text: string): seq<StreamEvent> {
    if text != "" then [End(Final(text))] else []
  }

  /** A body that breaks off, or says that it is done, without a finish reason: the events of its
      chunks in order, and the text as the answer if there is any. What follows is ignored. */
  lemma OpenAiReadsUnfinished(parse: Parser, body: string, items: seq<Item>)
    requires StartsWith(parse, Lines(body), items)
    requires |items| < |Lines(body)| ==> Shows(parse, Lines(body)[|items|], Sentinel)
    ensures OpenAiEvents(parse, body) == Emitted(items) + Closing(Content(items))
  {
    var lines := Lines(body);
    EventsAfter(parse, lines, items);
    assert Emitted(items) + [] == Emitted(items);
    if |items| < |lines| {
      ReadsSentinel(parse, lines[|items|]);
      assert lines[|items|..][0] == lines[|items|];
    }
  }

  lemma OpenAiReadsFinished(parse: Parser, body: string, items: seq<Item>, c: Chunk) returns (all: seq<Item>)
    requires StartsWith(parse, Lines(body), items) && |items| < |Lines(body)|
    requires Shows(parse, Lines(body)[|items|], Sent(c)) && c.finish.Some?
    ensures all == items + [Sent(c)]
    ensures OpenAiEvents(parse, body) == Emitted(all) + [EndOf(parse, StateAfter(all), c.finish.value)]
  {
    var lines := Lines(body);
    all := items + [Sent(c)];
    EventsAfter(parse, lines, items);
    ReadsChunk(parse, lines[|items|], c);
    assert lines[|items|..][0] == lines[|items|];
    ItemStep(items, c);
  }

  /** A body that ends with a finish reason other than `tool_calls`: the events of its chunks, the
      last one included, and the whole text as the answer. */
  lemma OpenAiReadsAnswer(parse: Parser, body: string, items: seq<Item>, c: Chunk)
    requires StartsWith(parse, Lines(body), items) && |items| < |Lines(body)|
    requires Shows(parse, Lines(body)[|items|], Sent(c)) && c.finish.Some? && c.finish.value != "tool_calls"
    ensures OpenAiEvents(parse, body) == Emitted(items + [Sent(c)]) + [End(Final(Content(items + [Sent(c)])))]
  {
    var all := OpenAiReadsFinished(parse, body, items, c);
  }

  /** The action of a list of calls: the calls in order, with their argument texts parsed, and the
      first of them as the action's own. */
  ghost predicate IsActionOf(parse: Parser, thought: Thought, calls: seq<RawCall>)
    requires calls != []
  {
    && thought.ActionThought? && thought.action.toolCalls.Some?
    && |thought.action.toolCalls.value| == |calls|
    && (forall i | 0 <= i < |calls| ::
          thought.action.toolCalls.value[i]
          == ToolCall(calls[i].id.GetOr(""), calls[i].name, parse(calls[i].arguments).GetOr(Null)))
    && thought.action.toolName == calls[0].name
    && thought.action.arguments == parse(calls[0].arguments).GetOr(Null)
    && thought.action.toolCallId == Some(calls[0].id.GetOr(""))
  }

  /** A body that ends for tool calls: the events of its chunks, and the calls of which its
      tool-call deltas are a cutting. */
  lemma OpenAiReadsCalls(parse: Parser, body: string, items: seq<Item>, c: Chunk, calls: seq<RawCall>)
    returns (thought: Thought)
    requires StartsWith(parse, Lines(body), items) && |items| < |Lines(body)|
    requires Shows(parse, Lines(body)[|items|], Sent(c)) && c.finish == Some("tool_calls")
    requires calls != [] && Cuts(Calls(items + [Sent(c)]), calls)
    ensures OpenAiEvents(parse, body) == Emitted(items + [Sent(c)]) + [End(thought)]
    ensures thought == ActionOf(WholeCalls(parse, calls)) && IsActionOf(parse, thought, calls)
  {
    var all := OpenAiReadsFinished(parse, body, items, c);
    CutCallsParse(parse, Calls(all), calls);
    thought := ActionOf(WholeCalls(parse, calls));
  }

  ghost predicate Nameless(tc: Value) {
    HasField(tc, "function") ==> HasStr(tc.fields["function"], "name", None)
  }

  lemma {:induction false} NamelessStay(accs: seq<AccToolCall>, tcs: seq<Value>)
    requires (forall tc | tc in tcs :: Nameless(tc)) && forall a | a in accs :: a.name.None?
    ensures forall a | a in AccumulatedAll(accs, tcs) :: a.name.None?
    decreases |tcs|
  {
    if tcs != [] {
      assert Nameless(tcs[0]);
      var grown := Grown(accs, IndexOf(tcs[0]));
      forall a | a in Accumulated(accs, tcs[0])
        ensures a.name.None?
      {
        var i: nat :| i < |grown| && a == Accumulated(accs, tcs[0])[i];
        assert At(grown, i) == At(accs, i);
      }
      NamelessStay(Accumulated(accs, tcs[0]), tcs[1..]);
    }
  }

  lemma {:induction false} NoNameNoCall(parse: Parser, accs: seq<AccToolCall>)
    requires forall a | a in accs :: a.name.None?
    ensures CallsOf(parse, accs) == []
    decreases |accs|
  {
    if accs != [] {
      assert accs[0] in accs;
      NoNameNoCall(parse, accs[1..]);
    }
  }

  /** A body that ends for tool calls of which none has a name falls back to the text. */
  lemma OpenAiReadsNamelessCalls(parse: Parser, body: string, items: seq<Item>, c: Chunk)
    requires StartsWith(parse, Lines(body), items) && |items| < |Lines(body)|
    requires Shows(parse, Lines(body)[|items|], Sent(c)) && c.finish == Some("tool_calls")
    requires forall tc | tc in Calls(items + [Sent(c)]) :: Nameless(tc)
    ensures OpenAiEvents(parse, body) == Emitted(items + [Sent(c)]) + [End(Final(Content(items + [Sent(c)])))]
  {
    var all := OpenAiReadsFinished(parse, body, items, c);
    NamelessStay([], Calls(all));
    NoNameNoCall(parse, AccumulatedAll([], Calls(all)));
  }

  // A body as the service writes it.

  function DataLines(payloads: seq<string>): seq<string> {
    seq(|payloads|, i requires 0 <= i < |payloads| => "data: " + payloads[i])
  }

  /** The payloads are the chunks in JSON, each in one line. */
  ghost predicate Write(parse: Parser, payloads: seq<string>, chunks: seq<Chunk>) {
    && |payloads| == |chunks|
    && forall i | 0 <= i < |chunks| ::
         && IsTrim(payloads[i]) && IsPlain(payloads[i]) && payloads[i] != "" && payloads[i] != "[DONE]"
         && parse(payloads[i]) == Some(ChunkJson(chunks[i]))
  }

  lemma WrittenShows(parse: Parser, payload: string, c: Chunk)
    requires IsTrim(payload) && payload != "[DONE]" && parse(payload) == Some(ChunkJson(c))
    ensures Shows(parse, "data: " + payload, Sent(c))
  {
    ChunkJsonIsChunk(c);
    var none := "";
    assert AllBlank(none) && "data: " + payload == "data: " + none + payload + none;
    assert Sends("data: " + payload, payload);
  }

  lemma LinesOfData(payloads: seq<string>)
    requires forall i | 0 <= i < |payloads| :: IsTrim(payloads[i]) && IsPlain(payloads[i]) && payloads[i] != ""
    ensures Lines(Terminated(DataLines(payloads), seq(|payloads|, _ => false))) == DataLines(payloads)
  {
    var lines := DataLines(payloads);
    var crlf := seq(|payloads|, _ => false);
    forall i | 0 <= i < |lines|
      ensures IsPlain(lines[i]) && lines[i][|lines[i]| - 1] != '\r'
    {
      var text := payloads[i];
      assert lines[i][|lines[i]| - 1] == text[|text| - 1] == [text[|text| - 1]][0];
      forall c | c in lines[i]
        ensures c != '\n'
      {
        assert c in "data: " || c in text;
      }
    }
    LinesOfTerminated(lines, crlf, "");
    assert Terminated(lines, crlf) + "" == Terminated(lines, crlf);
  }

  function AllSent(chunks: seq<Chunk>): seq<Item> {
    seq(|chunks|, i requires 0 <= i < |chunks| => Sent(chunks[i]))
  }

  /** Chunks written one to a line, the last with a reason to stop: the parser emits their texts
      and tool-call deltas in order, and the answer is the whole text. */
  lemma OpenAiReadsWhatIsWritten(parse: Parser, payloads: seq<string>, chunks: seq<Chunk>)
    requires Write(parse, payloads, chunks) && chunks != []
    requires forall i | 0 <= i < |chunks| - 1 :: chunks[i].finish.None?
    requires chunks[|chunks| - 1].finish.Some? && chunks[|chunks| - 1].finish.value != "tool_calls"
    ensures OpenAiEvents(parse, Terminated(DataLines(payloads), seq(|payloads|, _ => false)))
      == Emitted(AllSent(chunks)) + [End(Final(Content(AllSent(chunks))))]
  {
    LinesOfData(payloads);
    LinesShow(parse, payloads, chunks);
    AnswerOfLines(parse, Terminated(DataLines(payloads), seq(|payloads|, _ => false)), chunks);
  }

  ghost predicate ShowEach(parse: Parser, lines: seq<string>, chunks: seq<Chunk>) {
    |lines| == |chunks| && forall i | 0 <= i < |chunks| :: Shows(parse, lines[i], Sent(chunks[i]))
  }

  lemma LinesShow(parse: Parser, payloads: seq<string>, chunks: seq<Chunk>)
    requires Write(parse, payloads, chunks)
    ensures ShowEach(parse, DataLines(payloads), chunks)
  {
    forall i | 0 <= i < |chunks|
      ensures Shows(parse, DataLines(payloads)[i], Sent(chunks[i]))
    {
      WrittenShows(parse, payloads[i], chunks[i]);
    }
  }

  lemma AnswerOfLines(parse: Parser, body: string, chunks: seq<Chunk>)
    requires ShowEach(parse, Lines(body), chunks) && chunks != []
    requires forall i | 0 <= i < |chunks| - 1 :: chunks[i].finish.None?
    requires chunks[|chunks| - 1].finish.Some? && chunks[|chunks| - 1].finish.value != "tool_calls"
    ensures OpenAiEvents(parse, body) == Emitted(AllSent(chunks)) + [End(Final(Content(AllSent(chunks))))]
  {
    var n := |chunks| - 1;
    FrontStarts(parse, Lines(body), chunks, n);
    OpenAiReadsAnswer(parse, body, AllSent(chunks[..n]), chunks[n]);
  }

  lemma FrontStarts(parse: Parser, lines: seq<string>, chunks: seq<Chunk>, n: nat)
    requires ShowEach(parse, lines, chunks) && n + 1 == |chunks|
    requires forall i | 0 <= i < n :: chunks[i].finish.None?
    ensures |AllSent(chunks[..n])| == n && StartsWith(parse, lines, AllSent(chunks[..n]))
    ensures n < |lines| && Shows(parse, lines[n], Sent(chunks[n]))
    ensures AllSent(chunks) == AllSent(chunks[..n]) + [Sent(chunks[n])]
  {
  }

  // The same message in one piece.

  ghost predicate HasMessage(v: Value) {
    && HasField(v, "choices") && v.fields["choices"].Array? && v.fields["choices"].items != []
    && HasField(v.fields["choices"].items[0], "message")
  }

  /** A response that does not stop for tool calls is its content, which must not be empty. */
  lemma ResponseIsContent(parse: Parser, v: Value, content: Option<string>, finish: Option<string>)
    requires HasMessage(v) && finish != Some("tool_calls")
    requires HasStr(v.fields["choices"].items[0].fields["message"], "content", content)
    requires HasStr(v.fields["choices"].items[0], "finish_reason", finish)
    ensures ParseOpenAiResponse(parse, v)
      == if content.GetOr("") == "" then Err(EmptyContent) else Ok(Final(content.value))
  {
    StrIs(v.fields["choices"].items[0].fields["message"], "content", content);
    StrIs(v.fields["choices"].items[0], "finish_reason", finish);
  }

  /** A response is refused, apart from an empty content, exactly if it has no message or stops
      for tool calls without any. */
  lemma ResponseIsRefusedIff(parse: Parser, v: Value)
    ensures ParseOpenAiResponse(parse, v) in {Err(NoChoices), Err(EmptyChoices), Err(NoMessage)} <==> !HasMessage(v)
    ensures HasMessage(v) ==>
      var choice := v.fields["choices"].items[0];
      (ParseOpenAiResponse(parse, v) in {Err(NoToolCalls), Err(EmptyToolCalls)}
       <==> HasStr(choice, "finish_reason", Some("tool_calls")) && HasCalls(choice.fields["message"], []))
  {
    if HasMessage(v) {
      var choice := v.fields["choices"].items[0];
      assert Get(choice, "message") == Some(choice.fields["message"]);
      assert GetStr(choice, "finish_reason") == Some("tool_calls")
        <==> HasStr(choice, "finish_reason", Some("tool_calls"));
    }
  }
}
