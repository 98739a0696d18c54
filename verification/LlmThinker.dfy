/** `process_stream` of plugins/slots/llm_thinker/llm_thinker_slot.rs, the consumer of the
    event channel. */
module LlmThinker {
  import opened Json
  import opened Text
  import opened Thoughts
  import opened Wrappers
  import OpenAiStream
  import AnthropicStream

  /** The thought a channel yields; `None` after its end is the closed channel. */
  function Consumed(answer: string, channel: seq<Result<StreamEvent, string>>): Thought
    decreases |channel|
  {
    if channel == [] then Final(answer)
    else
      match channel[0]
      case Ok(TextDelta(text)) => Consumed(answer + text, channel[1..])
      case Ok(ToolCallDelta(_, _)) => Consumed(answer, channel[1..])
      case Ok(End(thought)) => thought
      case Err(e) => Final("Stream error: " + e)
  }

  method ProcessStream(channel: seq<Result<StreamEvent, string>>) returns (thought: Thought)
    ensures thought == Consumed("", channel)
  {
    var answer := "";
    var rx := channel;
    while rx != []
      invariant Consumed(answer, rx) == Consumed("", channel)
      decreases |rx|
    {
      var result := rx[0];
      rx := rx[1..];
      match result {
        case Ok(TextDelta(text)) => answer := answer + text;
        case Ok(ToolCallDelta(_, _)) =>
        case Ok(End(t)) => return t;
        case Err(e) => return Final("Stream error: " + e);
      }
    }
    thought := Final(answer);
  }

  /** What the parser sends: every event of the body, then the channel closes. */
  function Sent(events: seq<StreamEvent>): seq<Result<StreamEvent, string>> {
    if events == [] then [] else [Ok(events[0])] + Sent(events[1..])
  }

  lemma {:induction false} ConsumedText(answer: string, events: seq<StreamEvent>)
    requires NoEnd(events)
    ensures Consumed(answer, Sent(events)) == Final(answer + TextOf(events))
    decreases |events|
  {
    if events == [] {
      assert answer + "" == answer;
    } else {
      ConsumedText(answer + TextIn(events[0]), events[1..]);
      assert answer + TextIn(events[0]) + TextOf(events[1..]) == answer + (TextIn(events[0]) + TextOf(events[1..]));
      assert Sent(events)[1..] == Sent(events[1..]);
      assert events[0].ToolCallDelta? ==> answer + TextIn(events[0]) == answer;
    }
  }

  lemma {:induction false} ConsumedEnd(answer: string, events: seq<StreamEvent>, thought: Thought)
    requires NoEnd(events)
    ensures Consumed(answer, Sent(events + [End(thought)])) == thought
    decreases |events|
  {
    var all := events + [End(thought)];
    assert Sent(all)[1..] == Sent(all[1..]);
    if events != [] {
      assert all[1..] == events[1..] + [End(thought)];
      ConsumedEnd(if events[0].TextDelta? then answer + events[0].text else answer, events[1..], thought);
    }
  }

  /** An error on the channel is the answer; the text before it and what follows it are not. */
  lemma {:induction false} ErrorIsTheAnswer(answer: string, events: seq<StreamEvent>, error: string,
                                            rest: seq<Result<StreamEvent, string>>)
    requires NoEnd(events)
    ensures Consumed(answer, Sent(events) + [Err(error)] + rest) == Final("Stream error: " + error)
    decreases |events|
  {
    var channel := Sent(events) + [Err(error)] + rest;
    if events == [] {
      assert channel == [Err(error)] + rest;
    } else {
      assert channel[1..] == Sent(events[1..]) + [Err(error)] + rest;
      ErrorIsTheAnswer(answer + TextIn(events[0]), events[1..], error, rest);
      assert events[0].ToolCallDelta? ==> answer + TextIn(events[0]) == answer;
    }
  }

  lemma ConsumedUnended(events: seq<StreamEvent>)
    requires NoEnd(events)
    ensures Consumed("", Sent(events)) == Final(TextOf(events))
  {
    ConsumedText("", events);
    assert "" + TextOf(events) == TextOf(events);
  }

  lemma ConsumedEnded(events: seq<StreamEvent>)
    requires events != [] && NoEnd(events[..|events| - 1]) && events[|events| - 1].End?
    ensures Consumed("", Sent(events)) == events[|events| - 1].thought
  {
    var front, last := events[..|events| - 1], events[|events| - 1];
    assert events == front + [End(last.thought)];
    ConsumedEnd("", front, last.thought);
  }

  /** The consumer gives back the thought of the `End` event, and the streamed text when
      there is none. An answer that is not a tool action is always the streamed text. */
  lemma ConsumedWell(events: seq<StreamEvent>)
    requires WellEnded(events)
    ensures var thought := Consumed("", Sent(events));
      && (thought.Final? ==> thought.answer == TextOf(events))
      && (thought.ActionThought? ==> events != [] && events[|events| - 1] == End(thought))
      && (NoEnd(events) ==> thought == Final(TextOf(events)))
  {
    if NoEnd(events) {
      ConsumedUnended(events);
    } else {
      ConsumedEnded(events);
    }
  }

  lemma ConsumedFinal(events: seq<StreamEvent>)
    requires WellEnded(events) && OpenAiStream.EndsAreFinal(events)
    ensures Consumed("", Sent(events)) == Final(TextOf(events))
  {
    ConsumedWell(events);
    if !NoEnd(events) {
      assert events[|events| - 1] in events;
      ConsumedEnded(events);
    }
  }

  /** Parser and consumer together: the thought is the body's text, unless the body stops for
      a named tool call, and then it is an action. */
  lemma OpenAiAnswer(parse: Parser, body: string)
    ensures var thought := Consumed("", Sent(OpenAiStream.OpenAiEvents(parse, body)));
      if OpenAiStream.StopsForCalls(parse, [], Lines(body)) then thought.ActionThought?
      else thought == Final(OpenAiStream.BodyText(parse, Lines(body)))
  {
    var events := OpenAiStream.OpenAiEvents(parse, body);
    OpenAiStream.OpenAiEndsWell(parse, body);
    OpenAiStream.OpenAiActsIffStopsForCalls(parse, body);
    OpenAiStream.OpenAiEmitsBodyText(parse, body);
    if OpenAiStream.StopsForCalls(parse, [], Lines(body)) {
      ConsumedEnded(events);
    } else {
      ConsumedFinal(events);
    }
  }

  lemma AnthropicAnswer(parse: Parser, body: string)
    ensures var thought := Consumed("", Sent(AnthropicStream.AnthropicEvents(parse, body)));
      if AnthropicStream.RequestedTool(parse, OpenAiStream.EMPTY_ACC, Lines(body)).Some? then thought.ActionThought?
      else thought == Final(AnthropicStream.BodyText(parse, Lines(body)))
  {
    var events := AnthropicStream.AnthropicEvents(parse, body);
    AnthropicStream.AnthropicEndsWell(parse, body);
    AnthropicStream.AnthropicActsIffStopsForTool(parse, body);
    AnthropicStream.AnthropicEmitsBodyText(parse, body);
    if AnthropicStream.RequestedTool(parse, OpenAiStream.EMPTY_ACC, Lines(body)).Some? {
      ConsumedEnded(events);
    } else {
      ConsumedFinal(events);
    }
  }

  /** A body that breaks off without a terminator still yields all the text it streamed, from
      either parser. */
  lemma BrokenOffKeepsItsText(parse: Parser, body: string)
    ensures OpenAiStream.BreaksOff(parse, Lines(body)) ==>
      Consumed("", Sent(OpenAiStream.OpenAiEvents(parse, body))) == Final(OpenAiStream.BodyText(parse, Lines(body)))
    ensures AnthropicStream.BreaksOff(parse, Lines(body)) ==>
      Consumed("", Sent(AnthropicStream.AnthropicEvents(parse, body))) == Final(AnthropicStream.BodyText(parse, Lines(body)))
  {
    if OpenAiStream.BreaksOff(parse, Lines(body)) {
      OpenAiStream.BrokenOffHasNoStop(parse, Lines(body));
      OpenAiAnswer(parse, body);
    }
    if AnthropicStream.BreaksOff(parse, Lines(body)) {
      AnthropicStream.BrokenOffRequestsNoTool(parse, OpenAiStream.EMPTY_ACC, Lines(body));
      AnthropicAnswer(parse, body);
    }
  }

  /** A streamed answer is the concatenation of the emitted text deltas, and that is the
      body's text. */
  lemma StreamedAnswerIsTheText(parse: Parser, body: string)
    ensures var events := OpenAiStream.OpenAiEvents(parse, body);
      var thought := Consumed("", Sent(events));
      && TextOf(events) == OpenAiStream.BodyText(parse, Lines(body))
      && (thought.Final? ==> thought.answer == TextOf(events))
    ensures var events := AnthropicStream.AnthropicEvents(parse, body);
      var thought := Consumed("", Sent(events));
      && TextOf(events) == AnthropicStream.BodyText(parse, Lines(body))
      && (thought.Final? ==> thought.answer == TextOf(events))
  {
    OpenAiStream.OpenAiEndsWell(parse, body);
    OpenAiStream.OpenAiEmitsBodyText(parse, body);
    ConsumedWell(OpenAiStream.OpenAiEvents(parse, body));
    AnthropicStream.AnthropicEndsWell(parse, body);
    AnthropicStream.AnthropicEmitsBodyText(parse, body);
    ConsumedWell(AnthropicStream.AnthropicEvents(parse, body));
  }
}
