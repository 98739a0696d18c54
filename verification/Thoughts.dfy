/** `Thought`, `Action` and `ToolCall` of shared_types, without their timestamps, and the
    stream events of shared_types/llm.rs. */
module Thoughts {
  import opened Json
  import opened Wrappers

  datatype ToolCall = ToolCall(id: string, name: string, arguments: Value)

  datatype Action = Action(
    toolName: string,
    arguments: Value,
    toolCallId: Option<string>,
    toolCalls: Option<seq<ToolCall>>)

  datatype Thought = ActionThought(action: Action) | Final(answer: string)

  datatype StreamEvent =
    | TextDelta(text: string)
    | ToolCallDelta(index: nat, delta: Value)
    | End(thought: Thought)

  function TextIn(e: StreamEvent): string {
    if e.TextDelta? then e.text else ""
  }

  /** The concatenation of the text deltas. */
  function TextOf(events: seq<StreamEvent>): string {
    if events == [] then "" else TextIn(events[0]) + TextOf(events[1..])
  }

  lemma {:induction false} TextOfConcat(a: seq<StreamEvent>, b: seq<StreamEvent>)
    ensures TextOf(a + b) == TextOf(a) + TextOf(b)
  {
    if a == [] {
      assert a + b == b;
    } else {
      assert (a + b)[1..] == a[1..] + b;
      TextOfConcat(a[1..], b);
    }
  }

  lemma TextOfAppend(events: seq<StreamEvent>, e: StreamEvent)
    ensures TextOf(events + [e]) == TextOf(events) + TextIn(e)
  {
    TextOfConcat(events, [e]);
    assert [e][1..] == [];
    assert TextOf([e]) == TextIn(e) + "";
  }

  ghost predicate NoEnd(events: seq<StreamEvent>) {
    forall e | e in events :: !e.End?
  }

  /** At most one `End`, at the very end, and a `Final` answer that is the streamed text. */
  ghost predicate WellEnded(events: seq<StreamEvent>) {
    || NoEnd(events)
    || (&& events != []
        && NoEnd(events[..|events| - 1])
        && events[|events| - 1].End?
        && (events[|events| - 1].thought.Final? ==> events[|events| - 1].thought.answer == TextOf(events)))
  }

  /** `ToolCall`s to the action that carries them; the first one is the action itself. */
  function ActionOf(calls: seq<ToolCall>): Thought
    requires calls != []
  {
    ActionThought(Action(calls[0].name, calls[0].arguments, Some(calls[0].id), Some(calls)))
  }
}
