/** `AgentRuntime::step` of core/runtime.rs: the store, the sessions, the pipeline's run and
    the response. */
module Runtime {
  import opened Messages
  import opened MessageStore
  import opened Pipeline
  import opened Session
  import opened Text
  import opened Thoughts
  import opened Wrappers

  /** A step's context: its messages, the thought in it, and everything else a slot can reach. */
  datatype Context<X> = Context(messages: seq<Message>, thought: Option<Thought>, rest: X)

  function UserMessage(content: seq<ContentBlock>): Message {
    Message(User, content)
  }

  // The response.

  /** The text blocks of a message, run together. */
  function PlainText(m: Message): string {
    Concat(TextsOf(m.content))
  }

  predicate Answers(m: Message) {
    m.role == Assistant && PlainText(m) != ""
  }

  function LastAnswer(messages: seq<Message>): string {
    if messages == [] then ""
    else if Answers(messages[|messages| - 1]) then PlainText(messages[|messages| - 1])
    else LastAnswer(messages[..|messages| - 1])
  }

  function ResponseOf<X>(ctx: Context<X>): string {
    if ctx.thought.Some? && ctx.thought.value.Final? && ctx.thought.value.answer != "" then ctx.thought.value.answer
    else LastAnswer(ctx.messages)
  }

  method ExtractResponse<X>(ctx: Context<X>) returns (response: string)
    ensures response == ResponseOf(ctx)
  {
    if ctx.thought.Some? && ctx.thought.value.Final? && ctx.thought.value.answer != "" {
      return ctx.thought.value.answer;
    }
    var rest := ctx.messages;
    while rest != []
      invariant LastAnswer(rest) == LastAnswer(ctx.messages)
      decreases |rest|
    {
      var msg := rest[|rest| - 1];
      if msg.role == Assistant {
        var text := PlainText(msg);
        if text != "" {
          return text;
        }
      }
      rest := rest[..|rest| - 1];
    }
    response := "";
  }

  /** Without a final answer the response is the text of the last assistant message that has
      any, and empty if there is none. */
  lemma {:induction false} LastAnswerIsLast(messages: seq<Message>) returns (i: int)
    ensures -1 <= i < |messages| && forall j | i < j < |messages| :: !Answers(messages[j])
    ensures i >= 0 ==> Answers(messages[i])
    ensures LastAnswer(messages) == if i == -1 then "" else PlainText(messages[i])
  {
    if messages == [] {
      i := -1;
    } else if Answers(messages[|messages| - 1]) {
      i := |messages| - 1;
    } else {
      i := LastAnswerIsLast(messages[..|messages| - 1]);
    }
  }

  /** A final answer that is not empty is the response, whatever the messages say. */
  lemma FinalAnswerIsResponse<X>(ctx: Context<X>, answer: string)
    requires ctx.thought == Some(Final(answer)) && answer != ""
    ensures ResponseOf(ctx) == answer
  {
  }

  /** Any other step responds with the last assistant message that has text: its text blocks,
      run together. */
  lemma OtherwiseLastAnswer<X>(ctx: Context<X>) returns (i: int)
    requires ctx.thought.Some? && ctx.thought.value.Final? ==> ctx.thought.value.answer == ""
    ensures -1 <= i < |ctx.messages|
    ensures forall j | i < j < |ctx.messages| ::
      ctx.messages[j].role != Assistant || Concat(TextsOf(ctx.messages[j].content)) == ""
    ensures i >= 0 ==> ctx.messages[i].role == Assistant && ResponseOf(ctx) != ""
    ensures ResponseOf(ctx) == if i == -1 then "" else Concat(TextsOf(ctx.messages[i].content))
  {
    i := LastAnswerIsLast(ctx.messages);
    assert forall j | i < j < |ctx.messages| :: !Answers(ctx.messages[j]);
  }

  // What slots can do to the messages.

  /** A slot can append to the step's messages and do nothing else to them. */
  ghost predicate AppendsOnly<X(!new)>(slot: Slot<Context<X>>) {
    forall w: Context<X>, turn: nat, phase :: w.messages <= slot.run(w, turn, phase).0.messages
  }

  ghost predicate AllAppendOnly<X(!new)>(p: Plan<Context<X>>) {
    forall phase, slot | phase in p.slots && slot in p.slots[phase] :: AppendsOnly(slot)
  }

  lemma {:induction false} SlotsExtend<X(!new)>(slots: seq<Slot<Context<X>>>, w: Context<X>, turn: nat, phase: string)
    requires forall slot | slot in slots :: AppendsOnly(slot)
    ensures w.messages <= RunSlots(slots, w, turn, phase).0.messages
    decreases |slots|
  {
    if slots != [] {
      assert AppendsOnly(slots[0]);
      SlotsExtend(slots[1..], slots[0].run(w, turn, phase).0, turn, phase);
    }
  }

  lemma VisitExtends<X(!new)>(p: Plan<Context<X>>, r: Run<Context<X>>)
    requires AllAppendOnly(p)
    ensures r.world.messages <= Visit(p, r).world.messages
  {
    if r.Running? && r.idx < |p.phases| {
      SlotsExtend(SlotsOf(p, p.phases[r.idx]), r.world, r.turn, p.phases[r.idx]);
    }
  }

  /** A run only ever extends the messages, whatever the slots jump to and however it ends. */
  lemma {:induction false} RunExtends<X(!new)>(p: Plan<Context<X>>, r: Run<Context<X>>, n: nat)
    requires AllAppendOnly(p)
    ensures r.world.messages <= Visits(p, r, n).world.messages
  {
    if n > 0 {
      RunExtends(p, r, n - 1);
      VisitExtends(p, Visits(p, r, n - 1));
    }
  }

  // The step.

  /** A result with its response, which only a completed or interrupted step carries. */
  datatype StepResult = StepResult(outcome: Outcome, response: string)

  function WithResponse<X>(outcome: Outcome, ctx: Context<X>): StepResult {
    StepResult(outcome, if outcome.Completed? || outcome.Interrupted? then ResponseOf(ctx) else "")
  }

  /** A failed or aborted step, or one that asks for a restart, has no response. */
  lemma RespondsIffFinished<X>(outcome: Outcome, ctx: Context<X>)
    ensures WithResponse(outcome, ctx).outcome == outcome
    ensures WithResponse(outcome, ctx).response
      == if outcome == Completed || outcome == Interrupted then ResponseOf(ctx) else ""
  {
  }

  /** The context a step starts with. */
  function StartContext<X>(store: Entries<Message>, session: string, content: seq<ContentBlock>, rest: X): Context<X> {
    Context(EntryOf(store, session).messages + [UserMessage(content)], None, rest)
  }

  class AgentRuntime {
    const store: SharedMessageStore<Message>
    const maxTurns: nat
    const contextWindow: nat
    var sessions: map<string, SessionState>

    ghost predicate Valid()
      reads this, sessions.Values
    {
      && (forall s, t | s in sessions && t in sessions && s != t :: sessions[s] != sessions[t])
      && (forall s | s in sessions :: sessions[s].contextWindow == contextWindow)
    }

    constructor (store: SharedMessageStore<Message>, maxTurns: nat, contextWindow: nat)
      ensures Valid() && sessions == map[] && this.store == store
      ensures this.maxTurns == maxTurns && this.contextWindow == contextWindow
    {
      this.store, this.maxTurns, this.contextWindow := store, maxTurns, contextWindow;
      sessions := map[];
    }

    /** What a step writes, to the store in full and to the session state cut to the token
        limit; the store is what the next step starts from. */
    method Save(session: string, messages: seq<Message>)
      requires Valid()
      modifies this, store, sessions.Values
      ensures Valid()
      ensures store.inner == Written(old(store.inner), session, messages)
      ensures sessions.Keys == old(sessions).Keys + {session}
      ensures sessions[session].messages == Trimmed(contextWindow, messages)
      ensures forall s | s in old(sessions) && s != session ::
        sessions[s] == old(sessions[s]) && sessions[s].messages == old(sessions[s].messages)
    {
      if session !in sessions {
        var state := new SessionState(session, maxTurns, contextWindow);
        sessions := sessions[session := state];
      }
      var _ := store.Write(session, messages);
      var current := sessions[session];
      current.ReplaceMessages(messages);
    }

    /** One step: reads the session's list, adds the user message, runs the pipeline, and saves
        what the run leaves in the context, whether or not the run succeeded. A run that never
        ends has no result, so the caller owes a bound on its visits. */
    method Step<X>(p: Plan<Context<X>>, session: string, content: seq<ContentBlock>, rest: X, ghost bound: nat)
      returns (result: StepResult)
      requires Valid()
      requires HaltsWithin(p, Start(0, StartContext(store.inner, session, content, rest)), bound)
      modifies this, store, sessions.Values
      ensures Valid()
      ensures var end := Visits(p, Start(0, StartContext(old(store.inner), session, content, rest)), bound);
        && store.inner == Written(old(store.inner), session, end.world.messages)
        && sessions.Keys == old(sessions).Keys + {session}
        && sessions[session].messages == Trimmed(contextWindow, end.world.messages)
        && result == WithResponse(end.outcome, end.world)
      ensures forall s | s in old(sessions) && s != session ::
        sessions[s] == old(sessions[s]) && sessions[s].messages == old(sessions[s].messages)
    {
      var messages, _ := store.Read(session);
      messages := messages + [UserMessage(content)];
      var outcome, ctx, turn, backward := Interpret(p, Context(messages, None, rest), 0, bound);
      var response := ExtractResponse(ctx);
      Save(session, ctx.messages);
      result := StepResult(outcome, if outcome.Completed? || outcome.Interrupted? then response else "");
    }
  }

  /** Whatever a pipeline of appending slots does and however its run ends, the session keeps
      all it had, then the user message, then what the slots appended. */
  lemma StepKeepsHistory<X(!new)>(p: Plan<Context<X>>, store: Entries<Message>, session: string,
                                  content: seq<ContentBlock>, rest: X, bound: nat)
    requires AllAppendOnly(p)
    ensures var end := Visits(p, Start(0, StartContext(store, session, content, rest)), bound);
      var after := Written(store, session, end.world.messages);
      && EntryOf(store, session).messages + [Message(User, content)] <= EntryOf(after, session).messages
      && StartContext(store, session, content, rest).thought == None
      && StartContext(store, session, content, rest).rest == rest
  {
    RunExtends(p, Start(0, StartContext(store, session, content, rest)), bound);
  }
}
