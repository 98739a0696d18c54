# Verification of the agent kernel's core

This project models the core of the Agnet agent kernel in Dafny and proves what its parts
promise. A step of the kernel reads a session's messages from a versioned store, runs a
pipeline of phases whose slots may jump back, lets a language model think, and writes the
messages back; services around it compress histories, limit and retry calls, guard tools and
search memories. The modules follow the source files:

| module | source |
|---|---|
| `Gregorian`, `Timestamp`, `Rfc3339`, `Rfc3339Reading` | calendar arithmetic and formats of `core/types/mod.rs` |
| `MessageStore`, `Session`, `Runtime`, `StoreProtocol` | message store, token limit and step of `core/runtime.rs`, and its race with the compression service |
| `OpenAiStream`, `AnthropicStream`, `LlmThinker`, `Thoughts`, `Json` | the two stream parsers, the non-streaming reference and the consumer |
| `OpenAiWire`, `AnthropicWire` | what the parsers make of a body, from its lines and its JSON |
| `Pipeline`, `PipelineRuns`, `ReactLoop` | the phase interpreter, its visits and its termination, and the ReAct slot in it |
| `Orchestrator` | component registration, layering, initialisation and processing |
| `SkillMatcher`, `VectorStore`, `RealSums`, `Sorting` | TF-IDF matching, vector search, and the mathematics they rest on |
| `Chunker` | Markdown chunking with overlap |
| `Approval`, `ApprovalProtocol` | the approval service, alone and under concurrent requesters |
| `Guardian`, `GuardianDecisions` | the guardian chain, and what it decides |
| `Breakers` | the circuit breaker and the registry's breakers |
| `Retry` | retry with backoff |
| `Compression` | one compression round |
| `Messages`, `Text`, `Wrappers` | shared data types and string operations |

Objects that the source updates in place are classes whose methods are specified by functions
of the old state; the theorems are lemmas about those functions, and about runs of the state
machines built from them. `dafny verify dfyconfig.toml` checks everything.

## Assumptions

* Clock readings, UUIDs, random seeds, JSON parsing, square root (by its specification),
  logarithm, case folding, scores and controller outputs are parameters, and every theorem holds for all
  of them. A UUID is new for every request.
* Floating-point numbers are reals, except that rounding down to an integer is modelled.
* Locks make each access to shared state one atomic step; `StoreProtocol` and
  `ApprovalProtocol` interleave those steps freely. In `StoreProtocol` no session is removed
  and fewer than 2^64 writes happen.
* A hash map is iterated in an arbitrary order.
* `Text.TrimStart` and `Text.TrimEnd` strip space, tab, line feed and carriage return.
* In `Breakers` fewer than 2^32 failures follow each other; in `Guardian` and `Retry` the
  negation of the least `i32` and an overlong shift wrap, as in a release build.

## Where the code does not do what its comments say

The model follows the code.

* `Timestamp::to_ymdhms` is wrong for every timestamp of a whole second or more before the
  epoch (`Timestamp.YmdhmsCountsBack`).
* `push_message` is commented as dropping the oldest System message; System messages are the
  ones that are never dropped (`Session.DropOldestKeeps`).
* `enforce_message_limit` is commented as always keeping the ten most recent messages; it
  keeps ten messages, but they need not be the most recent (`Session.TrimKeepsRecent`,
  `Session.NewestMessageCanGo`).
* The loop that is to keep at least `target_keep` messages stops at the last message and can
  fall short (`Compression.TargetIsReachedIff`).
* The backoff `min(initial * 2^n, max)` is not what is computed from attempt 64 on
  (`Retry.BaseIsDocumented`).
* "At most `max_pending`" holds in every interleaving if and only if there is at most one
  requester or `max_pending` is 0 (`ApprovalProtocol.LimitHoldsIff`).
* A priority of -2^31 is asked first instead of last (`Guardian.DescendsUnlessLeast`).
* Removing a document from the skill index undoes adding it if and only if its name was new
  and no token repeats (`SkillMatcher.RemoveUndoesAddIff`).
* The default feedback never asks for the full history, so a round that loses words still
  replaces the list (`Compression.LossNeverRecallsAll`, `Compression.LossNeverSkips`).

## Model

| member | source | states |
|---|---|---|
| `Timestamp.YmdhmsRoundTrip` | Agnet-rust/src/core/types/mod.rs:47-68 | for every 64-bit timestamp: the date and time are valid and an independent count of days gives back the same second, if and only if the timestamp is later than -1000 ms |
| `Timestamp.YmdhmsCountsBack` | Agnet-rust/src/core/types/mod.rs:47-68 | the date is valid for every 64-bit timestamp; before the epoch the result is exactly one day late, and at a midnight the hour reads 24 |
| `Timestamp.YmdhmsOntoCalendar` | Agnet-rust/src/core/types/mod.rs:47-68 | every valid date and time from the epoch on is what its own second converts to |
| `Timestamp.YearMonthDayCountsBack` | Agnet-rust/src/core/types/mod.rs:50-59 | the era, year and month arithmetic yields a date that counts back to the day it was given, for 300 million years both ways |
| `Timestamp.YearOfEraBrackets` | Agnet-rust/src/core/types/mod.rs:51-55 | the year-of-era formula names the year whose first and last day enclose the day, leap days included |
| `Timestamp.BeforeEpochIsADayLate` | Agnet-rust/src/core/types/mod.rs:60-64 | the second before the epoch comes out as 1970-01-01 23:59:59 |
| `Timestamp.EpochSecondsMonotone` | Agnet-rust/src/core/types/mod.rs:47-68 | the calendar order of valid dates and times is the order of their seconds, with equality exactly on equal ones |
| `Gregorian.EpochDaysInjective` | Agnet-rust/src/core/types/mod.rs:47-68 | no two valid dates share a day count, so the reference calendar is a faithful partner |
| `Rfc3339.Rfc3339Order` | Agnet-rust/src/core/types/mod.rs:71-83 | up to the year 9999, one timestamp is earlier than another if and only if its RFC 3339 string is lexicographically smaller |
| `Rfc3339.Rfc3339Injective` | Agnet-rust/src/core/types/mod.rs:71-83 | up to the year 9999, equal strings mean equal timestamps, to the millisecond |
| `Rfc3339.CompactOrder` | Agnet-rust/src/core/types/mod.rs:98-101 | the compact form orders timestamps by their seconds |
| `Rfc3339Reading.Rfc3339ReadsBack` | Agnet-rust/src/core/types/mod.rs:71-83 | up to the year 9999 the string has the layout of RFC 3339, and its digits read back as numbers and counted with the independent calendar give the very millisecond |
| `Rfc3339Reading.CompactReadsBack` | Agnet-rust/src/core/types/mod.rs:98-101 | the same for the compact form, to the second |
| `Rfc3339.PrintableYears` | Agnet-rust/src/core/types/mod.rs:71-83 | that limit as a bound on the milliseconds: the year has four digits exactly below the first instant of the year 10000 |
| `Rfc3339.FiveDigitYearsSortEarly` | Agnet-rust/src/core/types/mod.rs:71-83 | the limit to four digits is needed: every instant of the years 10000 to 19999 sorts before every instant of the years 2000 to 9999 |
| `Rfc3339.YearTenThousandSortsEarly` | Agnet-rust/src/core/types/mod.rs:71-83 | the last millisecond of the year 9999 sorts after the next one |
| `MessageStore.SharedMessageStore.Read` | Agnet-rust/src/core/runtime.rs:52-59 | reads the entry, or an empty list at version 0 |
| `MessageStore.SharedMessageStore.Write` | Agnet-rust/src/core/runtime.rs:72-83 | replaces the list, raises the version modulo 2^64 and touches no other session |
| `MessageStore.SharedMessageStore.CompareAndWrite` | Agnet-rust/src/core/runtime.rs:89-108 | succeeds if and only if the version is the expected one; a failure changes what no session reads |
| `MessageStore.SharedMessageStore.RemoveSession` | Agnet-rust/src/core/runtime.rs:121-123 | drops the entry |
| `MessageStore.SwapSucceedsOrChangesNothing` | Agnet-rust/src/core/runtime.rs:89-108 | a swap is all or nothing, and after a success the same expected version fails |
| `MessageStore.RemovalRestartsVersions` | Agnet-rust/src/core/runtime.rs:121-123 | after a removal a version can come back with other messages, so the protocol assumes none |
| `Runtime.AgentRuntime.Step` | Agnet-rust/src/core/runtime.rs:415-503 | a step runs the pipeline on the stored list and the user message, saves what the run leaves in the context, also when the run failed, and answers a completed or interrupted run with its response |
| `Runtime.AgentRuntime.Save` | Agnet-rust/src/core/runtime.rs:487-500 | the store gets the whole list, the session state the list cut to the limit, and no other session changes |
| `Runtime.ExtractResponse` | Agnet-rust/src/core/runtime.rs:362-389 | the scan from the back yields the non-empty final answer, or else the last assistant text |
| `Runtime.LastAnswerIsLast` | Agnet-rust/src/core/runtime.rs:370-388 | that text is the one of the last assistant message that has any, and empty if there is none |
| `Runtime.FinalAnswerIsResponse` | Agnet-rust/src/core/runtime.rs:362-368 | a final answer that is not empty is the response, whatever the messages say |
| `Runtime.OtherwiseLastAnswer` | Agnet-rust/src/core/runtime.rs:369-388 | otherwise the response is the text blocks, run together, of the last assistant message that has text |
| `Runtime.RespondsIffFinished` | Agnet-rust/src/core/runtime.rs:502 | only a completed or interrupted step carries a response |
| `Messages.TextsOfAppend` | Agnet-rust/src/shared_types/message.rs:110-116 | the texts of a message are those of its text blocks, in order |
| `Messages.TokensOfText` | Agnet-rust/src/shared_types/message.rs:120-124 | a token for every two characters, and one more |
| `Messages.TokensOfLongerText` | Agnet-rust/src/shared_types/message.rs:110-124 | another text costs its own characters and a space |
| `Runtime.RunExtends` | Agnet-rust/src/core/pipeline.rs:147-358 | a run of appending slots only extends the messages, whatever they jump to and however it ends |
| `Runtime.StepKeepsHistory` | Agnet-rust/src/core/runtime.rs:435-490 | after a step the session has everything it had, then the user message, then what the slots appended |
| `StoreProtocol.NothingIsLost` | Agnet-rust/src/core/runtime.rs:435-490 | in every interleaving of serial steps with compression rounds, each message ever submitted is in the store, in the running step, or went into a summary in the store |
| `StoreProtocol.SwapIsExact` | Agnet-rust/src/plugins/services/compression/service.rs:179-369 | in every interleaving a round replaces exactly the messages it read, or changes what no session reads |
| `StoreProtocol.RunKeepsInvariant` | Agnet-rust/src/core/runtime.rs:52-108 | the invariant behind both: nothing is lost, and an unchanged version means unchanged messages |
| `StoreProtocol.SubmittedGrows` | Agnet-rust/src/core/runtime.rs:435-490 | the record of submitted messages never shrinks |
| `StoreProtocol.SubmittedIsGiven` | Agnet-rust/src/core/runtime.rs:435-490 | submitted are exactly the messages that the runtime was given, by beginning a step or by appending in one |
| `StoreProtocol.BeginStepSubmits` | Agnet-rust/src/core/runtime.rs:437-446 | a step that begins submits its user message |
| `StoreProtocol.AppendSubmits` | Agnet-rust/src/core/runtime.rs:470-490 | and each message it appends |
| `StoreProtocol.StepWritesItsOwn` | Agnet-rust/src/core/runtime.rs:435-490 | whatever else happens during a step, it leaves its session with what it held before, then the user message, then the appended messages in order, and the other sessions as they are |
| `StoreProtocol.RoundSummarisesWhatItRead` | Agnet-rust/src/plugins/services/compression/service.rs:179-369 | whatever else happens during a round, it leaves a summary of what it read in the place of exactly that, or changes nothing if the session was written |
| `StoreProtocol.OverlappingStepsLose` | Agnet-rust/src/core/runtime.rs:435-490 | of two overlapping steps, exactly what the second read or added itself remains: steps must be serial |
| `StoreProtocol.FirstMessageIsLost` | Agnet-rust/src/core/runtime.rs:435-490 | so a new user message of the first step is gone |
| `Session.SessionState.EnforceMessageLimit` | Agnet-rust/src/core/runtime.rs:223-258 | the retain pass with its two counters removes the oldest non-System messages, as many as `TrimCount` says |
| `Session.SessionState.PushMessage` | Agnet-rust/src/core/runtime.rs:208-212 | appends, then trims |
| `Session.SessionState.ReplaceMessages` | Agnet-rust/src/core/runtime.rs:215-219 | replaces, then trims |
| `Session.DropOldestKeeps` | Agnet-rust/src/core/runtime.rs:240-257 | trimming keeps every System message and the order of the rest, and removes the oldest non-System messages |
| `Session.DropOldestCuts` | Agnet-rust/src/core/runtime.rs:240-257 | the removed messages are the non-System ones before a single cut point |
| `Session.RemoveCountIsLeast` | Agnet-rust/src/core/runtime.rs:235-257 | the number removed is the least that frees the excess, or else the cap or all there are |
| `Session.TrimRemovesLeast` | Agnet-rust/src/core/runtime.rs:223-258 | no fewer removals bring the tokens within the limit, and these do unless the cap or the non-System messages run out |
| `Session.TrimKeepsEnough` | Agnet-rust/src/core/runtime.rs:236-237 | at least min(10, n) messages remain |
| `Session.TrimIsIdempotent` | Agnet-rust/src/core/runtime.rs:223-258 | trimming twice is trimming once |
| `Session.TrimKeepsRecent` | Agnet-rust/src/core/runtime.rs:221-222 | exactly when the ten most recent messages survive, as the comment promises them to |
| `Session.NewestMessageCanGo` | Agnet-rust/src/core/runtime.rs:221-222 | ten System messages and one user message: the newest message is the one removed |
| `OpenAiStream.ParseOpenAiSse` | Agnet-rust/src/plugins/services/llm/stream.rs:101-213 | the nested loops over lines and tool-call deltas yield the events of `OpenAiEvents` |
| `OpenAiStream.OpenAiEndsWell` | Agnet-rust/src/plugins/services/llm/stream.rs:101-213 | for every body and JSON parser: at most one `End`, always last, and a `Final` answer is the concatenation of the emitted text |
| `OpenAiStream.StreamMatchesResponse` | Agnet-rust/src/plugins/services/llm/stream.rs:148-188 | however the arguments are cut and the fragments of different calls interleave, the final `End` carries the ordered calls and the action that the non-streaming parser gives for the unsplit message |
| `OpenAiStream.OpenAiActsIffStopsForCalls` | Agnet-rust/src/plugins/services/llm/stream.rs:148-213 | a body ends with a tool action if and only if it ends in tool calls of which one has a name |
| `OpenAiStream.OpenAiEmitsBodyText` | Agnet-rust/src/plugins/services/llm/stream.rs:120-147 | the emitted text is the text of the deltas up to the terminator, if there is one |
| `OpenAiWire.OpenAiReadsAnswer` | Agnet-rust/src/plugins/services/llm/stream.rs:101-213 | from the JSON of the chunks, field by field: texts and tool-call deltas are emitted in order, and a finish reason other than `tool_calls` ends the stream with the whole text |
| `OpenAiWire.OpenAiReadsUnfinished` | Agnet-rust/src/plugins/services/llm/stream.rs:110-136 | the same for a body that breaks off or says `[DONE]`; lines without the prefix, without JSON or without a delta are skipped |
| `OpenAiWire.OpenAiReadsCalls` | Agnet-rust/src/plugins/services/llm/stream.rs:148-248 | a body that ends in `tool_calls` ends with the action whose calls the deltas are a cutting of, field by field |
| `OpenAiWire.OpenAiReadsNamelessCalls` | Agnet-rust/src/plugins/services/llm/stream.rs:217-238 | without a named call it falls back to the text |
| `OpenAiWire.OpenAiReadsWhatIsWritten` | Agnet-rust/src/plugins/services/llm/stream.rs:101-213 | chunks written as JSON, one to a line, come out as their texts, deltas and answer |
| `OpenAiWire.CallJsonReads` | Agnet-rust/src/plugins/services/llm/stream.rs:150-180 | what the parser reads in a tool-call delta written as JSON: index, id, name and argument piece |
| `OpenAiWire.ResponseIsContent` | Agnet-rust/src/plugins/services/llm/executors/openai.rs:322-407 | the non-streaming parser answers with the content and refuses an empty one |
| `OpenAiWire.ResponseIsRefusedIff` | Agnet-rust/src/plugins/services/llm/executors/openai.rs:313-378 | it refuses a response without a message, and one that stops for tool calls without any |
| `Text.LinesOfTerminated` | Agnet-rust/src/plugins/services/llm/stream.rs:106 | splitting into lines undoes putting lines together, with either ending |
| `Text.TrimDropsBlanks` | Agnet-rust/src/plugins/services/llm/stream.rs:112 | trimming removes the blanks around a text and nothing else |
| `OpenAiStream.ResponseOfCarried` | Agnet-rust/src/plugins/services/llm/executors/openai.rs:337-394 | the reference: what the non-streaming parser makes of a message that carries the calls whole |
| `OpenAiStream.AccumulatedByOwn` | Agnet-rust/src/plugins/services/llm/stream.rs:150-180 | a call is built from the fragments of its own index alone |
| `OpenAiStream.CutCallsRejoin` | Agnet-rust/src/plugins/services/llm/stream.rs:148-188 | the accumulators of a cutting are the calls themselves |
| `OpenAiStream.WholeCallsAreCuts` | Agnet-rust/src/plugins/services/llm/stream.rs:148-188 | calls sent whole are a cutting |
| `OpenAiStream.SplitKeepsCuts` | Agnet-rust/src/plugins/services/llm/stream.rs:148-188 | cutting a fragment's arguments anywhere keeps a cutting one |
| `OpenAiStream.SwapKeepsCuts` | Agnet-rust/src/plugins/services/llm/stream.rs:148-188 | exchanging neighbouring fragments of different calls keeps a cutting one |
| `AnthropicStream.ParseAnthropicSse` | Agnet-rust/src/plugins/services/llm/stream.rs:258-378 | the loop over the lines yields the events of `AnthropicEvents` |
| `AnthropicStream.AnthropicEndsWell` | Agnet-rust/src/plugins/services/llm/stream.rs:258-378 | the same shape of event lists for every body |
| `AnthropicStream.AnthropicToolRejoins` | Agnet-rust/src/plugins/services/llm/stream.rs:295-352 | a body that stops for a tool ends with that tool's call, whatever the cutting of its input and the text in between |
| `AnthropicStream.AnthropicActsIffStopsForTool` | Agnet-rust/src/plugins/services/llm/stream.rs:295-378 | a body ends with a tool action if and only if it stops for a tool that was started |
| `AnthropicStream.AnthropicEmitsBodyText` | Agnet-rust/src/plugins/services/llm/stream.rs:295-378 | the emitted text is the text of the deltas up to the end of the body |
| `AnthropicWire.AnthropicReadsTool` | Agnet-rust/src/plugins/services/llm/stream.rs:258-352 | from the JSON of the events, field by field: the texts are emitted in order, and a stop for a tool ends with the call of the tool started last, with its input put together |
| `AnthropicWire.AnthropicReadsNoTool` | Agnet-rust/src/plugins/services/llm/stream.rs:326-352 | the call has no id and no name if no tool was started |
| `AnthropicWire.AnthropicReadsAnswer` | Agnet-rust/src/plugins/services/llm/stream.rs:353-378 | any other stop ends with the whole text; a bare `message_stop` only if there is some |
| `AnthropicWire.AnthropicReadsBrokenOff` | Agnet-rust/src/plugins/services/llm/stream.rs:258-378 | a body that breaks off emits its texts and nothing else |
| `AnthropicWire.EventJsonMeans` | Agnet-rust/src/plugins/services/llm/stream.rs:284-372 | events written as JSON mean what they say |
| `LlmThinker.ProcessStream` | Agnet-rust/src/plugins/slots/llm_thinker/llm_thinker_slot.rs:50-85 | the receive loop yields the first `End` thought, the error, or the text received so far |
| `LlmThinker.ConsumedWell` | Agnet-rust/src/plugins/slots/llm_thinker/llm_thinker_slot.rs:50-85 | the consumer gives back the `End` thought, and the streamed text when there is none |
| `LlmThinker.ErrorIsTheAnswer` | Agnet-rust/src/plugins/slots/llm_thinker/llm_thinker_slot.rs:68-75 | an error on the channel is the answer, without the text before it |
| `LlmThinker.StreamedAnswerIsTheText` | Agnet-rust/src/plugins/slots/llm_thinker/llm_thinker_slot.rs:50-85 | parser and consumer together: the emitted text is the body's text, and an answer is exactly that |
| `LlmThinker.OpenAiAnswer` | Agnet-rust/src/plugins/slots/llm_thinker/llm_thinker_slot.rs:50-85 | for every body and JSON parser the consumer yields an action if the body stops for a named call, and otherwise the body's text as the final answer |
| `LlmThinker.AnthropicAnswer` | Agnet-rust/src/plugins/slots/llm_thinker/llm_thinker_slot.rs:50-85 | the same for the other parser |
| `LlmThinker.BrokenOffKeepsItsText` | Agnet-rust/src/plugins/slots/llm_thinker/llm_thinker_slot.rs:76-85 | a body that breaks off without a terminator yields exactly the concatenated text, from either parser |
| `Pipeline.Pipeline.AddPhase` | Agnet-rust/src/core/pipeline.rs:60-68 | appends a phase once |
| `Pipeline.Pipeline.InsertPhaseBefore` | Agnet-rust/src/core/pipeline.rs:71-78 | inserts before the target, unless the phase is there or the target is not |
| `Pipeline.Pipeline.InsertPhaseAfter` | Agnet-rust/src/core/pipeline.rs:81-88 | inserts after the target, unless the phase is there or the target is not |
| `Pipeline.Pipeline.RemovePhase` | Agnet-rust/src/core/pipeline.rs:91-96 | removes the phase and its slots |
| `Pipeline.RemovalUndoesInsertion` | Agnet-rust/src/core/pipeline.rs:71-96 | removing a phase undoes inserting it, wherever it was inserted |
| `Pipeline.Pipeline.WithMaxBackwardJumps` | Agnet-rust/src/core/pipeline.rs:38-41 | sets the limit and nothing else |
| `Pipeline.Pipeline.AddSlot` | Agnet-rust/src/core/pipeline.rs:106-131 | appends the slot to its phase |
| `Pipeline.Pipeline.RunStep` | Agnet-rust/src/core/pipeline.rs:139-377 | a run that ends, ends as the phase-by-phase semantics says |
| `Pipeline.Interpret` | Agnet-rust/src/core/pipeline.rs:147-358 | the interpreter loop with its jump flag and counters computes that semantics |
| `PipelineRuns.RunsEnd` | Agnet-rust/src/core/pipeline.rs:147-358 | without jumps to the own phase and with limit B > 0, n phases end after at most (B + 1) * n phase visits, and the turn counter has moved by exactly the backward jumps taken |
| `PipelineRuns.FirstAnswerDecides` | Agnet-rust/src/core/pipeline.rs:171-341 | on one visit, for each directive and for an error: the first slot that does not continue fixes the next state of the run, outcome, counters and all, and the slots after it do not run |
| `PipelineRuns.VisitProgresses` | Agnet-rust/src/core/pipeline.rs:306-319 | each visit moves forward in the pass or spends one backward jump, which is what the measure counts |
| `PipelineRuns.SelfJumpRunsForever` | Agnet-rust/src/core/pipeline.rs:306-319 | a jump to the own phase is never charged: the condition is needed |
| `PipelineRuns.NoLimitRunsForever` | Agnet-rust/src/core/pipeline.rs:309-311 | with limit 0 backward jumps are not limited: the condition is needed |
| `ReactLoop.ReActStaysWithinTurns` | Agnet-rust/src/plugins/slots/react_loop/mod.rs:86-130 | with max_turns at most the backward-jump limit, every run ends, visits `think` at most max_turns + 1 times and is never aborted for jumping back |
| `ReactLoop.ReActAbortsIffTurnsExceedJumps` | Agnet-rust/src/plugins/slots/react_loop/mod.rs:86-130 | the bound is exact for every pipeline whose other slots neither jump nor drop an action: some run is aborted if and only if max_turns exceeds a positive backward-jump limit |
| `ReactLoop.RecommendedQualifies` | Agnet-rust/src/core/pipeline.rs:46-55 | the recommended phases with the ReAct slot in `loop` meet the conditions of the exact bound |
| `ReactLoop.LoopPhaseDecides` | Agnet-rust/src/plugins/slots/react_loop/mod.rs:86-130 | the loop phase interrupts the step at the limit on turns, jumps back to `think` on an action, and otherwise lets the step go on |
| `ReactLoop.ActingIsInterrupted` | Agnet-rust/src/plugins/slots/react_loop/mod.rs:86-130 | a step that keeps acting ends interrupted after exactly max_turns backward jumps, if the limit on those leaves room |
| `ReactLoop.MaxTurnsIs` | Agnet-rust/src/plugins/slots/react_loop/components/turn_limiter.rs:57-65 | the limit on turns is the configured one, at least 1, and 10 by default |
| `ReactLoop.DefaultsFit` | Agnet-rust/src/plugins/slots/react_loop/components/turn_limiter.rs:57-65 | the default limits fit each other: at most 11 visits to `think` |
| `ReactLoop.StaleThoughtDecides` | Agnet-rust/src/plugins/slots/react_loop/components/loop_decider.rs:46-70 | a step without a thought of its own decides as a fresh slot would if and only if the turn limit is reached or no action is left in the data area |
| `Orchestrator.Orchestrator.Register` | Agnet-rust/src/plugins/slots/react_loop/orchestrator.rs:91-135 | succeeds if and only if the name is new and every requirement is provided; the first requirement nobody provides is reported |
| `Orchestrator.RecomputeGroups` | Agnet-rust/src/plugins/slots/react_loop/orchestrator.rs:191-224 | the nested loops compute the groups by level |
| `Orchestrator.LevelIsLongestChain` | Agnet-rust/src/plugins/slots/react_loop/orchestrator.rs:191-224 | a level is the length of the longest chain of earlier-registered providers |
| `Orchestrator.ProvidersAreLower` | Agnet-rust/src/plugins/slots/react_loop/orchestrator.rs:200-215 | every earlier provider lies strictly lower, and one of them just below |
| `Orchestrator.GroupsPartition` | Agnet-rust/src/plugins/slots/react_loop/orchestrator.rs:217-223 | the groups partition the components by level, in registration order, and none is empty |
| `Orchestrator.RegisteringKeepsLevels` | Agnet-rust/src/plugins/slots/react_loop/orchestrator.rs:128-132 | registering a component changes no existing level |
| `Orchestrator.InitOrderIsTopological` | Agnet-rust/src/plugins/slots/react_loop/orchestrator.rs:138-147 | when a component's turn comes, every earlier component that provides one of its requirements has had its own |
| `Orchestrator.RequirementsComeFirst` | Agnet-rust/src/plugins/slots/react_loop/orchestrator.rs:138-147 | every requirement of a registered component is provided before its turn |
| `Orchestrator.Orchestrator.InitAll` | Agnet-rust/src/plugins/slots/react_loop/orchestrator.rs:138-147 | calls the components in group order, up to and including the first that fails, which it reports |
| `Orchestrator.Orchestrator.ProcessAll` | Agnet-rust/src/plugins/slots/react_loop/orchestrator.rs:161-181 | ends with the first pass that does not ask for a restart |
| `Orchestrator.FirstAnswerEndsPass` | Agnet-rust/src/plugins/slots/react_loop/orchestrator.rs:164-180 | the first component that does not let the pass go on decides how it ends |
| `Orchestrator.PassEndsByAnswer` | Agnet-rust/src/plugins/slots/react_loop/orchestrator.rs:164-180 | warnings go on; breaking the chain finishes the pass, a restart repeats it, and a failure is reported with its component |
| `Orchestrator.AlwaysRestartingNeverSettles` | Agnet-rust/src/plugins/slots/react_loop/orchestrator.rs:170-173 | a component that always asks for a restart keeps `process_all` from returning |
| `SkillMatcher.ComputeTf` | Agnet-rust/src/plugins/services/skills/matcher.rs:102-112 | the two loops yield each token's share of the tokens |
| `SkillMatcher.CosineTfidf` | Agnet-rust/src/plugins/services/skills/matcher.rs:114-148 | the two passes over the hash maps, in any order, yield the cosine over the union of the terms: the document norm split over both loops is the sum of all squared weights |
| `SkillMatcher.CosineInUnit` | Agnet-rust/src/plugins/services/skills/matcher.rs:114-148 | between 0 and 1 for any inverse document frequencies, negative ones included |
| `SkillMatcher.SelfCosine` | Agnet-rust/src/plugins/services/skills/matcher.rs:114-148 | a text compared with itself scores 1, unless its weights are zero |
| `SkillMatcher.CosineIsQuotient` | Agnet-rust/src/plugins/services/skills/matcher.rs:114-148 | the scalar product of frequency times inverse document frequency over the shared terms, divided by the two norms; zero if a norm is |
| `SkillMatcher.RareTermsWeighMore` | Agnet-rust/src/plugins/services/skills/matcher.rs:123-125 | a term as frequent as there are documents weighs 1, and a rarer one never less |
| `SkillMatcher.ShareIsFound` | Agnet-rust/src/plugins/services/skills/matcher.rs:66-76 | the tag part is the share of the tags found, and a half without tags |
| `SkillMatcher.Index.ComputeScore` | Agnet-rust/src/plugins/services/skills/matcher.rs:58-92 | the score is in [0, 1], zero without a tag hit, and otherwise the mean of tag share and cosine |
| `SkillMatcher.Index.AddDocument` | Agnet-rust/src/plugins/services/skills/matcher.rs:30-39 | counts every occurrence of a token into the frequencies |
| `SkillMatcher.Index.RemoveDocument` | Agnet-rust/src/plugins/services/skills/matcher.rs:41-50 | takes one off each distinct token, not below zero |
| `SkillMatcher.RemoveUndoesAddIff` | Agnet-rust/src/plugins/services/skills/matcher.rs:30-50 | removing a document gives back the index before adding it, vectors, count and frequencies, if and only if its name was new and none of its tokens occurs twice |
| `SkillMatcher.FrequenciesComeBack` | Agnet-rust/src/plugins/services/skills/matcher.rs:30-50 | the document frequencies alone come back if and only if no token occurs twice |
| `RealSums.CauchySchwarz` | Agnet-rust/src/plugins/services/skills/matcher.rs:118-147 | the Cauchy-Schwarz inequality over key sets, on which the bounds rest |
| `VectorStore.SimilarityIsBounded` | Agnet-rust/src/plugins/services/memory/l3_vector/memory_store.rs:25-37 | between -1 and 1, for vectors of any two lengths |
| `VectorStore.SimilarityIsSymmetric` | Agnet-rust/src/plugins/services/memory/l3_vector/memory_store.rs:25-37 | the order of the two vectors does not matter |
| `VectorStore.SimilarityIsCosine` | Agnet-rust/src/plugins/services/memory/l3_vector/memory_store.rs:25-37 | times the product of the norms it is the scalar product, with both defined by index; zero if and only if a norm or the product is |
| `VectorStore.SimilarityOfMultiple` | Agnet-rust/src/plugins/services/memory/l3_vector/memory_store.rs:25-37 | a vector that is not zero has similarity 1 with its positive multiples, itself among them, and -1 with the negative ones |
| `VectorStore.FilterIsConjunction` | Agnet-rust/src/plugins/services/memory/l3_vector/memory_store.rs:69-90 | a filter lets through what each of its criteria alone lets through |
| `VectorStore.FoldIgnoresSurplus` | Agnet-rust/src/plugins/services/memory/l3_vector/memory_store.rs:26-31 | the longer vector's surplus coordinates count neither in the product nor in its norm |
| `VectorStore.MemoryVectorStore.Search` | Agnet-rust/src/plugins/services/memory/l3_vector/memory_store.rs:58-102 | exactly min(top_k, passing) results with distinct ids, each an entry that passes the filter with its own score, in falling order, and no entry left out scores higher |
| `VectorStore.MemoryVectorStore.Upsert` | Agnet-rust/src/plugins/services/memory/l3_vector/memory_store.rs:45-57 | applies the items in order |
| `VectorStore.LastUpsertWins` | Agnet-rust/src/plugins/services/memory/l3_vector/memory_store.rs:53-55 | the last item for an id wins |
| `VectorStore.OtherIdsUntouched` | Agnet-rust/src/plugins/services/memory/l3_vector/memory_store.rs:53-55 | an id that is not among the items keeps its entry |
| `VectorStore.MemoryVectorStore.Delete` | Agnet-rust/src/plugins/services/memory/l3_vector/memory_store.rs:103-112 | removes exactly the given ids |
| `Sorting.StableSortIsUnique` | Agnet-rust/src/plugins/services/memory/l3_vector/memory_store.rs:99 | what a stable sort promises leaves exactly one result |
| `Chunker.Chunk` | Agnet-rust/src/plugins/services/memory/l3_vector/chunker.rs:13-48 | the loop with its open chunk yields the chunking of the lines |
| `Chunker.ChunkingHolds` | Agnet-rust/src/plugins/services/memory/l3_vector/chunker.rs:13-48 | the input lines without leading blank ones split into consecutive runs, and nothing else is lost; each chunk is its run joined, after the previous chunk's last characters unless it starts with a heading; only headings and lines that do not fit start chunks |
| `Chunker.ChunkingIsUnique` | Agnet-rust/src/plugins/services/memory/l3_vector/chunker.rs:13-48 | these properties leave exactly one chunking, so the loop's result is determined by them |
| `Chunker.ChunksAreWellMade` | Agnet-rust/src/plugins/services/memory/l3_vector/chunker.rs:13-48 | character by character: each chunk is its lines joined, after the last `chunk_overlap` characters of the previous chunk and an empty line where it is due; a line starts a chunk exactly if it is a `### ` heading or does not fit |
| `Chunker.SkipsLeadingBlanks` | Agnet-rust/src/plugins/services/memory/l3_vector/chunker.rs:16-43 | only empty lines are skipped, and only at the start |
| `Text.CharWidthIsLeast` | Agnet-rust/src/plugins/services/memory/l3_vector/chunker.rs:22 | the bytes of a character are the least that UTF-8 has room in |
| `Text.BytesOfLonger` | Agnet-rust/src/plugins/services/memory/l3_vector/chunker.rs:22 | a text has the bytes of its characters |
| `Chunker.ChunksAreSmall` | Agnet-rust/src/plugins/services/memory/l3_vector/chunker.rs:23-39 | no chunk exceeds the larger of `chunk_size` and the overlap, two newlines and the longest line, in bytes |
| `Chunker.AddLine` | Agnet-rust/src/plugins/services/memory/l3_vector/chunker.rs:16-43 | one line: heading split, overflow split with overlap, append |
| `Approval.ApprovalService.Admit` | Agnet-rust/src/plugins/services/security/approval.rs:141-166 | refuses while the service does not accept or when there is no room |
| `Approval.ApprovalService.InsertPending` | Agnet-rust/src/plugins/services/security/approval.rs:168-185 | adds the approval with its deadline to the map as it is by then |
| `Approval.ApprovalService.SetAcceptingNew` | Agnet-rust/src/plugins/services/security/approval.rs:329-331 | sets the flag and nothing else |
| `Approval.ApprovalService.RequestApproval` | Agnet-rust/src/plugins/services/security/approval.rs:135-190 | both without interference: accepted if and only if the service accepts and has room, and `max_pending` is never exceeded |
| `Approval.ApprovalService.Respond` | Agnet-rust/src/plugins/services/security/approval.rs:197-234 | removes a pending approval and records the decision, or reports an unknown id and changes nothing |
| `Approval.ApprovalService.RunGcCycle` | Agnet-rust/src/plugins/services/security/approval.rs:267-326 | removes exactly the approvals past their deadline, and cleans the records |
| `Approval.ApprovalService.ClearAllPending` | Agnet-rust/src/plugins/services/security/approval.rs:334-340 | nothing is pending afterwards |
| `Approval.KeptAreYoung` | Agnet-rust/src/plugins/services/security/approval.rs:299-306 | every record kept is younger than the maximum age |
| `Approval.YoungByTime` | Agnet-rust/src/plugins/services/security/approval.rs:299-306 | young are the records completed less than the maximum age ago |
| `Approval.ExpiresAfterItsTimeout` | Agnet-rust/src/plugins/services/security/approval.rs:150-178 | a request's own timeout outranks the configured one, and a collection removes the request exactly when it runs later than that |
| `Approval.DroppedAreOldest` | Agnet-rust/src/plugins/services/security/approval.rs:308-313 | at most `max_count` records remain, and none dropped for count is newer than one kept |
| `Approval.CleaningIsIdempotent` | Agnet-rust/src/plugins/services/security/approval.rs:297-325 | a second collection at the same time changes nothing |
| `ApprovalProtocol.PendingIsBounded` | Agnet-rust/src/plugins/services/security/approval.rs:154-185 | in every interleaving of k requesters whose check and insertion are separate steps, at most max_pending + k - 1 are pending |
| `ApprovalProtocol.BoundIsReached` | Agnet-rust/src/plugins/services/security/approval.rs:154-185 | and some interleaving reaches that number if there is any room and any requester |
| `ApprovalProtocol.LimitHoldsIff` | Agnet-rust/src/plugins/services/security/approval.rs:154-185 | `max_pending` itself holds in every interleaving if and only if there is at most one requester or `max_pending` is 0 |
| `ApprovalProtocol.ActionsOnPending` | Agnet-rust/src/plugins/services/security/approval.rs:135-340 | what adds an approval to the pending ones and what removes it, action by action |
| `ApprovalProtocol.EachLeavesOnce` | Agnet-rust/src/plugins/services/security/approval.rs:197-340 | every issued id leaves the pending map exactly once: by a response, by expiry or by clearing |
| `Guardian.Engine.RegisterGuardian` | Agnet-rust/src/plugins/services/security/engine.rs:203-209 | the chain stays the stable sort of everything registered |
| `Guardian.Engine.Evaluate` | Agnet-rust/src/plugins/services/security/engine.rs:135-201 | the loop decides as the guardians registered and enabled do, in order of priority |
| `Guardian.MergeApproveDecisions` | Agnet-rust/src/plugins/services/security/engine.rs:87-130 | merges the approvals by the configured strategy |
| `Guardian.HighestDecisiveDecides` | Agnet-rust/src/plugins/services/security/engine.rs:145-181 | the enabled guardian that denies or allows with the highest priority decides, wherever it was registered |
| `Guardian.EarliestOfHighestDecides` | Agnet-rust/src/plugins/services/security/engine.rs:145-181 | of several with the highest priority, the one registered first decides |
| `Guardian.FirstDecisiveDecides` | Agnet-rust/src/plugins/services/security/engine.rs:155-181 | the first guardian asked that denies or allows decides, whatever was collected before |
| `Guardian.WithoutDecisive` | Agnet-rust/src/plugins/services/security/engine.rs:183-196 | otherwise the merged approvals, otherwise all findings in order, otherwise the default |
| `Guardian.StrictestIsEarliestLeast` | Agnet-rust/src/plugins/services/security/engine.rs:107-124 | `Strictest` takes the earliest of the approvals with the least timeout |
| `GuardianDecisions.FirstVerdictDecides` | Agnet-rust/src/plugins/services/security/engine.rs:155-172 | a denial is passed on with its reason, and an allowance as such |
| `GuardianDecisions.FirstApprovalIsTaken` | Agnet-rust/src/plugins/services/security/engine.rs:96-105 | under `First` the approval of the first guardian asked that approves is the decision |
| `GuardianDecisions.HighestApprovalIsTaken` | Agnet-rust/src/plugins/services/security/engine.rs:96-148 | by priority: that of the highest, and among equals of the one registered first |
| `GuardianDecisions.StrictestApprovalIsTaken` | Agnet-rust/src/plugins/services/security/engine.rs:106-125 | under `Strictest` the approval of least timeout, and among equals the one asked first |
| `GuardianDecisions.FindingsOrDefault` | Agnet-rust/src/plugins/services/security/engine.rs:183-196 | otherwise the findings, each as its guardian gave it and in the order of asking, and the default without any |
| `Guardian.RegistrationOrderIsIrrelevant` | Agnet-rust/src/plugins/services/security/engine.rs:145-148 | with distinct priorities the decision does not depend on the order of registration |
| `Guardian.DescendsUnlessLeast` | Agnet-rust/src/plugins/services/security/engine.rs:145-148 | guardians are asked by falling priority if and only if the least `i32`, which cannot be negated, is nobody's priority or everybody's |
| `Breakers.CircuitBreaker.IsOpen` | Agnet-rust/src/plugins/services/tools/circuit_breaker.rs:32-50 | answers and moves to half-open by the clock |
| `Breakers.CircuitBreaker.RecordSuccess` | Agnet-rust/src/plugins/services/tools/circuit_breaker.rs:51-55 | closes and forgets the failures |
| `Breakers.CircuitBreaker.RecordFailure` | Agnet-rust/src/plugins/services/tools/circuit_breaker.rs:56-63 | counts, and opens at the threshold |
| `Breakers.OpenExactlyWhenFailing` | Agnet-rust/src/plugins/services/tools/circuit_breaker.rs:32-63 | over every history on a monotone clock: open if and only if at least max(1, max_failures) failures followed the last success and the last of them is more recent than the cooldown |
| `Breakers.QueriesAreInvisible` | Agnet-rust/src/plugins/services/tools/circuit_breaker.rs:32-50 | asking never changes a later answer |
| `Breakers.ToolRegistry.CheckCircuitBreaker` | Agnet-rust/src/plugins/services/tools/registry.rs:104-117 | answers from the tool's own breaker; always `Ok` when disabled |
| `Breakers.ToolRegistry.RecordSuccess` | Agnet-rust/src/plugins/services/tools/registry.rs:119-129 | changes that tool's breaker and no other |
| `Breakers.ToolRegistry.RecordFailure` | Agnet-rust/src/plugins/services/tools/registry.rs:131-141 | changes that tool's breaker and no other |
| `Breakers.ToolsAreIndependent` | Agnet-rust/src/plugins/services/tools/registry.rs:104-141 | a tool's breaker is where its own events alone would have brought it |
| `Retry.CallWithRetry` | Agnet-rust/src/plugins/services/llm/retry.rs:44-101 | calls up to the first success, the first error that is not retryable or attempt max_retries + 1, returns that call's outcome and sleeps once less |
| `Retry.StopIsUnique` | Agnet-rust/src/plugins/services/llm/retry.rs:59-77 | there is exactly one such stopping call |
| `Retry.JitterIsBounded` | Agnet-rust/src/plugins/services/llm/retry.rs:26-38 | within 75 and 125 percent of the delay up to rounding, and zero only for delays of at most a nanosecond |
| `Retry.BaseIsDocumented` | Agnet-rust/src/plugins/services/llm/retry.rs:83-88 | the base is min(initial * 2^n, max) if and only if the 64-bit shift does not overflow or it makes no difference |
| `Retry.DelaysAreDocumented` | Agnet-rust/src/plugins/services/llm/retry.rs:79-89 | with at most 64 retries every exponential delay is the jitter of the documented base |
| `Retry.FixedDelaysAreBounded` | Agnet-rust/src/plugins/services/llm/retry.rs:79-83 | under fixed backoff every sleep, and their sum, stays within a quarter of the configured delay up to rounding |
| `Retry.TimeAsleepIsBounded` | Agnet-rust/src/plugins/services/llm/retry.rs:79-92 | for any number of retries total sleep is at most 1.25 * max * retries and at most 1.25 * initial * (2^retries - 1) |
| `Compression.SelectKeep` | Agnet-rust/src/plugins/services/compression/service.rs:237-283 | the scoring loop and the top-up loop yield the selection |
| `Compression.SelectionKeeps` | Agnet-rust/src/plugins/services/compression/service.rs:242-270 | the window and every message that scored high enough are kept; anything else kept follows them without a gap |
| `Compression.SelectionIsIncreasing` | Agnet-rust/src/plugins/services/compression/service.rs:237-283 | the kept indices are strictly increasing and in range |
| `Compression.TargetIsReachedIff` | Agnet-rust/src/plugins/services/compression/service.rs:272-283 | the top-up reaches the target if and only if enough messages follow the last one kept before it; otherwise it ends at the last message |
| `Compression.TargetCanBeMissed` | Agnet-rust/src/plugins/services/compression/service.rs:272-283 | a window at the end and a target of 5 of 10 keep 2 |
| `Compression.AnchorIsInRange` | Agnet-rust/src/plugins/services/compression/components/anchor.rs:16-29 | for every configuration the window ends within the list, and starts before its end if the anchor minimum is at most 1 |
| `Compression.AnchorHasFullWidth` | Agnet-rust/src/plugins/services/compression/components/anchor.rs:16-29 | a window of at most the whole list gets its full width |
| `Compression.AnchorIsWhere` | Agnet-rust/src/plugins/services/compression/components/anchor.rs:16-29 | the window is as wide as its share of the list, rounded up, and starts behind a share of the rest, rounded down; half of the list at the cold start |
| `Compression.ClampIsNearest` | Agnet-rust/src/plugins/services/compression/service.rs:206-209 | the controller's ratio is moved to the nearest one between 0.1 and 1 |
| `Compression.TargetIsShare` | Agnet-rust/src/plugins/services/compression/service.rs:218-241 | the target is the share of the list, rounded down, and at least one |
| `Compression.CompressConserves` | Agnet-rust/src/plugins/services/compression/components/compressor.rs:29-46 | kept and compressed messages make up the list, and kept and saved tokens the total |
| `Compression.LossNeverRecallsAll` | Agnet-rust/src/plugins/services/compression/components/recall.rs:18-30 | the default detector's severity never passes the default recall's threshold: whatever words are lost, the answer is to restore no messages and never to request the full history |
| `Compression.LossNeverSkips` | Agnet-rust/src/plugins/services/compression/service.rs:299-337 | so a round is skipped by the checks before the selection and by nothing else |
| `Compression.CompressionService.Begin` | Agnet-rust/src/plugins/services/compression/service.rs:171-337 | the first half of a round reads the list and drafts its replacement, or skips and goes back to sleep |
| `Compression.CompressionService.Finish` | Agnet-rust/src/plugins/services/compression/service.rs:351-389 | the second half swaps on the store as it is by then, and goes back to sleep |
| `Compression.InterferedRound` | Agnet-rust/src/plugins/services/compression/service.rs:179-369 | whatever happens in between, the draft replaces the list it was made from or changes what no session reads |
| `Compression.CompressionService.OnNewMessages` | Agnet-rust/src/plugins/services/compression/service.rs:171-389 | a round without interference leaves the list alone exactly when it is too early or the fuzzy decision is to keep, and replaces it by the one summary message otherwise, lost words or not |
| `Compression.RoundLeavesOneMessage` | Agnet-rust/src/plugins/services/compression/service.rs:293-369 | the replacement is the one summary message of the kept texts |
| `Compression.RoundKeepsTenTexts` | Agnet-rust/src/plugins/services/compression/service.rs:285-311 | its text joins the first ten texts that are not empty among the messages at the kept indices, in order |
| `Compression.SummaryJoins` | Agnet-rust/src/plugins/services/compression/components/compressor.rs:32-39 | which texts a summary joins: those ten, or all if there are no more |
| `Compression.SignalsAndRecall` | Agnet-rust/src/plugins/services/compression/components/feedback.rs:21-55 | the detector reports all lost words at severity 0.5; the recall wants the full history exactly on a signal above 0.7 |
| `Compression.EntityOfWord` | Agnet-rust/src/plugins/services/compression/components/feedback.rs:22-31 | the words that count are the blank-separated ones, in lower case, of more than four bytes |
| `Text.SplitFindsWord` | Agnet-rust/src/plugins/services/compression/components/feedback.rs:26 | words are found one by one between blanks |

## Left out

- HTTP, MCP subprocesses, files, configuration loading, the command line and logging: input and output.
- Async scheduling, channels and locks as such: they appear as atomic steps and interleavings; a waiting approval receiver is not modelled.
- Type-erased provider lookup and the provider registry: thin maps over library machinery.
- `format_ymd` and `format_hour`: parts of the two formats that are modelled.
- Floating-point rounding in cosines, scores, ratios and delays; overflow of a deadline computed from a huge timeout.
- The PID controller, the fuzzy and UCB weights, entropy, entity extraction for the scores and the journal: their outputs are parameters of a round.
- StoreProtocol.NothingIsLost: a summary counts as holding all its inputs, although its text has at most ten of the kept messages.
- Runtime.AgentRuntime.Step: the caller owes a bound on the visits, as for `RunStep`; the persistence queue and the configuration put into the context are left out.
- Pipeline.Pipeline.RunStep: the caller owes a bound on the visits, because a run of the source may never end; `PipelineRuns.RunsEnd` supplies it. Log entries and durations are left out.
- Orchestrator.Orchestrator.ProcessAll: the caller owes the pass that settles, for the same reason; component handles are known by their names only.
- Approval.ApprovalService.RequestApproval: nothing runs between `Admit` and `InsertPending` here; `ApprovalProtocol` has them as separate steps.
- Compression.CompressionService.OnNewMessages: nothing runs between `Begin` and `Finish` here; `InterferedRound` and `StoreProtocol` have the interference.
- SkillMatcher.CosineTfidf: the products of two weights are formed by function values instead of local variables.
- Guardian.Engine.Evaluate: a guardian answers as a function of the request; audit logging is left out, and so are the findings of an approval, which are always empty.
- VectorStore.MemoryVectorStore.Search: the order of hits with equal scores follows the map iteration and is left open.
- Tokenising and case folding in the skill matcher, frontmatter parsing, the forgetting scan, Chronos timers, quotas and the message assembler.
