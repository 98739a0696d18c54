/** `CircuitBreaker` of plugins/services/tools/circuit_breaker.rs and the breakers that
    `ToolRegistry` of plugins/services/tools/registry.rs keeps, one for each tool name. Clock
    readings are parameters; fewer than 2^32 failures in a row are assumed. */
module Breakers {
  import opened Wrappers

  datatype State = Closed | Open | HalfOpen

  /** What a breaker holds besides its limits. */
  datatype Snapshot = Snapshot(failures: nat, state: State, openedAt: Option<int>, lastFailure: Option<int>)

  datatype Limits = Limits(maxFailures: nat, cooldown: nat)

  const INITIAL := Snapshot(0, Closed, None, None)

  /** `Instant::elapsed`, which does not go below zero. */
  function Elapsed(since: int, now: int): nat {
    if now > since then now - since else 0
  }

  predicate Cooled(lim: Limits, s: Snapshot, now: int) {
    s.openedAt.Some? && Elapsed(s.openedAt.value, now) >= lim.cooldown
  }

  predicate Answer(lim: Limits, s: Snapshot, now: int) {
    s.state.Open? && s.openedAt.Some? && !Cooled(lim, s, now)
  }

  function AfterQuery(lim: Limits, s: Snapshot, now: int): Snapshot {
    if s.state.Open? && s.openedAt.None? then s.(state := Closed)
    else if s.state.Open? && Cooled(lim, s, now) then s.(state := HalfOpen)
    else s
  }

  function AfterSuccess(s: Snapshot): Snapshot {
    s.(failures := 0, state := Closed, openedAt := None)
  }

  /** A failure reads the clock for `last_failure` and again for `opened_at`. */
  function AfterFailure(lim: Limits, s: Snapshot, now: int, then': int): Snapshot {
    var f := s.failures + 1;
    if f >= lim.maxFailures then Snapshot(f, Open, Some(then'), Some(now))
    else s.(failures := f, lastFailure := Some(now))
  }

  class CircuitBreaker {
    const limits: Limits
    var failures: nat
    var lastFailure: Option<int>
    var state: State
    var openedAt: Option<int>

    function Now(): Snapshot
      reads this
    {
      Snapshot(failures, state, openedAt, lastFailure)
    }

    constructor (limits: Limits)
      ensures this.limits == limits && Now() == INITIAL
    {
      this.limits := limits;
      failures, state, openedAt, lastFailure := 0, Closed, None, None;
    }

    method IsOpen(now: int) returns (open: bool)
      modifies this
      ensures open == Answer(limits, old(Now()), now) && Now() == AfterQuery(limits, old(Now()), now)
      ensures open ==> state == Open
    {
      match state
      case Closed => open := false;
      case Open =>
        if openedAt.Some? {
          if Elapsed(openedAt.value, now) >= limits.cooldown {
            state := HalfOpen;
            open := false;
          } else {
            open := true;
          }
        } else {
          state := Closed;
          open := false;
        }
      case HalfOpen => open := false;
    }

    method RecordSuccess()
      modifies this
      ensures Now() == AfterSuccess(old(Now()))
    {
      failures := 0;
      state := Closed;
      openedAt := None;
    }

    method RecordFailure(now: int, then': int)
      modifies this
      ensures Now() == AfterFailure(limits, old(Now()), now, then')
    {
      failures := failures + 1;
      lastFailure := Some(now);
      if failures >= limits.maxFailures {
        state := Open;
        openedAt := Some(then');
      }
    }
  }

  // Histories of one breaker.

  datatype Event = Query(at: int) | Success(at: int) | Failure(at: int, then': int)

  function Apply(lim: Limits, s: Snapshot, e: Event): Snapshot {
    match e
    case Query(at) => AfterQuery(lim, s, at)
    case Success(_) => AfterSuccess(s)
    case Failure(at, then') => AfterFailure(lim, s, at, then')
  }

  function Run(lim: Limits, history: seq<Event>): Snapshot {
    if history == [] then INITIAL
    else Apply(lim, Run(lim, history[..|history| - 1]), history[|history| - 1])
  }

  function EndOf(e: Event): int {
    if e.Failure? then e.then' else e.at
  }

  /** The clock never goes back, up to `now`. */
  predicate Monotone(history: seq<Event>, now: int) {
    history == [] ||
    var e := history[|history| - 1];
    EndOf(e) <= now && e.at <= EndOf(e) && Monotone(history[..|history| - 1], e.at)
  }

  /** Failures since the last success. */
  function FailureStreak(history: seq<Event>): nat {
    if history == [] then 0
    else
      var before := FailureStreak(history[..|history| - 1]);
      match history[|history| - 1]
      case Query(_) => before
      case Success(_) => 0
      case Failure(_, _) => before + 1
  }

  function LastFailure(history: seq<Event>): Option<int> {
    if history == [] then None
    else if history[|history| - 1].Failure? then Some(history[|history| - 1].then')
    else LastFailure(history[..|history| - 1])
  }

  function Threshold(lim: Limits): nat {
    if lim.maxFailures < 1 then 1 else lim.maxFailures
  }

  /** What a breaker's fields say about its history. */
  ghost predicate Reflects(lim: Limits, s: Snapshot, history: seq<Event>, now: int) {
    && s.failures == FailureStreak(history)
    && (s.state.Closed? <==> FailureStreak(history) < Threshold(lim))
    && (!s.state.Closed? ==> LastFailure(history).Some? && s.openedAt == LastFailure(history))
    && (s.state.HalfOpen? ==> now - LastFailure(history).value >= lim.cooldown)
  }

  lemma {:induction false} RunReflects(lim: Limits, history: seq<Event>, now: int)
    requires Monotone(history, now)
    ensures Reflects(lim, Run(lim, history), history, now)
    decreases |history|
  {
    if history != [] {
      var n := |history| - 1;
      RunReflects(lim, history[..n], history[n].at);
      LastFailureIsPast(history[..n], history[n].at);
    }
  }

  lemma {:induction false} LastFailureIsPast(history: seq<Event>, now: int)
    requires Monotone(history, now)
    ensures LastFailure(history).Some? ==> LastFailure(history).value <= now
    ensures FailureStreak(history) > 0 ==> LastFailure(history).Some?
    decreases |history|
  {
    if history != [] {
      LastFailureIsPast(history[..|history| - 1], history[|history| - 1].at);
    }
  }

  /** Over every history on a clock that does not go back: the breaker is open if and only if
      enough failures followed the last success and the last of them is more recent than the
      cooldown. Queries do not occur in that condition. */
  lemma OpenExactlyWhenFailing(lim: Limits, history: seq<Event>, now: int)
    requires Monotone(history, now)
    ensures Answer(lim, Run(lim, history), now)
      <==> (FailureStreak(history) >= Threshold(lim)
            && LastFailure(history).Some? && now - LastFailure(history).value < lim.cooldown)
  {
    RunReflects(lim, history, now);
    LastFailureIsPast(history, now);
  }

  function WithoutQueries(history: seq<Event>): seq<Event> {
    if history == [] then []
    else
      var before := WithoutQueries(history[..|history| - 1]);
      if history[|history| - 1].Query? then before else before + [history[|history| - 1]]
  }

  lemma {:induction false} QueriesDoNotCount(history: seq<Event>)
    ensures FailureStreak(WithoutQueries(history)) == FailureStreak(history)
    ensures LastFailure(WithoutQueries(history)) == LastFailure(history)
    decreases |history|
  {
    if history != [] {
      var n := |history| - 1;
      QueriesDoNotCount(history[..n]);
      if !history[n].Query? {
        Front(WithoutQueries(history[..n]), history[n]);
      }
    }
  }

  lemma Front<T>(before: seq<T>, e: T)
    ensures before + [e] != [] && (before + [e])[..|before + [e]| - 1] == before && (before + [e])[|before + [e]| - 1] == e
  {
  }

  lemma {:induction false} WithoutQueriesIsMonotone(history: seq<Event>, now: int)
    requires Monotone(history, now)
    ensures Monotone(WithoutQueries(history), now)
    decreases |history|
  {
    if history != [] {
      var n := |history| - 1;
      var e := history[n];
      WithoutQueriesIsMonotone(history[..n], e.at);
      if e.Query? {
        LaterIsMonotone(WithoutQueries(history[..n]), e.at, now);
      } else {
        Front(WithoutQueries(history[..n]), e);
      }
    }
  }

  lemma LaterIsMonotone(history: seq<Event>, now: int, later: int)
    requires Monotone(history, now) && now <= later
    ensures Monotone(history, later)
  {
  }

  /** Asking a breaker never changes a later answer. */
  lemma QueriesAreInvisible(lim: Limits, history: seq<Event>, now: int)
    requires Monotone(history, now)
    ensures Answer(lim, Run(lim, history), now) == Answer(lim, Run(lim, WithoutQueries(history)), now)
  {
    QueriesDoNotCount(history);
    WithoutQueriesIsMonotone(history, now);
    OpenExactlyWhenFailing(lim, history, now);
    OpenExactlyWhenFailing(lim, WithoutQueries(history), now);
  }

  // The registry: one breaker for each tool name.

  type Breakers = map<string, Snapshot>

  /** A tool without a breaker gets a new one. */
  function EntryOf(breakers: Breakers, tool: string): Snapshot {
    if tool in breakers then breakers[tool] else INITIAL
  }

  class ToolRegistry {
    const limits: Limits
    const breakerEnabled: bool
    var breakers: map<string, CircuitBreaker>

    /** No breaker is shared between two names. */
    ghost predicate Valid()
      reads this, breakers.Values
    {
      && (forall t | t in breakers :: breakers[t].limits == limits)
      && forall t, u | t in breakers && u in breakers && t != u :: breakers[t] != breakers[u]
    }

    /** A tool without a breaker would get a new one. */
    ghost function Now(tool: string): Snapshot
      reads this, breakers.Values
    {
      if tool in breakers then breakers[tool].Now() else INITIAL
    }

    constructor (limits: Limits, breakerEnabled: bool)
      ensures Valid() && this.limits == limits && this.breakerEnabled == breakerEnabled
      ensures forall t :: Now(t) == INITIAL
    {
      this.limits, this.breakerEnabled, breakers := limits, breakerEnabled, map[];
    }

    /** `entry(tool).or_insert_with(..)` */
    method Entry(tool: string) returns (cb: CircuitBreaker)
      requires Valid()
      modifies this
      ensures Valid() && tool in breakers && breakers[tool] == cb
      ensures forall t :: Now(t) == old(Now(t))
      ensures forall t | t in breakers :: (t in old(breakers) && breakers[t] == old(breakers)[t]) || fresh(breakers[t])
    {
      if tool in breakers {
        cb := breakers[tool];
      } else {
        cb := new CircuitBreaker(limits);
        breakers := breakers[tool := cb];
      }
    }

    method Ask(tool: string, now: int) returns (open: bool, state: State)
      requires Valid()
      modifies this, breakers.Values
      ensures Valid()
      ensures Now(tool) == Apply(limits, old(Now(tool)), Query(now)) && forall t | t != tool :: Now(t) == old(Now(t))
      ensures open == Answer(limits, old(Now(tool)), now) && (open ==> state == Open)
    {
      var cb := Entry(tool);
      open := cb.IsOpen(now);
      state := cb.state;
    }

    method CheckCircuitBreaker(tool: string, now: int) returns (r: Result<(), State>)
      requires Valid()
      modifies this, breakers.Values
      ensures Valid()
      ensures r == if breakerEnabled && Answer(limits, old(Now(tool)), now) then Err(Open) else Ok(())
      ensures Now(tool) == if breakerEnabled then Apply(limits, old(Now(tool)), Query(now)) else old(Now(tool))
      ensures forall t | t != tool :: Now(t) == old(Now(t))
    {
      if !breakerEnabled {
        return Ok(());
      }
      var open, state := Ask(tool, now);
      if open {
        return Err(state);
      }
      return Ok(());
    }

    method RecordSuccess(tool: string, now: int)
      requires Valid()
      modifies this, breakers.Values
      ensures Valid()
      ensures Now(tool) == if breakerEnabled then Apply(limits, old(Now(tool)), Success(now)) else old(Now(tool))
      ensures forall t | t != tool :: Now(t) == old(Now(t))
    {
      if !breakerEnabled {
        return;
      }
      var cb := Entry(tool);
      cb.RecordSuccess();
    }

    method RecordFailure(tool: string, now: int, then': int)
      requires Valid()
      modifies this, breakers.Values
      ensures Valid()
      ensures Now(tool) == if breakerEnabled then Apply(limits, old(Now(tool)), Failure(now, then')) else old(Now(tool))
      ensures forall t | t != tool :: Now(t) == old(Now(t))
    {
      if !breakerEnabled {
        return;
      }
      var cb := Entry(tool);
      cb.RecordFailure(now, then');
    }
  }

  function TaggedApply(lim: Limits, breakers: Breakers, tool: string, e: Event): Breakers {
    breakers[tool := Apply(lim, EntryOf(breakers, tool), e)]
  }

  function TaggedRun(lim: Limits, history: seq<(string, Event)>): Breakers {
    if history == [] then map[]
    else
      var (tool, e) := history[|history| - 1];
      TaggedApply(lim, TaggedRun(lim, history[..|history| - 1]), tool, e)
  }

  /** The events of one tool. */
  function EventsOf(history: seq<(string, Event)>, tool: string): seq<Event> {
    if history == [] then []
    else
      var before := EventsOf(history[..|history| - 1], tool);
      if history[|history| - 1].0 == tool then before + [history[|history| - 1].1] else before
  }

  /** A tool's breaker is where that tool's own events alone would have brought it: events of
      another tool never matter. */
  lemma {:induction false} ToolsAreIndependent(lim: Limits, history: seq<(string, Event)>, tool: string)
    ensures EntryOf(TaggedRun(lim, history), tool) == Run(lim, EventsOf(history, tool))
    decreases |history|
  {
    if history != [] {
      var n := |history| - 1;
      ToolsAreIndependent(lim, history[..n], tool);
      if history[n].0 == tool {
        Front(EventsOf(history[..n], tool), history[n].1);
      }
    }
  }
}
