/** The message store under its two clients: a runtime that runs its steps one at a time
    (core/runtime.rs, `step`) and a compression service that runs its rounds one at a time
    (plugins/services/compression/service.rs, `run_loop`). Each access to the store is one
    atomic action and the actions of the two interleave freely. */
module StoreProtocol {
  import opened MessageStore

  /** A message, with the history that the running system does not keep: a summary
      remembers what it was made from. */
  datatype Msg = Original(id: nat) | Summary(inputs: seq<Msg>)

  /** `x` is `m`, or went into the summary `m`, possibly through earlier summaries. */
  ghost predicate Covers(m: Msg, x: Msg) {
    m == x || (m.Summary? && exists input | input in m.inputs :: Covers(input, x))
  }

  ghost predicate Accounted(messages: seq<Msg>, x: Msg) {
    exists m | m in messages :: Covers(m, x)
  }

  /** The step that is running: what it read, and what it has added so far. */
  datatype Runtime = Idle | Stepping(session: string, base: seq<Msg>, added: seq<Msg>)

  datatype Compressor = Sleep | Compressing(session: string, messages: seq<Msg>, version: nat)

  datatype State = State(
    store: Entries<Msg>,
    runtime: Runtime,
    compressor: Compressor,
    submitted: set<(string, Msg)>)

  datatype Action =
    | BeginStep(session: string, user: Msg)
    | AppendMessage(message: Msg)
    | FinishStep
    | BeginRound(session: string)
    | SkipRound
    | FinishRound

  const INITIAL := State(map[], Idle, Sleep, {})

  /** An action that its client cannot take now leaves the state as it is. */
  function Next(s: State, a: Action): State {
    match a
    case BeginStep(session, user) =>
      if s.runtime.Idle? then
        s.(runtime := Stepping(session, EntryOf(s.store, session).messages, [user]),
           submitted := s.submitted + {(session, user)})
      else s
    case AppendMessage(message) =>
      if s.runtime.Stepping? then
        s.(runtime := s.runtime.(added := s.runtime.added + [message]),
           submitted := s.submitted + {(s.runtime.session, message)})
      else s
    case FinishStep =>
      if s.runtime.Stepping? then
        s.(store := Written(s.store, s.runtime.session, s.runtime.base + s.runtime.added), runtime := Idle)
      else s
    case BeginRound(session) =>
      if s.compressor.Sleep? then
        var entry := EntryOf(s.store, session);
        s.(compressor := Compressing(session, entry.messages, entry.version))
      else s
    case SkipRound =>
      s.(compressor := Sleep)
    case FinishRound =>
      if s.compressor.Compressing? then
        s.(store := Swapped(s.store, s.compressor.session, s.compressor.version, [Summary(s.compressor.messages)]),
           compressor := Sleep)
      else s
  }

  function Run(actions: seq<Action>): State {
    if actions == [] then INITIAL else Next(Run(actions[..|actions| - 1]), actions[|actions| - 1])
  }

  ghost predicate InFlight(s: State, session: string, x: Msg) {
    s.runtime.Stepping? && s.runtime.session == session && x in s.runtime.added
  }

  /** Nothing that was submitted is lost, and the running step would not lose it either. */
  ghost predicate NoLoss(s: State) {
    forall p | p in s.submitted ::
      && (InFlight(s, p.0, p.1) || Accounted(EntryOf(s.store, p.0).messages, p.1))
      && (s.runtime.Stepping? && s.runtime.session == p.0 ==>
            p.1 in s.runtime.added || Accounted(s.runtime.base, p.1))
  }

  /** Versions count the writes, so an unchanged version means unchanged messages. */
  ghost predicate VersionsTell(s: State, steps: nat) {
    && (forall session :: EntryOf(s.store, session).version <= steps)
    && (s.compressor.Compressing? ==>
          var entry := EntryOf(s.store, s.compressor.session);
          && s.compressor.version <= entry.version
          && (entry.version == s.compressor.version ==> entry.messages == s.compressor.messages))
  }

  lemma AccountedConcat(a: seq<Msg>, b: seq<Msg>, x: Msg)
    requires x in b || Accounted(a, x)
    ensures Accounted(a + b, x)
  {
    if x in b {
      assert x in a + b && Covers(x, x);
    } else {
      var m :| m in a && Covers(m, x);
      assert m in a + b;
    }
  }

  lemma AccountedSummary(messages: seq<Msg>, stored: seq<Msg>, x: Msg)
    requires Accounted(messages, x) && stored == [Summary(messages)]
    ensures Accounted(stored, x)
  {
    assert Covers(Summary(messages), x);
    assert Summary(messages) in stored;
  }

  lemma VersionsStep(s: State, a: Action, steps: nat)
    requires VersionsTell(s, steps) && steps + 1 < VERSIONS
    ensures VersionsTell(Next(s, a), steps + 1)
  {
    forall session
      ensures EntryOf(Next(s, a).store, session).version <= steps + 1
    {
      assert EntryOf(s.store, session).version <= steps;
    }
    if s.compressor.Compressing? {
      assert EntryOf(s.store, s.compressor.session).version <= steps;
    }
  }

  lemma NoLossStep(s: State, a: Action, steps: nat)
    requires NoLoss(s) && VersionsTell(s, steps)
    ensures NoLoss(Next(s, a))
  {
    var s' := Next(s, a);
    forall p | p in s'.submitted
      ensures InFlight(s', p.0, p.1) || Accounted(EntryOf(s'.store, p.0).messages, p.1)
      ensures s'.runtime.Stepping? && s'.runtime.session == p.0 ==>
        p.1 in s'.runtime.added || Accounted(s'.runtime.base, p.1)
    {
      if a.FinishStep? && s.runtime.Stepping? && p.0 == s.runtime.session {
        AccountedConcat(s.runtime.base, s.runtime.added, p.1);
      } else if a.FinishRound? && s.compressor.Compressing? && p.0 == s.compressor.session
          && Accounted(s.compressor.messages, p.1) {
        AccountedSummary(s.compressor.messages, [Summary(s.compressor.messages)], p.1);
      }
    }
  }

  lemma {:induction false} RunKeepsInvariant(actions: seq<Action>)
    requires |actions| < VERSIONS
    ensures NoLoss(Run(actions)) && VersionsTell(Run(actions), |actions|)
  {
    if actions != [] {
      var before := actions[..|actions| - 1];
      RunKeepsInvariant(before);
      VersionsStep(Run(before), actions[|actions| - 1], |before|);
      NoLossStep(Run(before), actions[|actions| - 1], |before|);
    }
  }

  /** In every interleaving, once the runtime is between steps, each message ever submitted
      is in the store or went into a summary that is in the store. */
  lemma NothingIsLost(actions: seq<Action>, session: string, x: Msg)
    requires |actions| < VERSIONS
    requires (session, x) in Run(actions).submitted
    ensures var s := Run(actions);
      InFlight(s, session, x) || Accounted(EntryOf(s.store, session).messages, x)
    ensures Run(actions).runtime.Idle? ==> Accounted(EntryOf(Run(actions).store, session).messages, x)
  {
    RunKeepsInvariant(actions);
    assert (session, x).0 == session;
  }

  lemma RunOne(actions: seq<Action>, a: Action)
    ensures Run(actions + [a]) == Next(Run(actions), a)
  {
    assert (actions + [a])[..|actions + [a]| - 1] == actions;
  }

  /** Action number `i` gives the runtime the message `x` for `session`: it begins a step with
      it, or appends it while the session's step runs. */
  ghost predicate Gives(actions: seq<Action>, i: nat, session: string, x: Msg)
    requires i < |actions|
  {
    var runtime := Run(actions[..i]).runtime;
    || (runtime == Idle && actions[i] == BeginStep(session, x))
    || (runtime.Stepping? && runtime.session == session && actions[i] == AppendMessage(x))
  }

  /** Submitted are exactly the messages that the runtime was given. */
  lemma {:induction false} SubmittedIsGiven(actions: seq<Action>, session: string, x: Msg)
    ensures (session, x) in Run(actions).submitted <==> exists i | 0 <= i < |actions| :: Gives(actions, i, session, x)
  {
    if actions != [] {
      var n := |actions| - 1;
      var before := actions[..n];
      SubmittedIsGiven(before, session, x);
      forall i | 0 <= i < n
        ensures Gives(actions, i, session, x) <==> Gives(before, i, session, x)
      {
        assert before[..i] == actions[..i];
      }
      if (session, x) in Run(before).submitted {
        var i :| 0 <= i < n && Gives(before, i, session, x);
        assert Gives(actions, i, session, x);
      }
      assert (session, x) in Run(actions).submitted
        <==> (session, x) in Run(before).submitted || Gives(actions, n, session, x);
    }
  }

  /** A step's user message is submitted when it begins, and each message it appends. */
  lemma BeginStepSubmits(actions: seq<Action>, session: string, user: Msg)
    requires Run(actions).runtime == Idle
    ensures (session, user) in Run(actions + [BeginStep(session, user)]).submitted
  {
    RunOne(actions, BeginStep(session, user));
  }

  lemma AppendSubmits(actions: seq<Action>, message: Msg)
    requires Run(actions).runtime.Stepping?
    ensures (Run(actions).runtime.session, message) in Run(actions + [AppendMessage(message)]).submitted
  {
    RunOne(actions, AppendMessage(message));
  }

  // What a whole step and a whole round do, whatever happens meanwhile.

  function AppendedIn(actions: seq<Action>): seq<Msg> {
    if actions == [] then [] else AppendedIn(actions[..|actions| - 1]) + AppendedBy(actions[|actions| - 1])
  }

  function AppendedBy(a: Action): seq<Msg> {
    if a.AppendMessage? then [a.message] else []
  }

  lemma GathersOne(s: State, a: Action, session: string, base: seq<Msg>, user: Msg, more: seq<Msg>)
    requires s.runtime == Stepping(session, base, [user] + more) && a != FinishStep
    ensures Next(s, a).runtime == Stepping(session, base, [user] + (more + AppendedBy(a)))
  {
    assert [user] + (more + AppendedBy(a)) == [user] + more + AppendedBy(a);
    assert [user] + more + [] == [user] + more;
  }

  lemma {:induction false} StepGathers(actions: seq<Action>, session: string, user: Msg, during: seq<Action>)
    requires Run(actions).runtime == Idle && FinishStep !in during
    ensures Run(actions + [BeginStep(session, user)] + during).runtime
      == Stepping(session, EntryOf(Run(actions).store, session).messages, [user] + AppendedIn(during))
  {
    var begun := actions + [BeginStep(session, user)];
    if during == [] {
      assert begun + during == begun;
      RunOne(actions, BeginStep(session, user));
    } else {
      var n := |during| - 1;
      StepGathers(actions, session, user, during[..n]);
      assert begun + during == begun + during[..n] + [during[n]];
      RunOne(begun + during[..n], during[n]);
      GathersOne(Run(begun + during[..n]), during[n], session, EntryOf(Run(actions).store, session).messages, user,
                 AppendedIn(during[..n]));
    }
  }

  /** A step writes what its session held when it began, then the user message, then the
      messages it appended in order, whatever else happened in between. */
  lemma StepWritesItsOwn(actions: seq<Action>, session: string, user: Msg, during: seq<Action>)
    requires Run(actions).runtime == Idle && FinishStep !in during
    ensures var before := Run(actions + [BeginStep(session, user)] + during).store;
      var after := Run(actions + [BeginStep(session, user)] + during + [FinishStep]);
      && EntryOf(after.store, session).messages
         == EntryOf(Run(actions).store, session).messages + [user] + AppendedIn(during)
      && after.runtime == Idle
      && forall other | other != session :: EntryOf(after.store, other) == EntryOf(before, other)
  {
    StepGathers(actions, session, user, during);
    assert EntryOf(Run(actions).store, session).messages + ([user] + AppendedIn(during))
      == EntryOf(Run(actions).store, session).messages + [user] + AppendedIn(during);
    RunOne(actions + [BeginStep(session, user)] + during, FinishStep);
  }

  lemma WaitsOne(s: State, a: Action)
    requires s.compressor.Compressing? && a != SkipRound && a != FinishRound
    ensures Next(s, a).compressor == s.compressor
  {
  }

  lemma {:induction false} RoundWaits(actions: seq<Action>, session: string, during: seq<Action>)
    requires Run(actions).compressor == Sleep && SkipRound !in during && FinishRound !in during
    ensures var read := EntryOf(Run(actions).store, session);
      Run(actions + [BeginRound(session)] + during).compressor == Compressing(session, read.messages, read.version)
  {
    var begun := actions + [BeginRound(session)];
    if during == [] {
      assert begun + during == begun;
      RunOne(actions, BeginRound(session));
    } else {
      var n := |during| - 1;
      RoundWaits(actions, session, during[..n]);
      assert begun + during == begun + during[..n] + [during[n]];
      RunOne(begun + during[..n], during[n]);
      WaitsOne(Run(begun + during[..n]), during[n]);
    }
  }

  /** A round puts a summary of what its session held when it began in the place of exactly
      that, unless the session was written in between; then it changes nothing. */
  lemma RoundSummarisesWhatItRead(actions: seq<Action>, session: string, during: seq<Action>)
    requires Run(actions).compressor == Sleep && SkipRound !in during && FinishRound !in during
    ensures var read := EntryOf(Run(actions).store, session);
      var before := Run(actions + [BeginRound(session)] + during).store;
      var after := Run(actions + [BeginRound(session)] + during + [FinishRound]).store;
      && EntryOf(after, session).messages
         == (if EntryOf(before, session).version == read.version then [Summary(read.messages)]
             else EntryOf(before, session).messages)
      && forall other | other != session :: EntryOf(after, other) == EntryOf(before, other)
  {
    RoundWaits(actions, session, during);
    RunOne(actions + [BeginRound(session)] + during, FinishRound);
  }

  /** The submitted messages are the ones the runtime was given: nothing is forgotten. */
  lemma {:induction false} SubmittedGrows(actions: seq<Action>, more: seq<Action>)
    ensures Run(actions).submitted <= Run(actions + more).submitted
  {
    if more == [] {
      assert actions + more == actions;
    } else {
      var front := more[..|more| - 1];
      SubmittedGrows(actions, front);
      assert (actions + more)[..|actions + more| - 1] == actions + front;
    }
  }

  /** A round's swap succeeds only on exactly the messages the round read; a swap that
      fails changes what no session reads. */
  lemma SwapIsExact(actions: seq<Action>)
    requires |actions| < VERSIONS && Run(actions).compressor.Compressing?
    ensures var s := Run(actions);
      var c, entry, after := s.compressor, EntryOf(s.store, s.compressor.session), Next(s, FinishRound);
      if entry.version == c.version
      then entry.messages == c.messages
           && EntryOf(after.store, c.session).messages == [Summary(c.messages)]
           && forall other | other != c.session :: EntryOf(after.store, other) == EntryOf(s.store, other)
      else forall other :: EntryOf(after.store, other) == EntryOf(s.store, other)
  {
    RunKeepsInvariant(actions);
    RoundSwaps(Run(actions));
  }

  lemma RoundSwaps(s: State)
    requires s.compressor.Compressing?
    ensures var c, entry, after := s.compressor, EntryOf(s.store, s.compressor.session), Next(s, FinishRound);
      && (entry.version == c.version ==> EntryOf(after.store, c.session).messages == [Summary(c.messages)])
      && forall other | other != c.session || entry.version != c.version ::
           EntryOf(after.store, other) == EntryOf(s.store, other)
  {
  }

  /** Steps must not overlap: of two steps that read the same list, the first to write loses
      every message that the second did not read or add itself. */
  lemma OverlappingStepsLose(store: Entries<Msg>, session: string, first: seq<Msg>, second: seq<Msg>, x: Msg)
    ensures var base := EntryOf(store, session).messages;
      var after := Written(Written(store, session, base + first), session, base + second);
      Accounted(EntryOf(after, session).messages, x) <==> Accounted(base, x) || Accounted(second, x)
  {
    AccountedEither(EntryOf(store, session).messages, second, x);
  }

  lemma AccountedEither(a: seq<Msg>, b: seq<Msg>, x: Msg)
    ensures Accounted(a + b, x) <==> Accounted(a, x) || Accounted(b, x)
  {
    if Accounted(a + b, x) {
      var m :| m in a + b && Covers(m, x);
      assert m in a || m in b;
    }
    if Accounted(a, x) {
      var m :| m in a && Covers(m, x);
      assert m in a + b;
    }
    if Accounted(b, x) {
      var m :| m in b && Covers(m, x);
      assert m in a + b;
    }
  }

  /** So a user message that was new is gone. */
  lemma FirstMessageIsLost(store: Entries<Msg>, session: string, first: nat, second: seq<Msg>)
    requires !Accounted(EntryOf(store, session).messages, Original(first)) && !Accounted(second, Original(first))
    ensures var base := EntryOf(store, session).messages;
      var after := Written(Written(store, session, base + [Original(first)]), session, base + second);
      !Accounted(EntryOf(after, session).messages, Original(first))
  {
    OverlappingStepsLose(store, session, [Original(first)], second, Original(first));
  }
}
