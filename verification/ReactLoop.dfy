/** The ReAct loop slot (plugins/slots/react_loop: mod.rs, components/loop_decider.rs and
    components/turn_limiter.rs) inside the pipeline. */
module ReactLoop {
  import opened Pipeline
  import opened PipelineRuns
  import opened Wrappers

  const DEFAULT_MAX_TURNS: nat := 10

  datatype ThoughtKind = ActionKind | FinalKind

  /** What the loop slot reads and keeps: the thought in the step's context, and the last
      thought it copied into its own data area, which outlives the step. `rest` is what
      the other slots work on. */
  datatype World<X> = World(rest: X, thought: Option<ThoughtKind>, shared: Option<ThoughtKind>)

  datatype LoopAction = ContinueLoop | JumpToThink | ForceBreak

  /** The configured limit, or the default; the turn limiter raises 0 to 1. */
  function MaxTurns(configured: Option<nat>): nat {
    var n := if configured.Some? then configured.value else DEFAULT_MAX_TURNS;
    if n >= 1 then n else 1
  }

  /** The limit on turns is the configured one, but never zero, and 10 if none is configured. */
  lemma MaxTurnsIs(configured: Option<nat>)
    ensures MaxTurns(configured) >= 1 && MaxTurns(None) == 10
    ensures configured.Some? && configured.value >= 1 ==> MaxTurns(configured) == configured.value
  {
  }

  function Decide(maxTurns: nat, iteration: nat, thought: Option<ThoughtKind>): LoopAction {
    if iteration >= maxTurns then ForceBreak
    else if thought == Some(ActionKind) then JumpToThink
    else ContinueLoop
  }

  function ReActRun<X>(maxTurns: nat, w: World<X>, turn: nat): (World<X>, SlotResult) {
    var shared := if w.thought.Some? then w.thought else w.shared;
    (w.(shared := shared),
     match Decide(maxTurns, turn, shared)
     case ContinueLoop => Ok(Continue)
     case JumpToThink => Ok(JumpTo("think"))
     case ForceBreak => Ok(BreakStep))
  }

  function ReActSlot<X>(maxTurns: nat): Slot<World<X>> {
    Slot("react_loop", (w: World<X>, turn: nat, phase: string) => ReActRun(maxTurns, w, turn))
  }

  lemma ReActSlotRuns<X>(maxTurns: nat, w: World<X>, turn: nat, phase: string)
    ensures ReActSlot(maxTurns).run(w, turn, phase) == ReActRun(maxTurns, w, turn)
  {
  }

  const RECOMMENDED_PHASES: seq<string> := ["init", "context", "think", "audit", "execute", "loop", "memorize"]

  ghost predicate NeverJumps<X(!new)>(slot: Slot<World<X>>) {
    forall w, turn: nat, phase :: !(slot.run(w, turn, phase).1.Ok? && slot.run(w, turn, phase).1.value.JumpTo?)
  }

  /** The ReAct slot is the only one that jumps, and it sits after the think phase. */
  ghost predicate OnlyReActJumps<X(!new)>(p: Plan<World<X>>, maxTurns: nat, think: nat) {
    && Distinct(p.phases)
    && think < |p.phases| && p.phases[think] == "think"
    && forall i, slot | 0 <= i < |p.phases| && slot in SlotsOf(p, p.phases[i]) ::
         (i > think && slot == ReActSlot(maxTurns)) || NeverJumps(slot)
  }

  lemma {:induction false} SlotsJumpToThink<X(!new)>(p: Plan<World<X>>, maxTurns: nat, think: nat, i: nat,
                                                     slots: seq<Slot<World<X>>>, w: World<X>, turn: nat)
    requires OnlyReActJumps(p, maxTurns, think) && i < |p.phases|
    requires forall slot | slot in slots :: slot in SlotsOf(p, p.phases[i])
    ensures var end := RunSlots(slots, w, turn, p.phases[i]).1;
      && (end.Jump? ==> end.target == "think" && turn < maxTurns && i > think)
      && end != Stop(TooManyBackwardJumps)
    decreases |slots|
  {
    if slots != [] {
      assert slots[0] in SlotsOf(p, p.phases[i]);
      assert (i > think && slots[0] == ReActSlot(maxTurns)) || NeverJumps(slots[0]);
      ReActSlotRuns(maxTurns, w, turn, p.phases[i]);
      var (w', result) := slots[0].run(w, turn, p.phases[i]);
      SlotsJumpToThink(p, maxTurns, think, i, slots[1..], w', turn);
    }
  }

  predicate AtThink<X>(r: Run<World<X>>, think: nat) {
    r.Running? && r.idx == think
  }

  /** How often the first `n` turns of the loop visit the think phase. */
  function ThinkVisits<X>(p: Plan<World<X>>, r: Run<World<X>>, think: nat, n: nat): nat {
    if n == 0 then 0
    else ThinkVisits(p, r, think, n - 1) + if AtThink(Visits(p, r, n - 1), think) then 1 else 0
  }

  ghost predicate WithinTurns<X>(p: Plan<World<X>>, r: Run<World<X>>, maxTurns: nat, think: nat, thinks: nat) {
    && r.turn == r.backward <= maxTurns
    && (r.Running? ==> r.idx <= |p.phases| && thinks <= r.backward + if r.idx > think then 1 else 0)
    && (r.Halted? ==> r.outcome != TooManyBackwardJumps && thinks <= r.backward + 1)
  }

  function TurnsLeft<X>(p: Plan<World<X>>, r: Run<World<X>>, maxTurns: nat): nat
    requires r.Running? && r.idx <= |p.phases| && r.backward <= maxTurns
  {
    Passes(maxTurns - r.backward, |p.phases|) + |p.phases| - r.idx
  }

  lemma TurnStep<X(!new)>(p: Plan<World<X>>, r: Run<World<X>>, maxTurns: nat, think: nat, thinks: nat)
    requires OnlyReActJumps(p, maxTurns, think)
    requires p.maxBackwardJumps == 0 || maxTurns <= p.maxBackwardJumps
    requires r.Running? && WithinTurns(p, r, maxTurns, think, thinks)
    ensures var next := Visit(p, r);
      && WithinTurns(p, next, maxTurns, think, thinks + if AtThink(r, think) then 1 else 0)
      && (next.Running? ==> TurnsLeft(p, next, maxTurns) < TurnsLeft(p, r, maxTurns))
  {
    if r.idx < |p.phases| {
      SlotsJumpToThink(p, maxTurns, think, r.idx, SlotsOf(p, p.phases[r.idx]), r.world, r.turn);
      assert Position(p.phases, "think") == Some(think);
    }
  }

  lemma {:induction false} TurnsProgress<X(!new)>(p: Plan<World<X>>, w: World<X>, maxTurns: nat, think: nat, n: nat)
    requires OnlyReActJumps(p, maxTurns, think)
    requires p.maxBackwardJumps == 0 || maxTurns <= p.maxBackwardJumps
    ensures var r := Visits(p, Start(0, w), n);
      && WithinTurns(p, r, maxTurns, think, ThinkVisits(p, Start(0, w), think, n))
      && (r.Running? ==> TurnsLeft(p, r, maxTurns) + n <= Passes(maxTurns + 1, |p.phases|))
  {
    if n > 0 {
      TurnsProgress(p, w, maxTurns, think, n - 1);
      var r := Visits(p, Start(0, w), n - 1);
      if r.Running? {
        TurnStep(p, r, maxTurns, think, ThinkVisits(p, Start(0, w), think, n - 1));
      }
    }
  }

  /** With the limit on turns within the limit on backward jumps, every step ends, visits
      the think phase at most once more than the limit on turns, and is never aborted for
      jumping back too often. */
  lemma ReActStaysWithinTurns<X(!new)>(p: Plan<World<X>>, w: World<X>, maxTurns: nat, think: nat, n: nat)
    requires OnlyReActJumps(p, maxTurns, think)
    requires p.maxBackwardJumps == 0 || maxTurns <= p.maxBackwardJumps
    ensures ThinkVisits(p, Start(0, w), think, n) <= maxTurns + 1
    ensures Visits(p, Start(0, w), n).Halted? ==> Visits(p, Start(0, w), n).outcome != TooManyBackwardJumps
    ensures HaltsWithin(p, Start(0, w), (maxTurns + 1) * |p.phases| + 1)
  {
    TurnsProgress(p, w, maxTurns, think, n);
    var most := Passes(maxTurns + 1, |p.phases|);
    TurnsProgress(p, w, maxTurns, think, most + 1);
    PassesMultiply(maxTurns + 1, |p.phases|);
  }

  // The bound is exact.

  predicate Acts<X>(w: World<X>) {
    w.thought == Some(ActionKind)
  }

  /** A slot that lets the step go on, and leaves the thought an action if it is one. */
  ghost predicate Passive<X(!new)>(slot: Slot<World<X>>) {
    forall w, turn: nat, phase :: (
      slot.run(w, turn, phase).1 == Ok(Continue) && (Acts(w) ==> Acts(slot.run(w, turn, phase).0)))
  }

  /** Passive slots everywhere, and the ReAct slot in one phase after the think phase. */
  ghost predicate PassiveButReAct<X(!new)>(p: Plan<World<X>>, maxTurns: nat, think: nat, loop: nat) {
    && Distinct(p.phases)
    && think < loop < |p.phases| && p.phases[think] == "think"
    && ReActSlot(maxTurns) in SlotsOf(p, p.phases[loop])
    && (forall slot | slot in SlotsOf(p, p.phases[loop]) :: slot == ReActSlot(maxTurns) || Passive(slot))
    && forall i, slot | 0 <= i < |p.phases| && i != loop && slot in SlotsOf(p, p.phases[i]) :: Passive(slot)
  }

  lemma PassiveNeverJumps<X(!new)>(slot: Slot<World<X>>)
    requires Passive(slot)
    ensures NeverJumps(slot)
  {
    forall w, turn: nat, phase
      ensures !(slot.run(w, turn, phase).1.Ok? && slot.run(w, turn, phase).1.value.JumpTo?)
    {
      assert slot.run(w, turn, phase).1 == Ok(Continue);
    }
  }

  lemma PassiveQualifies<X(!new)>(p: Plan<World<X>>, maxTurns: nat, think: nat, loop: nat)
    requires PassiveButReAct(p, maxTurns, think, loop)
    ensures OnlyReActJumps(p, maxTurns, think)
  {
    forall i, slot | 0 <= i < |p.phases| && slot in SlotsOf(p, p.phases[i])
      ensures (i > think && slot == ReActSlot(maxTurns)) || NeverJumps(slot)
    {
      if !(i == loop && slot == ReActSlot(maxTurns)) {
        PassiveNeverJumps(slot);
      }
    }
  }

  /** The recommended phases, with no other slot but the ReAct slot, are an instance. */
  lemma RecommendedQualifies<X(!new)>(maxTurns: nat, limit: nat)
    ensures PassiveButReAct<X>(Plan(RECOMMENDED_PHASES, map["loop" := [ReActSlot<X>(maxTurns)]], limit), maxTurns, 2, 5)
  {
    var p := Plan(RECOMMENDED_PHASES, map["loop" := [ReActSlot<X>(maxTurns)]], limit);
    RecommendedAreDistinct();
    assert RECOMMENDED_PHASES[2] == "think" && RECOMMENDED_PHASES[5] == "loop";
    assert forall i | 0 <= i < |p.phases| && i != 5 :: p.phases[i] != "loop";
  }

  /** The recommended phases differ in their first letters. */
  lemma RecommendedAreDistinct()
    ensures Distinct(RECOMMENDED_PHASES)
  {
    forall i, j | 0 <= i < j < |RECOMMENDED_PHASES|
      ensures RECOMMENDED_PHASES[i][0] != RECOMMENDED_PHASES[j][0]
    {
    }
  }

  lemma {:induction false} PassiveSlots<X(!new)>(slots: seq<Slot<World<X>>>, w: World<X>, turn: nat, phase: string)
    requires Acts(w) && forall slot | slot in slots :: Passive(slot)
    ensures var (w', end) := RunSlots(slots, w, turn, phase); end == Next && Acts(w')
    decreases |slots|
  {
    if slots != [] {
      assert Passive(slots[0]);
      PassiveSlots(slots[1..], slots[0].run(w, turn, phase).0, turn, phase);
    }
  }

  lemma {:induction false} ActingSlots<X(!new)>(slots: seq<Slot<World<X>>>, maxTurns: nat, w: World<X>, turn: nat,
                                                phase: string)
    requires Acts(w) && turn < maxTurns && ReActSlot(maxTurns) in slots
    requires forall slot | slot in slots :: slot == ReActSlot(maxTurns) || Passive(slot)
    ensures var (w', end) := RunSlots(slots, w, turn, phase); end == Jump("think") && Acts(w')
    decreases |slots|
  {
    if slots[0] == ReActSlot(maxTurns) {
      ReActSlotRuns(maxTurns, w, turn, phase);
    } else {
      assert Passive(slots[0]);
      ActingSlots(slots[1..], maxTurns, slots[0].run(w, turn, phase).0, turn, phase);
    }
  }

  /** A run in phase `idx` after `k` backward jumps, with an action in hand. */
  predicate ActingAt<X>(r: Run<World<X>>, idx: nat, k: nat) {
    r.Running? && r.idx == idx && r.backward == r.turn == k && Acts(r.world)
  }

  lemma PassivePhase<X(!new)>(p: Plan<World<X>>, maxTurns: nat, think: nat, loop: nat, r: Run<World<X>>, idx: nat, k: nat)
    requires PassiveButReAct(p, maxTurns, think, loop) && ActingAt(r, idx, k) && idx < loop
    ensures ActingAt(Visit(p, r), idx + 1, k)
  {
    PassiveSlots(SlotsOf(p, p.phases[idx]), r.world, r.turn, p.phases[idx]);
  }

  lemma LoopPhase<X(!new)>(p: Plan<World<X>>, maxTurns: nat, think: nat, loop: nat, r: Run<World<X>>, k: nat)
    requires PassiveButReAct(p, maxTurns, think, loop) && ActingAt(r, loop, k) && k < maxTurns
    ensures var next := Visit(p, r);
      if 0 < p.maxBackwardJumps < k + 1 then next.Halted? && next.outcome == TooManyBackwardJumps
      else ActingAt(next, think, k + 1)
  {
    ActingSlots(SlotsOf(p, p.phases[loop]), maxTurns, r.world, r.turn, p.phases[loop]);
    assert Position(p.phases, "think") == Some(think);
  }

  /** A step from the world `w` comes to phase `idx` after `k` backward jumps. */
  ghost predicate Reaches<X>(p: Plan<World<X>>, w: World<X>, idx: nat, k: nat) {
    exists n: nat :: ActingAt(Visits(p, Start(0, w), n), idx, k)
  }

  lemma NextPhase<X(!new)>(p: Plan<World<X>>, maxTurns: nat, think: nat, loop: nat, w: World<X>, idx: nat, k: nat)
    requires PassiveButReAct(p, maxTurns, think, loop) && idx < loop && Reaches(p, w, idx, k)
    ensures Reaches(p, w, idx + 1, k)
  {
    var n: nat :| ActingAt(Visits(p, Start(0, w), n), idx, k);
    PassivePhase(p, maxTurns, think, loop, Visits(p, Start(0, w), n), idx, k);
    assert ActingAt(Visits(p, Start(0, w), n + 1), idx + 1, k);
  }

  lemma NextPass<X(!new)>(p: Plan<World<X>>, maxTurns: nat, think: nat, loop: nat, w: World<X>, k: nat)
    requires PassiveButReAct(p, maxTurns, think, loop) && k < maxTurns && Reaches(p, w, loop, k)
    requires p.maxBackwardJumps == 0 || k + 1 <= p.maxBackwardJumps
    ensures Reaches(p, w, think, k + 1)
  {
    var n: nat :| ActingAt(Visits(p, Start(0, w), n), loop, k);
    LoopPhase(p, maxTurns, think, loop, Visits(p, Start(0, w), n), k);
    assert ActingAt(Visits(p, Start(0, w), n + 1), think, k + 1);
  }

  lemma StartsActing<X>(p: Plan<World<X>>, w: World<X>)
    requires Acts(w)
    ensures Reaches(p, w, 0, 0)
  {
    assert ActingAt(Visits(p, Start(0, w), 0), 0, 0);
  }

  /** A step that keeps acting jumps back once a pass. */
  lemma {:induction false} ActingPasses<X(!new)>(p: Plan<World<X>>, maxTurns: nat, think: nat, loop: nat, w: World<X>,
                                                 idx: nat, k: nat)
    requires PassiveButReAct(p, maxTurns, think, loop) && Acts(w)
    requires idx <= loop && (k > 0 ==> think <= idx)
    requires k <= maxTurns && (p.maxBackwardJumps == 0 || k <= p.maxBackwardJumps)
    ensures Reaches(p, w, idx, k)
    decreases k, idx
  {
    if k == 0 && idx == 0 {
      StartsActing(p, w);
    } else if k > 0 && idx == think {
      ActingPasses(p, maxTurns, think, loop, w, loop, k - 1);
      NextPass(p, maxTurns, think, loop, w, k - 1);
    } else {
      ActingPasses(p, maxTurns, think, loop, w, idx - 1, k);
      NextPhase(p, maxTurns, think, loop, w, idx - 1, k);
    }
  }

  ghost predicate CanAbort<X(!new)>(p: Plan<World<X>>) {
    exists w: World<X>, n: nat :: Aborts(p, w, n)
  }

  predicate Aborts<X>(p: Plan<World<X>>, w: World<X>, n: nat) {
    Visits(p, Start(0, w), n).Halted? && Visits(p, Start(0, w), n).outcome == TooManyBackwardJumps
  }

  lemma ActingAborts<X(!new)>(p: Plan<World<X>>, maxTurns: nat, think: nat, loop: nat, w: World<X>)
    requires PassiveButReAct(p, maxTurns, think, loop) && Acts(w) && 0 < p.maxBackwardJumps < maxTurns
    ensures CanAbort(p)
  {
    var k := p.maxBackwardJumps;
    ActingPasses(p, maxTurns, think, loop, w, loop, k);
    var n: nat :| ActingAt(Visits(p, Start(0, w), n), loop, k);
    LoopPhase(p, maxTurns, think, loop, Visits(p, Start(0, w), n), k);
    assert Aborts(p, w, n + 1);
  }

  /** The bound is exact, whatever passive slots there are besides: a step can be aborted for
      jumping back too often exactly when the limit on turns is above a positive limit on
      backward jumps. */
  lemma ReActAbortsIffTurnsExceedJumps<X(!new)>(p: Plan<World<X>>, maxTurns: nat, think: nat, loop: nat, rest: X)
    requires PassiveButReAct(p, maxTurns, think, loop)
    ensures CanAbort(p) <==> 0 < p.maxBackwardJumps < maxTurns
  {
    if 0 < p.maxBackwardJumps < maxTurns {
      ActingAborts(p, maxTurns, think, loop, World(rest, Some(ActionKind), None));
    } else {
      PassiveQualifies(p, maxTurns, think, loop);
      forall w: World<X>, n: nat
        ensures !Aborts(p, w, n)
      {
        ReActStaysWithinTurns(p, w, maxTurns, think, n);
      }
    }
  }

  /** Where a loop phase that begins with the ReAct slot leaves a step: out of it at the limit on
      turns, back to `think` on an action, and otherwise it goes on to the phase's other slots.
      The thought of the step counts, and an older one only if the step has none. */
  lemma LoopPhaseDecides<X(!new)>(p: Plan<World<X>>, maxTurns: nat, think: nat, loop: nat, more: seq<Slot<World<X>>>,
                                  r: Run<World<X>>)
    requires Distinct(p.phases) && think < loop < |p.phases| && p.phases[think] == "think"
    requires SlotsOf(p, p.phases[loop]) == [ReActSlot(maxTurns)] + more
    requires r.Running? && r.idx == loop && (p.maxBackwardJumps == 0 || r.backward < p.maxBackwardJumps)
    ensures var decisive := if r.world.thought.Some? then r.world.thought else r.world.shared;
      var w := r.world.(shared := decisive);
      if r.turn >= maxTurns then Visit(p, r) == Halted(Interrupted, r.backward, r.turn, w)
      else if decisive == Some(ActionKind) then Visit(p, r) == Running(think, r.backward + 1, r.turn + 1, w)
      else
        && RunSlots(SlotsOf(p, p.phases[loop]), r.world, r.turn, p.phases[loop])
           == RunSlots(more, w, r.turn, p.phases[loop])
        && (more == [] ==> Visit(p, r) == Running(loop + 1, r.backward, r.turn, w))
  {
    ReActSlotRuns(maxTurns, r.world, r.turn, p.phases[loop]);
    assert Position(p.phases, "think") == Some(think);
    assert ([ReActSlot(maxTurns)] + more)[1..] == more;
  }

  lemma {:induction false} SlotsInterrupt<X(!new)>(slots: seq<Slot<World<X>>>, maxTurns: nat, w: World<X>, turn: nat,
                                                   phase: string)
    requires turn >= maxTurns && ReActSlot(maxTurns) in slots
    requires forall slot | slot in slots :: slot == ReActSlot(maxTurns) || Passive(slot)
    ensures RunSlots(slots, w, turn, phase).1 == Stop(Interrupted)
    decreases |slots|
  {
    if slots[0] == ReActSlot(maxTurns) {
      ReActSlotRuns(maxTurns, w, turn, phase);
    } else {
      assert Passive(slots[0]);
      SlotsInterrupt(slots[1..], maxTurns, slots[0].run(w, turn, phase).0, turn, phase);
    }
  }

  /** A run that is interrupted after `k` backward jumps. */
  predicate InterruptedAfter<X>(r: Run<World<X>>, k: nat) {
    r.Halted? && r.outcome == Interrupted && r.backward == r.turn == k
  }

  /** A step that keeps acting is interrupted, and not before the limit on turns is used up,
      if the limit on backward jumps leaves room for it. */
  lemma ActingIsInterrupted<X(!new)>(p: Plan<World<X>>, maxTurns: nat, think: nat, loop: nat, w: World<X>)
    requires PassiveButReAct(p, maxTurns, think, loop) && Acts(w)
    requires p.maxBackwardJumps == 0 || maxTurns <= p.maxBackwardJumps
    ensures exists n: nat :: InterruptedAfter(Visits(p, Start(0, w), n), maxTurns)
  {
    ActingPasses(p, maxTurns, think, loop, w, loop, maxTurns);
    var n: nat :| ActingAt(Visits(p, Start(0, w), n), loop, maxTurns);
    SlotsInterrupt(SlotsOf(p, p.phases[loop]), maxTurns, Visits(p, Start(0, w), n).world, maxTurns, p.phases[loop]);
    assert InterruptedAfter(Visits(p, Start(0, w), n + 1), maxTurns);
  }

  /** The defaults of the slot and of the pipeline fit each other. */
  lemma DefaultsFit<X(!new)>(p: Plan<World<X>>, w: World<X>, think: nat, n: nat)
    requires OnlyReActJumps(p, MaxTurns(None), think) && p.maxBackwardJumps == 10
    ensures ThinkVisits(p, Start(0, w), think, n) <= 11
    ensures Visits(p, Start(0, w), n).Halted? ==> Visits(p, Start(0, w), n).outcome != TooManyBackwardJumps
  {
    ReActStaysWithinTurns(p, w, MaxTurns(None), think, n);
  }

  /** A step without a thought of its own decides as a new slot would if and only if the limit
      is reached or no action is left over: the slot's data area is never cleared. */
  lemma StaleThoughtDecides<X>(w: World<X>, maxTurns: nat, turn: nat, phase: string)
    requires w.thought == None
    ensures ReActSlot(maxTurns).run(w, turn, phase).1 == ReActSlot(maxTurns).run(w.(shared := None), turn, phase).1
      <==> turn >= maxTurns || w.shared != Some(ActionKind)
  {
    ReActSlotRuns(maxTurns, w, turn, phase);
    ReActSlotRuns(maxTurns, w.(shared := None), turn, phase);
  }
}
