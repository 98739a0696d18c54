/** `Pipeline` of core/pipeline.rs: an ordered list of phases with slots in them, and the
    interpreter of the directives the slots return.

    A slot may do anything to the state it can reach (its own fields, the step's context,
    the providers): all of that is the world `W`, and a slot is a function of the world,
    the turn counter and the phase name. It cannot write the turn counter. */
module Pipeline {
  import opened Wrappers

  datatype Directive =
    | Continue
    | BreakPhase
    | BreakStep
    | RestartStep
    | AbortStep
    | AbortPipeline
    | JumpTo(phase: string)

  type SlotResult = Result<Directive, string>

  datatype Slot<!W> = Slot(name: string, run: (W, nat, string) -> (W, SlotResult))

  datatype Outcome =
    | Completed
    | Interrupted
    | RestartRequested
    | SlotFailed(name: string, error: string)
    | StepAborted(name: string)
    | PipelineAborted(name: string, phase: string)
    | TargetNotFound(target: string)
    | TooManyBackwardJumps

  /** Where a phase leaves the interpreter. */
  datatype PhaseEnd = Next | Jump(target: string) | Stop(outcome: Outcome)

  /** The parts of a pipeline that a run reads. */
  datatype Plan<!W> = Plan(phases: seq<string>, slots: map<string, seq<Slot<W>>>, maxBackwardJumps: nat)

  function SlotsOf<W>(p: Plan<W>, phase: string): seq<Slot<W>> {
    if phase in p.slots then p.slots[phase] else []
  }

  function Position(phases: seq<string>, phase: string): (r: Option<nat>)
    ensures r.None? <==> phase !in phases
    ensures r.Some? ==> r.value < |phases| && phases[r.value] == phase && phase !in phases[..r.value]
  {
    if phases == [] then None
    else if phases[0] == phase then Some(0)
    else
      var later := Position(phases[1..], phase);
      if later.None? then None
      else
        assert phases[..later.value + 1] == [phases[0]] + phases[1..][..later.value];
        Some(later.value + 1)
  }

  ghost predicate Distinct(phases: seq<string>) {
    forall i, j | 0 <= i < j < |phases| :: phases[i] != phases[j]
  }

  function Without(phases: seq<string>, phase: string): seq<string> {
    if phases == [] then []
    else if phases[0] == phase then Without(phases[1..], phase)
    else [phases[0]] + Without(phases[1..], phase)
  }

  lemma {:induction false} WithoutIsDistinct(phases: seq<string>, phase: string)
    requires Distinct(phases)
    ensures Distinct(Without(phases, phase)) && forall p :: p in Without(phases, phase) <==> p in phases && p != phase
  {
    if phases != [] {
      WithoutIsDistinct(phases[1..], phase);
      assert phases[0] !in phases[1..];
    }
  }

  /** Removing a phase undoes inserting it, wherever it was inserted. */
  lemma {:induction false} RemovalUndoesInsertion(phases: seq<string>, phase: string, pos: nat)
    requires phase !in phases && pos <= |phases|
    ensures Without(phases[..pos] + [phase] + phases[pos..], phase) == phases
    decreases |phases|
  {
    var longer := phases[..pos] + [phase] + phases[pos..];
    if pos == 0 {
      assert longer == [phase] + phases;
      WithoutAbsent(phases, phase);
    } else {
      assert longer[1..] == phases[1..][..pos - 1] + [phase] + phases[1..][pos - 1..];
      RemovalUndoesInsertion(phases[1..], phase, pos - 1);
    }
  }

  lemma {:induction false} WithoutAbsent(phases: seq<string>, phase: string)
    requires phase !in phases
    ensures Without(phases, phase) == phases
  {
    if phases != [] {
      WithoutAbsent(phases[1..], phase);
    }
  }

  function EndFor(slot: string, phase: string, directive: Directive): PhaseEnd
    requires !directive.Continue?
  {
    match directive
    case BreakPhase => Next
    case BreakStep => Stop(Interrupted)
    case RestartStep => Stop(RestartRequested)
    case AbortStep => Stop(StepAborted(slot))
    case AbortPipeline => Stop(PipelineAborted(slot, phase))
    case JumpTo(target) => Jump(target)
  }

  /** The slots of a phase, in order, until one of them ends the phase. */
  function RunSlots<W>(slots: seq<Slot<W>>, w: W, turn: nat, phase: string): (W, PhaseEnd)
    decreases |slots|
  {
    if slots == [] then (w, Next)
    else
      var (w', result) := slots[0].run(w, turn, phase);
      match result
      case Err(error) => (w', Stop(SlotFailed(slots[0].name, error)))
      case Ok(directive) =>
        if directive.Continue? then RunSlots(slots[1..], w', turn, phase)
        else (w', EndFor(slots[0].name, phase, directive))
  }

  /** A run between two phases; `Halted` keeps the counters it ended with. */
  datatype Run<W> =
    | Running(idx: nat, backward: nat, turn: nat, world: W)
    | Halted(outcome: Outcome, backward: nat, turn: nat, world: W)

  function Start<W>(turn: nat, w: W): Run<W> {
    Running(0, 0, turn, w)
  }

  /** One iteration of the loop over the phases. */
  function Visit<W>(p: Plan<W>, r: Run<W>): Run<W> {
    if r.Halted? then r
    else if r.idx >= |p.phases| then Halted(Completed, r.backward, r.turn, r.world)
    else
      var phase := p.phases[r.idx];
      var (w, end) := RunSlots(SlotsOf(p, phase), r.world, r.turn, phase);
      match end
      case Next => Running(r.idx + 1, r.backward, r.turn, w)
      case Stop(outcome) => Halted(outcome, r.backward, r.turn, w)
      case Jump(target) =>
        var pos := Position(p.phases, target);
        if pos.None? then Halted(TargetNotFound(target), r.backward, r.turn, w)
        else if pos.value < r.idx then
          if p.maxBackwardJumps > 0 && r.backward + 1 > p.maxBackwardJumps
          then Halted(TooManyBackwardJumps, r.backward + 1, r.turn + 1, w)
          else Running(pos.value, r.backward + 1, r.turn + 1, w)
        else Running(pos.value, r.backward, r.turn, w)
  }

  function Visits<W>(p: Plan<W>, r: Run<W>, n: nat): Run<W> {
    if n == 0 then r else Visit(p, Visits(p, r, n - 1))
  }

  /** The run is over after `n` turns of the loop, the last of which finds no phase left. */
  predicate HaltsWithin<W>(p: Plan<W>, r: Run<W>, n: nat) {
    Visits(p, r, n).Halted?
  }

  lemma {:induction false} VisitsFromNext<W>(p: Plan<W>, r: Run<W>, n: nat)
    ensures Visits(p, Visit(p, r), n) == Visits(p, r, n + 1)
  {
    if n > 0 {
      VisitsFromNext(p, r, n - 1);
    }
  }

  lemma {:induction false} HaltedStays<W>(p: Plan<W>, r: Run<W>, n: nat)
    requires r.Halted?
    ensures Visits(p, r, n) == r
  {
    if n > 0 {
      HaltedStays(p, r, n - 1);
    }
  }

  class Pipeline<!W> {
    var phases: seq<string>
    var slots: map<string, seq<Slot<W>>>
    var order: map<string, seq<nat>>
    var nextId: nat
    var maxBackwardJumps: nat

    ghost predicate Valid()
      reads this
    {
      && Distinct(phases)
      && slots.Keys == order.Keys
      && forall phase | phase in slots :: |slots[phase]| == |order[phase]|
    }

    function PlanOf(): Plan<W>
      reads this
    {
      Plan(phases, slots, maxBackwardJumps)
    }

    constructor ()
      ensures Valid() && PlanOf() == Plan([], map[], 10)
    {
      phases, slots, order, nextId, maxBackwardJumps := [], map[], map[], 0, 10;
    }

    method AddPhase(phase: string)
      requires Valid()
      modifies this
      ensures Valid() && slots == old(slots) && maxBackwardJumps == old(maxBackwardJumps)
      ensures phases == if phase in old(phases) then old(phases) else old(phases) + [phase]
    {
      if phase !in phases {
        phases := phases + [phase];
      }
    }

    method InsertPhaseBefore(target: string, phase: string)
      requires Valid()
      modifies this
      ensures Valid() && slots == old(slots) && maxBackwardJumps == old(maxBackwardJumps)
      ensures phases ==
        if target !in old(phases) || phase in old(phases) then old(phases)
        else var pos := Position(old(phases), target).value; old(phases)[..pos] + [phase] + old(phases)[pos..]
    {
      var pos := Position(phases, target);
      if pos.Some? && phase !in phases {
        phases := phases[..pos.value] + [phase] + phases[pos.value..];
      }
    }

    method InsertPhaseAfter(target: string, phase: string)
      requires Valid()
      modifies this
      ensures Valid() && slots == old(slots) && maxBackwardJumps == old(maxBackwardJumps)
      ensures phases ==
        if target !in old(phases) || phase in old(phases) then old(phases)
        else var pos := Position(old(phases), target).value + 1; old(phases)[..pos] + [phase] + old(phases)[pos..]
    {
      var pos := Position(phases, target);
      if pos.Some? && phase !in phases {
        phases := phases[..pos.value + 1] + [phase] + phases[pos.value + 1..];
      }
    }

    /** A removed phase takes its slots with it. */
    method RemovePhase(phase: string)
      requires Valid()
      modifies this
      ensures Valid() && maxBackwardJumps == old(maxBackwardJumps)
      ensures phases == Without(old(phases), phase) && slots == old(slots) - {phase}
    {
      WithoutIsDistinct(phases, phase);
      phases := Without(phases, phase);
      slots := slots - {phase};
      order := order - {phase};
    }

    method WithMaxBackwardJumps(n: nat)
      requires Valid()
      modifies this
      ensures Valid() && phases == old(phases) && slots == old(slots) && maxBackwardJumps == n
    {
      maxBackwardJumps := n;
    }

    method AddSlot(phase: string, slot: Slot<W>)
      requires Valid()
      modifies this
      ensures Valid() && phases == old(phases) && maxBackwardJumps == old(maxBackwardJumps)
      ensures slots == old(slots)[phase := SlotsOf(old(PlanOf()), phase) + [slot]]
    {
      var id := nextId;
      nextId := nextId + 1;
      slots := slots[phase := (if phase in slots then slots[phase] else []) + [slot]];
      order := order[phase := (if phase in order then order[phase] else []) + [id]];
    }

    /** `run`: see `Interpret`. */
    method RunStep(w0: W, turn0: nat, ghost bound: nat) returns (outcome: Outcome, w: W, turn: nat, backward: nat)
      requires HaltsWithin(PlanOf(), Start(turn0, w0), bound)
      ensures Halted(outcome, backward, turn, w) == Visits(PlanOf(), Start(turn0, w0), bound)
    {
      outcome, w, turn, backward := Interpret(PlanOf(), w0, turn0, bound);
    }
  }

  /** The interpreter loop. A run of the source that never ends has no result, so the
      caller owes a bound on the visits; the bound plays no other part. */
  method Interpret<W>(p: Plan<W>, w0: W, turn0: nat, ghost bound: nat)
    returns (outcome: Outcome, w: W, turn: nat, backward: nat)
    requires HaltsWithin(p, Start(turn0, w0), bound)
    ensures Halted(outcome, backward, turn, w) == Visits(p, Start(turn0, w0), bound)
  {
    var phaseIdx: nat := 0;
    w, turn, backward := w0, turn0, 0;
    var jumped := false;
    ghost var goal := Visits(p, Start(turn0, w0), bound);
    ghost var left: nat := bound;
    while phaseIdx < |p.phases|
      invariant !jumped
      invariant Visits(p, Running(phaseIdx, backward, turn, w), left) == goal
      decreases left
    {
      left := OneVisit(p, Running(phaseIdx, backward, turn, w), left);
      var phase := p.phases[phaseIdx];
      if phase !in p.slots {
        phaseIdx := phaseIdx + 1;
        continue;
      }
      var end: PhaseEnd;
      w, end := RunPhase(p.slots[phase], w, turn, phase);
      if end.Stop? {
        HaltedStays(p, Halted(end.outcome, backward, turn, w), left);
        return end.outcome, w, turn, backward;
      }
      if end.Jump? {
        var pos := Position(p.phases, end.target);
        if pos.None? {
          HaltedStays(p, Halted(TargetNotFound(end.target), backward, turn, w), left);
          return TargetNotFound(end.target), w, turn, backward;
        }
        if pos.value < phaseIdx {
          backward := backward + 1;
          turn := turn + 1;
          if p.maxBackwardJumps > 0 && backward > p.maxBackwardJumps {
            HaltedStays(p, Halted(TooManyBackwardJumps, backward, turn, w), left);
            return TooManyBackwardJumps, w, turn, backward;
          }
        }
        phaseIdx := pos.value;
        jumped := true;
      }
      if !jumped {
        phaseIdx := phaseIdx + 1;
      }
      jumped := false;
    }
    outcome := Completed;
    left := OneVisit(p, Running(phaseIdx, backward, turn, w), left);
    HaltedStays(p, Halted(Completed, backward, turn, w), left);
  }

  lemma OneVisit<W>(p: Plan<W>, r: Run<W>, n: nat) returns (left: nat)
    requires r.Running? && Visits(p, r, n).Halted?
    ensures left < n && Visits(p, Visit(p, r), left) == Visits(p, r, n)
  {
    left := n - 1;
    VisitsFromNext(p, r, left);
  }

  /** The loop over the slots of one phase. */
  method RunPhase<W>(slots: seq<Slot<W>>, w0: W, turn: nat, phase: string) returns (w: W, end: PhaseEnd)
    ensures (w, end) == RunSlots(slots, w0, turn, phase)
  {
    w := w0;
    var left := slots;
    while left != []
      invariant RunSlots(left, w, turn, phase) == RunSlots(slots, w0, turn, phase)
      decreases |left|
    {
      var slot := left[0];
      left := left[1..];
      var (w', result) := slot.run(w, turn, phase);
      w := w';
      match result {
        case Err(error) => return w, Stop(SlotFailed(slot.name, error));
        case Ok(Continue) =>
        case Ok(BreakPhase) => return w, Next;
        case Ok(BreakStep) => return w, Stop(Interrupted);
        case Ok(RestartStep) => return w, Stop(RestartRequested);
        case Ok(AbortStep) => return w, Stop(StepAborted(slot.name));
        case Ok(AbortPipeline) => return w, Stop(PipelineAborted(slot.name, phase));
        case Ok(JumpTo(target)) => return w, Jump(target);
      }
    }
    end := Next;
  }
}
