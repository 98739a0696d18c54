/** What every run of a pipeline keeps, and when a run must end. */
module PipelineRuns {
  import opened Pipeline
  import opened Wrappers

  // What a visit does, by the slots' answers.

  /** The world before slot `k`, when the slots before it have run. */
  function WorldBefore<W>(slots: seq<Slot<W>>, w: W, turn: nat, phase: string, k: nat): W
    requires k <= |slots|
  {
    if k == 0 then w else slots[k - 1].run(WorldBefore(slots, w, turn, phase, k - 1), turn, phase).0
  }

  function AnswerOf<W>(slots: seq<Slot<W>>, w: W, turn: nat, phase: string, k: nat): (W, SlotResult)
    requires k < |slots|
  {
    slots[k].run(WorldBefore(slots, w, turn, phase, k), turn, phase)
  }

  /** The slots before slot `k` all let the phase go on. */
  ghost predicate GoOn<W>(slots: seq<Slot<W>>, w: W, turn: nat, phase: string, k: nat)
    requires k <= |slots|
  {
    forall j | 0 <= j < k :: AnswerOf(slots, w, turn, phase, j).1 == Ok(Continue)
  }

  lemma {:induction false} WorldAfterFirst<W>(slots: seq<Slot<W>>, w: W, turn: nat, phase: string, k: nat)
    requires 0 < k <= |slots|
    ensures WorldBefore(slots, w, turn, phase, k)
      == WorldBefore(slots[1..], slots[0].run(w, turn, phase).0, turn, phase, k - 1)
    decreases k
  {
    if k > 1 {
      WorldAfterFirst(slots, w, turn, phase, k - 1);
      assert slots[1..][k - 2] == slots[k - 1];
    }
  }

  lemma {:induction false} RunSkips<W>(slots: seq<Slot<W>>, w: W, turn: nat, phase: string, k: nat)
    requires k <= |slots| && GoOn(slots, w, turn, phase, k)
    ensures RunSlots(slots, w, turn, phase) == RunSlots(slots[k..], WorldBefore(slots, w, turn, phase, k), turn, phase)
    decreases k
  {
    if k == 0 {
      assert slots[0..] == slots;
    } else {
      var w1 := slots[0].run(w, turn, phase).0;
      assert AnswerOf(slots, w, turn, phase, 0).1 == Ok(Continue);
      forall j | 0 <= j < k - 1
        ensures AnswerOf(slots[1..], w1, turn, phase, j).1 == Ok(Continue)
      {
        WorldAfterFirst(slots, w, turn, phase, j + 1);
        assert slots[1..][j] == slots[j + 1];
        assert AnswerOf(slots, w, turn, phase, j + 1).1 == Ok(Continue);
      }
      RunSkips(slots[1..], w1, turn, phase, k - 1);
      WorldAfterFirst(slots, w, turn, phase, k);
      assert slots[1..][k - 1..] == slots[k..];
    }
  }

  /** Where a visit at phase `idx` leaves the run when `directive` is the first answer other
      than `Continue`. */
  ghost predicate Obeyed<W>(p: Plan<W>, r: Run<W>, slot: string, directive: Directive, w: W, next: Run<W>)
    requires r.Running? && r.idx < |p.phases|
  {
    match directive
    case Continue => false
    case BreakPhase => next == Running(r.idx + 1, r.backward, r.turn, w)
    case BreakStep => next == Halted(Interrupted, r.backward, r.turn, w)
    case RestartStep => next == Halted(RestartRequested, r.backward, r.turn, w)
    case AbortStep => next == Halted(StepAborted(slot), r.backward, r.turn, w)
    case AbortPipeline => next == Halted(PipelineAborted(slot, p.phases[r.idx]), r.backward, r.turn, w)
    case JumpTo(target) =>
      && (target !in p.phases ==> next == Halted(TargetNotFound(target), r.backward, r.turn, w))
      && forall pos | 0 <= pos < |p.phases| && p.phases[pos] == target && target !in p.phases[..pos] ::
           if pos >= r.idx then next == Running(pos, r.backward, r.turn, w)
           else if 0 < p.maxBackwardJumps <= r.backward
           then next == Halted(TooManyBackwardJumps, r.backward + 1, r.turn + 1, w)
           else next == Running(pos, r.backward + 1, r.turn + 1, w)
  }

  /** The first slot of the phase that fails or does not continue decides where the run goes,
      and the slots after it are not run; if there is none, the next phase comes. */
  lemma FirstAnswerDecides<W>(p: Plan<W>, r: Run<W>, k: nat)
    requires r.Running? && r.idx < |p.phases|
    requires var slots := SlotsOf(p, p.phases[r.idx]);
      k <= |slots| && GoOn(slots, r.world, r.turn, p.phases[r.idx], k)
    ensures var phase := p.phases[r.idx];
      var slots := SlotsOf(p, phase);
      if k == |slots| then
        Visit(p, r) == Running(r.idx + 1, r.backward, r.turn, WorldBefore(slots, r.world, r.turn, phase, k))
      else
        var (w, answer) := AnswerOf(slots, r.world, r.turn, phase, k);
        match answer
        case Err(error) => Visit(p, r) == Halted(SlotFailed(slots[k].name, error), r.backward, r.turn, w)
        case Ok(directive) => directive == Continue || Obeyed(p, r, slots[k].name, directive, w, Visit(p, r))
  {
    var phase := p.phases[r.idx];
    var slots := SlotsOf(p, phase);
    RunSkips(slots, r.world, r.turn, phase, k);
    if k < |slots| {
      var (w, answer) := AnswerOf(slots, r.world, r.turn, phase, k);
      assert slots[k..][0] == slots[k];
      if answer.Ok? && answer.value.JumpTo? {
        var target := answer.value.phase;
        forall pos | 0 <= pos < |p.phases| && p.phases[pos] == target && target !in p.phases[..pos]
          ensures Position(p.phases, target) == Some(pos)
        {
          FirstPosition(p.phases, target, pos);
        }
      }
    }
  }

  lemma FirstPosition(phases: seq<string>, phase: string, pos: nat)
    requires pos < |phases| && phases[pos] == phase && phase !in phases[..pos]
    ensures Position(phases, phase) == Some(pos)
  {
    var found := Position(phases, phase).value;
    assert forall i | 0 <= i < pos :: phases[i] in phases[..pos];
    assert forall i | 0 <= i < found :: phases[i] in phases[..found];
  }

  // When a run must end.

  /** No slot of a phase jumps to that phase. */
  ghost predicate NoSelfJump<W(!new)>(p: Plan<W>) {
    forall phase, w, turn: nat, slot | phase in p.phases && slot in SlotsOf(p, phase) ::
      slot.run(w, turn, phase).1 != Ok(JumpTo(phase))
  }

  lemma {:induction false} SlotsJumpElsewhere<W(!new)>(p: Plan<W>, slots: seq<Slot<W>>, w: W, turn: nat, phase: string)
    requires NoSelfJump(p) && phase in p.phases
    requires forall slot | slot in slots :: slot in SlotsOf(p, phase)
    ensures RunSlots(slots, w, turn, phase).1 != Jump(phase)
    ensures RunSlots(slots, w, turn, phase).1 != Stop(TooManyBackwardJumps)
    decreases |slots|
  {
    if slots != [] {
      var slot := slots[0];
      assert slot in SlotsOf(p, phase);
      var (w', result) := slot.run(w, turn, phase);
      SlotsJumpElsewhere(p, slots[1..], w', turn, phase);
    }
  }

  /** `k` passes over `n` phases. */
  function Passes(k: nat, n: nat): nat {
    if k == 0 then 0 else n + Passes(k - 1, n)
  }

  lemma {:induction false} PassesMultiply(k: nat, n: nat)
    ensures Passes(k, n) == k * n
  {
    if k > 0 {
      PassesMultiply(k - 1, n);
      assert k * n == (k - 1) * n + n;
    }
  }

  /** What a run has left: a whole pass for each backward jump the budget still allows,
      and the phases to the end of this pass. */
  function Remaining<W>(p: Plan<W>, r: Run<W>): nat
    requires r.Running? && r.idx <= |p.phases| && r.backward <= p.maxBackwardJumps
  {
    Passes(p.maxBackwardJumps - r.backward, |p.phases|) + |p.phases| - r.idx
  }

  ghost predicate InBudget<W>(p: Plan<W>, r: Run<W>, turn0: nat) {
    && r.turn == turn0 + r.backward
    && (r.Running? ==> r.idx <= |p.phases| && r.backward <= p.maxBackwardJumps)
    && (r.Halted? ==> r.backward <= p.maxBackwardJumps + 1)
    && (r.Halted? && r.backward > p.maxBackwardJumps ==> r.outcome == TooManyBackwardJumps)
    && (r.Halted? && r.outcome == TooManyBackwardJumps ==> r.backward > p.maxBackwardJumps)
  }

  /** The heart of the termination argument: a visit moves forward in the pass, or spends a
      backward jump. */
  lemma VisitProgresses<W(!new)>(p: Plan<W>, r: Run<W>, turn0: nat)
    requires Distinct(p.phases) && NoSelfJump(p) && p.maxBackwardJumps > 0
    requires r.Running? && InBudget(p, r, turn0)
    ensures var next := Visit(p, r);
      && InBudget(p, next, turn0)
      && (next.Running? ==>
            || (next.backward == r.backward && next.idx > r.idx)
            || next.backward == r.backward + 1)
  {
    if r.idx < |p.phases| {
      var phase := p.phases[r.idx];
      SlotsJumpElsewhere(p, SlotsOf(p, phase), r.world, r.turn, phase);
    }
  }

  lemma RemainingShrinks<W(!new)>(p: Plan<W>, r: Run<W>, turn0: nat)
    requires Distinct(p.phases) && NoSelfJump(p) && p.maxBackwardJumps > 0
    requires r.Running? && InBudget(p, r, turn0)
    ensures var next := Visit(p, r);
      next.Running? ==> InBudget(p, next, turn0) && Remaining(p, next) < Remaining(p, r)
    ensures r.idx == |p.phases| ==> Visit(p, r).Halted?
  {
    VisitProgresses(p, r, turn0);
  }

  /** After `n` turns of the loop a run is over, or has used up that much of what it had. */
  ghost predicate Progress<W>(p: Plan<W>, r: Run<W>, turn0: nat, n: nat) {
    && InBudget(p, r, turn0)
    && (r.Running? ==> Remaining(p, r) + n <= Passes(p.maxBackwardJumps + 1, |p.phases|))
  }

  lemma ProgressStep<W(!new)>(p: Plan<W>, r: Run<W>, turn0: nat, n: nat)
    requires Distinct(p.phases) && NoSelfJump(p) && p.maxBackwardJumps > 0
    requires Progress(p, r, turn0, n)
    ensures Progress(p, Visit(p, r), turn0, n + 1)
  {
    if r.Running? {
      VisitProgresses(p, r, turn0);
      RemainingShrinks(p, r, turn0);
    }
  }

  lemma {:induction false} RunProgresses<W(!new)>(p: Plan<W>, w: W, turn0: nat, n: nat)
    requires Distinct(p.phases) && NoSelfJump(p) && p.maxBackwardJumps > 0
    ensures Progress(p, Visits(p, Start(turn0, w), n), turn0, n)
  {
    if n > 0 {
      RunProgresses(p, w, turn0, n - 1);
      ProgressStep(p, Visits(p, Start(turn0, w), n - 1), turn0, n - 1);
    }
  }

  /** A pipeline of `n` phases with backward-jump limit `B` visits at most `(B + 1) * n`
      phases: the loop runs once more at most, to find that no phase is left. The turn
      counter has moved by exactly the backward jumps taken, the one that ended the run
      included. */
  lemma RunsEnd<W(!new)>(p: Plan<W>, w: W, turn0: nat)
    requires Distinct(p.phases) && NoSelfJump(p) && p.maxBackwardJumps > 0
    ensures var most := (p.maxBackwardJumps + 1) * |p.phases|;
      && HaltsWithin(p, Start(turn0, w), most + 1)
      && InBudget(p, Visits(p, Start(turn0, w), most + 1), turn0)
      && (var r := Visits(p, Start(turn0, w), most); r.Running? ==> r.idx == |p.phases|)
  {
    var most := Passes(p.maxBackwardJumps + 1, |p.phases|);
    RunProgresses(p, w, turn0, most);
    RunProgresses(p, w, turn0, most + 1);
    PassesMultiply(p.maxBackwardJumps + 1, |p.phases|);
  }

  // Both conditions are needed.

  function Always(directive: Directive): Slot<()> {
    Slot("always", (w: (), turn: nat, phase: string) => ((), Ok(directive)))
  }

  /** A slot that jumps to its own phase is never charged, whatever the limit. */
  lemma {:induction false} SelfJumpRunsForever(limit: nat, turn0: nat, n: nat)
    ensures var p := Plan(["think"], map["think" := [Always(JumpTo("think"))]], limit);
      Visits(p, Start(turn0, ()), n) == Running(0, 0, turn0, ())
  {
    if n > 0 {
      SelfJumpRunsForever(limit, turn0, n - 1);
    }
  }

  lemma {:induction false} VisitsAdd<W>(p: Plan<W>, r: Run<W>, a: nat, b: nat)
    ensures Visits(p, Visits(p, r, a), b) == Visits(p, r, a + b)
  {
    if b > 0 {
      VisitsAdd(p, r, a, b - 1);
    }
  }

  /** A lap of two visits, again and again. */
  lemma {:induction false} Laps<W>(p: Plan<W>, lap: nat -> Run<W>, n: nat)
    requires forall k: nat | k < n :: Visits(p, lap(k), 2) == lap(k + 1)
    ensures Visits(p, lap(0), 2 * n) == lap(n)
  {
    if n > 0 {
      Laps(p, lap, n - 1);
      VisitsAdd(p, lap(0), 2 * (n - 1), 2);
    }
  }

  function Unlimited(): Plan<()> {
    Plan(["think", "loop"], map["loop" := [Always(JumpTo("think"))]], 0)
  }

  lemma UnlimitedLap(k: nat, turn: nat)
    ensures Visits(Unlimited(), Running(0, k, turn, ()), 2) == Running(0, k + 1, turn + 1, ())
  {
    var p, r := Unlimited(), Running(0, k, turn, ());
    assert Visit(p, r) == Running(1, k, turn, ());
    assert Visits(p, r, 2) == Visit(p, Visits(p, r, 1)) && Visits(p, r, 1) == Visit(p, Visits(p, r, 0));
  }

  /** With limit 0 backward jumps are counted but not limited. */
  lemma NoLimitRunsForever(turn0: nat, n: nat)
    ensures Visits(Unlimited(), Start(turn0, ()), 2 * n) == Running(0, n, turn0 + n, ())
  {
    var lap: nat -> Run<()> := (k: nat) => Running(0, k, turn0 + k, ());
    forall k: nat | k < n
      ensures Visits(Unlimited(), lap(k), 2) == lap(k + 1)
    {
      UnlimitedLap(k, turn0 + k);
    }
    Laps(Unlimited(), lap, n);
  }
}
