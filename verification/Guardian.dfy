/** `DefaultSecurityPolicyEngine` of plugins/services/security/engine.rs: a chain of guardians
    evaluated by priority. A guardian is a name, a switch, a priority and its verdict on a
    request of type `Q`. */
module Guardian {
  import opened Sorting
  import opened Wrappers

  /** A priority is an `i32`. */
  type Priority = x: int | -0x8000_0000 <= x < 0x8000_0000

  datatype GuardResult = Deny(reason: string) | Allow | Guard(finding: string) | Approve(timeout: nat, prompt: string)

  datatype Guardian<!Q> = Guardian(name: string, enabled: bool, priority: Priority, evaluate: Q -> Option<GuardResult>)

  datatype Approval = Approval(timeout: nat, prompt: string)

  datatype Decision =
    | Denied(reason: string)
    | Allowed
    | Guarded(findings: seq<string>)
    | NeedsApproval(approval: Approval)

  datatype Strategy = First | Strictest

  datatype Config = Config(defaultDecision: Decision, strategy: Strategy)

  const LEAST: Priority := -0x8000_0000

  /** `-priority` in 32 bits, which leaves the least `i32` as it is. */
  function Negated(p: Priority): Priority {
    if p == LEAST then p else -p
  }

  function SortKey<Q>(): Guardian<Q> -> real {
    (g: Guardian<Q>) => Negated(g.priority) as real
  }

  function Enabled<Q>(): Guardian<Q> -> bool {
    (g: Guardian<Q>) => g.enabled
  }

  /** The enabled guardians in the order they are asked. */
  function Active<Q>(guardians: seq<Guardian<Q>>): seq<Guardian<Q>> {
    StableSort(Filter(guardians, Enabled<Q>()), SortKey<Q>())
  }

  /** The guardians that `register_guardian` keeps, after registering `registered` in turn. */
  function Chain<Q>(registered: seq<Guardian<Q>>): seq<Guardian<Q>> {
    StableSort(registered, SortKey<Q>())
  }

  // Merging approvals.

  function StrictestOf(best: Approval, approvals: seq<Approval>): Approval
    decreases |approvals|
  {
    if approvals == [] then best
    else StrictestOf(if approvals[0].timeout < best.timeout then approvals[0] else best, approvals[1..])
  }

  function Merged(cfg: Config, approvals: seq<Approval>): Decision {
    if approvals == [] then cfg.defaultDecision
    else if cfg.strategy.First? then NeedsApproval(approvals[0])
    else NeedsApproval(StrictestOf(approvals[0], approvals[1..]))
  }

  method MergeApproveDecisions(cfg: Config, approvals: seq<Approval>) returns (d: Decision)
    ensures d == Merged(cfg, approvals)
  {
    if approvals == [] {
      return cfg.defaultDecision;
    }
    if cfg.strategy.First? {
      return NeedsApproval(approvals[0]);
    }
    var strictest: Option<Approval> := None;
    var left := approvals;
    while left != []
      invariant strictest.None? ==> left == approvals
      invariant strictest.Some? ==> StrictestOf(strictest.value, left) == StrictestOf(approvals[0], approvals[1..])
      decreases |left|
    {
      var a := left[0];
      if strictest.None? || a.timeout < strictest.value.timeout {
        strictest := Some(a);
      }
      left := left[1..];
    }
    return NeedsApproval(strictest.value);
  }

  lemma {:induction false} StrictestFrom(best: Approval, approvals: seq<Approval>) returns (m: int)
    ensures -1 <= m < |approvals|
    ensures StrictestOf(best, approvals) == if m == -1 then best else approvals[m]
    ensures StrictestOf(best, approvals).timeout <= best.timeout
    ensures m >= 0 ==> StrictestOf(best, approvals).timeout < best.timeout
    ensures forall j | 0 <= j < |approvals| :: StrictestOf(best, approvals).timeout <= approvals[j].timeout
    ensures forall j | 0 <= j < m :: StrictestOf(best, approvals).timeout < approvals[j].timeout
    decreases |approvals|
  {
    if approvals == [] {
      m := -1;
    } else {
      var first := approvals[0];
      var best' := if first.timeout < best.timeout then first else best;
      var n := StrictestFrom(best', approvals[1..]);
      m := if n >= 0 then n + 1 else if first.timeout < best.timeout then 0 else -1;
      assert forall j | 0 < j < |approvals| :: approvals[j] == approvals[1..][j - 1];
    }
  }

  /** `Strictest` takes the earliest of the approvals with the least timeout. */
  lemma StrictestIsEarliestLeast(cfg: Config, approvals: seq<Approval>) returns (m: nat)
    requires approvals != [] && cfg.strategy.Strictest?
    ensures m < |approvals| && Merged(cfg, approvals) == NeedsApproval(approvals[m])
    ensures forall j | 0 <= j < |approvals| :: approvals[m].timeout <= approvals[j].timeout
    ensures forall j | 0 <= j < m :: approvals[m].timeout < approvals[j].timeout
  {
    var n := StrictestFrom(approvals[0], approvals[1..]);
    m := n + 1;
    assert forall j | 0 < j < |approvals| :: approvals[j] == approvals[1..][j - 1];
  }

  // Evaluation.

  /** The decision of the guardians that are left, from what has been collected. */
  function Judge<Q>(cfg: Config, q: Q, order: seq<Guardian<Q>>, findings: seq<string>, approvals: seq<Approval>): Decision
    decreases |order|
  {
    if order == [] then
      if approvals != [] then Merged(cfg, approvals)
      else if findings != [] then Guarded(findings)
      else cfg.defaultDecision
    else
      var result := order[0].evaluate(q);
      if result.None? then Judge(cfg, q, order[1..], findings, approvals)
      else
        match result.value
        case Deny(reason) => Denied(reason)
        case Allow => Allowed
        case Guard(finding) => Judge(cfg, q, order[1..], findings + [finding], approvals)
        case Approve(timeout, prompt) => Judge(cfg, q, order[1..], findings, approvals + [Approval(timeout, prompt)])
  }

  function Decide<Q>(cfg: Config, q: Q, registered: seq<Guardian<Q>>): Decision {
    Judge(cfg, q, Active(registered), [], [])
  }

  class Engine<Q> {
    const config: Config
    var guardians: seq<Guardian<Q>>
    ghost var registered: seq<Guardian<Q>>

    ghost predicate Valid()
      reads this
    {
      guardians == Chain(registered)
    }

    constructor (config: Config)
      ensures Valid() && this.config == config && registered == []
    {
      this.config := config;
      guardians, registered := [], [];
    }

    method RegisterGuardian(g: Guardian<Q>)
      requires Valid()
      modifies this
      ensures Valid() && registered == old(registered) + [g]
    {
      SortAfterPush(registered, g, SortKey<Q>());
      guardians := StableSort(guardians + [g], SortKey<Q>());
      registered := registered + [g];
    }

    method Evaluate(q: Q) returns (d: Decision)
      requires Valid()
      ensures d == Decide(config, q, registered)
    {
      SortOfFilter(registered, Enabled<Q>(), SortKey<Q>());
      d := Walk(config, q, Active(guardians));
    }
  }

  /** The loop over the active guardians. */
  method Walk<Q>(cfg: Config, q: Q, active: seq<Guardian<Q>>) returns (d: Decision)
    ensures d == Judge(cfg, q, active, [], [])
  {
    var findings: seq<string> := [];
    var approvals: seq<Approval> := [];
    var left := active;
    while |left| > 0
      invariant Judge(cfg, q, left, findings, approvals) == Judge(cfg, q, active, [], [])
      decreases |left|
    {
      var result := left[0].evaluate(q);
      left := left[1..];
      match result
      case None =>
      case Some(Deny(reason)) => return Denied(reason);
      case Some(Allow) => return Allowed;
      case Some(Guard(finding)) => findings := findings + [finding];
      case Some(Approve(timeout, prompt)) => approvals := approvals + [Approval(timeout, prompt)];
    }
    if approvals != [] {
      d := MergeApproveDecisions(cfg, approvals);
    } else if findings != [] {
      d := Guarded(findings);
    } else {
      d := cfg.defaultDecision;
    }
  }

  // The rule the chain follows, without the loop.

  predicate Decisive<Q>(g: Guardian<Q>, q: Q) {
    var r := g.evaluate(q);
    r.Some? && (r.value.Deny? || r.value.Allow?)
  }

  function Outcome<Q>(g: Guardian<Q>, q: Q): Decision
    requires Decisive(g, q)
  {
    var r := g.evaluate(q).value;
    if r.Deny? then Denied(r.reason) else Allowed
  }

  function FindingIn(r: Option<GuardResult>): seq<string> {
    if r.Some? && r.value.Guard? then [r.value.finding] else []
  }

  function ApprovalIn(r: Option<GuardResult>): seq<Approval> {
    if r.Some? && r.value.Approve? then [Approval(r.value.timeout, r.value.prompt)] else []
  }

  function FindingsOf<Q>(order: seq<Guardian<Q>>, q: Q): seq<string> {
    if order == [] then [] else FindingIn(order[0].evaluate(q)) + FindingsOf(order[1..], q)
  }

  function ApprovalsOf<Q>(order: seq<Guardian<Q>>, q: Q): seq<Approval> {
    if order == [] then [] else ApprovalIn(order[0].evaluate(q)) + ApprovalsOf(order[1..], q)
  }

  lemma JudgeStep<Q>(cfg: Config, q: Q, order: seq<Guardian<Q>>, findings: seq<string>, approvals: seq<Approval>)
    requires order != [] && !Decisive(order[0], q)
    ensures var r := order[0].evaluate(q);
      Judge(cfg, q, order, findings, approvals)
      == Judge(cfg, q, order[1..], findings + FindingIn(r), approvals + ApprovalIn(r))
  {
    assert findings + [] == findings && approvals + [] == approvals;
  }

  /** The first guardian that denies or allows decides, whatever the others find. */
  lemma {:induction false} FirstDecisiveDecides<Q>(cfg: Config, q: Q, order: seq<Guardian<Q>>, i: nat,
                                                   findings: seq<string>, approvals: seq<Approval>)
    requires i < |order| && Decisive(order[i], q) && forall j | 0 <= j < i :: !Decisive(order[j], q)
    ensures Judge(cfg, q, order, findings, approvals) == Outcome(order[i], q)
    decreases i
  {
    if i > 0 {
      var r := order[0].evaluate(q);
      assert order[1..][i - 1] == order[i];
      assert forall j | 0 <= j < i - 1 :: order[1..][j] == order[j + 1];
      JudgeStep(cfg, q, order, findings, approvals);
      FirstDecisiveDecides(cfg, q, order[1..], i - 1, findings + FindingIn(r), approvals + ApprovalIn(r));
    }
  }

  function Undecided(cfg: Config, findings: seq<string>, approvals: seq<Approval>): Decision {
    if approvals != [] then Merged(cfg, approvals)
    else if findings != [] then Guarded(findings)
    else cfg.defaultDecision
  }

  lemma Regroup<T>(a: seq<T>, b: seq<T>, c: seq<T>)
    ensures a + b + c == a + (b + c)
  {
  }

  lemma {:induction false} NobodyDecides<Q>(cfg: Config, q: Q, order: seq<Guardian<Q>>,
                                            findings: seq<string>, approvals: seq<Approval>)
    requires forall j | 0 <= j < |order| :: !Decisive(order[j], q)
    ensures Judge(cfg, q, order, findings, approvals)
      == Undecided(cfg, findings + FindingsOf(order, q), approvals + ApprovalsOf(order, q))
    decreases |order|
  {
    if order == [] {
      assert findings + [] == findings && approvals + [] == approvals;
    } else {
      var r := order[0].evaluate(q);
      assert forall j | 0 <= j < |order[1..]| :: order[1..][j] == order[j + 1];
      JudgeStep(cfg, q, order, findings, approvals);
      NobodyDecides(cfg, q, order[1..], findings + FindingIn(r), approvals + ApprovalIn(r));
      Regroup(findings, FindingIn(r), FindingsOf(order[1..], q));
      Regroup(approvals, ApprovalIn(r), ApprovalsOf(order[1..], q));
    }
  }

  /** If no enabled guardian denies or allows: the merged approvals if there are any, and then
      the findings are not reported; otherwise all findings in order; otherwise the default. */
  lemma WithoutDecisive<Q>(cfg: Config, q: Q, registered: seq<Guardian<Q>>)
    requires forall g | g in registered && g.enabled :: !Decisive(g, q)
    ensures Decide(cfg, q, registered)
      == Undecided(cfg, FindingsOf(Active(registered), q), ApprovalsOf(Active(registered), q))
  {
    var order := Active(registered);
    ActiveMembers(registered);
    assert forall j | 0 <= j < |order| :: order[j] in order;
    NobodyDecides(cfg, q, order, [], []);
    assert [] + FindingsOf(order, q) == FindingsOf(order, q);
    assert [] + ApprovalsOf(order, q) == ApprovalsOf(order, q);
  }

  lemma ActiveMembers<Q>(registered: seq<Guardian<Q>>)
    ensures forall g :: g in Active(registered) <==> g in registered && g.enabled
  {
    FilterMembers(registered, Enabled<Q>());
    SortPermutes(Filter(registered, Enabled<Q>()), SortKey<Q>());
    SameMembers(Active(registered), Filter(registered, Enabled<Q>()));
  }

  lemma {:induction false} KeysAscend<Q>(order: seq<Guardian<Q>>, i: nat, j: nat)
    requires Sorted(order, SortKey<Q>()) && i < j < |order|
    ensures Negated(order[i].priority) <= Negated(order[j].priority)
  {
    if i == 0 {
      assert order[1..][j - 1] == order[j];
      assert SortKey<Q>()(order[0]) <= SortKey<Q>()(order[1..][j - 1]);
    } else {
      KeysAscend(order[1..], i - 1, j - 1);
    }
  }

  lemma {:induction false} FirstDecisive<Q>(order: seq<Guardian<Q>>, q: Q, g: Guardian<Q>) returns (i: nat)
    requires g in order && Decisive(g, q)
    ensures i < |order| && Decisive(order[i], q)
    ensures forall j | 0 <= j < i :: !Decisive(order[j], q)
    ensures forall j | 0 <= j < |order| && order[j] == g :: i <= j
  {
    if Decisive(order[0], q) {
      i := 0;
    } else {
      assert g in order[1..];
      var k := FirstDecisive(order[1..], q, g);
      i := k + 1;
      assert forall j | 0 < j < |order| :: order[j] == order[1..][j - 1];
    }
  }

  /** The enabled guardian that denies or allows with the highest priority decides, wherever
      it was registered. The least `i32` is no usable priority. */
  lemma HighestDecisiveDecides<Q>(cfg: Config, q: Q, registered: seq<Guardian<Q>>, g: Guardian<Q>)
    requires g in registered && g.enabled && Decisive(g, q)
    requires forall h | h in registered && h.enabled && Decisive(h, q) ::
      h == g || LEAST < h.priority < g.priority
    ensures Decide(cfg, q, registered) == Outcome(g, q)
  {
    var order := Active(registered);
    ActiveMembers(registered);
    assert g in order;
    var i := FirstDecisive(order, q, g);
    SortSorts(Filter(registered, Enabled<Q>()), SortKey<Q>());
    assert order[i] in order;
    if order[i] != g {
      var j: nat :| j < |order| && order[j] == g;
      KeysAscend(order, i, j);
      assert false;
    }
    FirstDecisiveDecides(cfg, q, order, i, [], []);
  }

  function Decides<Q>(q: Q): Guardian<Q> -> bool {
    (g: Guardian<Q>) => Decisive(g, q)
  }

  lemma {:induction false} JudgeByDecisive<Q>(cfg: Config, q: Q, order: seq<Guardian<Q>>,
                                              findings: seq<string>, approvals: seq<Approval>)
    requires Filter(order, Decides(q)) != []
    ensures Decisive(Filter(order, Decides(q))[0], q)
    ensures Judge(cfg, q, order, findings, approvals) == Outcome(Filter(order, Decides(q))[0], q)
    decreases |order|
  {
    if !Decisive(order[0], q) {
      var r := order[0].evaluate(q);
      JudgeStep(cfg, q, order, findings, approvals);
      JudgeByDecisive(cfg, q, order[1..], findings + FindingIn(r), approvals + ApprovalIn(r));
    }
  }

  /** Of the guardians that `keep` picks, the earliest registered of the highest priority is
      asked first. */
  lemma FirstAsked<Q>(keep: Guardian<Q> -> bool, before: seq<Guardian<Q>>, g: Guardian<Q>, after: seq<Guardian<Q>>)
    requires g.enabled && keep(g)
    requires forall h | h in before && h.enabled && keep(h) :: LEAST < h.priority < g.priority
    requires forall h | h in after && h.enabled && keep(h) :: LEAST < h.priority < g.priority || h.priority == g.priority
    ensures Filter(Active(before + [g] + after), keep) != [] && Filter(Active(before + [g] + after), keep)[0] == g
  {
    var e, key := Enabled<Q>(), SortKey<Q>();
    KeptAround(keep, before, g, after);
    KeptMembers(keep, before);
    KeptMembers(keep, after);
    HeadOfSort(Filter(Filter(before, e), keep), g, Filter(Filter(after, e), keep), key);
    SortOfFilter(Filter(before + [g] + after, e), keep, key);
  }

  lemma KeptAround<Q>(keep: Guardian<Q> -> bool, before: seq<Guardian<Q>>, g: Guardian<Q>, after: seq<Guardian<Q>>)
    requires g.enabled && keep(g)
    ensures Filter(Filter(before + [g] + after, Enabled<Q>()), keep)
      == Filter(Filter(before, Enabled<Q>()), keep) + [g] + Filter(Filter(after, Enabled<Q>()), keep)
  {
    var e := Enabled<Q>();
    FilterOne(g, e);
    FilterOne(g, keep);
    FilterAppend(before + [g], after, e);
    FilterAppend(before, [g], e);
    FilterAppend(Filter(before, e) + [g], Filter(after, e), keep);
    FilterAppend(Filter(before, e), [g], keep);
  }

  lemma KeptMembers<Q>(keep: Guardian<Q> -> bool, xs: seq<Guardian<Q>>)
    ensures forall h :: h in Filter(Filter(xs, Enabled<Q>()), keep) <==> h in xs && h.enabled && keep(h)
  {
    FilterMembers(xs, Enabled<Q>());
    FilterMembers(Filter(xs, Enabled<Q>()), keep);
  }

  /** Among guardians of the same priority the one registered first decides: `g` does if every
      enabled guardian that denies or allows has a lower priority, or the same one and was
      registered later. */
  lemma EarliestOfHighestDecides<Q>(cfg: Config, q: Q, before: seq<Guardian<Q>>, g: Guardian<Q>, after: seq<Guardian<Q>>)
    requires g.enabled && Decisive(g, q)
    requires forall h | h in before && h.enabled && Decisive(h, q) :: LEAST < h.priority < g.priority
    requires forall h | h in after && h.enabled && Decisive(h, q) ::
      LEAST < h.priority < g.priority || h.priority == g.priority
    ensures Decide(cfg, q, before + [g] + after) == Outcome(g, q)
  {
    var order := Active(before + [g] + after);
    FirstAsked(Decides(q), before, g, after);
    JudgeByDecisive(cfg, q, order, [], []);
  }

  ghost predicate Descending<Q>(order: seq<Guardian<Q>>) {
    forall i, j | 0 <= i < j < |order| :: order[i].priority >= order[j].priority
  }

  ghost predicate NobodyLeast<Q>(order: seq<Guardian<Q>>) {
    forall i | 0 <= i < |order| :: order[i].priority != LEAST
  }

  ghost predicate EverybodyLeast<Q>(order: seq<Guardian<Q>>) {
    forall i | 0 <= i < |order| :: order[i].priority == LEAST
  }

  lemma DescendsWithoutLeast<Q>(order: seq<Guardian<Q>>)
    requires Sorted(order, SortKey<Q>()) && NobodyLeast(order)
    ensures Descending(order)
  {
  }

  lemma LeastIsAskedFirst<Q>(order: seq<Guardian<Q>>, i: nat, j: nat)
    requires Sorted(order, SortKey<Q>()) && i < |order| && j < |order|
    requires order[i].priority == LEAST && order[j].priority != LEAST
    ensures i < j && !Descending(order)
  {
    if j < i {
      KeysAscend(order, j, i);
    }
    assert order[i].priority < order[j].priority;
  }

  /** The active guardians are asked by descending priority if and only if the least `i32`,
      which cannot be negated, is nobody's priority or everybody's. */
  lemma DescendsUnlessLeast<Q>(registered: seq<Guardian<Q>>)
    ensures var order := Active(registered);
      Descending(order) <==> NobodyLeast(order) || EverybodyLeast(order)
  {
    var order := Active(registered);
    SortSorts(Filter(registered, Enabled<Q>()), SortKey<Q>());
    if NobodyLeast(order) {
      DescendsWithoutLeast(order);
    } else if !EverybodyLeast(order) {
      var i: nat :| i < |order| && order[i].priority == LEAST;
      var j: nat :| j < |order| && order[j].priority != LEAST;
      LeastIsAskedFirst(order, i, j);
    }
  }

  /** With distinct priorities the decision does not depend on the order of registration. */
  lemma RegistrationOrderIsIrrelevant<Q>(cfg: Config, q: Q, a: seq<Guardian<Q>>, b: seq<Guardian<Q>>)
    requires multiset(a) == multiset(b) && DistinctKeys(a, SortKey<Q>()) && DistinctKeys(b, SortKey<Q>())
    ensures Decide(cfg, q, a) == Decide(cfg, q, b)
  {
    SortOfPermutation(a, b, SortKey<Q>());
    SortOfFilter(a, Enabled<Q>(), SortKey<Q>());
    SortOfFilter(b, Enabled<Q>(), SortKey<Q>());
  }
}
