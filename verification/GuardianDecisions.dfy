/** What the guardian chain decides, answer by answer, without the functions that compute it. */
module GuardianDecisions {
  import opened Guardian
  import opened Sorting
  import opened Wrappers

  predicate Approving<Q>(g: Guardian<Q>, q: Q) {
    var r := g.evaluate(q);
    r.Some? && r.value.Approve?
  }

  predicate Finding<Q>(g: Guardian<Q>, q: Q) {
    var r := g.evaluate(q);
    r.Some? && r.value.Guard?
  }

  /** No enabled guardian denies or allows. */
  ghost predicate Open<Q>(registered: seq<Guardian<Q>>, q: Q) {
    forall g | g in registered && g.enabled ::
      g.evaluate(q) != Some(Allow) && !(g.evaluate(q).Some? && g.evaluate(q).value.Deny?)
  }

  // A guardian that denies or allows.

  /** The first guardian asked that denies or allows decides so, and a denial keeps its reason. */
  lemma FirstVerdictDecides<Q>(cfg: Config, q: Q, registered: seq<Guardian<Q>>, i: nat)
    requires var order := Active(registered);
      && i < |order|
      && forall j | 0 <= j < i :: order[j].evaluate(q) == None || Approving(order[j], q) || Finding(order[j], q)
    ensures var answer := Active(registered)[i].evaluate(q);
      && (forall reason :: answer == Some(Deny(reason)) ==> Decide(cfg, q, registered) == Denied(reason))
      && (answer == Some(Allow) ==> Decide(cfg, q, registered) == Allowed)
  {
    var order := Active(registered);
    if Decisive(order[i], q) {
      FirstDecisiveDecides(cfg, q, order, i, [], []);
    }
  }

  // Approvals.

  lemma {:induction false} FirstApproval<Q>(order: seq<Guardian<Q>>, q: Q, i: nat)
    requires i < |order| && Approving(order[i], q) && forall j | 0 <= j < i :: !Approving(order[j], q)
    ensures var r := order[i].evaluate(q).value;
      ApprovalsOf(order, q) != [] && ApprovalsOf(order, q)[0] == Approval(r.timeout, r.prompt)
    decreases i
  {
    if i > 0 {
      assert order[1..][i - 1] == order[i];
      assert forall j | 0 <= j < i - 1 :: order[1..][j] == order[j + 1];
      FirstApproval(order[1..], q, i - 1);
    }
  }

  lemma OpenIsUndecided<Q>(cfg: Config, q: Q, registered: seq<Guardian<Q>>)
    requires Open(registered, q)
    ensures Decide(cfg, q, registered)
      == Undecided(cfg, FindingsOf(Active(registered), q), ApprovalsOf(Active(registered), q))
  {
    WithoutDecisive(cfg, q, registered);
  }

  /** Under `First` the approval of the first guardian asked that approves is the decision. */
  lemma FirstApprovalIsTaken<Q>(cfg: Config, q: Q, registered: seq<Guardian<Q>>, i: nat, timeout: nat, prompt: string)
    requires cfg.strategy.First? && Open(registered, q) && i < |Active(registered)|
    requires Active(registered)[i].evaluate(q) == Some(Approve(timeout, prompt))
    requires forall j | 0 <= j < i :: !Approving(Active(registered)[j], q)
    ensures Decide(cfg, q, registered) == NeedsApproval(Approval(timeout, prompt))
  {
    OpenIsUndecided(cfg, q, registered);
    FirstApproval(Active(registered), q, i);
  }

  function Approves<Q>(q: Q): Guardian<Q> -> bool {
    (g: Guardian<Q>) => Approving(g, q)
  }

  lemma {:induction false} FirstKept<Q>(order: seq<Guardian<Q>>, keep: Guardian<Q> -> bool) returns (i: nat)
    requires Filter(order, keep) != []
    ensures i < |order| && order[i] == Filter(order, keep)[0] && keep(order[i])
    ensures forall j | 0 <= j < i :: !keep(order[j])
  {
    if keep(order[0]) {
      i := 0;
    } else {
      var k := FirstKept(order[1..], keep);
      i := k + 1;
      assert forall j | 0 < j < i :: order[j] == order[1..][j - 1];
    }
  }

  /** By priority: under `First` the approval of the guardian with the highest priority is the
      decision, and among equals of the one registered first. */
  lemma HighestApprovalIsTaken<Q>(cfg: Config, q: Q, before: seq<Guardian<Q>>, g: Guardian<Q>, after: seq<Guardian<Q>>,
                                  timeout: nat, prompt: string)
    requires cfg.strategy.First? && Open(before + [g] + after, q)
    requires g.enabled && g.evaluate(q) == Some(Approve(timeout, prompt))
    requires forall h | h in before && h.enabled && Approving(h, q) :: LEAST < h.priority < g.priority
    requires forall h | h in after && h.enabled && Approving(h, q) ::
      LEAST < h.priority < g.priority || h.priority == g.priority
    ensures Decide(cfg, q, before + [g] + after) == NeedsApproval(Approval(timeout, prompt))
  {
    FirstAsked(Approves(q), before, g, after);
    var i := FirstKept(Active(before + [g] + after), Approves(q));
    FirstApprovalIsTaken(cfg, q, before + [g] + after, i, timeout, prompt);
  }

  /** The guardian an approval came from, and the approvals of the guardians asked before it. */
  lemma {:induction false} ApprovalAt<Q>(order: seq<Guardian<Q>>, q: Q, m: nat) returns (i: nat)
    requires m < |ApprovalsOf(order, q)|
    ensures i < |order| && ApprovalsOf(order[..i], q) == ApprovalsOf(order, q)[..m]
    ensures order[i].evaluate(q) == Some(Approve(ApprovalsOf(order, q)[m].timeout, ApprovalsOf(order, q)[m].prompt))
  {
    var here := ApprovalIn(order[0].evaluate(q));
    if m < |here| {
      i := 0;
    } else {
      var k := ApprovalAt(order[1..], q, m - |here|);
      i := k + 1;
      assert order[..i][1..] == order[1..][..k];
    }
  }

  lemma {:induction false} ApprovalIsCounted<Q>(order: seq<Guardian<Q>>, q: Q, j: nat)
    requires j < |order| && Approving(order[j], q)
    ensures var r := order[j].evaluate(q).value; Approval(r.timeout, r.prompt) in ApprovalsOf(order, q)
  {
    if j > 0 {
      assert order[1..][j - 1] == order[j];
      ApprovalIsCounted(order[1..], q, j - 1);
    }
  }

  /** Under `Strictest` the decision is the approval of least timeout, and among equals the one
      of the guardian asked first. */
  lemma StrictestApprovalIsTaken<Q>(cfg: Config, q: Q, registered: seq<Guardian<Q>>) returns (i: nat)
    requires cfg.strategy.Strictest? && Open(registered, q)
    requires exists g :: g in Active(registered) && Approving(g, q)
    ensures var order := Active(registered);
      && i < |order| && Approving(order[i], q)
      && (var r := order[i].evaluate(q).value;
          && Decide(cfg, q, registered) == NeedsApproval(Approval(r.timeout, r.prompt))
          && (forall j | 0 <= j < |order| && Approving(order[j], q) :: r.timeout <= order[j].evaluate(q).value.timeout)
          && (forall j | 0 <= j < i && Approving(order[j], q) :: r.timeout < order[j].evaluate(q).value.timeout))
  {
    var order := Active(registered);
    var approvals := ApprovalsOf(order, q);
    OpenIsUndecided(cfg, q, registered);
    var k: nat :| k < |order| && Approving(order[k], q);
    ApprovalIsCounted(order, q, k);
    var m := StrictestIsEarliestLeast(cfg, approvals);
    i := ApprovalAt(order, q, m);
    forall j | 0 <= j < |order| && Approving(order[j], q)
      ensures approvals[m].timeout <= order[j].evaluate(q).value.timeout
      ensures j < i ==> approvals[m].timeout < order[j].evaluate(q).value.timeout
    {
      ApprovalIsCounted(order, q, j);
      if j < i {
        ApprovalIsCounted(order[..i], q, j);
      }
    }
  }

  // Findings and the default.

  function Finds<Q>(q: Q): Guardian<Q> -> bool {
    (g: Guardian<Q>) => Finding(g, q)
  }

  function FindingBy<Q>(g: Guardian<Q>, q: Q): string
    requires Finding(g, q)
  {
    g.evaluate(q).value.finding
  }

  lemma {:induction false} FindingsAreFiltered<Q>(order: seq<Guardian<Q>>, q: Q)
    ensures var found := Filter(order, Finds(q));
      && |FindingsOf(order, q)| == |found|
      && forall i | 0 <= i < |found| :: Finding(found[i], q) && FindingsOf(order, q)[i] == FindingBy(found[i], q)
  {
    if order != [] {
      FindingsAreFiltered(order[1..], q);
    }
  }

  lemma {:induction false} NoApprovals<Q>(order: seq<Guardian<Q>>, q: Q)
    requires forall g | g in order :: !Approving(g, q)
    ensures ApprovalsOf(order, q) == []
  {
    if order != [] {
      assert !Approving(order[0], q);
      NoApprovals(order[1..], q);
    }
  }

  /** If nobody denies, allows or approves, the findings are reported, each guardian's in the
      order they are asked; and the default is the decision if there is none. */
  lemma FindingsOrDefault<Q>(cfg: Config, q: Q, registered: seq<Guardian<Q>>)
    requires Open(registered, q) && forall g | g in registered && g.enabled :: !Approving(g, q)
    ensures var found := Filter(Active(registered), Finds(q));
      if found == [] then Decide(cfg, q, registered) == cfg.defaultDecision
      else
        && Decide(cfg, q, registered).Guarded?
        && |Decide(cfg, q, registered).findings| == |found|
        && forall i | 0 <= i < |found| ::
             found[i].evaluate(q) == Some(Guard(Decide(cfg, q, registered).findings[i]))
  {
    ActiveMembers(registered);
    OpenIsUndecided(cfg, q, registered);
    NoApprovals(Active(registered), q);
    FindingsAreFiltered(Active(registered), q);
    var found := Filter(Active(registered), Finds(q));
    forall i | 0 <= i < |found|
      ensures Finding(found[i], q) && FindingsOf(Active(registered), q)[i] == FindingBy(found[i], q)
    {
    }
    assert FindingsOf(Active(registered), q) == [] <==> found == [];
  }
}
