/** The approval service under concurrent requesters. Each lock of `request_approval` is taken
    and released on its own, so a request is three steps (is it accepting, is there room,
    insert) with anything in between. */
module ApprovalProtocol {
  import opened Approval
  import opened Wrappers

  /** How far a requester's current request has come. */
  datatype Requester = Idle | Accepted | Admitted

  /** The service and its requesters; and, only to state properties, the ids issued so far
      and how often each has left `pending` in each of the three ways. */
  datatype State = State(
    pending: map<Id, Pending>,
    accepting: bool,
    requesters: seq<Requester>,
    issued: set<Id>,
    responded: multiset<Id>,
    expired: multiset<Id>,
    cleared: multiset<Id>)

  datatype Action =
    | CheckAccepting(i: nat)
    | CheckRoom(i: nat)
    | Insert(i: nat, id: Id, request: Pending)
    | Respond(id: Id)
    | Collect(now: int)
    | Clear
    | SetAccepting(accept: bool)

  function With(s: State, i: nat, r: Requester): State
    requires i < |s.requesters|
  {
    s.(requesters := s.requesters[i := r])
  }

  /** One step; a request that fails a check is over. An id is a new UUID. */
  function Do(max: nat, s: State, a: Action): State {
    match a
    case CheckAccepting(i) =>
      if i < |s.requesters| && s.requesters[i].Idle? && s.accepting then With(s, i, Accepted) else s
    case CheckRoom(i) =>
      if i < |s.requesters| && s.requesters[i].Accepted? then
        With(s, i, if |s.pending| >= max then Idle else Admitted)
      else s
    case Insert(i, id, request) =>
      if i < |s.requesters| && s.requesters[i].Admitted? && id !in s.issued then
        With(s, i, Idle).(pending := s.pending[id := request], issued := s.issued + {id})
      else s
    case Respond(id) =>
      if id in s.pending then s.(pending := s.pending - {id}, responded := s.responded + multiset{id}) else s
    case Collect(now) =>
      var gone := Expired(s.pending, now);
      s.(pending := s.pending - gone, expired := s.expired + multiset(gone))
    case Clear => s.(pending := map[], cleared := s.cleared + multiset(s.pending.Keys))
    case SetAccepting(accept) => s.(accepting := accept)
  }

  function Run(max: nat, s: State, actions: seq<Action>): State
    decreases |actions|
  {
    if actions == [] then s else Run(max, Do(max, s, actions[0]), actions[1..])
  }

  function AllIdle(k: nat): seq<Requester> {
    seq(k, _ => Idle)
  }

  function Init(k: nat): State {
    State(map[], true, AllIdle(k), {}, multiset{}, multiset{}, multiset{})
  }

  // The bound on the pending approvals.

  function AdmittedCount(rs: seq<Requester>): nat {
    if rs == [] then 0 else (if rs[0].Admitted? then 1 else 0) + AdmittedCount(rs[1..])
  }

  lemma {:induction false} CountUpdate(rs: seq<Requester>, i: nat, r: Requester)
    requires i < |rs|
    ensures AdmittedCount(rs[i := r])
      == AdmittedCount(rs) - (if rs[i].Admitted? then 1 else 0) + if r.Admitted? then 1 else 0
  {
    if i > 0 {
      assert rs[i := r][1..] == rs[1..][i - 1 := r];
      CountUpdate(rs[1..], i - 1, r);
    } else {
      assert rs[i := r][1..] == rs[1..];
    }
  }

  lemma {:induction false} CountAtMostAll(rs: seq<Requester>)
    ensures AdmittedCount(rs) <= |rs|
  {
    if rs != [] {
      CountAtMostAll(rs[1..]);
    }
  }

  /** Admitted requests count as pending already. */
  ghost predicate Bounded(max: nat, s: State) {
    |s.pending| + AdmittedCount(s.requesters) <= if |s.requesters| == 0 then 0 else max + |s.requesters| - 1
  }

  lemma DropKeys<V>(m: map<Id, V>, gone: set<Id>)
    ensures |m - gone| <= |m|
  {
  }

  lemma AdmissionStaysBounded(max: nat, s: State, i: nat)
    requires Bounded(max, s) && i < |s.requesters| && s.requesters[i].Accepted?
    ensures Bounded(max, Do(max, s, CheckRoom(i)))
  {
    var r := if |s.pending| >= max then Idle else Admitted;
    CountUpdate(s.requesters, i, r);
    CountAtMostAll(s.requesters[i := r]);
  }

  lemma InsertStaysBounded(max: nat, s: State, i: nat, id: Id, request: Pending)
    requires Bounded(max, s) && i < |s.requesters| && s.requesters[i].Admitted?
    ensures Bounded(max, Do(max, s, Insert(i, id, request)))
  {
    CountUpdate(s.requesters, i, Idle);
    assert |s.pending[id := request]| <= |s.pending| + 1 by {
      assert s.pending[id := request].Keys == s.pending.Keys + {id};
      assert |s.pending[id := request]| == |s.pending[id := request].Keys| && |s.pending| == |s.pending.Keys|;
    }
  }

  lemma StepStaysBounded(max: nat, s: State, a: Action)
    requires Bounded(max, s)
    ensures Bounded(max, Do(max, s, a)) && |Do(max, s, a).requesters| == |s.requesters|
  {
    match a
    case CheckAccepting(i) =>
      if i < |s.requesters| {
        CountUpdate(s.requesters, i, Accepted);
      }
    case CheckRoom(i) =>
      if i < |s.requesters| && s.requesters[i].Accepted? {
        AdmissionStaysBounded(max, s, i);
      }
    case Insert(i, id, request) =>
      if i < |s.requesters| && s.requesters[i].Admitted? {
        InsertStaysBounded(max, s, i, id, request);
      }
    case Respond(id) => DropKeys(s.pending, {id});
    case Collect(now) => DropKeys(s.pending, Expired(s.pending, now));
    case Clear =>
    case SetAccepting(accept) =>
  }

  lemma {:induction false} RunStaysBounded(max: nat, s: State, actions: seq<Action>)
    requires Bounded(max, s)
    ensures Bounded(max, Run(max, s, actions)) && |Run(max, s, actions).requesters| == |s.requesters|
    decreases |actions|
  {
    if actions != [] {
      StepStaysBounded(max, s, actions[0]);
      RunStaysBounded(max, Do(max, s, actions[0]), actions[1..]);
    }
  }

  lemma {:induction false} NobodyAdmitted(k: nat)
    ensures AdmittedCount(AllIdle(k)) == 0
  {
    if k > 0 {
      assert AllIdle(k)[1..] == AllIdle(k - 1);
      NobodyAdmitted(k - 1);
    }
  }

  /** In every interleaving of `k` requesters with responses, collections and clearings, at
      most `max + k - 1` approvals are pending; with one requester, at most `max`. */
  lemma PendingIsBounded(max: nat, k: nat, actions: seq<Action>)
    requires k >= 1
    ensures |Run(max, Init(k), actions).pending| <= max + k - 1
  {
    NobodyAdmitted(k);
    RunStaysBounded(max, Init(k), actions);
  }

  // Every approval leaves once.

  function Exits(s: State, id: Id): nat {
    s.responded[id] + s.expired[id] + s.cleared[id]
  }

  /** An issued id is either pending or has left exactly once; others never appear. */
  ghost predicate Accounted(s: State, id: Id) {
    Exits(s, id) + (if id in s.pending then 1 else 0) == if id in s.issued then 1 else 0
  }

  lemma StepStaysAccounted(max: nat, s: State, a: Action, id: Id)
    requires Accounted(s, id)
    ensures Accounted(Do(max, s, a), id)
  {
  }

  lemma {:induction false} RunStaysAccounted(max: nat, s: State, actions: seq<Action>, id: Id)
    requires Accounted(s, id)
    ensures Accounted(Run(max, s, actions), id)
    decreases |actions|
  {
    if actions != [] {
      StepStaysAccounted(max, s, actions[0], id);
      RunStaysAccounted(max, Do(max, s, actions[0]), actions[1..], id);
    }
  }

  /** In every interleaving each issued id leaves `pending` exactly once: by a response, by
      expiry or by clearing, and never by two of them. */
  lemma EachLeavesOnce(max: nat, k: nat, actions: seq<Action>, id: Id)
    ensures var s := Run(max, Init(k), actions);
      Exits(s, id) == if id in s.issued && id !in s.pending then 1 else 0
  {
    RunStaysAccounted(max, Init(k), actions, id);
  }

  /** What the actions do to the pending approvals: an admitted request with a new id adds its
      own, a response removes its own, a collection removes those past their deadline, clearing
      removes all, and nothing else touches them. */
  lemma ActionsOnPending(max: nat, s: State, a: Action, id: Id)
    ensures id in Do(max, s, a).pending && id !in s.pending ==>
      a.Insert? && a.id == id && a.i < |s.requesters| && s.requesters[a.i].Admitted? && id !in s.issued
      && Do(max, s, a).pending[id] == a.request
    ensures id in s.pending ==>
      (id !in Do(max, s, a).pending
       <==> a == Respond(id) || a == Clear || (a.Collect? && a.now > s.pending[id].deadline))
    ensures a.Insert? && a.i < |s.requesters| && s.requesters[a.i].Admitted? && a.id !in s.issued ==>
      a.id in Do(max, s, a).pending && a.id in Do(max, s, a).issued
  {
  }

  // The bound is reached.

  lemma {:induction false} RunAppend(max: nat, s: State, a: seq<Action>, b: seq<Action>)
    ensures Run(max, s, a + b) == Run(max, Run(max, s, a), b)
    decreases |a|
  {
    if a == [] {
      assert a + b == b;
    } else {
      assert (a + b)[1..] == a[1..] + b;
      RunAppend(max, Do(max, s, a[0]), a[1..], b);
    }
  }

  /** The requesters `lo` to `hi` are admitted, the others idle, and `n` approvals pending. */
  ghost predicate Stage(s: State, k: nat, lo: nat, hi: nat, n: nat) {
    && s.accepting && |s.requesters| == k
    && (forall i | 0 <= i < k :: s.requesters[i] == if lo <= i < hi then Admitted else Idle)
    && |s.pending| == n && s.pending.Keys == s.issued && forall id | id in s.issued :: id < n
  }

  const ANY_REQUEST := Pending("", "", 0, 0)

  lemma AdmitNext(max: nat, s: State, k: nat, hi: nat, n: nat)
    requires Stage(s, k, 0, hi, n) && hi < k && n < max
    ensures Stage(Run(max, s, [CheckAccepting(hi), CheckRoom(hi)]), k, 0, hi + 1, n)
  {
    var s1 := Do(max, s, CheckAccepting(hi));
    var s2 := Do(max, s1, CheckRoom(hi));
    assert [CheckAccepting(hi), CheckRoom(hi)][1..] == [CheckRoom(hi)];
    assert Run(max, s1, [CheckRoom(hi)]) == s2;
  }

  lemma InsertNext(max: nat, s: State, k: nat, lo: nat, hi: nat, n: nat)
    requires Stage(s, k, lo, hi, n) && lo < hi <= k
    ensures Stage(Do(max, s, Insert(lo, n, ANY_REQUEST)), k, lo + 1, hi, n + 1)
  {
  }

  /** A whole request of the first requester. */
  lemma OneRequest(max: nat, s: State, k: nat, n: nat) returns (actions: seq<Action>)
    requires Stage(s, k, 0, 0, n) && k >= 1 && n < max
    ensures Stage(Run(max, s, actions), k, 0, 0, n + 1)
  {
    var check, insert := [CheckAccepting(0), CheckRoom(0)], [Insert(0, n, ANY_REQUEST)];
    var admitted := Run(max, s, check);
    AdmitNext(max, s, k, 0, n);
    InsertNext(max, admitted, k, 0, 1, n);
    assert Run(max, admitted, insert) == Do(max, admitted, insert[0]);
    RunAppend(max, s, check, insert);
    actions := check + insert;
  }

  /** One requester fills the queue up to `n`. */
  lemma {:induction false} FillRun(max: nat, k: nat, n: nat) returns (actions: seq<Action>)
    requires k >= 1 && n < max
    ensures Stage(Run(max, Init(k), actions), k, 0, 0, n)
  {
    if n == 0 {
      actions := [];
    } else {
      var before := FillRun(max, k, n - 1);
      var more := OneRequest(max, Run(max, Init(k), before), k, n - 1);
      RunAppend(max, Init(k), before, more);
      actions := before + more;
    }
  }

  lemma AdmitOne(max: nat, s: State, k: nat, hi: nat, n: nat) returns (actions: seq<Action>)
    requires Stage(s, k, 0, hi, n) && hi < k && n < max
    ensures Stage(Run(max, s, actions), k, 0, hi + 1, n)
  {
    actions := [CheckAccepting(hi), CheckRoom(hi)];
    AdmitNext(max, s, k, hi, n);
  }

  /** The first `j` requesters pass both checks with `n` approvals pending. */
  lemma {:induction false} AdmitRun(max: nat, k: nat, n: nat, j: nat) returns (actions: seq<Action>)
    requires k >= 1 && n < max && j <= k
    ensures Stage(Run(max, Init(k), actions), k, 0, j, n)
  {
    if j == 0 {
      actions := FillRun(max, k, n);
    } else {
      var before := AdmitRun(max, k, n, j - 1);
      var more := AdmitOne(max, Run(max, Init(k), before), k, j - 1, n);
      RunAppend(max, Init(k), before, more);
      actions := before + more;
    }
  }

  lemma {:induction false} InsertRun(max: nat, k: nat, n: nat, j: nat) returns (actions: seq<Action>)
    requires k >= 1 && n < max && j <= k
    ensures Stage(Run(max, Init(k), actions), k, j, k, n + j)
  {
    if j == 0 {
      actions := AdmitRun(max, k, n, k);
    } else {
      var before := InsertRun(max, k, n, j - 1);
      InsertNext(max, Run(max, Init(k), before), k, j - 1, k, n + j - 1);
      actions := before + [Insert(j - 1, n + j - 1, ANY_REQUEST)];
      RunAppend(max, Init(k), before, [Insert(j - 1, n + j - 1, ANY_REQUEST)]);
    }
  }

  /** The bound is reached: `k` requesters can all pass the check for the last place. */
  lemma BoundIsReached(max: nat, k: nat) returns (actions: seq<Action>)
    requires max >= 1 && k >= 1
    ensures |Run(max, Init(k), actions).pending| == max + k - 1
  {
    actions := InsertRun(max, k, max - 1, k);
  }

  /** With no room at all nobody is admitted. */
  ghost predicate Shut(s: State) {
    s.pending == map[] && forall i | 0 <= i < |s.requesters| :: !s.requesters[i].Admitted?
  }

  lemma StepStaysShut(s: State, a: Action)
    requires Shut(s)
    ensures Shut(Do(0, s, a))
  {
  }

  lemma {:induction false} RunStaysShut(s: State, actions: seq<Action>)
    requires Shut(s)
    ensures Shut(Run(0, s, actions))
    decreases |actions|
  {
    if actions != [] {
      StepStaysShut(s, actions[0]);
      RunStaysShut(Do(0, s, actions[0]), actions[1..]);
    }
  }

  /** The limit `max` holds in every interleaving if and only if there is at most one requester
      or no room at all. */
  lemma LimitHoldsIff(max: nat, k: nat)
    ensures (forall actions :: |Run(max, Init(k), actions).pending| <= max) <==> k <= 1 || max == 0
  {
    if k <= 1 || max == 0 {
      forall actions
        ensures |Run(max, Init(k), actions).pending| <= max
      {
        if max == 0 {
          RunStaysShut(Init(k), actions);
        } else {
          NobodyAdmitted(k);
          RunStaysBounded(max, Init(k), actions);
        }
      }
    } else {
      var actions := BoundIsReached(max, k);
    }
  }
}
