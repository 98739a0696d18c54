/** `Orchestrator` of plugins/slots/react_loop/orchestrator.rs: components register with the
    capabilities they require and provide, and run in groups of rising level. */
module Orchestrator {
  /** A component's metadata; `needs` is its `requires`, `gives` its `provides`. */
  datatype Meta = Meta(name: string, needs: seq<string>, gives: seq<string>)

  datatype Result = Ok | DuplicateName(name: string) | NotProvided(requirement: string) | InitFailed(index: nat)

  /** `j` is an earlier component that provides something `i` requires. */
  predicate DependsOn(cs: seq<Meta>, i: nat, j: nat)
    requires i < |cs|
  {
    j < i && exists need | need in cs[i].needs :: need in cs[j].gives
  }

  function Max(a: nat, b: nat): nat {
    if a >= b then a else b
  }

  /** The level of component `i`: above every earlier provider, and no higher than that. */
  function Level(cs: seq<Meta>, i: nat): nat
    requires i < |cs|
    decreases i, i + 1
  {
    LevelOver(cs, i, i)
  }

  /** The level of `i` as the first `k` components ask for it. */
  function LevelOver(cs: seq<Meta>, i: nat, k: nat): nat
    requires k <= i < |cs|
    decreases i, k
  {
    if k == 0 then 0
    else if DependsOn(cs, i, k - 1) then Max(LevelOver(cs, i, k - 1), Level(cs, k - 1) + 1)
    else LevelOver(cs, i, k - 1)
  }

  function MaxLevel(cs: seq<Meta>, n: nat): nat
    requires n <= |cs|
  {
    if n == 0 then 0 else Max(MaxLevel(cs, n - 1), Level(cs, n - 1))
  }

  /** The components below `n` that have level `l`, in order. */
  function Select(cs: seq<Meta>, l: nat, n: nat): seq<nat>
    requires n <= |cs|
  {
    if n == 0 then []
    else Select(cs, l, n - 1) + if Level(cs, n - 1) == l then [n - 1] else []
  }

  function GroupsOf(cs: seq<Meta>): seq<seq<nat>> {
    if cs == [] then [] else seq(MaxLevel(cs, |cs|) + 1, l requires l >= 0 => Select(cs, l, |cs|))
  }

  predicate NameFree(cs: seq<Meta>, name: string) {
    forall i | 0 <= i < |cs| :: cs[i].name != name
  }

  /** One of the components below `n` provides `need`. */
  predicate Provided(cs: seq<Meta>, n: nat, need: string)
    requires n <= |cs|
  {
    exists j | 0 <= j < n :: need in cs[j].gives
  }

  ghost predicate Satisfied(cs: seq<Meta>, c: Meta) {
    forall k | 0 <= k < |c.needs| :: Provided(cs, |cs|, c.needs[k])
  }

  ghost predicate IsFirstMissing(cs: seq<Meta>, c: Meta, k: nat, requirement: string)
    requires k < |c.needs|
  {
    && c.needs[k] == requirement && !Provided(cs, |cs|, requirement)
    && forall j | 0 <= j < k :: Provided(cs, |cs|, c.needs[j])
  }

  ghost predicate AllProvided(cs: seq<Meta>, i: nat)
    requires i < |cs|
  {
    forall k | 0 <= k < |cs[i].needs| :: Provided(cs, i, cs[i].needs[k])
  }

  ghost predicate Registered(cs: seq<Meta>) {
    && (forall i | 0 <= i < |cs| :: NameFree(cs[..i], cs[i].name))
    && (forall i | 0 <= i < |cs| :: AllProvided(cs, i))
  }

  function Flatten(groups: seq<seq<nat>>): seq<nat> {
    if groups == [] then [] else groups[0] + Flatten(groups[1..])
  }

  class Orchestrator {
    var components: seq<Meta>
    var parallelGroups: seq<seq<nat>>
    var handles: set<string>

    ghost predicate Valid()
      reads this
    {
      && Registered(components)
      && parallelGroups == GroupsOf(components)
      && handles == set c | c in components :: c.name
    }

    constructor ()
      ensures Valid() && components == []
    {
      components, parallelGroups, handles := [], [], {};
    }

    /** Registration succeeds exactly on a new name whose requirements are all provided. */
    method Register(c: Meta) returns (r: Result)
      requires Valid()
      modifies this
      ensures Valid()
      ensures r.Ok? <==> NameFree(old(components), c.name) && Satisfied(old(components), c)
      ensures r.DuplicateName? <==> !NameFree(old(components), c.name)
      ensures r.NotProvided? ==> exists k | 0 <= k < |c.needs| :: IsFirstMissing(old(components), c, k, r.requirement)
      ensures components == if r.Ok? then old(components) + [c] else old(components)
    {
      var free := CheckName(components, c.name);
      if !free {
        return DuplicateName(c.name);
      }
      var missing := FirstMissing(components, c);
      if missing < |c.needs| {
        return NotProvided(c.needs[missing]);
      }
      RegisteredAppend(components, c);
      handles := handles + {c.name};
      components := components + [c];
      parallelGroups := RecomputeGroups(components);
      r := Ok;
    }

    /** Initialises the components group by group until one fails; the first `n` in that order
        have been called. */
    method InitAll(fails: nat -> bool) returns (r: Result, n: nat)
      requires Valid()
      ensures n <= |Flatten(GroupsOf(components))|
      ensures r.Ok? ==>
        var order := Flatten(GroupsOf(components));
        n == |order| && forall i | 0 <= i < n :: !fails(order[i])
      ensures !r.Ok? ==>
        var order := Flatten(GroupsOf(components));
        && n > 0 && r == InitFailed(order[n - 1]) && fails(order[n - 1])
        && forall i | 0 <= i < n - 1 :: !fails(order[i])
    {
      r, n := InitGroups(parallelGroups, fails);
    }

    /** A restart that is asked for again and again never returns in the source, so the caller
        owes the pass that settles. */
    method ProcessAll(answer: (nat, nat) -> Processing, ghost n: nat) returns (end: PassEnd)
      requires Valid() && SettlesAt(Flatten(GroupsOf(components)), answer, n)
      ensures end == Pass(Flatten(GroupsOf(components)), answer, n)
    {
      end := ProcessGroups(parallelGroups, answer, 0, n);
    }
  }

  /** What a component answers; `Failed` is an error of `process`. */
  datatype Processing = Continue | Warn(message: string) | BreakChain | Restart | Failed

  datatype PassEnd = Finished | Restarted | FailedAt(index: nat)

  predicate GoesOn(p: Processing) {
    p.Continue? || p.Warn?
  }

  function EndFor(p: Processing, i: nat): PassEnd
    requires !GoesOn(p)
  {
    if p.BreakChain? then Finished else if p.Restart? then Restarted else FailedAt(i)
  }

  /** One pass over the components in this order; `answer(round, i)` is what component `i`
      answers in pass number `round`. */
  function Pass(order: seq<nat>, answer: (nat, nat) -> Processing, round: nat): PassEnd {
    if order == [] then Finished
    else if GoesOn(answer(round, order[0])) then Pass(order[1..], answer, round)
    else EndFor(answer(round, order[0]), order[0])
  }

  /** Pass `n` is the first that does not ask for another. */
  ghost predicate SettlesAt(order: seq<nat>, answer: (nat, nat) -> Processing, n: nat) {
    Pass(order, answer, n) != Restarted && forall m: nat | m < n :: Pass(order, answer, m) == Restarted
  }

  lemma NextInit(flat: seq<nat>, n: nat, group: seq<nat>, rest: seq<nat>)
    requires n <= |flat| && flat[n..] == group + rest && group != []
    ensures n < |flat| && flat[n] == group[0]
    ensures flat[n + 1..] == group[1..] + rest && flat[..n + 1] == flat[..n] + [group[0]]
  {
    assert flat[n + 1..] == flat[n..][1..] && flat[n] == flat[n..][0];
  }

  /** The nested loops of `init_all`: `n` components are called, all but the last of a failed
      run without an error. */
  method InitGroups(groups0: seq<seq<nat>>, fails: nat -> bool) returns (r: Result, n: nat)
    ensures n <= |Flatten(groups0)|
    ensures r.Ok? ==> n == |Flatten(groups0)| && forall i | 0 <= i < n :: !fails(Flatten(groups0)[i])
    ensures !r.Ok? ==>
      && n > 0 && r == InitFailed(Flatten(groups0)[n - 1]) && fails(Flatten(groups0)[n - 1])
      && forall i | 0 <= i < n - 1 :: !fails(Flatten(groups0)[i])
  {
    ghost var flat := Flatten(groups0);
    n := 0;
    var groups := groups0;
    while groups != []
      invariant n <= |flat| && Flatten(groups) == flat[n..]
      invariant forall i | 0 <= i < n :: !fails(flat[i])
      decreases |groups|
    {
      var group := groups[0];
      groups := groups[1..];
      while group != []
        invariant n <= |flat| && flat[n..] == group + Flatten(groups)
        invariant forall i | 0 <= i < n :: !fails(flat[i])
        decreases |group|
      {
        NextInit(flat, n, group, Flatten(groups));
        n := n + 1;
        if fails(group[0]) {
          return InitFailed(group[0]), n;
        }
        group := group[1..];
      }
      assert [] + Flatten(groups) == Flatten(groups);
    }
    r := Ok;
  }

  /** The passes of `process_all` from number `round` on. */
  method ProcessGroups(groups: seq<seq<nat>>, answer: (nat, nat) -> Processing, round: nat, ghost n: nat)
    returns (end: PassEnd)
    requires round <= n && SettlesAt(Flatten(groups), answer, n)
    ensures end == Pass(Flatten(groups), answer, n)
    decreases n - round
  {
    end := OnePass(groups, answer, round);
    if end.Restarted? {
      assert round != n;
      end := ProcessGroups(groups, answer, round + 1, n);
    } else {
      assert round == n;
    }
  }

  method OnePass(groups0: seq<seq<nat>>, answer: (nat, nat) -> Processing, round: nat) returns (end: PassEnd)
    ensures end == Pass(Flatten(groups0), answer, round)
  {
    var groups := groups0;
    while groups != []
      invariant Pass(Flatten(groups), answer, round) == Pass(Flatten(groups0), answer, round)
      decreases |groups|
    {
      var group := groups[0];
      groups := groups[1..];
      while group != []
        invariant Pass(group + Flatten(groups), answer, round) == Pass(Flatten(groups0), answer, round)
        decreases |group|
      {
        var i := group[0];
        var rest := group[1..];
        assert (group + Flatten(groups))[1..] == rest + Flatten(groups);
        match answer(round, i) {
          case Continue =>
          case Warn(_) =>
          case BreakChain => return Finished;
          case Restart => return Restarted;
          case Failed => return FailedAt(i);
        }
        group := rest;
      }
      assert [] + Flatten(groups) == Flatten(groups);
    }
    end := Finished;
  }

  /** The first component that does not let the pass go on ends it. */
  lemma {:induction false} FirstAnswerEndsPass(order: seq<nat>, answer: (nat, nat) -> Processing, round: nat, k: nat)
    requires k <= |order| && forall j | 0 <= j < k :: GoesOn(answer(round, order[j]))
    requires k < |order| ==> !GoesOn(answer(round, order[k]))
    ensures Pass(order, answer, round) == if k == |order| then Finished else EndFor(answer(round, order[k]), order[k])
    decreases k
  {
    if k > 0 {
      assert forall j | 0 <= j < k - 1 :: order[1..][j] == order[j + 1];
      assert k < |order| ==> order[1..][k - 1] == order[k];
      FirstAnswerEndsPass(order[1..], answer, round, k - 1);
    }
  }

  /** How a pass ends, answer by answer: warnings do not end it; the first component that
      breaks the chain ends it well, the first that asks for a restart has it run again, and
      the first that fails is reported. No later component has a say. */
  lemma PassEndsByAnswer(order: seq<nat>, answer: (nat, nat) -> Processing, round: nat, k: nat)
    requires k <= |order|
    requires forall j | 0 <= j < k :: answer(round, order[j]) == Continue || answer(round, order[j]).Warn?
    ensures k == |order| ==> Pass(order, answer, round) == Finished
    ensures k < |order| && answer(round, order[k]) == BreakChain ==> Pass(order, answer, round) == Finished
    ensures k < |order| && answer(round, order[k]) == Restart ==> Pass(order, answer, round) == Restarted
    ensures k < |order| && answer(round, order[k]) == Failed ==> Pass(order, answer, round) == FailedAt(order[k])
  {
    if k == |order| || !GoesOn(answer(round, order[k])) {
      FirstAnswerEndsPass(order, answer, round, k);
    }
  }

  /** A component that always asks for a restart keeps `process_all` from ever settling. */
  lemma AlwaysRestartingNeverSettles(order: seq<nat>, answer: (nat, nat) -> Processing, k: nat, n: nat)
    requires k < |order| && forall m: nat | m <= n :: answer(m, order[k]) == Restart
    requires forall m: nat, j | m <= n && 0 <= j < k :: GoesOn(answer(m, order[j]))
    ensures !SettlesAt(order, answer, n)
  {
    assert answer(n, order[k]) == Restart;
    assert forall j | 0 <= j < k :: GoesOn(answer(n, order[j]));
    FirstAnswerEndsPass(order, answer, n, k);
  }

  method CheckName(cs: seq<Meta>, name: string) returns (free: bool)
    ensures free == NameFree(cs, name)
  {
    for i := 0 to |cs|
      invariant forall j | 0 <= j < i :: cs[j].name != name
    {
      if cs[i].name == name {
        return false;
      }
    }
    free := true;
  }

  /** The position of the first requirement nobody provides, or the number of them. */
  method FirstMissing(cs: seq<Meta>, c: Meta) returns (k: nat)
    ensures k <= |c.needs| && (k == |c.needs| <==> Satisfied(cs, c))
    ensures k < |c.needs| ==> IsFirstMissing(cs, c, k, c.needs[k])
  {
    k := 0;
    while k < |c.needs|
      invariant k <= |c.needs| && forall k' | 0 <= k' < k :: Provided(cs, |cs|, c.needs[k'])
    {
      var found := CheckProvided(cs, c.needs[k]);
      if !found {
        return;
      }
      k := k + 1;
    }
  }

  method CheckProvided(cs: seq<Meta>, need: string) returns (found: bool)
    ensures found == Provided(cs, |cs|, need)
  {
    found := false;
    for i := 0 to |cs|
      invariant !found && forall j | 0 <= j < i :: need !in cs[j].gives
    {
      if need in cs[i].gives {
        found := true;
        break;
      }
    }
  }

  lemma RegisteredAppend(cs: seq<Meta>, c: Meta)
    requires Registered(cs) && NameFree(cs, c.name)
    requires Satisfied(cs, c)
    ensures Registered(cs + [c])
  {
    var all := cs + [c];
    forall i | 0 <= i < |all|
      ensures NameFree(all[..i], all[i].name) && AllProvided(all, i)
    {
      if i < |cs| {
        assert all[..i] == cs[..i] && NameFree(cs[..i], cs[i].name) && AllProvided(cs, i);
        forall k | 0 <= k < |all[i].needs|
          ensures Provided(all, i, all[i].needs[k])
        {
          assert Provided(cs, i, cs[i].needs[k]);
        }
      } else {
        assert all[..i] == cs;
        forall k | 0 <= k < |all[i].needs|
          ensures Provided(all, i, all[i].needs[k])
        {
          assert Provided(cs, |cs|, c.needs[k]);
        }
      }
    }
  }

  /** `recompute_groups`: one pass for the levels, one for the groups. */
  method RecomputeGroups(cs: seq<Meta>) returns (groups: seq<seq<nat>>)
    ensures groups == GroupsOf(cs)
  {
    if |cs| == 0 {
      return [];
    }
    var levels: seq<nat> := [];
    var maxLevel: nat := 0;
    for i := 0 to |cs|
      invariant |levels| == i && forall j | 0 <= j < i :: levels[j] == Level(cs, j)
      invariant maxLevel == MaxLevel(cs, i)
    {
      var level := LevelOf(cs, levels, i);
      levels := levels + [level];
      maxLevel := Max(maxLevel, level);
    }
    groups := seq(maxLevel + 1, l => []);
    for i := 0 to |cs|
      invariant |groups| == maxLevel + 1
      invariant forall l | 0 <= l <= maxLevel :: groups[l] == Select(cs, l, i)
    {
      LevelBelowMax(cs, i, |cs|);
      groups := groups[levels[i] := groups[levels[i]] + [i]];
    }
  }

  /** The level of one component from the levels before it: every requirement against
      every earlier component. */
  method LevelOf(cs: seq<Meta>, levels: seq<nat>, i: nat) returns (maxDep: nat)
    requires i < |cs| && |levels| == i && forall j | 0 <= j < i :: levels[j] == Level(cs, j)
    ensures maxDep == Level(cs, i)
  {
    maxDep := 0;
    for k := 0 to |cs[i].needs|
      invariant forall k', j | 0 <= k' < k && 0 <= j < i && cs[i].needs[k'] in cs[j].gives :: Level(cs, j) < maxDep
      invariant maxDep == 0 || exists j: nat :: j < i && DependsOn(cs, i, j) && Level(cs, j) + 1 == maxDep
    {
      for j := 0 to i
        invariant forall k', j' | 0 <= k' < k && 0 <= j' < i && cs[i].needs[k'] in cs[j'].gives :: Level(cs, j') < maxDep
        invariant forall j' | 0 <= j' < j && cs[i].needs[k] in cs[j'].gives :: Level(cs, j') < maxDep
        invariant maxDep == 0 || exists j': nat :: j' < i && DependsOn(cs, i, j') && Level(cs, j') + 1 == maxDep
      {
        if cs[i].needs[k] in cs[j].gives {
          assert DependsOn(cs, i, j);
          maxDep := Max(maxDep, levels[j] + 1);
        }
      }
    }
    LevelIsLeast(cs, i, maxDep);
  }

  lemma {:induction false} LevelOverBounds(cs: seq<Meta>, i: nat, k: nat)
    requires k <= i < |cs|
    ensures forall j: nat | j < k && DependsOn(cs, i, j) :: Level(cs, j) < LevelOver(cs, i, k)
    ensures LevelOver(cs, i, k) == 0
      || exists j: nat :: j < k && DependsOn(cs, i, j) && Level(cs, j) + 1 == LevelOver(cs, i, k)
  {
    if k > 0 {
      LevelOverBounds(cs, i, k - 1);
    }
  }

  /** Every provider that counts lies strictly lower, and one of them just below. */
  lemma ProvidersAreLower(cs: seq<Meta>, i: nat)
    requires i < |cs|
    ensures forall j: nat | j < i && DependsOn(cs, i, j) :: Level(cs, j) < Level(cs, i)
    ensures Level(cs, i) == 0 || exists j: nat :: j < i && DependsOn(cs, i, j) && Level(cs, j) + 1 == Level(cs, i)
  {
    LevelOverBounds(cs, i, i);
  }

  lemma LevelIsLeast(cs: seq<Meta>, i: nat, level: nat)
    requires i < |cs|
    requires forall k, j | 0 <= k < |cs[i].needs| && 0 <= j < i && cs[i].needs[k] in cs[j].gives :: Level(cs, j) < level
    requires level == 0 || exists j: nat :: j < i && DependsOn(cs, i, j) && Level(cs, j) + 1 == level
    ensures level == Level(cs, i)
  {
    ProvidersAreLower(cs, i);
    forall j: nat | j < i && DependsOn(cs, i, j)
      ensures Level(cs, j) < level
    {
      var need :| need in cs[i].needs && need in cs[j].gives;
      var k :| 0 <= k < |cs[i].needs| && cs[i].needs[k] == need;
    }
  }

  lemma {:induction false} LevelBelowMax(cs: seq<Meta>, i: nat, n: nat)
    requires i < n <= |cs|
    ensures Level(cs, i) <= MaxLevel(cs, n)
  {
    if i < n - 1 {
      LevelBelowMax(cs, i, n - 1);
    }
  }

  /** A chain of components, each of which needs something the one before it provides. */
  ghost predicate Chain(cs: seq<Meta>, c: seq<nat>) {
    && c != []
    && (forall k | 0 <= k < |c| :: c[k] < |cs|)
    && forall k | 0 <= k < |c| - 1 :: DependsOn(cs, c[k + 1], c[k])
  }

  lemma {:induction false} ChainsFit(cs: seq<Meta>, c: seq<nat>)
    requires Chain(cs, c)
    ensures |c| <= Level(cs, c[|c| - 1]) + 1
    decreases |c|
  {
    if |c| > 1 {
      var front := c[..|c| - 1];
      ChainsFit(cs, front);
      assert DependsOn(cs, c[|c| - 2 + 1], c[|c| - 2]);
      ProvidersAreLower(cs, c[|c| - 1]);
    }
  }

  lemma {:induction false} ChainExists(cs: seq<Meta>, i: nat) returns (c: seq<nat>)
    requires i < |cs|
    ensures Chain(cs, c) && c[|c| - 1] == i && |c| == Level(cs, i) + 1
    decreases i
  {
    ProvidersAreLower(cs, i);
    if Level(cs, i) == 0 {
      c := [i];
    } else {
      var j: nat :| j < i && DependsOn(cs, i, j) && Level(cs, j) + 1 == Level(cs, i);
      var front := ChainExists(cs, j);
      c := front + [i];
    }
  }

  /** A component's level is the length, in steps, of the longest chain of earlier providers
      that ends in it. */
  lemma LevelIsLongestChain(cs: seq<Meta>, i: nat)
    requires i < |cs|
    ensures forall c | Chain(cs, c) && c[|c| - 1] == i :: |c| <= Level(cs, i) + 1
    ensures exists c :: Chain(cs, c) && c[|c| - 1] == i && |c| == Level(cs, i) + 1
  {
    forall c | Chain(cs, c) && c[|c| - 1] == i
      ensures |c| <= Level(cs, i) + 1
    {
      ChainsFit(cs, c);
    }
    var c := ChainExists(cs, i);
  }

  lemma {:induction false} SelectHolds(cs: seq<Meta>, l: nat, n: nat)
    requires n <= |cs|
    ensures forall i: nat :: i in Select(cs, l, n) <==> i < n && Level(cs, i) == l
    ensures forall a, b | 0 <= a < b < |Select(cs, l, n)| :: Select(cs, l, n)[a] < Select(cs, l, n)[b]
  {
    if n > 0 {
      SelectHolds(cs, l, n - 1);
      var front := Select(cs, l, n - 1);
      forall i: nat
        ensures i in Select(cs, l, n) <==> i < n && Level(cs, i) == l
      {
        assert i in Select(cs, l, n) <==> i in front || (i == n - 1 && Level(cs, n - 1) == l);
      }
      assert forall a | 0 <= a < |front| :: front[a] in front;
    }
  }

  lemma {:induction false} LevelReached(cs: seq<Meta>, i: nat, l: nat) returns (j: nat)
    requires i < |cs| && l <= Level(cs, i)
    ensures j <= i && Level(cs, j) == l
    decreases i
  {
    j := i;
    if l < Level(cs, i) {
      ProvidersAreLower(cs, i);
      var k: nat :| k < i && DependsOn(cs, i, k) && Level(cs, k) + 1 == Level(cs, i);
      j := LevelReached(cs, k, l);
    }
  }

  lemma {:induction false} MaxLevelReached(cs: seq<Meta>, n: nat) returns (i: nat)
    requires 0 < n <= |cs|
    ensures i < n && Level(cs, i) == MaxLevel(cs, n)
  {
    i := n - 1;
    if n > 1 && Level(cs, n - 1) < MaxLevel(cs, n) {
      i := MaxLevelReached(cs, n - 1);
    }
  }

  /** The groups partition the components by level, in registration order inside a group,
      and none is empty. */
  lemma GroupsPartition(cs: seq<Meta>)
    ensures var groups := GroupsOf(cs);
      && (forall i | 0 <= i < |cs| :: Level(cs, i) < |groups|)
      && (forall l, i: nat | 0 <= l < |groups| :: i in groups[l] <==> i < |cs| && Level(cs, i) == l)
      && (forall l, a, b | 0 <= l < |groups| && 0 <= a < b < |groups[l]| :: groups[l][a] < groups[l][b])
      && (forall l | 0 <= l < |groups| :: groups[l] != [])
  {
    var groups := GroupsOf(cs);
    forall i | 0 <= i < |cs|
      ensures Level(cs, i) < |groups|
    {
      LevelBelowMax(cs, i, |cs|);
    }
    forall l | 0 <= l < |groups|
      ensures groups[l] == Select(cs, l, |cs|) && groups[l] != []
      ensures forall i: nat :: i in groups[l] <==> i < |cs| && Level(cs, i) == l
      ensures forall a, b | 0 <= a < b < |groups[l]| :: groups[l][a] < groups[l][b]
    {
      SelectHolds(cs, l, |cs|);
      var top := MaxLevelReached(cs, |cs|);
      var j := LevelReached(cs, top, l);
    }
  }

  lemma {:induction false} LevelOverKept(cs: seq<Meta>, c: Meta, i: nat, k: nat)
    requires k <= i < |cs|
    ensures LevelOver(cs + [c], i, k) == LevelOver(cs, i, k)
    decreases i, k
  {
    if k > 0 {
      LevelOverKept(cs, c, i, k - 1);
      LevelOverKept(cs, c, k - 1, k - 1);
      assert (cs + [c])[i] == cs[i] && (cs + [c])[k - 1] == cs[k - 1];
      assert DependsOn(cs + [c], i, k - 1) == DependsOn(cs, i, k - 1);
    }
  }

  /** Registering a component changes no level that is already there. */
  lemma RegisteringKeepsLevels(cs: seq<Meta>, c: Meta, i: nat)
    requires i < |cs|
    ensures Level(cs + [c], i) == Level(cs, i)
  {
    LevelOverKept(cs, c, i, i);
  }

  lemma {:induction false} FlattenSplits(groups: seq<seq<nat>>, l: nat)
    requires l < |groups|
    ensures Flatten(groups) == Flatten(groups[..l]) + groups[l] + Flatten(groups[l + 1..])
  {
    if l > 0 {
      FlattenSplits(groups[1..], l - 1);
      assert groups[1..][..l - 1] == groups[..l][1..];
      assert groups[1..][l..] == groups[l + 1..];
    }
  }

  lemma {:induction false} GroupOfMember(groups: seq<seq<nat>>, i: nat) returns (l: nat)
    requires i in Flatten(groups)
    ensures l < |groups| && i in groups[l]
  {
    if i in groups[0] {
      l := 0;
    } else {
      var k := GroupOfMember(groups[1..], i);
      l := k + 1;
    }
  }

  lemma FlattenMembers(groups: seq<seq<nat>>, i: nat)
    ensures i in Flatten(groups) <==> exists l :: 0 <= l < |groups| && i in groups[l]
  {
    if i in Flatten(groups) {
      var l := GroupOfMember(groups, i);
    }
    forall l | 0 <= l < |groups| && i in groups[l]
      ensures i in Flatten(groups)
    {
      FlattenSplits(groups, l);
    }
  }

  lemma OwnGroup(cs: seq<Meta>, i: nat)
    requires i < |cs|
    ensures Level(cs, i) < |GroupsOf(cs)|
    ensures forall l | 0 <= l < |GroupsOf(cs)| :: i in GroupsOf(cs)[l] <==> l == Level(cs, i)
  {
    GroupsPartition(cs);
  }

  /** Group order is a topological order: when a component's turn comes, every component
      that provides one of its requirements has had its own. */
  lemma InitOrderIsTopological(cs: seq<Meta>, i: nat, j: nat)
    requires i < |cs| && DependsOn(cs, i, j)
    ensures exists before, after ::
      Flatten(GroupsOf(cs)) == before + after && j in before && i !in before && i in after
  {
    ProvidersAreLower(cs, i);
    OwnGroup(cs, i);
    OwnGroup(cs, j);
    var before, after := LowerGroupFirst(GroupsOf(cs), Level(cs, j), Level(cs, i), j, i);
  }

  lemma LowerGroupFirst(groups: seq<seq<nat>>, k: nat, l: nat, j: nat, i: nat)
    returns (before: seq<nat>, after: seq<nat>)
    requires k < l < |groups| && j in groups[k] && forall m | 0 <= m < |groups| :: i in groups[m] <==> m == l
    ensures Flatten(groups) == before + after && j in before && i !in before && i in after
  {
    before := Flatten(groups[..l]);
    after := groups[l] + Flatten(groups[l + 1..]);
    FlattenSplits(groups, l);
    assert before + groups[l] + Flatten(groups[l + 1..]) == before + after;
    InFlattened(groups[..l], k, j);
    FlattenMembers(groups[..l], i);
  }

  lemma InFlattened(groups: seq<seq<nat>>, k: nat, j: nat)
    requires k < |groups| && j in groups[k]
    ensures j in Flatten(groups)
  {
    FlattenMembers(groups, j);
  }

  /** So every requirement of a registered component is provided before its turn. */
  lemma RequirementsComeFirst(cs: seq<Meta>, i: nat, k: nat)
    requires Registered(cs) && i < |cs| && k < |cs[i].needs|
    ensures exists before, after, j: nat ::
      && Flatten(GroupsOf(cs)) == before + after && i !in before && i in after
      && j in before && j < |cs| && cs[i].needs[k] in cs[j].gives
  {
    assert AllProvided(cs, i) && Provided(cs, i, cs[i].needs[k]);
    var j :| 0 <= j < i && cs[i].needs[k] in cs[j].gives;
    InitOrderIsTopological(cs, i, j);
  }
}
