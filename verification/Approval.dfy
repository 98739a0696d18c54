/** `ApprovalService` of plugins/services/security/approval.rs. A clock reading is a
    parameter, in milliseconds; an approval's UUID is a number, new for every request. */
module Approval {
  import opened Sorting
  import opened Wrappers

  type Id = nat

  datatype Config = Config(defaultTimeoutSecs: nat, maxPending: nat)

  datatype Decision = AllowOnce | AllowAlways | Deny

  datatype Pending = Pending(toolName: string, prompt: string, createdAt: int, deadline: int)

  datatype Completed = Completed(id: Id, toolName: string, decision: Decision, completedAt: int)

  datatype Error = NotAccepting | QueueFull(count: nat, limit: nat) | NoSuchApproval(id: Id)

  function Deadline(cfg: Config, now: int, timeoutSecs: Option<nat>): int {
    now + timeoutSecs.GetOr(cfg.defaultTimeoutSecs) * 1000
  }

  function Expired(pending: map<Id, Pending>, now: int): set<Id> {
    set id | id in pending && now > pending[id].deadline
  }

  /** `Timestamp::duration_since`, which does not go below zero. */
  function Age(now: int, at: int): nat {
    if now > at then now - at else 0
  }

  function Young(completed: seq<Completed>, now: int, maxAge: nat): seq<Completed> {
    if completed == [] then []
    else if Age(now, completed[0].completedAt) < maxAge then [completed[0]] + Young(completed[1..], now, maxAge)
    else Young(completed[1..], now, maxAge)
  }

  function CompletedAt(): Completed -> real {
    (c: Completed) => c.completedAt as real
  }

  /** The records a collection keeps: the young ones, and of too many of them the newest. */
  function Cleaned(completed: seq<Completed>, now: int, maxAge: nat, maxCount: nat): seq<Completed> {
    var young := Young(completed, now, maxAge);
    if |young| <= maxCount then young
    else
      SortLength(young);
      StableSort(young, CompletedAt())[|young| - maxCount..]
  }

  lemma SortLength(cs: seq<Completed>)
    ensures |StableSort(cs, CompletedAt())| == |cs|
  {
    SortPermutes(cs, CompletedAt());
    assert |multiset(StableSort(cs, CompletedAt()))| == |multiset(cs)|;
  }

  class ApprovalService {
    const config: Config
    var pending: map<Id, Pending>
    var completed: seq<Completed>
    var acceptingNew: bool

    constructor (config: Config)
      ensures this.config == config && pending == map[] && completed == [] && acceptingNew
    {
      this.config, pending, completed, acceptingNew := config, map[], [], true;
    }

    /** The two checks of a request, which only read. */
    method Admit() returns (error: Option<Error>)
      ensures error == if !acceptingNew then Some(NotAccepting)
                       else if |pending| >= config.maxPending then Some(QueueFull(|pending|, config.maxPending))
                       else None
    {
      if !acceptingNew {
        return Some(NotAccepting);
      }
      var pendingCount := |pending|;
      if pendingCount >= config.maxPending {
        return Some(QueueFull(pendingCount, config.maxPending));
      }
      return None;
    }

    /** The insertion, the last step of a request, on the map as it is by then. */
    method InsertPending(id: Id, toolName: string, prompt: string, timeoutSecs: Option<nat>, now: int)
      modifies this`pending
      ensures pending == old(pending)[id := Pending(toolName, prompt, now, Deadline(config, now, timeoutSecs))]
    {
      pending := pending[id := Pending(toolName, prompt, now, Deadline(config, now, timeoutSecs))];
    }

    /** `request_approval` when nothing runs between its checks and its insertion. */
    method RequestApproval(id: Id, toolName: string, prompt: string, timeoutSecs: Option<nat>, now: int)
      returns (r: Result<Id, Error>)
      modifies this`pending
      ensures r.Ok? <==> acceptingNew && |old(pending)| < config.maxPending
      ensures r.Ok? ==> r.value == id
      ensures r.Ok? ==> pending == old(pending)[id := Pending(toolName, prompt, now, Deadline(config, now, timeoutSecs))]
      ensures r.Err? ==> pending == old(pending)
      ensures |old(pending)| <= config.maxPending ==> |pending| <= config.maxPending
    {
      var error := Admit();
      if error.Some? {
        return Err(error.value);
      }
      InsertPending(id, toolName, prompt, timeoutSecs, now);
      return Ok(id);
    }

    method Respond(id: Id, decision: Decision, now: int) returns (r: Result<Id, Error>)
      modifies this`pending, this`completed
      ensures id !in old(pending) ==>
        r == Err(NoSuchApproval(id)) && pending == old(pending) && completed == old(completed)
      ensures id in old(pending) ==>
        && r == Ok(id) && pending == old(pending) - {id}
        && completed == old(completed) + [Completed(id, old(pending)[id].toolName, decision, now)]
    {
      if id !in pending {
        return Err(NoSuchApproval(id));
      }
      var p := pending[id];
      pending := pending - {id};
      completed := completed + [Completed(id, p.toolName, decision, now)];
      return Ok(id);
    }

    method RunGcCycle(now: int, maxAge: nat, maxCount: nat)
      modifies this`pending, this`completed
      ensures pending == old(pending) - Expired(old(pending), now)
      ensures completed == Cleaned(old(completed), now, maxAge, maxCount)
    {
      pending := RemoveExpired(pending, now);
      var kept := Young(completed, now, maxAge);
      if |kept| > maxCount {
        SortLength(kept);
        kept := StableSort(kept, CompletedAt());
        var excess := |kept| - maxCount;
        kept := kept[excess..];
      }
      completed := kept;
    }

    method SetAcceptingNew(accept: bool)
      modifies this`acceptingNew
      ensures acceptingNew == accept
    {
      acceptingNew := accept;
    }

    method ClearAllPending()
      modifies this`pending
      ensures pending == map[]
    {
      pending := map[];
    }
  }

  /** Collects the ids past their deadline, then removes them one by one. */
  method RemoveExpired(pending0: map<Id, Pending>, now: int) returns (pending: map<Id, Pending>)
    ensures pending == pending0 - Expired(pending0, now)
  {
    pending := pending0;
    var timeoutIds := Expired(pending0, now);
    while timeoutIds != {}
      invariant timeoutIds <= Expired(pending0, now)
      invariant pending == pending0 - (Expired(pending0, now) - timeoutIds)
      decreases |timeoutIds|
    {
      var id :| id in timeoutIds;
      pending := pending - {id};
      timeoutIds := timeoutIds - {id};
    }
  }

  // What a collection keeps.

  lemma {:induction false} YoungIsFilter(cs: seq<Completed>, now: int, maxAge: nat)
    ensures forall c | c in Young(cs, now, maxAge) :: c in cs && Age(now, c.completedAt) < maxAge
    ensures forall c | c in cs && Age(now, c.completedAt) < maxAge :: c in Young(cs, now, maxAge)
  {
    if cs != [] {
      YoungIsFilter(cs[1..], now, maxAge);
    }
  }

  lemma {:induction false} YoungOfYoung(cs: seq<Completed>, now: int, maxAge: nat)
    requires forall c | c in cs :: Age(now, c.completedAt) < maxAge
    ensures Young(cs, now, maxAge) == cs
  {
    if cs != [] {
      YoungOfYoung(cs[1..], now, maxAge);
    }
  }

  lemma {:induction false} Ordered(cs: seq<Completed>, i: nat, j: nat)
    requires Sorted(cs, CompletedAt()) && i < j < |cs|
    ensures cs[i].completedAt <= cs[j].completedAt
  {
    if i == 0 {
      assert cs[1..][j - 1] == cs[j];
      assert CompletedAt()(cs[0]) <= CompletedAt()(cs[1..][j - 1]);
    } else {
      Ordered(cs[1..], i - 1, j - 1);
    }
  }

  /** The young records split into the dropped and the kept, and none of the dropped is newer
      than a kept one. */
  lemma DroppedAreOldest(completed: seq<Completed>, now: int, maxAge: nat, maxCount: nat) returns (dropped: seq<Completed>)
    ensures var kept := Cleaned(completed, now, maxAge, maxCount);
      && multiset(Young(completed, now, maxAge)) == multiset(dropped) + multiset(kept)
      && |kept| <= maxCount && (dropped != [] ==> |kept| == maxCount)
      && forall d, c | d in dropped && c in kept :: d.completedAt <= c.completedAt
  {
    var young := Young(completed, now, maxAge);
    if |young| <= maxCount {
      dropped := [];
    } else {
      var sorted := StableSort(young, CompletedAt());
      SortLength(young);
      SortPermutes(young, CompletedAt());
      var excess := |young| - maxCount;
      dropped := sorted[..excess];
      var kept := sorted[excess..];
      assert sorted == dropped + kept;
      forall d, c | d in dropped && c in kept
        ensures d.completedAt <= c.completedAt
      {
        CutIsOrdered(young, excess, d, c);
      }
    }
  }

  lemma CutIsOrdered(young: seq<Completed>, excess: nat, d: Completed, c: Completed)
    requires var sorted := StableSort(young, CompletedAt());
      excess <= |sorted| && d in sorted[..excess] && c in sorted[excess..]
    ensures d.completedAt <= c.completedAt
  {
    var sorted := StableSort(young, CompletedAt());
    SortSorts(young, CompletedAt());
    var i: nat :| i < excess && sorted[i] == d;
    var j: nat :| j < |sorted[excess..]| && sorted[excess..][j] == c;
    Ordered(sorted, i, excess + j);
  }

  lemma KeptAreYoung(completed: seq<Completed>, now: int, maxAge: nat, maxCount: nat)
    ensures forall c | c in Cleaned(completed, now, maxAge, maxCount) ::
      c in completed && Age(now, c.completedAt) < maxAge
  {
    YoungIsFilter(completed, now, maxAge);
    var dropped := DroppedAreOldest(completed, now, maxAge, maxCount);
    forall c | c in Cleaned(completed, now, maxAge, maxCount)
      ensures c in Young(completed, now, maxAge)
    {
      assert c in multiset(Cleaned(completed, now, maxAge, maxCount));
      assert c in multiset(Young(completed, now, maxAge));
    }
  }

  /** A second collection at the same time changes nothing. */
  lemma CleaningIsIdempotent(completed: seq<Completed>, now: int, maxAge: nat, maxCount: nat)
    ensures var kept := Cleaned(completed, now, maxAge, maxCount);
      Cleaned(kept, now, maxAge, maxCount) == kept
  {
    var kept := Cleaned(completed, now, maxAge, maxCount);
    KeptAreYoung(completed, now, maxAge, maxCount);
    YoungOfYoung(kept, now, maxAge);
    var dropped := DroppedAreOldest(completed, now, maxAge, maxCount);
  }

  // When a request expires.

  /** A request's own timeout outranks the configured one, and a collection removes the request
      exactly when it runs later than that many seconds after the request came in. */
  lemma ExpiresAfterItsTimeout(cfg: Config, pending: map<Id, Pending>, id: Id, p: Pending, made: int,
                               timeoutSecs: Option<nat>, now: int)
    requires p == Pending(p.toolName, p.prompt, made, Deadline(cfg, made, timeoutSecs))
    ensures var limit := if timeoutSecs.Some? then timeoutSecs.value else cfg.defaultTimeoutSecs;
      id in Expired(pending[id := p], now) <==> now - made > 1000 * limit
    ensures forall other | other != id :: other in Expired(pending[id := p], now) <==> other in Expired(pending, now)
  {
  }

  /** The records young enough to keep are those completed less than `maxAge` ago. */
  lemma YoungByTime(completed: seq<Completed>, now: int, maxAge: nat, c: Completed)
    requires maxAge > 0
    ensures c in Young(completed, now, maxAge) <==> c in completed && now - c.completedAt < maxAge
  {
    YoungIsFilter(completed, now, maxAge);
  }
}
