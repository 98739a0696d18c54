/** `SessionState` of core/runtime.rs and the token limit it puts on its messages. */
module Session {
  import opened Messages

  const MIN_RETAIN: nat := 10
  const DEFAULT_WINDOW: nat := 128_000

  function MaxTokens(contextWindow: nat): nat {
    if contextWindow > 0 then contextWindow else DEFAULT_WINDOW
  }

  /** How many messages the limit may remove at most. */
  function Cap(messages: seq<Message>): nat {
    |messages| - if |messages| < MIN_RETAIN then |messages| else MIN_RETAIN
  }

  function SystemOnly(messages: seq<Message>): seq<Message> {
    if messages == [] then []
    else if messages[0].role == System then [messages[0]] + SystemOnly(messages[1..])
    else SystemOnly(messages[1..])
  }

  function NonSystem(messages: seq<Message>): seq<Message> {
    if messages == [] then []
    else if messages[0].role == System then NonSystem(messages[1..])
    else [messages[0]] + NonSystem(messages[1..])
  }

  /** `messages` without its `k` oldest non-System messages. */
  function DropOldest(messages: seq<Message>, k: nat): seq<Message> {
    if messages == [] || k == 0 then messages
    else if messages[0].role == System then [messages[0]] + DropOldest(messages[1..], k)
    else DropOldest(messages[1..], k - 1)
  }

  /** How many messages go when `excess` tokens are too many and at most `cap` may go. */
  function RemoveCount(messages: seq<Message>, excess: int, cap: nat): nat {
    if messages == [] || excess <= 0 || cap == 0 then 0
    else if messages[0].role == System then RemoveCount(messages[1..], excess, cap)
    else 1 + RemoveCount(messages[1..], excess - EstimateTokens(messages[0]), cap - 1)
  }

  function TrimCount(contextWindow: nat, messages: seq<Message>): nat {
    RemoveCount(messages, TokenSum(messages) - MaxTokens(contextWindow), Cap(messages))
  }

  function Trimmed(contextWindow: nat, messages: seq<Message>): seq<Message> {
    DropOldest(messages, TrimCount(contextWindow, messages))
  }

  class SessionState {
    const sessionId: string
    const maxTurns: nat
    const contextWindow: nat
    var messages: seq<Message>

    constructor (sessionId: string, maxTurns: nat, contextWindow: nat)
      ensures this.sessionId == sessionId && this.maxTurns == maxTurns
      ensures this.contextWindow == contextWindow && messages == []
    {
      this.sessionId, this.maxTurns, this.contextWindow := sessionId, maxTurns, contextWindow;
      messages := [];
    }

    method PushMessage(msg: Message)
      modifies this
      ensures messages == Trimmed(contextWindow, old(messages) + [msg])
    {
      messages := messages + [msg];
      EnforceMessageLimit();
    }

    method ReplaceMessages(newMessages: seq<Message>)
      modifies this
      ensures messages == Trimmed(contextWindow, newMessages)
    {
      messages := newMessages;
      EnforceMessageLimit();
    }

    method EnforceMessageLimit()
      modifies this
      ensures messages == Trimmed(contextWindow, old(messages))
    {
      var maxTokens := MaxTokens(contextWindow);
      var totalTokens := TokenSum(messages);
      if totalTokens <= maxTokens {
        return;
      }
      messages := Retain(messages, totalTokens - maxTokens, Cap(messages));
    }
  }

  /** The retain pass over the messages, with its two running counters. */
  method Retain(messages: seq<Message>, tokensToRemove: nat, canRemoveCount: nat) returns (kept: seq<Message>)
    ensures kept == DropOldest(messages, RemoveCount(messages, tokensToRemove, canRemoveCount))
  {
    var removedTokens, removedCount := 0, 0;
    kept := [];
    ghost var goal := AfterRetain([], messages, tokensToRemove, canRemoveCount);
    var left := messages;
    while left != []
      invariant removedCount <= canRemoveCount
      invariant AfterRetain(kept, left, tokensToRemove - removedTokens, canRemoveCount - removedCount) == goal
      decreases |left|
    {
      var m := left[0];
      RetainStep(kept, left, tokensToRemove - removedTokens, canRemoveCount - removedCount);
      if removedTokens >= tokensToRemove || m.role == System || removedCount >= canRemoveCount {
        kept := kept + [m];
      } else {
        removedTokens, removedCount := removedTokens + EstimateTokens(m), removedCount + 1;
      }
      left := left[1..];
    }
    RetainEnds(kept, tokensToRemove - removedTokens, canRemoveCount - removedCount);
  }

  /** The list the retain pass ends with, from what it has kept and what is left to visit. */
  ghost function AfterRetain(kept: seq<Message>, left: seq<Message>, excess: int, cap: nat): seq<Message> {
    kept + DropOldest(left, RemoveCount(left, excess, cap))
  }

  lemma RetainEnds(kept: seq<Message>, excess: int, cap: nat)
    ensures AfterRetain(kept, [], excess, cap) == kept
  {
  }

  /** One message of the retain pass. */
  lemma RetainStep(kept: seq<Message>, left: seq<Message>, excess: int, cap: nat)
    requires left != []
    ensures var m, rest := left[0], left[1..];
      AfterRetain(kept, left, excess, cap) ==
        if excess <= 0 || m.role == System || cap == 0
        then AfterRetain(kept + [m], rest, excess, cap)
        else AfterRetain(kept, rest, excess - EstimateTokens(m), cap - 1)
  {
  }

  lemma {:induction false} NonSystemAppend(a: seq<Message>, b: seq<Message>)
    ensures NonSystem(a + b) == NonSystem(a) + NonSystem(b)
  {
    if a == [] {
      assert a + b == b;
    } else {
      assert (a + b)[1..] == a[1..] + b;
      NonSystemAppend(a[1..], b);
    }
  }

  lemma {:induction false} SystemOnlyAppend(a: seq<Message>, b: seq<Message>)
    ensures SystemOnly(a + b) == SystemOnly(a) + SystemOnly(b)
  {
    if a == [] {
      assert a + b == b;
    } else {
      assert (a + b)[1..] == a[1..] + b;
      SystemOnlyAppend(a[1..], b);
    }
  }

  lemma {:induction false} TokenSumAppend(a: seq<Message>, b: seq<Message>)
    ensures TokenSum(a + b) == TokenSum(a) + TokenSum(b)
  {
    if a == [] {
      assert a + b == b;
    } else {
      assert (a + b)[1..] == a[1..] + b;
      TokenSumAppend(a[1..], b);
    }
  }

  lemma {:induction false} FilterSizes(messages: seq<Message>)
    ensures |NonSystem(messages)| + |SystemOnly(messages)| == |messages|
  {
    if messages != [] {
      FilterSizes(messages[1..]);
    }
  }

  /** Dropping splits the list at a point: before it only System messages stay, from it on
      everything stays. */
  lemma {:induction false} DropOldestCuts(messages: seq<Message>, k: nat) returns (cut: nat)
    requires k <= |NonSystem(messages)|
    ensures cut <= |messages| && |NonSystem(messages[..cut])| == k
    ensures DropOldest(messages, k) == SystemOnly(messages[..cut]) + messages[cut..]
  {
    if messages == [] || k == 0 {
      cut := 0;
    } else {
      var m := messages[0];
      var rest := DropOldestCuts(messages[1..], if m.role == System then k else k - 1);
      cut := rest + 1;
      assert messages[..cut] == [m] + messages[1..][..rest];
      assert messages[cut..] == messages[1..][rest..];
    }
  }

  /** What stays: every System message, and the non-System messages from the k-th on. */
  lemma DropOldestKeeps(messages: seq<Message>, k: nat)
    requires k <= |NonSystem(messages)|
    ensures SystemOnly(DropOldest(messages, k)) == SystemOnly(messages)
    ensures NonSystem(DropOldest(messages, k)) == NonSystem(messages)[k..]
    ensures |DropOldest(messages, k)| == |messages| - k
    ensures TokenSum(DropOldest(messages, k)) + TokenSum(NonSystem(messages)[..k]) == TokenSum(messages)
  {
    var cut := DropOldestCuts(messages, k);
    var front, back := messages[..cut], messages[cut..];
    assert messages == front + back;
    SystemOnlyAppend(front, back);
    NonSystemAppend(front, back);
    SystemOnlyAppend(SystemOnly(front), back);
    NonSystemAppend(SystemOnly(front), back);
    SystemOnlyTwice(front);
    FilterSizes(front);
    FilterTokens(front);
    TokenSumAppend(front, back);
    TokenSumAppend(SystemOnly(front), back);
    assert NonSystem(messages)[..k] == NonSystem(front);
  }

  lemma {:induction false} SystemOnlyTwice(messages: seq<Message>)
    ensures SystemOnly(SystemOnly(messages)) == SystemOnly(messages)
    ensures NonSystem(SystemOnly(messages)) == []
  {
    if messages != [] {
      var m, rest := messages[0], messages[1..];
      SystemOnlyTwice(rest);
      if m.role == System {
        assert SystemOnly(messages)[1..] == SystemOnly(rest);
      }
    }
  }

  lemma {:induction false} FilterTokens(messages: seq<Message>)
    ensures TokenSum(SystemOnly(messages)) + TokenSum(NonSystem(messages)) == TokenSum(messages)
  {
    if messages != [] {
      var m, rest := messages[0], messages[1..];
      FilterTokens(rest);
      if m.role == System {
        assert SystemOnly(messages)[1..] == SystemOnly(rest);
      } else {
        assert NonSystem(messages)[1..] == NonSystem(rest);
      }
    }
  }

  lemma {:induction false} DropOldestInFront(a: seq<Message>, b: seq<Message>, k: nat)
    requires k <= |NonSystem(a)|
    ensures DropOldest(a + b, k) == DropOldest(a, k) + b
  {
    if a != [] && k > 0 {
      assert (a + b)[1..] == a[1..] + b;
      DropOldestInFront(a[1..], b, if a[0].role == System then k else k - 1);
    }
  }

  lemma TokensOfPrefix(messages: seq<Message>, i: nat, j: nat)
    requires i <= j <= |messages|
    ensures TokenSum(messages[..i]) <= TokenSum(messages[..j])
  {
    assert messages[..j] == messages[..i] + messages[i..j];
    TokenSumAppend(messages[..i], messages[i..j]);
  }

  /** `k` is the least number of the oldest `others` that makes up `excess` tokens, unless the
      cap or the supply ends the removal first. */
  ghost predicate IsLeast(others: seq<Message>, excess: int, cap: nat, k: nat) {
    && k <= cap && k <= |others|
    && (forall j | 0 <= j < k :: TokenSum(others[..j]) < excess)
    && (k < cap && k < |others| ==> TokenSum(others[..k]) >= excess)
  }

  lemma PrefixTokens(m: Message, rest: seq<Message>, j: nat)
    requires 1 <= j <= |rest| + 1
    ensures TokenSum(([m] + rest)[..j]) == EstimateTokens(m) + TokenSum(rest[..j - 1])
  {
    assert ([m] + rest)[..j][1..] == rest[..j - 1];
  }

  lemma OneMoreIsLeast(m: Message, rest: seq<Message>, excess: int, cap: nat, k: nat)
    requires excess > 0 && cap > 0 && IsLeast(rest, excess - EstimateTokens(m), cap - 1, k)
    ensures IsLeast([m] + rest, excess, cap, k + 1)
  {
    forall j | 0 <= j < k + 1
      ensures TokenSum(([m] + rest)[..j]) < excess
    {
      if j > 0 {
        PrefixTokens(m, rest, j);
      }
    }
    PrefixTokens(m, rest, k + 1);
  }

  lemma {:induction false} RemoveCountIsLeast(messages: seq<Message>, excess: int, cap: nat)
    ensures IsLeast(NonSystem(messages), excess, cap, RemoveCount(messages, excess, cap))
  {
    if messages != [] && excess > 0 && cap > 0 {
      var m, rest := messages[0], messages[1..];
      if m.role == System {
        RemoveCountIsLeast(rest, excess, cap);
      } else {
        RemoveCountIsLeast(rest, excess - EstimateTokens(m), cap - 1);
        OneMoreIsLeast(m, NonSystem(rest), excess, cap, RemoveCount(rest, excess - EstimateTokens(m), cap - 1));
      }
    }
  }

  /** What trimming does: it removes exactly the `k` oldest non-System messages, where `k`
      is the least count that fits the limit, or else everything it may remove. */
  lemma TrimRemovesLeast(contextWindow: nat, messages: seq<Message>)
    ensures var limit, k := if contextWindow > 0 then contextWindow else 128_000, TrimCount(contextWindow, messages);
      var spare := if |messages| > 10 then |messages| - 10 else 0;
      var most := if spare < |NonSystem(messages)| then spare else |NonSystem(messages)|;
      && k <= most
      && Trimmed(contextWindow, messages) == DropOldest(messages, k)
      && (forall j | 0 <= j < k :: TokenSum(DropOldest(messages, j)) > limit)
      && (TokenSum(DropOldest(messages, k)) <= limit || k == most)
  {
    var excess := TokenSum(messages) - MaxTokens(contextWindow);
    RemoveCountIsLeast(messages, excess, Cap(messages));
    forall j | 0 <= j <= TrimCount(contextWindow, messages)
      ensures TokenSum(DropOldest(messages, j)) + TokenSum(NonSystem(messages)[..j]) == TokenSum(messages)
    {
      DropOldestKeeps(messages, j);
    }
  }

  lemma TrimKeepsEnough(contextWindow: nat, messages: seq<Message>)
    ensures var kept := Trimmed(contextWindow, messages);
      && SystemOnly(kept) == SystemOnly(messages)
      && |messages| >= |kept| >= (if |messages| < 10 then |messages| else 10)
      && |messages| - |kept| <= |NonSystem(messages)|
      && NonSystem(kept) == NonSystem(messages)[|messages| - |kept|..]
  {
    TrimRemovesLeast(contextWindow, messages);
    DropOldestKeeps(messages, TrimCount(contextWindow, messages));
  }

  lemma TrimIsIdempotent(contextWindow: nat, messages: seq<Message>)
    ensures Trimmed(contextWindow, Trimmed(contextWindow, messages)) == Trimmed(contextWindow, messages)
  {
    TrimRemovesLeast(contextWindow, messages);
    var kept := Trimmed(contextWindow, messages);
    DropOldestKeeps(messages, TrimCount(contextWindow, messages));
    TrimRemovesLeast(contextWindow, kept);
    assert DropOldest(kept, 0) == kept;
  }

  lemma CountBelowOlder(contextWindow: nat, messages: seq<Message>)
    ensures var older, recent := messages[..Cap(messages)], messages[Cap(messages)..];
      TrimCount(contextWindow, messages) <= |NonSystem(older)| <==>
        || TokenSum(NonSystem(older)) >= TokenSum(messages) - MaxTokens(contextWindow)
        || SystemOnly(older) == []
        || NonSystem(recent) == []
  {
    var excess, cap := TokenSum(messages) - MaxTokens(contextWindow), Cap(messages);
    var older, recent := messages[..cap], messages[cap..];
    assert messages == older + recent;
    NonSystemAppend(older, recent);
    FilterSizes(older);
    RemoveCountIsLeast(messages, excess, cap);
    var k, p, others := TrimCount(contextWindow, messages), |NonSystem(older)|, NonSystem(messages);
    assert others[..p] == NonSystem(older);
    if k <= p {
      TokensOfPrefix(others, k, p);
    }
  }

  /** The source says it keeps the most recent MIN_RETAIN messages. It keeps that many,
      but not always the recent ones: the recent ones stay exactly when the older messages
      hold enough removable tokens, or no System message, or nothing else is removable. */
  lemma TrimKeepsRecent(contextWindow: nat, messages: seq<Message>)
    ensures var older, recent := messages[..Cap(messages)], messages[Cap(messages)..];
      (exists front :: Trimmed(contextWindow, messages) == front + recent) <==>
        || TokenSum(NonSystem(older)) >= TokenSum(messages) - MaxTokens(contextWindow)
        || SystemOnly(older) == []
        || NonSystem(recent) == []
  {
    var cap, k := Cap(messages), TrimCount(contextWindow, messages);
    var older, recent := messages[..cap], messages[cap..];
    assert messages == older + recent;
    CountBelowOlder(contextWindow, messages);
    NonSystemAppend(older, recent);
    var kept := Trimmed(contextWindow, messages);
    if k <= |NonSystem(older)| {
      DropOldestInFront(older, recent, k);
    } else {
      TrimRemovesLeast(contextWindow, messages);
      DropOldestKeeps(messages, k);
      forall front | kept == front + recent
        ensures false
      {
        NonSystemAppend(front, recent);
      }
    }
  }

  lemma {:induction false} OnlySystem(system: Message, n: nat)
    requires system.role == System
    ensures NonSystem(seq(n, i => system)) == []
    ensures TokenSum(seq(n, i => system)) >= n
  {
    if n > 0 {
      OnlySystem(system, n - 1);
      assert seq(n, i => system)[1..] == seq(n - 1, i => system);
    }
  }

  /** Ten System messages and then one user message over the limit: the newest goes. */
  lemma NewestMessageCanGo(system: Message, user: Message)
    requires system.role == System && user.role == User
    ensures NonSystem(Trimmed(1, seq(10, i => system) + [user])) == []
  {
    var older := seq(10, i => system);
    var messages := older + [user];
    OnlySystem(system, 10);
    NonSystemAppend(older, [user]);
    TokenSumAppend(older, [user]);
    TrimRemovesLeast(1, messages);
    DropOldestKeeps(messages, TrimCount(1, messages));
  }
}
