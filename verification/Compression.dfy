/** One round of the compression loop of plugins/services/compression/service.rs: which
    messages are kept, what they are made into, and the write-back. The scores, the ratio the
    controller asks for and the recall decision are parameters. */
module Compression {
  import opened Messages
  import opened MessageStore
  import opened Text

  datatype AnchorConfig = AnchorConfig(anchorMin: real, windowRatio: real)

  function Least(x: int, y: int): int {
    if x <= y then x else y
  }

  function Ceil(x: real): int {
    -(-x).Floor
  }

  /** Rust's `as usize`: cut off, and not below zero. */
  function AsUsize(x: real): nat {
    if x < 0.0 then 0 else x.Floor
  }

  // The window that is kept unseen.

  datatype Window = Window(start: nat, end: int)

  function Width(cfg: AnchorConfig, total: nat, coldStart: bool): nat {
    var w := Ceil(total as real * if coldStart then 0.5 else cfg.windowRatio);
    if w < 0 then 0 else w
  }

  /** `Anchor::calculate`. */
  function Anchor(cfg: AnchorConfig, total: nat, coldStart: bool): Window {
    if total == 0 then Window(0, 0)
    else
      var window := Width(cfg, total, coldStart);
      var start := AsUsize((if total < window then 0 else total - window) as real * cfg.anchorMin);
      Window(start, Least(start + window, total))
  }

  lemma FloorOfShare(x: nat, share: real)
    requires share <= 1.0
    ensures AsUsize(x as real * share) <= x
  {
    assert x as real * share <= x as real;
  }

  lemma CeilOfShare(x: nat, share: real)
    requires share <= 1.0
    ensures Ceil(x as real * share) <= x
  {
    assert x as real * share <= x as real;
  }

  lemma StartIsInRange(cfg: AnchorConfig, total: nat, coldStart: bool)
    requires cfg.anchorMin <= 1.0
    ensures Anchor(cfg, total, coldStart).start + Width(cfg, total, coldStart) <= total
      || Anchor(cfg, total, coldStart).start == 0
  {
    var window := Width(cfg, total, coldStart);
    if total < window {
      assert 0 as real * cfg.anchorMin == 0.0;
    } else {
      FloorOfShare(total - window, cfg.anchorMin);
    }
  }

  /** The window never passes the end of the list, and unless it is told to start beyond the
      list it lies in it, whatever the width. */
  lemma AnchorIsInRange(cfg: AnchorConfig, total: nat, coldStart: bool)
    ensures Anchor(cfg, total, coldStart).end <= total
    ensures cfg.anchorMin <= 1.0 ==> Anchor(cfg, total, coldStart).start <= Anchor(cfg, total, coldStart).end
  {
    if cfg.anchorMin <= 1.0 {
      StartIsInRange(cfg, total, coldStart);
    }
  }

  /** A window of at most the whole list gets its full width. */
  lemma AnchorHasFullWidth(cfg: AnchorConfig, total: nat, coldStart: bool)
    requires cfg.anchorMin <= 1.0 && (coldStart || cfg.windowRatio <= 1.0) && total > 0
    ensures var w := Anchor(cfg, total, coldStart); w.end - w.start == Width(cfg, total, coldStart)
  {
    StartIsInRange(cfg, total, coldStart);
    CeilOfShare(total, if coldStart then 0.5 else cfg.windowRatio);
  }

  ghost predicate RoundedDown(k: int, x: real) {
    k as real <= x < k as real + 1.0
  }

  ghost predicate RoundedUp(k: int, x: real) {
    k as real - 1.0 < x <= k as real
  }

  lemma NonNegativeProduct(x: real, y: real)
    requires x >= 0.0 && y >= 0.0
    ensures x * y >= 0.0
  {
  }

  lemma AsUsizeRounds(x: real)
    requires x >= 0.0
    ensures RoundedDown(AsUsize(x), x)
  {
  }

  lemma CeilRounds(x: real)
    requires x >= 0.0
    ensures Ceil(x) >= 0 && RoundedUp(Ceil(x), x)
  {
    var n := (-x).Floor;
    assert n as real <= -x < n as real + 1.0;
  }

  lemma WidthIsShare(cfg: AnchorConfig, total: nat, coldStart: bool, ratio: real)
    requires ratio == (if coldStart then 0.5 else cfg.windowRatio) && ratio >= 0.0
    ensures RoundedUp(Width(cfg, total, coldStart), total as real * ratio)
  {
    NonNegativeProduct(total as real, ratio);
    CeilRounds(total as real * ratio);
  }

  /** Where the window lies: as wide as its share of the list, rounded up, and behind a share of
      the rest, rounded down. At the cold start it is half of the list, whatever is configured. */
  lemma AnchorIsWhere(cfg: AnchorConfig, total: nat, coldStart: bool, ratio: real, rest: nat)
    requires total > 0 && cfg.anchorMin >= 0.0
    requires ratio == (if coldStart then 0.5 else cfg.windowRatio) && ratio >= 0.0
    requires var width := Width(cfg, total, coldStart); rest == if width <= total then total - width else 0
    ensures var w, width := Anchor(cfg, total, coldStart), Width(cfg, total, coldStart);
      && RoundedUp(width, total as real * ratio)
      && RoundedDown(w.start, rest as real * cfg.anchorMin)
      && w.end == if w.start + width <= total then w.start + width else total
  {
    WidthIsShare(cfg, total, coldStart, ratio);
    NonNegativeProduct(rest as real, cfg.anchorMin);
    AsUsizeRounds(rest as real * cfg.anchorMin);
    StartOf(cfg, total, coldStart, rest);
  }

  lemma StartOf(cfg: AnchorConfig, total: nat, coldStart: bool, rest: nat)
    requires total > 0
    requires var width := Width(cfg, total, coldStart); rest == if width <= total then total - width else 0
    ensures Anchor(cfg, total, coldStart).start == AsUsize(rest as real * cfg.anchorMin)
  {
  }

  // Choosing the messages to keep.

  /** The indices from `i` on that are in the window or scored high enough. */
  function Scored(n: nat, w: Window, decide: nat -> bool, i: nat): seq<nat>
    decreases n - i
  {
    if i >= n then []
    else if w.start <= i < w.end || decide(i) then [i] + Scored(n, w, decide, i + 1)
    else Scored(n, w, decide, i + 1)
  }

  function Range(from: nat, count: nat): seq<nat> {
    seq(count, i requires i >= 0 => from + i)
  }

  function NextAfter(kept: seq<nat>): nat {
    if kept == [] then 0 else kept[|kept| - 1] + 1
  }

  /** How many indices the top-up adds. */
  function Missing(n: nat, target: nat, kept: seq<nat>): nat {
    var short := Least(target, n) - |kept|;
    var room := n - NextAfter(kept);
    if short <= 0 || room <= 0 then 0 else Least(short, room)
  }

  function Selection(n: nat, w: Window, decide: nat -> bool, target: nat): seq<nat> {
    var scored := Scored(n, w, decide, 0);
    scored + Range(NextAfter(scored), Missing(n, target, scored))
  }

  method SelectKeep(n: nat, w: Window, decide: nat -> bool, target: nat) returns (keep: seq<nat>)
    ensures keep == Selection(n, w, decide, target)
  {
    keep := [];
    var i: nat := 0;
    while i < n
      invariant i <= n && keep + Scored(n, w, decide, i) == Scored(n, w, decide, 0)
    {
      if i >= w.start && i < w.end {
        keep := keep + [i];
      } else if decide(i) {
        keep := keep + [i];
      }
      i := i + 1;
    }
    keep := TopUp(n, w, decide, target, keep);
  }

  /** Indices are added after the last one while the target is not met. */
  method TopUp(n: nat, ghost w: Window, ghost decide: nat -> bool, target: nat, scored: seq<nat>) returns (keep: seq<nat>)
    requires scored == Scored(n, w, decide, 0)
    ensures keep == scored + Range(NextAfter(scored), Missing(n, target, scored))
  {
    ScoredIsIncreasing(n, w, decide, 0);
    keep := scored;
    ghost var added: nat := 0;
    while |keep| < target && |keep| < n
      invariant keep == scored + Range(NextAfter(scored), added)
      invariant added <= Missing(n, target, scored)
      decreases n - |keep|
    {
      var next := NextAfter(keep);
      RangeEnds(scored, added);
      NextIsNew(n, scored, added);
      if next < n && next !in keep {
        keep := keep + [next];
        added := added + 1;
      } else {
        break;
      }
    }
  }

  lemma RangeEnds(scored: seq<nat>, added: nat)
    ensures NextAfter(scored + Range(NextAfter(scored), added)) == NextAfter(scored) + added
    ensures Range(NextAfter(scored), added) + [NextAfter(scored) + added] == Range(NextAfter(scored), added + 1)
  {
  }

  ghost predicate Increasing(kept: seq<nat>, n: nat) {
    (forall i, j | 0 <= i < j < |kept| :: kept[i] < kept[j]) && forall i | 0 <= i < |kept| :: kept[i] < n
  }

  lemma NextIsNew(n: nat, scored: seq<nat>, added: nat)
    requires Increasing(scored, n)
    ensures NextAfter(scored) + added !in scored + Range(NextAfter(scored), added)
  {
  }

  lemma {:induction false} ScoredIsIncreasing(n: nat, w: Window, decide: nat -> bool, i: nat)
    ensures Increasing(Scored(n, w, decide, i), n)
    ensures forall k | k in Scored(n, w, decide, i) :: k >= i
    decreases n - i
  {
    if i < n {
      ScoredIsIncreasing(n, w, decide, i + 1);
      var rest := Scored(n, w, decide, i + 1);
      assert forall k | 0 <= k < |rest| :: rest[k] in rest;
    }
  }

  lemma {:induction false} ScoredIsComplete(n: nat, w: Window, decide: nat -> bool, i: nat, k: nat)
    requires i <= k < n
    ensures k in Scored(n, w, decide, i) <==> w.start <= k < w.end || decide(k)
    decreases n - i
  {
    if i < k {
      ScoredIsComplete(n, w, decide, i + 1, k);
    } else {
      ScoredIsIncreasing(n, w, decide, i + 1);
    }
  }

  /** The kept indices are increasing and in range. */
  lemma SelectionIsIncreasing(n: nat, w: Window, decide: nat -> bool, target: nat)
    ensures Increasing(Selection(n, w, decide, target), n)
  {
    ScoredIsIncreasing(n, w, decide, 0);
  }

  /** The window and every message that scored high enough are kept; anything else that is
      kept comes after the last of them, without a gap. */
  lemma SelectionKeeps(n: nat, w: Window, decide: nat -> bool, target: nat, k: nat)
    requires k < n
    ensures var scored := Scored(n, w, decide, 0);
      k in Selection(n, w, decide, target)
      <==> w.start <= k < w.end || decide(k)
           || NextAfter(scored) <= k < NextAfter(scored) + Missing(n, target, scored)
  {
    var scored := Scored(n, w, decide, 0);
    ScoredIsComplete(n, w, decide, 0, k);
    InRange(NextAfter(scored), Missing(n, target, scored), k);
  }

  lemma InRange(from: nat, count: nat, k: nat)
    ensures k in Range(from, count) <==> from <= k < from + count
  {
    if from <= k < from + count {
      assert Range(from, count)[k - from] == k;
    }
  }

  /** The loop that is meant to keep at least `target` messages reaches that many, or all, if
      and only if enough messages follow the last one that was kept before it; otherwise it
      ends at the last message. */
  lemma TargetIsReachedIff(n: nat, w: Window, decide: nat -> bool, target: nat)
    ensures var scored := Scored(n, w, decide, 0);
      var kept := Selection(n, w, decide, target);
      && (|kept| >= Least(target, n) <==> |scored| + n - NextAfter(scored) >= Least(target, n))
      && (|kept| < Least(target, n) ==> kept != [] && kept[|kept| - 1] == n - 1)
  {
    var scored := Scored(n, w, decide, 0);
    ScoredIsIncreasing(n, w, decide, 0);
    IncreasingIsSparse(scored, n);
  }

  lemma {:induction false} IncreasingIsSparse(kept: seq<nat>, n: nat)
    requires Increasing(kept, n)
    ensures |kept| <= NextAfter(kept) <= n
  {
    if kept != [] {
      IncreasingIsSparse(kept[..|kept| - 1], n);
    }
  }

  /** A target of 5 out of 10 with a window at the end keeps 2. */
  lemma TargetCanBeMissed()
    ensures |Selection(10, Window(8, 10), _ => false, 5)| == 2
  {
  }

  // What the kept messages are made into.

  function Kept(messages: seq<Message>, keep: set<nat>, i: nat): seq<Message>
    decreases |messages| - i
  {
    if i >= |messages| then []
    else if i in keep then [messages[i]] + Kept(messages, keep, i + 1)
    else Kept(messages, keep, i + 1)
  }

  function Dropped(messages: seq<Message>, keep: set<nat>, i: nat): seq<Message>
    decreases |messages| - i
  {
    if i >= |messages| then []
    else if i in keep then Dropped(messages, keep, i + 1)
    else [messages[i]] + Dropped(messages, keep, i + 1)
  }

  function NonEmptyTexts(messages: seq<Message>): seq<string> {
    if messages == [] then []
    else
      var text := TextContent(messages[0]);
      (if text != "" then [text] else []) + NonEmptyTexts(messages[1..])
  }

  const PARTS: nat := 10

  function Summary(kept: seq<Message>): string {
    var texts := NonEmptyTexts(kept);
    Join(if |texts| <= PARTS then texts else texts[..PARTS], "\n---\n")
  }

  datatype CompressResult = CompressResult(compressedCount: int, summary: string, tokenSaved: nat)

  function AsSet(keep: seq<nat>): set<nat> {
    set k | k in keep
  }

  /** `Compressor::compress`. */
  function Compress(messages: seq<Message>, keep: seq<nat>): CompressResult {
    var kept := AsSet(keep);
    CompressResult(|messages| - |kept|, Summary(Kept(messages, kept, 0)), TokenSum(Dropped(messages, kept, 0)))
  }

  lemma {:induction false} TokensSplit(messages: seq<Message>, keep: set<nat>, i: nat)
    requires i <= |messages|
    ensures TokenSum(Kept(messages, keep, i)) + TokenSum(Dropped(messages, keep, i)) == TokenSum(messages[i..])
    ensures |Kept(messages, keep, i)| + |Dropped(messages, keep, i)| == |messages| - i
    decreases |messages| - i
  {
    if i < |messages| {
      TokensSplit(messages, keep, i + 1);
      assert messages[i..][1..] == messages[i + 1..];
    }
  }

  lemma {:induction false} KeptSize(messages: seq<Message>, keep: set<nat>, i: nat)
    requires i <= |messages| && forall k | k in keep :: i <= k < |messages|
    ensures |Kept(messages, keep, i)| == |keep|
    decreases |messages| - i
  {
    if i == |messages| {
      assert keep == {};
    } else {
      KeptIgnoresPast(messages, keep, keep - {i}, i + 1);
      KeptSize(messages, keep - {i}, i + 1);
    }
  }

  lemma {:induction false} KeptIgnoresPast(messages: seq<Message>, a: set<nat>, b: set<nat>, i: nat)
    requires forall k | k >= i :: k in a <==> k in b
    ensures Kept(messages, a, i) == Kept(messages, b, i)
    decreases |messages| - i
  {
    if i < |messages| {
      KeptIgnoresPast(messages, a, b, i + 1);
    }
  }

  lemma WithoutLast(keep: seq<nat>, n: nat)
    requires Increasing(keep, n) && keep != []
    ensures var m := |keep| - 1; Increasing(keep[..m], n) && keep[m] !in keep[..m] && keep == keep[..m] + [keep[m]]
  {
  }

  lemma AsSetAppend(keep: seq<nat>, k: nat)
    ensures AsSet(keep + [k]) == AsSet(keep) + {k}
  {
  }

  lemma {:induction false} IncreasingIsSet(keep: seq<nat>, n: nat)
    requires Increasing(keep, n)
    ensures |AsSet(keep)| == |keep|
  {
    if keep == [] {
      assert AsSet(keep) == {};
    } else {
      var m := |keep| - 1;
      WithoutLast(keep, n);
      IncreasingIsSet(keep[..m], n);
      AsSetAppend(keep[..m], keep[m]);
    }
  }

  /** Nothing is counted twice or left out: kept and compressed messages make up the list, and
      so do their tokens. */
  lemma CompressConserves(messages: seq<Message>, keep: seq<nat>)
    requires Increasing(keep, |messages|)
    ensures var r := Compress(messages, keep);
      var kept := Kept(messages, AsSet(keep), 0);
      && |kept| == |keep| && |keep| + r.compressedCount == |messages|
      && TokenSum(kept) + r.tokenSaved == TokenSum(messages)
  {
    IncreasingIsSet(keep, |messages|);
    KeptSize(messages, AsSet(keep), 0);
    TokensSplit(messages, AsSet(keep), 0);
    assert messages[0..] == messages;
  }

  // Which texts a summary joins.

  /** The texts of `messages` at the positions `at`. */
  function TextsAt(messages: seq<Message>, at: seq<nat>): seq<string>
    requires Increasing(at, |messages|)
  {
    seq(|at|, k requires 0 <= k < |at| => TextContent(messages[at[k]]))
  }

  /** The positions are increasing and have texts, and they leave none out before `limit`. */
  ghost predicate AreTexts(messages: seq<Message>, at: seq<nat>, limit: nat) {
    && Increasing(at, |messages|)
    && (forall j | 0 <= j < |at| :: TextContent(messages[at[j]]) != "")
    && (forall k | 0 <= k < |messages| && k < limit && TextContent(messages[k]) != "" :: k in at)
  }

  lemma {:induction false} TextPositions(messages: seq<Message>) returns (at: seq<nat>)
    ensures AreTexts(messages, at, |messages|) && NonEmptyTexts(messages) == TextsAt(messages, at)
  {
    if messages == [] {
      at := [];
    } else {
      var n := |messages| - 1;
      var before := TextPositions(messages[..n]);
      assert messages == messages[..n] + [messages[n]];
      at := LastPosition(messages[..n], messages[n], before);
    }
  }

  lemma LastPosition(messages: seq<Message>, last: Message, before: seq<nat>) returns (at: seq<nat>)
    requires AreTexts(messages, before, |messages|) && NonEmptyTexts(messages) == TextsAt(messages, before)
    ensures AreTexts(messages + [last], at, |messages| + 1)
    ensures NonEmptyTexts(messages + [last]) == TextsAt(messages + [last], at)
  {
    NonEmptyAppend(messages, last);
    SameTexts(messages, last, before);
    if TextContent(last) == "" {
      at := before;
      NoTextAdded(messages, last, before);
    } else {
      at := before + [|messages|];
      TextAdded(messages, last, before);
    }
  }

  lemma NoTextAdded(messages: seq<Message>, last: Message, before: seq<nat>)
    requires AreTexts(messages, before, |messages|) && TextContent(last) == ""
    ensures AreTexts(messages + [last], before, |messages| + 1)
  {
  }

  lemma TextAdded(messages: seq<Message>, last: Message, before: seq<nat>)
    requires AreTexts(messages, before, |messages|) && TextContent(last) != ""
    ensures AreTexts(messages + [last], before + [|messages|], |messages| + 1)
  {
    var at := before + [|messages|];
    assert |messages| in at && forall k | k in before :: k in at;
  }

  lemma SameTexts(messages: seq<Message>, last: Message, at: seq<nat>)
    requires Increasing(at, |messages|)
    ensures TextsAt(messages + [last], at) == TextsAt(messages, at)
    ensures TextsAt(messages + [last], at + [|messages|]) == TextsAt(messages, at) + [TextContent(last)]
  {
  }

  lemma {:induction false} NonEmptyAppend(messages: seq<Message>, last: Message)
    ensures NonEmptyTexts(messages + [last])
      == NonEmptyTexts(messages) + if TextContent(last) != "" then [TextContent(last)] else []
  {
    if messages == [] {
      assert [last][1..] == [];
    } else {
      assert (messages + [last])[1..] == messages[1..] + [last];
      NonEmptyAppend(messages[1..], last);
    }
  }

  /** A summary joins the first ten texts that are not empty, in order; all of them if there
      are no more than ten. */
  lemma SummaryJoins(kept: seq<Message>) returns (at: seq<nat>)
    ensures |at| <= 10 && AreTexts(kept, at, if |at| < 10 then |kept| else at[9])
    ensures Summary(kept) == Join(TextsAt(kept, at), "\n---\n")
  {
    var all := TextPositions(kept);
    SummaryOf(kept, TextsAt(kept, all));
    if |all| < 10 {
      at := all;
    } else {
      at := all[..10];
      FirstTen(kept, all, at);
      FirstTexts(kept, all, at);
    }
  }

  lemma SummaryOf(kept: seq<Message>, texts: seq<string>)
    requires texts == NonEmptyTexts(kept)
    ensures Summary(kept) == Join(if |texts| < 10 then texts else texts[..10], "\n---\n")
  {
    assert |texts| == 10 ==> texts[..10] == texts;
  }

  lemma FirstTexts(kept: seq<Message>, all: seq<nat>, at: seq<nat>)
    requires Increasing(all, |kept|) && |all| >= 10 && at == all[..10]
    ensures Increasing(at, |kept|) && TextsAt(kept, at) == TextsAt(kept, all)[..10]
  {
  }

  lemma FirstTen(kept: seq<Message>, all: seq<nat>, at: seq<nat>)
    requires AreTexts(kept, all, |kept|) && |all| >= 10 && at == all[..10]
    ensures AreTexts(kept, at, at[9])
  {
    forall k | 0 <= k < |kept| && k < at[9] && TextContent(kept[k]) != ""
      ensures k in at
    {
      assert k in all;
      var j :| 0 <= j < |all| && all[j] == k;
      assert at[9] == all[9];
      assert j < 10 ==> at[j] == k;
    }
  }

  /** The kept messages are those at the kept indices, in order. */
  lemma {:induction false} KeptByIndex(messages: seq<Message>, keep: seq<nat>, i: nat)
    requires Increasing(keep, |messages|) && i <= |messages| && forall k | k in keep :: i <= k
    ensures Kept(messages, AsSet(keep), i) == seq(|keep|, j requires 0 <= j < |keep| => messages[keep[j]])
    decreases |messages| - i
  {
    assert keep != [] ==> keep[0] in keep;
    if i < |messages| {
      if keep != [] && keep[0] == i {
        assert i in AsSet(keep);
        KeptIgnoresPast(messages, AsSet(keep), AsSet(keep[1..]), i + 1);
        KeptByIndex(messages, keep[1..], i + 1);
      } else {
        assert forall j | 0 <= j < |keep| :: keep[0] <= keep[j];
        KeptByIndex(messages, keep, i + 1);
      }
    }
  }

  // Whether a round asks for the full history back.

  const LOSS_SEVERITY: real := 0.5
  const RECALL_SEVERITY: real := 0.7

  datatype LossSignal = LossSignal(missing: set<string>, severity: real)

  datatype RecallAction = NoRecall | Restore(messageIds: seq<nat>) | RequestFullHistory

  /** The words of more than four bytes, in lower case; case folding is a parameter. */
  function Entities(messages: seq<Message>, lower: string -> string): set<string> {
    set m, w | m in messages && w in SplitWhitespace(TextContent(m)) && Bytes(lower(w)) > 4 :: lower(w)
  }

  /** `Feedback::detect_loss`. */
  function DetectLoss(before: seq<Message>, after: seq<Message>, lower: string -> string): seq<LossSignal> {
    var missing := Entities(before, lower) - Entities(after, lower);
    if missing == {} then [] else [LossSignal(missing, LOSS_SEVERITY)]
  }

  /** `Recall::recall`. */
  function Recall(signals: seq<LossSignal>): RecallAction {
    if signals == [] then NoRecall
    else if exists i | 0 <= i < |signals| :: signals[i].severity > RECALL_SEVERITY then RequestFullHistory
    else Restore([])
  }

  /** The detector reports all lost words at once, and the recall wants the full history exactly
      when a signal is severe. */
  lemma SignalsAndRecall(before: seq<Message>, after: seq<Message>, lower: string -> string, signals: seq<LossSignal>)
    ensures DetectLoss(before, after, lower) == [] <==> Entities(before, lower) <= Entities(after, lower)
    ensures forall s | s in DetectLoss(before, after, lower) ::
      s.severity == 0.5 && forall w :: w in s.missing <==> w in Entities(before, lower) && w !in Entities(after, lower)
    ensures Recall(signals) == RequestFullHistory <==> exists i | 0 <= i < |signals| :: signals[i].severity > 0.7
    ensures Recall(signals) == NoRecall <==> signals == []
  {
    Difference(Entities(before, lower), Entities(after, lower));
  }

  /** The detector never reports a loss that passes the threshold, so the full history is never
      asked for, whatever is lost: a loss only asks for the restoring of no messages. */
  lemma LossNeverRecallsAll(before: seq<Message>, after: seq<Message>, lower: string -> string)
    ensures Recall(DetectLoss(before, after, lower))
      == if Entities(before, lower) <= Entities(after, lower) then NoRecall else Restore([])
  {
    Difference(Entities(before, lower), Entities(after, lower));
  }

  /** What counts as a word to lose: lower-cased words of more than four bytes. */
  lemma EntityOfWord(m: Message, blanks: string, word: string, rest: string, lower: string -> string)
    requires TextContent(m) == blanks + word + rest && word != ""
    requires AllBlank(blanks) && NoneBlank(word) && (rest == "" || AllBlank([rest[0]]))
    ensures Bytes(lower(word)) > 4 ==> lower(word) in Entities([m], lower)
    ensures forall e | e in Entities([m], lower) :: Bytes(e) > 4
  {
    SplitFindsWord(blanks, word, rest);
    assert word in SplitWhitespace(TextContent(m)) && m in [m];
  }

  lemma Difference(a: set<string>, b: set<string>)
    ensures a - b == {} <==> a <= b
  {
    if a - b == {} {
      forall w | w in a
        ensures w in b
      {
        assert w !in a - b;
      }
    }
  }

  // One round.

  datatype Config = Config(collectMessages: nat, lowThreshold: real, highThreshold: real, anchor: AnchorConfig)

  /** What the components that are not modelled say in a round: the token count, the ratio the
      controller asks for, whether it is starting, the decision on each index and the case
      folding of a word. */
  datatype Advice = Advice(
    totalTokens: nat,
    ratio: real,
    coldStart: bool,
    decide: nat -> bool,
    lower: string -> string)

  function Clamp(x: real): real {
    if x < 0.1 then 0.1 else if x > 1.0 then 1.0 else x
  }

  function Distance(x: real, y: real): real {
    if x <= y then y - x else x - y
  }

  /** The controller's ratio is moved to the nearest one from a tenth to all. */
  lemma ClampIsNearest(x: real, y: real)
    requires 0.1 <= y <= 1.0
    ensures 0.1 <= Clamp(x) <= 1.0 && Distance(x, Clamp(x)) <= Distance(x, y)
  {
  }

  predicate TooEarly(cfg: Config, messages: seq<Message>, advice: Advice) {
    messages == [] || advice.totalTokens == 0 || |messages| < cfg.collectMessages
  }

  /** The fuzzy decision to leave the list alone. */
  predicate KeepsAll(cfg: Config, ratio: real) {
    ratio > cfg.lowThreshold && ratio >= cfg.highThreshold
  }

  function TargetKeep(cfg: Config, n: nat, ratio: real): nat {
    var effective := if ratio <= cfg.lowThreshold then ratio else cfg.highThreshold;
    var target := AsUsize(n as real * effective);
    if target < 1 then 1 else target
  }

  /** How many messages a round aims for: at least one, and otherwise the share that the
      controller asks for, rounded down, or the upper threshold's between the two thresholds. */
  lemma TargetIsShare(cfg: Config, n: nat, ratio: real)
    requires 0.0 <= ratio && !KeepsAll(cfg, ratio) && 0.0 <= cfg.highThreshold
    ensures var target := TargetKeep(cfg, n, ratio);
      var share := n as real * if ratio <= cfg.lowThreshold then ratio else cfg.highThreshold;
      (share < 1.0 ==> target == 1) && (share >= 1.0 ==> RoundedDown(target, share))
  {
    var part := if ratio <= cfg.lowThreshold then ratio else cfg.highThreshold;
    var share := n as real * part;
    NonNegativeProduct(n as real, part);
    AsUsizeRounds(share);
    AtLeastOne(AsUsize(share), share);
    assert TargetKeep(cfg, n, ratio) == if AsUsize(share) < 1 then 1 else AsUsize(share);
  }

  lemma AtLeastOne(k: nat, x: real)
    requires RoundedDown(k, x)
    ensures x < 1.0 <==> k < 1
  {
  }

  function KeepOf(cfg: Config, n: nat, advice: Advice): seq<nat> {
    Selection(n, Anchor(cfg.anchor, n, advice.coldStart), advice.decide, TargetKeep(cfg, n, Clamp(advice.ratio)))
  }

  function SummaryMessage(summary: string): Message {
    Message(System, [TextBlock(summary)])
  }

  /** The list that takes the place of `messages`. */
  function Replacement(cfg: Config, messages: seq<Message>, advice: Advice): seq<Message> {
    [SummaryMessage(Compress(messages, KeepOf(cfg, |messages|, advice)).summary)]
  }

  predicate RecallsAll(cfg: Config, messages: seq<Message>, advice: Advice) {
    Recall(DetectLoss(messages, Replacement(cfg, messages, advice), advice.lower)).RequestFullHistory?
  }

  predicate Skips(cfg: Config, messages: seq<Message>, advice: Advice) {
    TooEarly(cfg, messages, advice) || KeepsAll(cfg, Clamp(advice.ratio)) || RecallsAll(cfg, messages, advice)
  }

  /** Only the checks before the selection skip a round; the words it loses never do. */
  lemma LossNeverSkips(cfg: Config, messages: seq<Message>, advice: Advice)
    ensures Skips(cfg, messages, advice) <==> TooEarly(cfg, messages, advice) || KeepsAll(cfg, Clamp(advice.ratio))
    ensures Skips(cfg, messages, advice) <==>
      || messages == [] || advice.totalTokens == 0 || |messages| < cfg.collectMessages
      || (Clamp(advice.ratio) > cfg.lowThreshold && Clamp(advice.ratio) >= cfg.highThreshold)
  {
    LossNeverRecallsAll(messages, Replacement(cfg, messages, advice), advice.lower);
  }

  datatype ServiceState = Sleep | Compressing

  /** What a round means to write, and on which version. */
  datatype Draft = Nothing | Draft(version: nat, messages: seq<Message>)

  function DraftOf(cfg: Config, entry: StoreEntry<Message>, advice: Advice): Draft {
    if Skips(cfg, entry.messages, advice) then Nothing
    else Draft(entry.version, Replacement(cfg, entry.messages, advice))
  }

  class CompressionService {
    const config: Config
    var state: ServiceState

    constructor (config: Config)
      ensures this.config == config && state == Sleep
    {
      this.config, state := config, Sleep;
    }

    /** The first half of a `NewMessagesArrived` event: reads the list and decides. */
    method Begin(store: SharedMessageStore<Message>, session: string, advice: Advice) returns (draft: Draft)
      requires state == Sleep
      modifies this
      ensures draft == DraftOf(config, EntryOf(store.inner, session), advice)
      ensures state == if draft.Nothing? then Sleep else Compressing
    {
      state := Compressing;
      draft := Nothing;
      var messages, version := store.Read(session);
      if messages == [] || advice.totalTokens == 0 || |messages| < config.collectMessages {
        state := Sleep;
        return;
      }
      var keepRatio := Clamp(advice.ratio);
      if keepRatio > config.lowThreshold && keepRatio >= config.highThreshold {
        state := Sleep;
        return;
      }
      var target := TargetKeep(config, |messages|, keepRatio);
      var window := Anchor(config.anchor, |messages|, advice.coldStart);
      var keep := SelectKeep(|messages|, window, advice.decide, target);
      var compressed := [SummaryMessage(Compress(messages, keep).summary)];
      var recall := Recall(DetectLoss(messages, compressed, advice.lower));
      if !recall.RequestFullHistory? {
        draft := Draft(version, compressed);
      }
      state := if recall.RequestFullHistory? then Sleep else Compressing;
    }

    /** The second half, on the store as it is by then: the swap, and back to sleep. */
    method Finish(store: SharedMessageStore<Message>, session: string, draft: Draft)
      requires draft.Draft? && state == Compressing
      modifies this, store
      ensures state == Sleep
      ensures store.inner == Swapped(old(store.inner), session, draft.version, draft.messages)
    {
      var _ := store.CompareAndWrite(session, draft.version, draft.messages);
      state := Sleep;
    }

    /** A whole event, when nothing else touches the store meanwhile: the list is left alone or
        replaced by the one summary message, and the service sleeps again. */
    method OnNewMessages(store: SharedMessageStore<Message>, session: string, advice: Advice)
      requires state == Sleep
      modifies this, store
      ensures state == Sleep
      ensures var messages := EntryOf(old(store.inner), session).messages;
        store.inner == if TooEarly(config, messages, advice) || KeepsAll(config, Clamp(advice.ratio)) then old(store.inner)
                       else Written(old(store.inner), session, Replacement(config, messages, advice))
    {
      LossNeverSkips(config, EntryOf(store.inner, session).messages, advice);
      var draft := Begin(store, session, advice);
      if draft.Draft? {
        Finish(store, session, draft);
      }
    }
  }

  /** Whatever happens to the store between the halves: the round replaces the list it read if
      the version still is the one it read, and otherwise changes what no session reads. */
  lemma InterferedRound(cfg: Config, read: Entries<Message>, now: Entries<Message>, session: string, advice: Advice)
    requires DraftOf(cfg, EntryOf(read, session), advice).Draft?
    ensures var draft := DraftOf(cfg, EntryOf(read, session), advice);
      var after := Swapped(now, session, draft.version, draft.messages);
      if EntryOf(now, session).version == EntryOf(read, session).version
      then EntryOf(after, session).messages == Replacement(cfg, EntryOf(read, session).messages, advice)
      else forall s :: EntryOf(after, s) == EntryOf(now, s)
  {
  }

  /** A round that is not skipped leaves one message, made of at most ten of the kept texts. */
  lemma RoundLeavesOneMessage(cfg: Config, messages: seq<Message>, advice: Advice)
    ensures var after := Replacement(cfg, messages, advice);
      |after| == 1 && TextContent(after[0]) == Summary(Kept(messages, AsSet(KeepOf(cfg, |messages|, advice)), 0))
  {
    SummaryText(Compress(messages, KeepOf(cfg, |messages|, advice)).summary);
  }

  /** The text that takes the place of a list: the first ten texts that are not empty among the
      messages at the kept indices, in order. */
  lemma RoundKeepsTenTexts(cfg: Config, messages: seq<Message>, advice: Advice) returns (at: seq<nat>)
    ensures var keep := KeepOf(cfg, |messages|, advice);
      && Increasing(keep, |messages|)
      && var kept := seq(|keep|, j requires 0 <= j < |keep| => messages[keep[j]]);
      && |at| <= 10 && AreTexts(kept, at, if |at| < 10 then |kept| else at[9])
      && Replacement(cfg, messages, advice) == [Message(System, [TextBlock(Join(TextsAt(kept, at), "\n---\n"))])]
  {
    var keep := KeepOf(cfg, |messages|, advice);
    SelectionIsIncreasing(|messages|, Anchor(cfg.anchor, |messages|, advice.coldStart), advice.decide,
                          TargetKeep(cfg, |messages|, Clamp(advice.ratio)));
    KeptByIndex(messages, keep, 0);
    at := SummaryJoins(Kept(messages, AsSet(keep), 0));
  }

  lemma SummaryText(summary: string)
    ensures TextContent(SummaryMessage(summary)) == summary
  {
    assert [TextBlock(summary)][1..] == [];
    assert TextsOf([TextBlock(summary)]) == [summary];
  }
}
