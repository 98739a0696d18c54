/** `TextChunker::chunk` of plugins/services/memory/l3_vector/chunker.rs. */
module Chunker {
  import opened Text
  import opened Wrappers

  datatype Config = Config(chunkSize: nat, chunkOverlap: nat)

  predicate IsHeading(line: string) {
    "### " <= line
  }

  /** The last `n` characters. */
  function Tail(s: string, n: nat): string {
    if |s| <= n then s else s[|s| - n..]
  }

  predicate Overflows(cfg: Config, chunk: string, line: string) {
    Bytes(chunk) + Bytes(line) + 1 > cfg.chunkSize
  }

  /** What a chunk has before its own lines: the end of the previous chunk, unless it is the
      first chunk or starts with a heading. */
  function Lead(cfg: Config, prev: Option<string>, first: string): string {
    if prev.None? || IsHeading(first) then "" else Tail(prev.value, cfg.chunkOverlap) + "\n\n"
  }

  /** The chunk that the lines `run` make after the chunk `prev`. */
  function ChunkText(cfg: Config, prev: Option<string>, run: seq<string>): string
    requires run != []
  {
    Lead(cfg, prev, run[0]) + Join(run, "\n")
  }

  /** Only a heading or a line that does not fit any more starts a chunk. */
  predicate Starts(cfg: Config, prev: Option<string>, line: string) {
    if prev.None? then line != "" else IsHeading(line) || Overflows(cfg, prev.value, line)
  }

  predicate Continues(cfg: Config, chunk: string, line: string) {
    !IsHeading(line) && !Overflows(cfg, chunk, line)
  }

  /** The lines of one chunk: the first starts it and each other continues what the lines
      before it made. */
  predicate IsRun(cfg: Config, prev: Option<string>, run: seq<string>) {
    run != [] &&
    var m := |run| - 1;
    if m == 0 then Starts(cfg, prev, run[0])
    else IsRun(cfg, prev, run[..m]) && Continues(cfg, ChunkText(cfg, prev, run[..m]), run[m])
  }

  predicate IsChunk(cfg: Config, prev: Option<string>, run: seq<string>, chunk: string) {
    IsRun(cfg, prev, run) && chunk == ChunkText(cfg, prev, run)
  }

  function Last(chunks: seq<string>): Option<string> {
    if chunks == [] then None else Some(chunks[|chunks| - 1])
  }

  predicate Chunked(cfg: Config, runs: seq<seq<string>>, chunks: seq<string>)
    decreases |runs|
  {
    && |runs| == |chunks|
    && (runs != [] ==>
          var n := |runs| - 1;
          Chunked(cfg, runs[..n], chunks[..n]) && IsChunk(cfg, Last(chunks[..n]), runs[n], chunks[n]))
  }

  /** The last chunk apart from those before it. */
  lemma OpenChunk(cfg: Config, closedRuns: seq<seq<string>>, run: seq<string>, closed: seq<string>, chunk: string)
    ensures Chunked(cfg, closedRuns + [run], closed + [chunk])
      <==> Chunked(cfg, closedRuns, closed) && IsChunk(cfg, Last(closed), run, chunk)
  {
  }

  lemma LongerText(cfg: Config, prev: Option<string>, run: seq<string>, line: string)
    requires run != []
    ensures ChunkText(cfg, prev, run + [line]) == ChunkText(cfg, prev, run) + "\n" + line
  {
  }

  lemma LongerRun(cfg: Config, prev: Option<string>, run: seq<string>, line: string)
    requires run != []
    ensures IsRun(cfg, prev, run + [line]) <==> IsRun(cfg, prev, run) && Continues(cfg, ChunkText(cfg, prev, run), line)
  {
  }

  /** Adding a line to the last chunk, and taking it away again. */
  lemma LongerChunk(cfg: Config, closedRuns: seq<seq<string>>, run: seq<string>, closed: seq<string>, line: string)
    requires run != []
    ensures var prev := Last(closed);
      var chunk := ChunkText(cfg, prev, run);
      Chunked(cfg, closedRuns + [run + [line]], closed + [chunk + "\n" + line])
      <==> Chunked(cfg, closedRuns + [run], closed + [chunk]) && Continues(cfg, chunk, line)
  {
    var prev := Last(closed);
    var chunk := ChunkText(cfg, prev, run);
    OpenChunk(cfg, closedRuns, run, closed, chunk);
    OpenChunk(cfg, closedRuns, run + [line], closed, chunk + "\n" + line);
    LongerText(cfg, prev, run, line);
    LongerRun(cfg, prev, run, line);
  }

  /** Starting a chunk, and taking it away again. */
  lemma NewChunk(cfg: Config, runs: seq<seq<string>>, chunks: seq<string>, line: string)
    ensures Chunked(cfg, runs + [[line]], chunks + [Lead(cfg, Last(chunks), line) + line])
      <==> Chunked(cfg, runs, chunks) && Starts(cfg, Last(chunks), line)
  {
  }

  lemma SingleLine(cfg: Config, prev: Option<string>, line: string)
    ensures ChunkText(cfg, prev, [line]) == Lead(cfg, prev, line) + line
    ensures IsRun(cfg, prev, [line]) <==> Starts(cfg, prev, line)
  {
  }

  function Flatten(runs: seq<seq<string>>): seq<string> {
    if runs == [] then [] else Flatten(runs[..|runs| - 1]) + runs[|runs| - 1]
  }

  function SkipBlank(lines: seq<string>): seq<string> {
    if lines != [] && lines[0] == "" then SkipBlank(lines[1..]) else lines
  }

  lemma {:induction false} SkipBlankAppend(lines: seq<string>, line: string)
    ensures SkipBlank(lines + [line])
      == if SkipBlank(lines) == [] && line == "" then [] else SkipBlank(lines) + [line]
  {
    if lines == [] {
      assert SkipBlank([""]) == SkipBlank([""][1..]);
      assert lines + [line] == [line];
    } else {
      assert (lines + [line])[1..] == lines[1..] + [line];
      if lines[0] == "" {
        SkipBlankAppend(lines[1..], line);
      }
    }
  }

  /** The body of the loop: one line. */
  method AddLine(cfg: Config, chunks0: seq<string>, current0: string, line: string)
    returns (chunks: seq<string>, current: string)
    ensures IsStep(cfg, chunks0, current0, line, chunks, current)
  {
    chunks, current := chunks0, current0;
    if IsHeading(line) && current != "" {
      chunks, current := chunks + [current], "";
    }
    if current != "" && Bytes(current) + Bytes(line) + 1 > cfg.chunkSize {
      chunks := chunks + [current];
      current := Tail(current, cfg.chunkOverlap) + "\n";
    }
    if current != "" {
      current := current + "\n";
    }
    current := current + line;
  }

  /** What one line does to the closed chunks and the open one. */
  ghost predicate IsStep(cfg: Config, chunks: seq<string>, current: string, line: string,
                         chunks': seq<string>, current': string)
  {
    if current == "" then chunks' == chunks && current' == line
    else if IsHeading(line) then chunks' == chunks + [current] && current' == line
    else if Overflows(cfg, current, line) then
      chunks' == chunks + [current] && current' == Tail(current, cfg.chunkOverlap) + "\n\n" + line
    else chunks' == chunks && current' == current + "\n" + line
  }

  datatype Chunking = Chunking(runs: seq<seq<string>>, chunks: seq<string>)

  /** The chunking of one more line. */
  function Next(cfg: Config, c: Chunking, line: string): Chunking
    requires |c.runs| == |c.chunks|
  {
    if c.chunks == [] then if line == "" then c else Chunking([[line]], [line])
    else
      var n := |c.chunks| - 1;
      if Starts(cfg, Some(c.chunks[n]), line) then
        Chunking(c.runs + [[line]], c.chunks + [Lead(cfg, Some(c.chunks[n]), line) + line])
      else Chunking(c.runs[..n] + [c.runs[n] + [line]], c.chunks[..n] + [c.chunks[n] + "\n" + line])
  }

  function ChunkingOf(cfg: Config, lines: seq<string>): (c: Chunking)
    ensures |c.runs| == |c.chunks|
    decreases |lines|
  {
    if lines == [] then Chunking([], [])
    else Next(cfg, ChunkingOf(cfg, lines[..|lines| - 1]), lines[|lines| - 1])
  }

  /** The open chunk counts as the last one. */
  ghost predicate Open(c: Chunking, chunks: seq<string>, current: string) {
    if current == "" then c.chunks == [] && chunks == [] else c.chunks == chunks + [current]
  }

  lemma StepIsNext(cfg: Config, c: Chunking, chunks: seq<string>, current: string, line: string,
                   chunks': seq<string>, current': string)
    requires |c.runs| == |c.chunks| && Open(c, chunks, current)
    requires IsStep(cfg, chunks, current, line, chunks', current')
    ensures Open(Next(cfg, c, line), chunks', current')
  {
    if current != "" {
      assert c.chunks[..|chunks|] == chunks;
      assert "" + line == line;
    }
  }

  method Chunk(cfg: Config, markdown: string) returns (chunks: seq<string>)
    ensures chunks == ChunkingOf(cfg, Lines(markdown)).chunks
  {
    chunks := [];
    var current := "";
    var lines := Lines(markdown);
    for i := 0 to |lines|
      invariant Open(ChunkingOf(cfg, lines[..i]), chunks, current)
    {
      ghost var chunks0, current0 := chunks, current;
      assert lines[..i + 1][..i] == lines[..i];
      chunks, current := AddLine(cfg, chunks, current, lines[i]);
      StepIsNext(cfg, ChunkingOf(cfg, lines[..i]), chunks0, current0, lines[i], chunks, current);
    }
    assert lines[..|lines|] == lines;
    if current != "" {
      chunks := chunks + [current];
    }
  }

  // What a chunking is, without the loop.

  ghost predicate IsChunking(cfg: Config, lines: seq<string>, c: Chunking) {
    Chunked(cfg, c.runs, c.chunks) && Flatten(c.runs) == SkipBlank(lines)
  }

  /** The input lines without leading blank ones split into the runs, nothing is lost, and
      each chunk is made of its run. */
  lemma {:induction false} ChunkingHolds(cfg: Config, lines: seq<string>)
    ensures IsChunking(cfg, lines, ChunkingOf(cfg, lines))
    decreases |lines|
  {
    if lines != [] {
      var n := |lines| - 1;
      ChunkingHolds(cfg, lines[..n]);
      NextHolds(cfg, lines[..n], ChunkingOf(cfg, lines[..n]), lines[n]);
      WithLast(lines);
    }
  }

  lemma WithLast(lines: seq<string>)
    requires lines != []
    ensures lines == lines[..|lines| - 1] + [lines[|lines| - 1]]
  {
  }

  lemma NextHolds(cfg: Config, lines: seq<string>, c: Chunking, line: string)
    requires IsChunking(cfg, lines, c)
    ensures IsChunking(cfg, lines + [line], Next(cfg, c, line))
  {
    SkipBlankAppend(lines, line);
    FlattenedNothing(cfg, c.runs, c.chunks);
    NextIsChunked(cfg, c, line);
  }

  lemma FlattenedNothing(cfg: Config, runs: seq<seq<string>>, chunks: seq<string>)
    requires Chunked(cfg, runs, chunks)
    ensures Flatten(runs) == [] <==> runs == []
  {
  }

  /** What the chunking of one more line keeps. */
  ghost predicate Extends(cfg: Config, c: Chunking, line: string, next: Chunking) {
    && Chunked(cfg, next.runs, next.chunks)
    && Flatten(next.runs) == if c.runs == [] && line == "" then [] else Flatten(c.runs) + [line]
  }

  lemma NextIsChunked(cfg: Config, c: Chunking, line: string)
    requires Chunked(cfg, c.runs, c.chunks)
    ensures Extends(cfg, c, line, Next(cfg, c, line))
  {
    if c.chunks == [] && line == "" {
      assert Next(cfg, c, line) == c;
    } else if Starts(cfg, Last(c.chunks), line) {
      StartIsChunked(cfg, c, line);
    } else {
      ContinuationIsChunked(cfg, c, line);
    }
  }

  lemma StartIsChunked(cfg: Config, c: Chunking, line: string)
    requires Chunked(cfg, c.runs, c.chunks) && Starts(cfg, Last(c.chunks), line)
    ensures Extends(cfg, c, line, Next(cfg, c, line))
  {
    NextStarts(cfg, c.runs, c.chunks, line);
    NewChunk(cfg, c.runs, c.chunks, line);
    FlattenAppend(c.runs, [line]);
  }

  lemma ContinuationIsChunked(cfg: Config, c: Chunking, line: string)
    requires Chunked(cfg, c.runs, c.chunks) && c.chunks != [] && !Starts(cfg, Last(c.chunks), line)
    ensures Extends(cfg, c, line, Next(cfg, c, line))
  {
    var closedRuns, run, closed, chunk := Opened(c);
    OpenIsExtended(cfg, closedRuns, run, closed, chunk, line);
  }

  lemma Opened(c: Chunking)
    returns (runs: seq<seq<string>>, run: seq<string>, chunks: seq<string>, chunk: string)
    requires |c.runs| == |c.chunks| > 0
    ensures c == Chunking(runs + [run], chunks + [chunk]) && Last(c.chunks) == Some(chunk)
  {
    var n := |c.runs| - 1;
    runs, run, chunks, chunk := c.runs[..n], c.runs[n], c.chunks[..n], c.chunks[n];
  }

  lemma OpenIsExtended(cfg: Config, runs: seq<seq<string>>, run: seq<string>, chunks: seq<string>, chunk: string,
                       line: string)
    requires Chunked(cfg, runs + [run], chunks + [chunk]) && Continues(cfg, chunk, line)
    ensures var c := Chunking(runs + [run], chunks + [chunk]); Extends(cfg, c, line, Next(cfg, c, line))
  {
    NextContinues(cfg, runs, run, chunks, chunk, line);
    ContinueStep(cfg, runs, run, chunks, chunk, line);
  }

  lemma ContinueStep(cfg: Config, closedRuns: seq<seq<string>>, run: seq<string>, chunks: seq<string>, current: string,
                     line: string)
    requires Chunked(cfg, closedRuns + [run], chunks + [current]) && Continues(cfg, current, line)
    ensures Chunked(cfg, closedRuns + [run + [line]], chunks + [current + "\n" + line])
    ensures Flatten(closedRuns + [run + [line]]) == Flatten(closedRuns + [run]) + [line]
  {
    OpenChunk(cfg, closedRuns, run, chunks, current);
    LongerChunk(cfg, closedRuns, run, chunks, line);
    FlattenLonger(closedRuns, run, line);
  }

  lemma FlattenAppend(runs: seq<seq<string>>, run: seq<string>)
    ensures Flatten(runs + [run]) == Flatten(runs) + run
  {
  }

  lemma FlattenLonger(closedRuns: seq<seq<string>>, run: seq<string>, line: string)
    ensures Flatten(closedRuns + [run + [line]]) == Flatten(closedRuns + [run]) + [line]
  {
  }

  // How large a chunk can get.

  ghost predicate Narrow(s: string, w: nat) {
    s == "" || (CharWidth(s[0]) <= w && Narrow(s[1..], w))
  }

  lemma {:induction false} BytesAppend(a: string, b: string)
    ensures Bytes(a + b) == Bytes(a) + Bytes(b)
  {
    if a == "" {
      assert a + b == b;
    } else {
      assert (a + b)[1..] == a[1..] + b;
      BytesAppend(a[1..], b);
    }
  }

  lemma {:induction false} NarrowAppend(a: string, b: string, w: nat)
    ensures Narrow(a + b, w) <==> Narrow(a, w) && Narrow(b, w)
  {
    if a == "" {
      assert a + b == b;
    } else {
      assert (a + b)[1..] == a[1..] + b;
      NarrowAppend(a[1..], b, w);
    }
  }

  lemma {:induction false} NarrowBytes(s: string, w: nat)
    requires Narrow(s, w)
    ensures Bytes(s) <= w * |s|
  {
    if s != "" {
      NarrowBytes(s[1..], w);
      assert w * |s| == w + w * |s[1..]|;
    }
  }

  lemma Newline()
    ensures Bytes("\n") == 1 && Bytes("\n\n") == 2
    ensures forall w: nat | w >= 1 :: Narrow("\n", w) && Narrow("\n\n", w)
  {
  }

  ghost predicate LinesFit(lines: seq<string>, w: nat, longest: nat) {
    lines == [] || (Bytes(lines[0]) <= longest && Narrow(lines[0], w) && LinesFit(lines[1..], w, longest))
  }

  lemma {:induction false} LinesFitAppend(a: seq<string>, b: seq<string>, w: nat, longest: nat)
    ensures LinesFit(a + b, w, longest) <==> LinesFit(a, w, longest) && LinesFit(b, w, longest)
  {
    if a == [] {
      assert a + b == b;
    } else {
      assert (a + b)[1..] == a[1..] + b;
      LinesFitAppend(a[1..], b, w, longest);
    }
  }

  lemma {:induction false} JoinIsNarrow(run: seq<string>, w: nat, longest: nat)
    requires w >= 1 && LinesFit(run, w, longest)
    ensures Narrow(Join(run, "\n"), w)
    decreases |run|
  {
    if |run| > 1 {
      var m := |run| - 1;
      assert run == run[..m] + [run[m]];
      LinesFitAppend(run[..m], [run[m]], w, longest);
      JoinIsNarrow(run[..m], w, longest);
      Newline();
      NarrowAppend(Join(run[..m], "\n"), "\n", w);
      NarrowAppend(Join(run[..m], "\n") + "\n", run[m], w);
    }
  }

  lemma TailBytes(s: string, n: nat, w: nat)
    requires Narrow(s, w)
    ensures Narrow(Tail(s, n), w) && Bytes(Tail(s, n)) <= w * n
  {
    var t := Tail(s, n);
    assert s == s[..|s| - |t|] + t;
    NarrowAppend(s[..|s| - |t|], t, w);
    NarrowBytes(t, w);
    Scale(|t|, n, w);
  }

  lemma Scale(x: nat, y: nat, w: nat)
    requires x <= y
    ensures w * x <= w * y
  {
  }

  lemma LeadBytes(cfg: Config, prev: Option<string>, first: string, w: nat)
    requires w >= 1 && (prev.Some? ==> Narrow(prev.value, w))
    ensures Narrow(Lead(cfg, prev, first), w) && Bytes(Lead(cfg, prev, first)) <= w * cfg.chunkOverlap + 2
  {
    if prev.Some? {
      var t := Tail(prev.value, cfg.chunkOverlap);
      TailBytes(prev.value, cfg.chunkOverlap, w);
      BytesAppend(t, "\n\n");
      NarrowAppend(t, "\n\n", w);
      Newline();
    }
  }

  lemma ChunkIsNarrow(cfg: Config, prev: Option<string>, run: seq<string>, chunk: string, w: nat, longest: nat)
    requires IsChunk(cfg, prev, run, chunk) && w >= 1 && (prev.Some? ==> Narrow(prev.value, w))
    requires LinesFit(run, w, longest)
    ensures Narrow(chunk, w)
  {
    LeadBytes(cfg, prev, run[0], w);
    JoinIsNarrow(run, w, longest);
    NarrowAppend(Lead(cfg, prev, run[0]), Join(run, "\n"), w);
  }

  ghost predicate Small(cfg: Config, w: nat, longest: nat, chunk: string) {
    Bytes(chunk) <= cfg.chunkSize || Bytes(chunk) <= w * cfg.chunkOverlap + 2 + longest
  }

  lemma ChunkIsSmall(cfg: Config, prev: Option<string>, run: seq<string>, chunk: string, w: nat, longest: nat)
    requires IsChunk(cfg, prev, run, chunk) && w >= 1 && (prev.Some? ==> Narrow(prev.value, w))
    requires LinesFit(run, w, longest)
    ensures Small(cfg, w, longest, chunk)
  {
    if |run| == 1 {
      var lead := Lead(cfg, prev, run[0]);
      LeadBytes(cfg, prev, run[0], w);
      BytesAppend(lead, run[0]);
    } else {
      LastLineFitted(cfg, prev, run);
    }
  }

  lemma LastLineFitted(cfg: Config, prev: Option<string>, run: seq<string>)
    requires IsRun(cfg, prev, run) && |run| > 1
    ensures Bytes(ChunkText(cfg, prev, run)) <= cfg.chunkSize
  {
    var m := |run| - 1;
    assert run == run[..m] + [run[m]];
    LongerText(cfg, prev, run[..m], run[m]);
    LongerBytes(ChunkText(cfg, prev, run[..m]), run[m]);
  }

  lemma LongerBytes(before: string, line: string)
    ensures Bytes(before + "\n" + line) == Bytes(before) + Bytes(line) + 1
  {
    BytesAppend(before, "\n");
    BytesAppend(before + "\n", line);
    Newline();
  }

  lemma {:induction false} LastIsNarrow(cfg: Config, runs: seq<seq<string>>, chunks: seq<string>, w: nat, longest: nat)
    requires Chunked(cfg, runs, chunks) && w >= 1 && LinesFit(Flatten(runs), w, longest)
    ensures Last(chunks).Some? ==> Narrow(Last(chunks).value, w)
    decreases |runs|
  {
    if runs != [] {
      var n := |runs| - 1;
      FlattenFits(runs, w, longest);
      LastIsNarrow(cfg, runs[..n], chunks[..n], w, longest);
      ChunkIsNarrow(cfg, Last(chunks[..n]), runs[n], chunks[n], w, longest);
    }
  }

  ghost predicate AllSmall(cfg: Config, w: nat, longest: nat, chunks: seq<string>) {
    chunks == [] ||
    (AllSmall(cfg, w, longest, chunks[..|chunks| - 1]) && Small(cfg, w, longest, chunks[|chunks| - 1]))
  }

  lemma {:induction false} AllSmallAt(cfg: Config, w: nat, longest: nat, chunks: seq<string>, i: nat)
    requires AllSmall(cfg, w, longest, chunks) && i < |chunks|
    ensures Small(cfg, w, longest, chunks[i])
    decreases |chunks|
  {
    if i < |chunks| - 1 {
      AllSmallAt(cfg, w, longest, chunks[..|chunks| - 1], i);
    }
  }

  lemma {:induction false} AllAreSmall(cfg: Config, runs: seq<seq<string>>, chunks: seq<string>, w: nat, longest: nat)
    requires Chunked(cfg, runs, chunks) && w >= 1 && LinesFit(Flatten(runs), w, longest)
    ensures AllSmall(cfg, w, longest, chunks)
    decreases |runs|
  {
    if runs != [] {
      var n := |runs| - 1;
      FlattenFits(runs, w, longest);
      AllAreSmall(cfg, runs[..n], chunks[..n], w, longest);
      LastIsSmall(cfg, runs, chunks, w, longest);
    }
  }

  lemma LastIsSmall(cfg: Config, runs: seq<seq<string>>, chunks: seq<string>, w: nat, longest: nat)
    requires Chunked(cfg, runs, chunks) && w >= 1 && LinesFit(Flatten(runs), w, longest) && runs != []
    ensures Small(cfg, w, longest, chunks[|runs| - 1])
  {
    var n := |runs| - 1;
    FlattenFits(runs, w, longest);
    LastIsNarrow(cfg, runs[..n], chunks[..n], w, longest);
    ChunkIsSmall(cfg, Last(chunks[..n]), runs[n], chunks[n], w, longest);
  }

  lemma FlattenFits(runs: seq<seq<string>>, w: nat, longest: nat)
    requires runs != [] && LinesFit(Flatten(runs), w, longest)
    ensures LinesFit(Flatten(runs[..|runs| - 1]), w, longest) && LinesFit(runs[|runs| - 1], w, longest)
  {
    LinesFitAppend(Flatten(runs[..|runs| - 1]), runs[|runs| - 1], w, longest);
  }

  lemma {:induction false} SkipBlankFits(lines: seq<string>, w: nat, longest: nat)
    requires LinesFit(lines, w, longest)
    ensures LinesFit(SkipBlank(lines), w, longest)
  {
    if lines != [] && lines[0] == "" {
      SkipBlankFits(lines[1..], w, longest);
    }
  }

  /** A chunk only exceeds `chunkSize` by starting with a line that does not fit beside the
      overlap: its bytes are at most the larger of `chunkSize` and the overlap's bytes, two
      newlines and the longest line. The overlap counts characters, so its bytes depend on
      how many bytes `w` a character can have; with one-byte characters `w` is 1. */
  lemma ChunksAreSmall(cfg: Config, lines: seq<string>, w: nat, longest: nat)
    requires w >= 1 && LinesFit(lines, w, longest)
    ensures forall i | 0 <= i < |ChunkingOf(cfg, lines).chunks| :: Small(cfg, w, longest, ChunkingOf(cfg, lines).chunks[i])
  {
    var c := ChunkingOf(cfg, lines);
    ChunkingHolds(cfg, lines);
    SkipBlankFits(lines, w, longest);
    AllAreSmall(cfg, c.runs, c.chunks, w, longest);
    forall i: nat | i < |c.chunks|
      ensures Small(cfg, w, longest, c.chunks[i])
    {
      AllSmallAt(cfg, w, longest, c.chunks, i);
    }
  }

  // The properties of a chunking leave exactly one.

  lemma FlattenedLast(runs: seq<seq<string>>, before: seq<string>, line: string)
    requires runs != [] && runs[|runs| - 1] != [] && Flatten(runs) == before + [line]
    ensures var run := runs[|runs| - 1];
      && run[|run| - 1] == line
      && Flatten(runs[..|runs| - 1]) + run[..|run| - 1] == before
  {
    var run := runs[|runs| - 1];
    var flat := Flatten(runs[..|runs| - 1]) + run;
    assert flat[|flat| - 1] == run[|run| - 1];
    assert flat[..|flat| - 1] == Flatten(runs[..|runs| - 1]) + run[..|run| - 1];
    assert (before + [line])[..|before|] == before;
  }

  lemma NextStarts(cfg: Config, runs: seq<seq<string>>, chunks: seq<string>, line: string)
    requires |runs| == |chunks| && Starts(cfg, Last(chunks), line)
    ensures Next(cfg, Chunking(runs, chunks), line)
      == Chunking(runs + [[line]], chunks + [Lead(cfg, Last(chunks), line) + line])
  {
    if chunks == [] {
      assert "" + line == line;
      assert runs + [[line]] == [[line]] && chunks + [line] == [line];
    }
  }

  lemma NextContinues(cfg: Config, closedRuns: seq<seq<string>>, run: seq<string>, closed: seq<string>, chunk: string,
                      line: string)
    requires |closedRuns| == |closed| && Continues(cfg, chunk, line)
    ensures Next(cfg, Chunking(closedRuns + [run], closed + [chunk]), line)
      == Chunking(closedRuns + [run + [line]], closed + [chunk + "\n" + line])
  {
  }

  /** A chunking without its last line, which started a chunk. */
  lemma WithoutChunk(cfg: Config, runs: seq<seq<string>>, chunks: seq<string>, chunk: string, line: string)
    requires Chunked(cfg, runs + [[line]], chunks + [chunk])
    ensures Chunked(cfg, runs, chunks)
    ensures Next(cfg, Chunking(runs, chunks), line) == Chunking(runs + [[line]], chunks + [chunk])
  {
    OpenChunk(cfg, runs, [line], chunks, chunk);
    SingleLine(cfg, Last(chunks), line);
    NextStarts(cfg, runs, chunks, line);
  }

  /** A chunking without its last line, which continued a chunk. */
  lemma WithoutLine(cfg: Config, closedRuns: seq<seq<string>>, run: seq<string>, closed: seq<string>, longer: string,
                    line: string) returns (chunk: string)
    requires Chunked(cfg, closedRuns + [run + [line]], closed + [longer]) && run != []
    ensures |closedRuns| == |closed| && Chunked(cfg, closedRuns + [run], closed + [chunk])
    ensures Next(cfg, Chunking(closedRuns + [run], closed + [chunk]), line)
      == Chunking(closedRuns + [run + [line]], closed + [longer])
  {
    chunk := ChunkText(cfg, Last(closed), run);
    OpenChunk(cfg, closedRuns, run + [line], closed, longer);
    LongerText(cfg, Last(closed), run, line);
    LongerChunk(cfg, closedRuns, run, closed, line);
    NextContinues(cfg, closedRuns, run, closed, chunk, line);
  }

  /** `c` is the chunking without its last line. */
  ghost predicate IsShorter(cfg: Config, c: Chunking, runs: seq<seq<string>>, chunks: seq<string>, before: seq<string>,
                            line: string)
  {
    && Chunked(cfg, c.runs, c.chunks) && Flatten(c.runs) == before
    && Next(cfg, c, line) == Chunking(runs, chunks)
  }

  lemma WithoutOwnChunk(cfg: Config, runs: seq<seq<string>>, chunks: seq<string>, chunk: string, before: seq<string>,
                        line: string)
    requires Chunked(cfg, runs + [[line]], chunks + [chunk]) && Flatten(runs) == before
    ensures IsShorter(cfg, Chunking(runs, chunks), runs + [[line]], chunks + [chunk], before, line)
  {
    WithoutChunk(cfg, runs, chunks, chunk, line);
  }

  lemma WithoutLaterLine(cfg: Config, closedRuns: seq<seq<string>>, cut: seq<string>, closed: seq<string>, longer: string,
                         before: seq<string>, line: string) returns (c: Chunking)
    requires Chunked(cfg, closedRuns + [cut + [line]], closed + [longer]) && cut != []
    requires Flatten(closedRuns) + cut == before
    ensures IsShorter(cfg, c, closedRuns + [cut + [line]], closed + [longer], before, line)
  {
    var chunk := WithoutLine(cfg, closedRuns, cut, closed, longer, line);
    c := Chunking(closedRuns + [cut], closed + [chunk]);
    FlattenAppend(closedRuns, cut);
  }

  lemma LastLine(runs: seq<seq<string>>, chunks: seq<string>, before: seq<string>, line: string)
    returns (closedRuns: seq<seq<string>>, cut: seq<string>, closed: seq<string>, chunk: string)
    requires runs != [] && |runs| == |chunks| && runs[|runs| - 1] != [] && Flatten(runs) == before + [line]
    ensures runs == closedRuns + [cut + [line]] && chunks == closed + [chunk]
    ensures Flatten(closedRuns) + cut == before
  {
    var k := |runs| - 1;
    FlattenedLast(runs, before, line);
    closedRuns, cut, closed, chunk := runs[..k], runs[k][..|runs[k]| - 1], chunks[..k], chunks[k];
    assert runs[k] == cut + [line];
  }

  lemma WithoutLast(cfg: Config, runs: seq<seq<string>>, chunks: seq<string>, before: seq<string>, line: string)
    returns (c: Chunking)
    requires Chunked(cfg, runs, chunks) && runs != [] && Flatten(runs) == before + [line]
    ensures IsShorter(cfg, c, runs, chunks, before, line)
  {
    var closedRuns, cut, closed, chunk := LastLine(runs, chunks, before, line);
    if cut == [] {
      assert cut + [line] == [line] && Flatten(closedRuns) + [] == Flatten(closedRuns);
      WithoutOwnChunk(cfg, closedRuns, closed, chunk, before, line);
      c := Chunking(closedRuns, closed);
    } else {
      c := WithoutLaterLine(cfg, closedRuns, cut, closed, chunk, before, line);
    }
  }

  /** Every list of chunks with these properties is the one that `Next` builds line by line. */
  lemma {:induction false} ChunkingIsUnique(cfg: Config, lines: seq<string>, c: Chunking)
    requires IsChunking(cfg, lines, c)
    ensures c == ChunkingOf(cfg, lines)
    decreases |lines|
  {
    if lines == [] {
      assert c.runs == [];
    } else {
      var n := |lines| - 1;
      assert lines == lines[..n] + [lines[n]];
      SkipBlankAppend(lines[..n], lines[n]);
      if SkipBlank(lines) == [] {
        assert c.runs == [];
        ChunkingIsUnique(cfg, lines[..n], c);
      } else {
        var shorter := WithoutLast(cfg, c.runs, c.chunks, SkipBlank(lines[..n]), lines[n]);
        ChunkingIsUnique(cfg, lines[..n], shorter);
      }
    }
  }

  // The same, character by character.

  /** A Markdown heading of the third level. */
  ghost predicate BeginsHeading(line: string) {
    |line| >= 4 && line[0] == line[1] == line[2] == '#' && line[3] == ' '
  }

  /** `tail` is the last `n` characters of `s`, or all of `s` if it has fewer. */
  ghost predicate IsTail(tail: string, s: string, n: nat) {
    |tail| == (if |s| <= n then |s| else n) && s == s[..|s| - |tail|] + tail
  }

  /** What stands before a chunk's own lines: nothing in the first chunk and before a heading,
      and otherwise the end of the chunk before and an empty line. */
  ghost predicate IsLead(cfg: Config, chunks: seq<string>, i: nat, first: string, lead: string)
    requires i < |chunks|
  {
    if i == 0 || BeginsHeading(first) then lead == ""
    else exists tail :: IsTail(tail, chunks[i - 1], cfg.chunkOverlap) && lead == tail + "\n\n"
  }

  /** A line that follows others in its chunk is no heading and fits beside them. */
  ghost predicate FollowsIn(cfg: Config, lead: string, run: seq<string>, k: nat)
    requires k < |run|
  {
    !BeginsHeading(run[k]) && Bytes(lead + Join(run[..k], "\n")) + Bytes(run[k]) + 1 <= cfg.chunkSize
  }

  ghost predicate IsWellMade(cfg: Config, c: Chunking, i: nat)
    requires i < |c.runs| == |c.chunks|
  {
    && c.runs[i] != []
    && exists lead ::
         && IsLead(cfg, c.chunks, i, c.runs[i][0], lead)
         && c.chunks[i] == lead + Join(c.runs[i], "\n")
         && (forall k | 0 < k < |c.runs[i]| :: FollowsIn(cfg, lead, c.runs[i], k))
         && (i > 0 ==> BeginsHeading(c.runs[i][0])
                       || Bytes(c.chunks[i - 1]) + Bytes(c.runs[i][0]) + 1 > cfg.chunkSize)
  }

  lemma {:induction false} RunContinues(cfg: Config, prev: Option<string>, run: seq<string>, k: nat)
    requires IsRun(cfg, prev, run) && k < |run|
    ensures Starts(cfg, prev, run[0])
    ensures k > 0 ==> Continues(cfg, ChunkText(cfg, prev, run[..k]), run[k])
  {
    var m := |run| - 1;
    if 0 < m && k < m {
      RunContinues(cfg, prev, run[..m], k);
      assert run[..m][..k] == run[..k];
    } else if 0 < m {
      RunContinues(cfg, prev, run[..m], 0);
    }
  }

  lemma HeadingIs(line: string)
    ensures IsHeading(line) <==> BeginsHeading(line)
  {
    var mark := "### ";
    assert BeginsHeading(line) ==> line[..4] == mark;
  }

  lemma TailIs(s: string, n: nat)
    ensures IsTail(Tail(s, n), s, n)
  {
  }

  lemma LeadIs(cfg: Config, chunks: seq<string>, i: nat, first: string)
    requires i < |chunks|
    ensures IsLead(cfg, chunks, i, first, Lead(cfg, Last(chunks[..i]), first))
  {
    HeadingIs(first);
    if i > 0 {
      TailIs(chunks[i - 1], cfg.chunkOverlap);
    }
  }

  lemma MadeFromRun(cfg: Config, c: Chunking, i: nat)
    requires i < |c.runs| == |c.chunks| && IsChunkAt(cfg, c.runs, c.chunks, i)
    ensures IsWellMade(cfg, c, i)
  {
    var prev, run := Last(c.chunks[..i]), c.runs[i];
    var lead := Lead(cfg, prev, run[0]);
    LeadIs(cfg, c.chunks, i, run[0]);
    RunContinues(cfg, prev, run, 0);
    HeadingIs(run[0]);
    forall k | 0 < k < |run|
      ensures FollowsIn(cfg, lead, run, k)
    {
      RunContinues(cfg, prev, run, k);
      HeadingIs(run[k]);
    }
  }

  ghost predicate IsChunkAt(cfg: Config, runs: seq<seq<string>>, chunks: seq<string>, i: nat)
    requires i < |runs| == |chunks|
  {
    IsChunk(cfg, Last(chunks[..i]), runs[i], chunks[i])
  }

  lemma {:induction false} ChunkOfRun(cfg: Config, runs: seq<seq<string>>, chunks: seq<string>, i: nat)
    requires Chunked(cfg, runs, chunks) && i < |runs|
    ensures IsChunkAt(cfg, runs, chunks, i)
    decreases |runs|
  {
    var n := |runs| - 1;
    ChunkedByLast(cfg, runs, chunks, n);
    if i < n {
      ChunkOfRun(cfg, runs[..n], chunks[..n], i);
      ChunkAtOfFront(cfg, runs, chunks, i, n);
    }
  }

  lemma ChunkAtOfFront(cfg: Config, runs: seq<seq<string>>, chunks: seq<string>, i: nat, n: nat)
    requires i < n < |runs| == |chunks| && IsChunkAt(cfg, runs[..n], chunks[..n], i)
    ensures IsChunkAt(cfg, runs, chunks, i)
  {
    SlicedTwice(runs, chunks, i, n);
  }

  lemma ChunkedByLast(cfg: Config, runs: seq<seq<string>>, chunks: seq<string>, n: nat)
    requires Chunked(cfg, runs, chunks) && n + 1 == |runs|
    ensures Chunked(cfg, runs[..n], chunks[..n]) && IsChunkAt(cfg, runs, chunks, n)
  {
  }

  lemma SlicedTwice(runs: seq<seq<string>>, chunks: seq<string>, i: nat, n: nat)
    requires i < n < |runs| == |chunks|
    ensures chunks[..n][..i] == chunks[..i] && chunks[..n][i] == chunks[i] && runs[..n][i] == runs[i]
  {
  }

  /** Every chunk is its lines joined, after the overlap it is due; a line starts a chunk exactly
      if it is a heading or does not fit beside what is there. */
  lemma ChunksAreWellMade(cfg: Config, lines: seq<string>)
    ensures var c := ChunkingOf(cfg, lines);
      Flatten(c.runs) == SkipBlank(lines) && forall i | 0 <= i < |c.chunks| :: IsWellMade(cfg, c, i)
  {
    var c := ChunkingOf(cfg, lines);
    ChunkingHolds(cfg, lines);
    forall i: nat | i < |c.chunks|
      ensures IsWellMade(cfg, c, i)
    {
      ChunkOfRun(cfg, c.runs, c.chunks, i);
      MadeFromRun(cfg, c, i);
    }
  }

  /** Only empty lines are skipped, and only at the start. */
  lemma {:induction false} SkipsLeadingBlanks(lines: seq<string>) returns (k: nat)
    ensures k <= |lines| && SkipBlank(lines) == lines[k..]
    ensures (forall i | 0 <= i < k :: lines[i] == "") && (k < |lines| ==> lines[k] != "")
  {
    if lines == [] || lines[0] != "" {
      k := 0;
    } else {
      var n := SkipsLeadingBlanks(lines[1..]);
      k := n + 1;
      assert lines[1..][n..] == lines[k..];
      assert forall i | 0 < i < k :: lines[i] == lines[1..][i - 1];
    }
  }
}
