/** The string operations of the source's standard library that several modules rely on. */
module Text {
  /** Rust's `join`. */
  function Join(parts: seq<string>, separator: string): string {
    if parts == [] then ""
    else if |parts| == 1 then parts[0]
    else Join(parts[..|parts| - 1], separator) + separator + parts[|parts| - 1]
  }

  function Concat(parts: seq<string>): string {
    if parts == [] then "" else parts[0] + Concat(parts[1..])
  }

  lemma {:induction false} ConcatAppend(parts: seq<string>, last: string)
    ensures Concat(parts + [last]) == Concat(parts) + last
  {
    if parts == [] {
      assert [last][1..] == [];
    } else {
      ConcatAppend(parts[1..], last);
      assert (parts + [last])[1..] == parts[1..] + [last];
    }
  }

  /** The text up to the first line feed, without it. */
  function FirstLine(text: string): string {
    if text == "" || text[0] == '\n' then "" else [text[0]] + FirstLine(text[1..])
  }

  lemma {:induction false} FirstLineIsPrefix(text: string)
    ensures |FirstLine(text)| <= |text| && text[..|FirstLine(text)|] == FirstLine(text)
  {
    if text != "" && text[0] != '\n' {
      FirstLineIsPrefix(text[1..]);
    }
  }

  function StripReturn(line: string): string {
    if line != "" && line[|line| - 1] == '\r' then line[..|line| - 1] else line
  }

  /** Rust's `str::lines`: lines end in a line feed or a carriage return and a line feed,
      and the ending of the last line is optional. */
  function Lines(text: string): seq<string>
    decreases |text|
  {
    if text == "" then []
    else
      var line := FirstLine(text);
      FirstLineIsPrefix(text);
      if |line| == |text| then [line]
      else [StripReturn(line)] + Lines(text[|line| + 1..])
  }

  predicate IsBlank(c: char) {
    c == ' ' || c == '\t' || c == '\n' || c == '\r'
  }

  function TrimStart(text: string): string {
    if text != "" && IsBlank(text[0]) then TrimStart(text[1..]) else text
  }

  function TrimEnd(text: string): string {
    if text != "" && IsBlank(text[|text| - 1]) then TrimEnd(text[..|text| - 1]) else text
  }

  /** Bytes of a character in UTF-8 (RFC 3629, section 3). */
  function CharWidth(c: char): nat {
    if c as int < 0x80 then 1 else if c as int < 0x800 then 2 else if c as int < 0x1_0000 then 3 else 4
  }

  /** The least number of bytes that has room for the character: 7 bits in one byte, and 11, 16
      and 21 in two, three and four. */
  lemma CharWidthIsLeast(c: char)
    ensures CharWidth(c) == 1 <==> c as int < 0x80
    ensures CharWidth(c) <= 2 <==> c as int < 0x800
    ensures CharWidth(c) <= 3 <==> c as int < 0x1_0000
    ensures 1 <= CharWidth(c) <= 4
  {
  }

  function Bytes(s: string): nat {
    if s == "" then 0 else CharWidth(s[0]) + Bytes(s[1..])
  }

  /** Every character counts with its width. */
  lemma {:induction false} BytesOfLonger(s: string, c: char)
    ensures Bytes("") == 0 && Bytes(s + [c]) == Bytes(s) + CharWidth(c)
  {
    if s == "" {
      assert [c][1..] == "";
    } else {
      assert (s + [c])[1..] == s[1..] + [c];
      BytesOfLonger(s[1..], c);
    }
  }

  /** The length of the text up to its first blank. */
  function WordLength(text: string): (n: nat)
    ensures n <= |text|
  {
    if text == "" || IsBlank(text[0]) then 0 else 1 + WordLength(text[1..])
  }

  /** Rust's `split_whitespace`. */
  function SplitWhitespace(text: string): seq<string>
    decreases |text|
  {
    if text == "" then []
    else if IsBlank(text[0]) then SplitWhitespace(text[1..])
    else [text[..WordLength(text)]] + SplitWhitespace(text[WordLength(text)..])
  }

  // What these operations do, character by character.

  lemma JoinAppend(parts: seq<string>, last: string, separator: string)
    requires parts != []
    ensures Join(parts + [last], separator) == Join(parts, separator) + separator + last
  {
    assert (parts + [last])[..|parts|] == parts;
  }

  predicate IsPlain(line: string) {
    '\n' !in line
  }

  /** Lines, each with its ending: a carriage return and a line feed where `crlf` says so, and a
      line feed alone elsewhere. */
  function Terminated(lines: seq<string>, crlf: seq<bool>): string
    requires |lines| == |crlf|
  {
    if lines == [] then "" else lines[0] + (if crlf[0] then "\r\n" else "\n") + Terminated(lines[1..], crlf[1..])
  }

  lemma {:induction false} FirstLineEnds(line: string, rest: string)
    requires IsPlain(line) && (rest == "" || rest[0] == '\n')
    ensures FirstLine(line + rest) == line
  {
    if line == "" {
      assert line + rest == rest;
    } else {
      assert (line + rest)[1..] == line[1..] + rest;
      FirstLineEnds(line[1..], rest);
    }
  }

  lemma LinesStep(line: string, crlf: bool, rest: string)
    requires IsPlain(line) && (crlf || line == "" || line[|line| - 1] != '\r')
    ensures Lines(line + (if crlf then "\r\n" else "\n") + rest) == [line] + Lines(rest)
  {
    var shown := if crlf then line + "\r" else line;
    var text := line + (if crlf then "\r\n" else "\n") + rest;
    assert text == shown + ("\n" + rest);
    FirstLineEnds(shown, "\n" + rest);
    assert text[|shown| + 1..] == rest;
    assert StripReturn(shown) == line;
  }

  lemma TerminatedFirst(lines: seq<string>, crlf: seq<bool>, last: string)
    requires |lines| == |crlf| > 0
    ensures Terminated(lines, crlf) + last
      == lines[0] + (if crlf[0] then "\r\n" else "\n") + (Terminated(lines[1..], crlf[1..]) + last)
  {
  }

  /** A line feed occurs in no line, and no line that ends in one alone ends in a carriage
      return. */
  ghost predicate AreLines(lines: seq<string>, crlf: seq<bool>)
    requires |lines| == |crlf|
  {
    forall i | 0 <= i < |lines| ::
      IsPlain(lines[i]) && (crlf[i] || lines[i] == "" || lines[i][|lines[i]| - 1] != '\r')
  }

  /** Splitting into lines undoes putting lines together; a last line needs no ending. */
  lemma {:induction false} LinesOfTerminated(lines: seq<string>, crlf: seq<bool>, last: string)
    requires |lines| == |crlf| && IsPlain(last) && AreLines(lines, crlf)
    ensures Lines(Terminated(lines, crlf) + last) == lines + if last == "" then [] else [last]
  {
    if lines == [] {
      assert Terminated(lines, crlf) + last == last;
      assert last + "" == last;
      FirstLineEnds(last, "");
    } else {
      var rest := Terminated(lines[1..], crlf[1..]) + last;
      LinesOfTerminated(lines[1..], crlf[1..], last);
      LinesStep(lines[0], crlf[0], rest);
      TerminatedFirst(lines, crlf, last);
    }
  }

  ghost predicate AllBlank(text: string) {
    forall i | 0 <= i < |text| :: text[i] == ' ' || text[i] == '\t' || text[i] == '\n' || text[i] == '\r'
  }

  ghost predicate NoneBlank(text: string) {
    forall i | 0 <= i < |text| :: text[i] != ' ' && text[i] != '\t' && text[i] != '\n' && text[i] != '\r'
  }

  /** A text that starts and ends with characters that are not blank. */
  ghost predicate IsTrim(text: string) {
    text == "" || (NoneBlank([text[0]]) && NoneBlank([text[|text| - 1]]))
  }

  lemma {:induction false} TrimStartDrops(blanks: string, text: string)
    requires AllBlank(blanks) && (text == "" || NoneBlank([text[0]]))
    ensures TrimStart(blanks + text) == text
  {
    if blanks == "" {
      assert blanks + text == text;
      assert text != "" ==> [text[0]][0] == text[0];
    } else {
      assert (blanks + text)[1..] == blanks[1..] + text;
      TrimStartDrops(blanks[1..], text);
    }
  }

  lemma {:induction false} TrimEndDrops(text: string, blanks: string)
    requires AllBlank(blanks) && (text == "" || NoneBlank([text[|text| - 1]]))
    ensures TrimEnd(text + blanks) == text
  {
    if blanks == "" {
      assert text + blanks == text;
      assert text != "" ==> [text[|text| - 1]][0] == text[|text| - 1];
    } else {
      var all, n := text + blanks, |blanks| - 1;
      assert all[|all| - 1] == blanks[n] && all[..|all| - 1] == text + blanks[..n];
      TrimEndDrops(text, blanks[..n]);
    }
  }

  /** Trimming removes the blanks around a text and nothing else. */
  lemma TrimDropsBlanks(before: string, text: string, after: string)
    requires AllBlank(before) && AllBlank(after) && IsTrim(text)
    ensures TrimEnd(TrimStart(before + text + after)) == text
  {
    if text == "" {
      assert before + text + after == (before + after) + "";
      TrimStartDrops(before + after, "");
    } else {
      assert before + text + after == before + (text + after);
      TrimStartDrops(before, text + after);
      TrimEndDrops(text, after);
    }
  }

  lemma {:induction false} WordEnds(word: string, rest: string)
    requires NoneBlank(word) && (rest == "" || AllBlank([rest[0]]))
    ensures WordLength(word + rest) == |word|
  {
    if word == "" {
      assert word + rest == rest;
      assert rest != "" ==> [rest[0]][0] == rest[0];
    } else {
      assert (word + rest)[1..] == word[1..] + rest;
      WordEnds(word[1..], rest);
    }
  }

  /** Words are found one by one, between blanks. */
  lemma {:induction false} SplitFindsWord(blanks: string, word: string, rest: string)
    requires AllBlank(blanks) && NoneBlank(word) && (rest == "" || AllBlank([rest[0]])) && (word == "" ==> rest == "")
    ensures SplitWhitespace(blanks + word + rest) == if word == "" then [] else [word] + SplitWhitespace(rest)
  {
    if blanks != "" {
      assert (blanks + word + rest)[1..] == blanks[1..] + word + rest;
      SplitFindsWord(blanks[1..], word, rest);
    } else if word != "" {
      var text := blanks + word + rest;
      WordEnds(word, rest);
      assert text == word + rest && text[..|word|] == word && text[|word|..] == rest;
    }
  }
}
