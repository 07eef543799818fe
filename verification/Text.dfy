/** The pieces of Python's `str` the set-fields text depends on: `splitlines`, `strip`, `partition` and `join`. */
module Text {
  /** The characters `str.splitlines` breaks at. */
  predicate IsLineBreak(c: char) {
    || '\n' <= c <= '\r'
    || '\U{1C}' <= c <= '\U{1E}'
    || c == '\U{85}' || c == '\U{2028}' || c == '\U{2029}'
  }

  /** The characters `str.strip` takes off. Every line break is one. */
  predicate IsSpace(c: char) {
    || IsLineBreak(c)
    || c == ' ' || c == '\t' || c == '\U{1F}' || c == '\U{A0}' || c == '\U{1680}'
    || c == '\U{202F}' || c == '\U{205F}' || c == '\U{3000}'
    || '\U{2000}' <= c <= '\U{200A}'
  }

  predicate OneLine(s: string) {
    forall c :: c in s ==> !IsLineBreak(c)
  }

  predicate Trimmed(s: string) {
    s != "" ==> !IsSpace(s[0]) && !IsSpace(s[|s| - 1])
  }

  function StripLeft(s: string): (r: string)
    ensures |r| <= |s|
    ensures r != "" ==> !IsSpace(r[0])
  {
    if s != "" && IsSpace(s[0]) then StripLeft(s[1..]) else s
  }

  function StripRight(s: string): (r: string)
    ensures r <= s
    ensures r != "" ==> !IsSpace(r[|r| - 1])
  {
    if s != "" && IsSpace(s[|s| - 1]) then StripRight(s[..|s| - 1]) else s
  }

  /** `str.strip()`. */
  function Strip(s: string): string {
    StripRight(StripLeft(s))
  }

  /** The position of the first `c`, or the length. */
  function Find(s: string, c: char): (n: nat)
    ensures n <= |s|
    ensures n < |s| ==> s[n] == c
    ensures forall i :: 0 <= i < n ==> s[i] != c
  {
    if s == "" then 0
    else if s[0] == c then 0
    else 1 + Find(s[1..], c)
  }

  /** The position of the first line break, or the length. */
  function LineEnd(s: string): (n: nat)
    ensures n <= |s|
    ensures n < |s| ==> IsLineBreak(s[n])
    ensures OneLine(s[..n])
  {
    if s == "" then 0
    else if IsLineBreak(s[0]) then 0
    else 1 + LineEnd(s[1..])
  }

  /** The characters one line break takes: a carriage return takes a line feed with it. */
  function BreakWidth(s: string, at: nat): (n: nat)
    requires at < |s|
    ensures 1 <= n && at + n <= |s|
  {
    if s[at] == '\r' && at + 1 < |s| && s[at + 1] == '\n' then 2 else 1
  }

  /** `str.splitlines()`. */
  function SplitLines(s: string): (lines: seq<string>)
    ensures forall i :: 0 <= i < |lines| ==> OneLine(lines[i])
    decreases |s|
  {
    if s == "" then []
    else
      var n := LineEnd(s);
      if n == |s| then [s] else [s[..n]] + SplitLines(s[n + BreakWidth(s, n)..])
  }

  /** `"\n".join(lines)`. */
  function Join(lines: seq<string>): string {
    if lines == [] then ""
    else if |lines| == 1 then lines[0]
    else lines[0] + "\n" + Join(lines[1..])
  }

  predicate Blank(s: string) {
    forall i :: 0 <= i < |s| ==> IsSpace(s[i])
  }

  lemma {:induction false} StripLeftIs(s: string) returns (from: nat)
    ensures from <= |s| && StripLeft(s) == s[from..] && Blank(s[..from])
  {
    if s != "" && IsSpace(s[0]) {
      var rest := StripLeftIs(s[1..]);
      from := rest + 1;
      assert forall i :: 0 < i < from ==> s[i] == s[1..][..rest][i - 1];
    } else {
      from := 0;
    }
  }

  lemma {:induction false} StripRightIs(s: string) returns (to: nat)
    ensures to <= |s| && StripRight(s) == s[..to] && Blank(s[to..])
  {
    if s != "" && IsSpace(s[|s| - 1]) {
      var init := s[..|s| - 1];
      to := StripRightIs(init);
      assert forall i :: to <= i < |init| ==> s[i] == init[to..][i - to];
    } else {
      to := |s|;
    }
  }

  /** Stripping takes blanks off both ends, nothing else. */
  lemma StripIs(s: string) returns (from: nat, to: nat)
    ensures from <= to <= |s| && Strip(s) == s[from..to] && Blank(s[..from]) && Blank(s[to..])
  {
    from := StripLeftIs(s);
    var length := StripRightIs(s[from..]);
    to := from + length;
    assert s[from..][length..] == s[to..];
  }

  lemma StripTakesFrom(s: string)
    ensures forall c :: c in Strip(s) ==> c in s
  {
    var _, _ := StripIs(s);
  }

  lemma StripIsTrimmed(s: string)
    ensures Trimmed(Strip(s))
  {
    var left := StripLeft(s);
    var r := StripRight(left);
    if r != "" {
      assert r[0] == left[0];
    }
  }

  lemma TrimmedIsStripped(s: string)
    requires Trimmed(s)
    ensures Strip(s) == s
  {
  }

  lemma {:induction false} FirstIsFound(s: string, c: char, n: nat)
    requires n < |s| && s[n] == c && forall i :: 0 <= i < n ==> s[i] != c
    ensures Find(s, c) == n
  {
  }

  lemma {:induction false} LineEndIs(s: string, n: nat)
    requires n <= |s| && OneLine(s[..n]) && (n < |s| ==> IsLineBreak(s[n]))
    ensures LineEnd(s) == n
  {
  }

  /** Splitting undoes joining, for lines that hold no break, the last of them not empty. */
  lemma {:induction false} SplitUndoesJoin(lines: seq<string>)
    requires forall i :: 0 <= i < |lines| ==> OneLine(lines[i]) && lines[i] != ""
    ensures SplitLines(Join(lines)) == lines
  {
    if lines == [] {
    } else if |lines| == 1 {
      assert lines[0][..|lines[0]|] == lines[0];
      LineEndIs(lines[0], |lines[0]|);
    } else {
      var s, n := Join(lines), |lines[0]|;
      assert s[..n] == lines[0];
      LineEndIs(s, n);
      assert s[n] == '\n' && BreakWidth(s, n) == 1;
      assert s[n + 1..] == Join(lines[1..]);
      SplitUndoesJoin(lines[1..]);
    }
  }

  /** The line breaks are those of `str.splitlines`, and the blanks those of `str.isspace`. */
  lemma BreaksAndBlanks(c: char)
    ensures IsLineBreak(c) <==>
      c in {'\n', '\U{0B}', '\U{0C}', '\r', '\U{1C}', '\U{1D}', '\U{1E}', '\U{85}', '\U{2028}', '\U{2029}'}
    ensures IsSpace(c) <==>
      c in {'\t', '\n', '\U{0B}', '\U{0C}', '\r', '\U{1C}', '\U{1D}', '\U{1E}', '\U{1F}', ' ', '\U{85}', '\U{A0}',
            '\U{1680}', '\U{2000}', '\U{2001}', '\U{2002}', '\U{2003}', '\U{2004}', '\U{2005}', '\U{2006}', '\U{2007}',
            '\U{2008}', '\U{2009}', '\U{200A}', '\U{2028}', '\U{2029}', '\U{202F}', '\U{205F}', '\U{3000}'}
  {
  }

  /** The lines with what ended each of them. */
  function Glue(lines: seq<string>, ends: seq<string>): string
    requires |lines| == |ends|
  {
    if lines == [] then "" else lines[0] + ends[0] + Glue(lines[1..], ends[1..])
  }

  /** One line break, where a carriage return takes a line feed that follows with it; the last line may have none. */
  predicate IsEnd(end: string, line: string, rest: string) {
    if end == "" then rest == "" && line != ""
    else if end == "\r" then rest == "" || rest[0] != '\n'
    else end == "\r\n" || (|end| == 1 && IsLineBreak(end[0]))
  }

  predicate AreEnds(lines: seq<string>, ends: seq<string>) {
    && |lines| == |ends|
    && forall i :: 0 <= i < |ends| ==>
         OneLine(lines[i]) && IsEnd(ends[i], lines[i], Glue(lines[i + 1..], ends[i + 1..]))
  }

  lemma BreakIsEnd(s: string, n: nat, line: string)
    requires n < |s| && IsLineBreak(s[n])
    ensures IsEnd(s[n..n + BreakWidth(s, n)], line, s[n + BreakWidth(s, n)..])
  {
    var width := BreakWidth(s, n);
    assert s[n..n + width] == if width == 2 then [s[n], s[n + 1]] else [s[n]];
  }

  lemma WholeLine(s: string)
    requires s != "" && OneLine(s)
    ensures AreEnds([s], [""]) && Glue([s], [""]) == s
  {
    assert [s][1..] == [] && [""][1..] == [];
  }

  lemma NoLines()
    ensures AreEnds([], [])
  {
  }

  lemma {:induction false} LastLine(s: string)
    requires s != "" && LineEnd(s) == |s|
    ensures SplitLines(s) == [s] && AreEnds([s], [""]) && Glue([s], [""]) == s
  {
    assert s[..|s|] == s;
    WholeLine(s);
  }

  /** The first line, what ends it, and the rest of a text with a line break. */
  lemma FirstLine(s: string) returns (line: string, end: string, rest: string)
    requires LineEnd(s) < |s|
    ensures s == line + end + rest && |rest| < |s|
    ensures OneLine(line) && IsEnd(end, line, rest)
    ensures SplitLines(s) == [line] + SplitLines(rest)
  {
    var n := LineEnd(s);
    var width := BreakWidth(s, n);
    line, end, rest := s[..n], s[n..n + width], s[n + width..];
    BreakIsEnd(s, n, line);
  }

  /** Splitting loses nothing but the line breaks, and splits at every one of them. */
  lemma {:induction false} SplitLinesIs(s: string) returns (ends: seq<string>)
    ensures AreEnds(SplitLines(s), ends) && s == Glue(SplitLines(s), ends)
    decreases |s|
  {
    if s == "" {
      ends := [];
      NoLines();
    } else if LineEnd(s) == |s| {
      ends := [""];
      LastLine(s);
    } else {
      var line, end, rest := FirstLine(s);
      var others := SplitLinesIs(rest);
      ends := [end] + others;
      EndsOfMore(line, end, rest, SplitLines(rest), others);
    }
  }

  lemma {:induction false} EndsOfMore(line: string, end: string, rest: string, lines: seq<string>, ends: seq<string>)
    requires AreEnds(lines, ends) && rest == Glue(lines, ends) && OneLine(line) && IsEnd(end, line, rest)
    ensures AreEnds([line] + lines, [end] + ends) && Glue([line] + lines, [end] + ends) == line + end + rest
  {
    var lines', ends' := [line] + lines, [end] + ends;
    assert lines'[1..] == lines && ends'[1..] == ends;
    forall i | 0 <= i < |ends'|
      ensures OneLine(lines'[i]) && IsEnd(ends'[i], lines'[i], Glue(lines'[i + 1..], ends'[i + 1..]))
    {
      if i > 0 {
        assert lines'[i + 1..] == lines[i..] && ends'[i + 1..] == ends[i..];
        assert lines'[i] == lines[i - 1] && ends'[i] == ends[i - 1];
      }
    }
  }
}
