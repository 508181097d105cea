/** parse_outline: the list of top-level headings of an outline, as
    `re.findall(r'^##\s+(.+)$', content, re.MULTILINE)` finds them.

    The regular expression is modelled character by character:
    - `^` (multi-line) holds at the start of the text and just after a '\n';
    - `\s` is Python's whitespace class for `str` patterns (IsSpace), and
      `\s+` may run over line ends;
    - `.` is any character but '\n', so a capture never crosses a line end;
    - `$` (multi-line) holds before a '\n' and at the end of the text;
    - `findall` tries every position from left to right and, after a match,
      resumes where the match ended, so matches never overlap. */
module OutlineParser {
  import opened Files

  /** The characters `\s` matches in a `str` pattern: the ASCII whitespace
      characters, the four ASCII information separators, and the Unicode
      spaces and line/paragraph separators that CPython counts as whitespace. */
  predicate IsSpace(c: char) {
    c == ' ' || c == '\t' || c == '\n' || c == '\r' || c == '\U{0B}' || c == '\U{0C}'
    || ('\U{1C}' <= c <= '\U{1F}')
    || c == '\U{85}' || c == '\U{A0}' || c == '\U{1680}'
    || ('\U{2000}' <= c <= '\U{200A}')
    || c == '\U{2028}' || c == '\U{2029}' || c == '\U{202F}' || c == '\U{205F}' || c == '\U{3000}'
  }

  /** Length of the longest run of whitespace in `t` from index `i` on:
      what a greedy `\s+` (or `\s*`) first tries to take. */
  function SpaceRun(t: string, i: nat): (n: nat)
    requires i <= |t|
    ensures i + n <= |t|
    ensures forall j :: i <= j < i + n ==> IsSpace(t[j])
    ensures i + n == |t| || !IsSpace(t[i + n])
    decreases |t| - i
  {
    if i < |t| && IsSpace(t[i]) then 1 + SpaceRun(t, i + 1) else 0
  }

  /** Length of the longest run of characters other than '\n' in `t` from
      index `i` on: what a greedy `.+` takes. */
  function LineRun(t: string, i: nat): (n: nat)
    requires i <= |t|
    ensures i + n <= |t|
    ensures forall j :: i <= j < i + n ==> t[j] != '\n'
    ensures i + n == |t| || t[i + n] == '\n'
    decreases |t| - i
  {
    if i < |t| && t[i] != '\n' then 1 + LineRun(t, i + 1) else 0
  }

  /** Backtracking of `\s+` after `##`: with `k` characters taken by `\s+`, the
      group `(.+)` must start at index 2 + k on a character other than '\n';
      if it cannot, `\s+` gives back one character and tries again, down to one. */
  function GiveBack(t: string, k: nat): (r: Option<nat>)
    requires 2 + k <= |t|
    ensures r.Some? ==> 1 <= r.value <= k && 2 + r.value < |t| && t[2 + r.value] != '\n'
    ensures forall p :: 3 <= p <= 2 + k && (r.None? || 2 + r.value < p) ==> p == |t| || t[p] == '\n'
  {
    if k == 0 then None
    else if 2 + k < |t| && t[2 + k] != '\n' then Some(k)
    else GiveBack(t, k - 1)
  }

  /** The part of `t` that the group `(.+)` captures: `start` inclusive, `end` exclusive. */
  datatype Span = Span(start: nat, end: nat)

  /** A match of `##\s+(.+)$` anchored at index 0 of `t` whose group is
      t[c..e]: "##", then at least one whitespace character, then at least one
      character other than '\n', then the end of a line. */
  ghost predicate PatternMatches(t: string, c: nat, e: nat) {
    |t| >= 2 && t[0] == '#' && t[1] == '#'
    && 3 <= c < e <= |t|
    && (forall j :: 2 <= j < c ==> IsSpace(t[j]))
    && (forall j :: c <= j < e ==> t[j] != '\n')
    && (e == |t| || t[e] == '\n')
  }

  /** The match the regular-expression engine reports at the start of `t`, if any. */
  function MatchHere(t: string): (r: Option<Span>)
    ensures r.Some? ==> PatternMatches(t, r.value.start, r.value.end)
  {
    if |t| >= 2 && t[0] == '#' && t[1] == '#' then
      match GiveBack(t, SpaceRun(t, 2))
      case None => None
      case Some(k) => Some(Span(2 + k, 2 + k + LineRun(t, 2 + k)))
    else None
  }

  /** MatchHere finds a match exactly when the pattern matches at all, and then
      the one a backtracking engine prefers: greedy `\s+` makes the group start
      as late as possible, and greedy `.+` makes it end as late as possible. */
  lemma MatchHereIsPreferredMatch(t: string)
    ensures MatchHere(t).None? ==> forall c: nat, e: nat :: !PatternMatches(t, c, e)
    ensures MatchHere(t).Some? ==>
      forall c: nat, e: nat :: PatternMatches(t, c, e) ==>
        c < MatchHere(t).value.start || (c == MatchHere(t).value.start && e <= MatchHere(t).value.end)
  {
    forall c: nat, e: nat | PatternMatches(t, c, e)
      ensures MatchHere(t).Some?
      ensures c < MatchHere(t).value.start || (c == MatchHere(t).value.start && e <= MatchHere(t).value.end)
    {
      var w := SpaceRun(t, 2);
      var m := MatchHere(t);
      var g := GiveBack(t, w);
      assert m.None? <==> g.None?;
      assert m.Some? ==> m.value.start == 2 + g.value;
      // every character between "##" and the group is whitespace, so the group
      // cannot start after the end of the longest whitespace run
      assert 2 + w == |t| || !IsSpace(t[2 + w]);
      assert c <= 2 + w;
      // nor can it start at a place GiveBack rejected: there the text ends or a line ends
      assert t[c] != '\n';
      assert g.Some? && c <= 2 + g.value;
      // and `.+` already runs to the end of the line
      assert m.value.end == |t| || t[m.value.end] == '\n';
    }
  }

  /** `###` never starts a match: the third character must be whitespace. */
  lemma SubsectionNeverMatches(t: string)
    requires |t| >= 3 && t[0] == '#' && t[1] == '#' && t[2] == '#'
    ensures MatchHere(t) == None
    ensures forall c: nat, e: nat :: !PatternMatches(t, c, e)
  {
    MatchHereIsPreferredMatch(t);
  }

  /** `re.findall` over the suffix `t` of the content; `atLineStart` says
      whether `^` holds at the first character of `t`. */
  function Scan(t: string, atLineStart: bool): (r: seq<string>)
    ensures forall h :: h in r ==> |h| > 0 && '\n' !in h
    ensures forall h :: h in r ==> forall c :: c in h ==> c in t
    decreases |t|
  {
    if t == [] then []
    else if atLineStart && MatchHere(t).Some? then
      var m := MatchHere(t).value;
      // the last character matched is not '\n', so `^` does not hold where the scan resumes
      [t[m.start..m.end]] + Scan(t[m.end..], false)
    else
      Scan(t[1..], t[0] == '\n')
  }

  /** The headings `findall` extracts from the whole content. */
  function FindAll(content: string): (r: seq<string>)
    ensures forall i :: 0 <= i < |r| ==> |r[i]| > 0 && '\n' !in r[i]
    ensures forall i :: 0 <= i < |r| ==> forall c :: c in r[i] ==> c in content
  {
    var entries := Scan(content, true);
    assert forall i :: 0 <= i < |entries| ==> entries[i] in entries;
    entries
  }

  /** parse_outline(filename): the headings of the file's content as a
      text-mode read returns it, or the empty list when the file does not exist. */
  function ParseOutline(disk: Disk, filename: string): (sections: seq<string>)
    ensures filename !in disk ==> sections == []
    ensures filename in disk ==> sections == FindAll(UniversalNewlines(disk[filename]))
    ensures forall i :: 0 <= i < |sections| ==> '\r' !in sections[i]
  {
    match ReadFile(disk, filename)
    case None => []
    case Some(content) => FindAll(content)
  }

  // ---------------------------------------------------------------------
  // A line-by-line reading of an outline, and when the scanner agrees with it

  /** A line `##` followed by nothing but whitespace. After such a line `\s+`
      runs on over the line end, so the scanner and a line-by-line reading
      can disagree. */
  predicate IsBareHeading(line: string) {
    |line| >= 2 && line[0] == '#' && line[1] == '#'
    && forall i :: 2 <= i < |line| ==> IsSpace(line[i])
  }

  /** The heading a single line declares: the line is `##`, at least one
      whitespace character, then the heading, which starts with a character
      that is not whitespace and runs to the end of the line, untrimmed. */
  function HeadingOf(line: string): (r: Option<string>)
    ensures r.Some? ==>
      |line| >= 3 && line[0] == '#' && line[1] == '#' && IsSpace(line[2])
      && 0 < |r.value| < |line| - 2 && !IsSpace(r.value[0])
      && r.value == line[|line| - |r.value|..]
      && (forall i :: 2 <= i < |line| - |r.value| ==> IsSpace(line[i]))
    ensures r.None? <==>
      !(|line| >= 3 && line[0] == '#' && line[1] == '#' && IsSpace(line[2])) || IsBareHeading(line)
  {
    if |line| >= 3 && line[0] == '#' && line[1] == '#' && IsSpace(line[2])
       && 2 + SpaceRun(line, 2) < |line|
    then Some(line[2 + SpaceRun(line, 2)..])
    else None
  }

  /** The headings of the lines, in order, one per heading line. */
  function Headings(lines: seq<string>): seq<string> {
    if lines == [] then []
    else
      (match HeadingOf(lines[0]) case Some(h) => [h] case None => [])
      + Headings(lines[1..])
  }

  /** The text whose lines are `lines`: "\n".join(lines). */
  function JoinLines(lines: seq<string>): string
    requires |lines| > 0
  {
    if |lines| == 1 then lines[0] else lines[0] + "\n" + JoinLines(lines[1..])
  }

  /** The lines of a text: text.split("\n"). */
  function SplitLines(s: string): (lines: seq<string>)
    ensures |lines| > 0
    ensures forall i :: 0 <= i < |lines| ==> '\n' !in lines[i]
    decreases |s|
  {
    if s == [] then [""]
    else
      var rest := SplitLines(s[1..]);
      if s[0] == '\n' then [""] + rest else [[s[0]] + rest[0]] + rest[1..]
  }

  /** Splitting a text into lines and joining them again gives the text back. */
  lemma {:induction false} JoinSplitLines(s: string)
    ensures JoinLines(SplitLines(s)) == s
    decreases |s|
  {
    if s != [] {
      var rest := SplitLines(s[1..]);
      JoinSplitLines(s[1..]);
      if s[0] == '\n' {
        assert SplitLines(s) == [""] + rest;
        assert ([""] + rest)[1..] == rest;
      } else {
        var first := [s[0]] + rest[0];
        assert SplitLines(s) == [first] + rest[1..];
        assert ([first] + rest[1..])[1..] == rest[1..];
        if |rest| == 1 {
          assert JoinLines(rest) == rest[0];
        } else {
          assert JoinLines(rest) == rest[0] + "\n" + JoinLines(rest[1..]);
          assert JoinLines(SplitLines(s)) == first + "\n" + JoinLines(rest[1..]);
        }
      }
    }
  }

  /** `tail` is the rest of the text after a line: nothing, or a line end first. */
  predicate IsLineTail(tail: string) {
    tail == [] || tail[0] == '\n'
  }

  /** Where `^` does not hold, the scan runs to the end of the line without a match. */
  lemma {:induction false} ScanSkipsLine(line: string, tail: string)
    requires '\n' !in line && IsLineTail(tail)
    ensures Scan(line + tail, false) == Scan(tail, false)
    decreases |line|
  {
    if line != [] {
      assert line[0] in line;
      assert (line + tail)[0] == line[0];
      assert (line + tail)[1..] == line[1..] + tail;
      ScanSkipsLine(line[1..], tail);
    } else {
      assert line + tail == tail;
    }
  }

  /** Past a line end, the scan starts afresh at the start of the next line. */
  lemma ScanLineEnd(rest: string)
    ensures Scan("\n" + rest, false) == Scan(rest, true)
  {
    assert ("\n" + rest)[1..] == rest;
  }

  /** A whitespace run that stops inside a line is the same whatever follows
      the line. */
  lemma {:induction false} SpaceRunInLine(line: string, tail: string, i: nat)
    requires i <= |line| && i + SpaceRun(line, i) < |line|
    ensures SpaceRun(line + tail, i) == SpaceRun(line, i)
    decreases |line| - i
  {
    if IsSpace(line[i]) {
      SpaceRunInLine(line, tail, i + 1);
    }
  }

  /** `.+` from index i runs exactly to the line end at L. */
  lemma {:induction false} LineRunUntil(t: string, i: nat, lineEnd: nat)
    requires i <= lineEnd <= |t|
    requires forall j :: i <= j < lineEnd ==> t[j] != '\n'
    requires lineEnd == |t| || t[lineEnd] == '\n'
    ensures LineRun(t, i) == lineEnd - i
    decreases lineEnd - i
  {
    if i < lineEnd {
      LineRunUntil(t, i + 1, lineEnd);
    }
  }

  /** When the first line of t is "##", whitespace, then a character that is
      not whitespace, the group runs from that character to the line end. */
  lemma MatchFirstLine(t: string, lineEnd: nat)
    requires |t| >= 3 && t[0] == '#' && t[1] == '#' && IsSpace(t[2])
    requires 2 + SpaceRun(t, 2) < lineEnd <= |t|
    requires forall j :: 0 <= j < lineEnd ==> t[j] != '\n'
    requires lineEnd == |t| || t[lineEnd] == '\n'
    ensures MatchHere(t) == Some(Span(2 + SpaceRun(t, 2), lineEnd))
  {
    var w := SpaceRun(t, 2);
    assert w != 0;
    assert GiveBack(t, w) == Some(w);
    LineRunUntil(t, 2 + w, lineEnd);
  }

  /** A heading line contributes its heading, whatever follows it. */
  lemma ScanHeadingLine(line: string, tail: string)
    requires '\n' !in line && IsLineTail(tail) && HeadingOf(line).Some?
    ensures Scan(line + tail, true) == [HeadingOf(line).value] + Scan(tail, false)
  {
    var t := line + tail;
    var w := SpaceRun(line, 2);
    assert 2 + w < |line| && IsSpace(line[2]);
    SpaceRunInLine(line, tail, 2);
    forall j | 0 <= j < |line| ensures t[j] != '\n' {
      assert t[j] == line[j] && line[j] in line;
    }
    assert |line| == |t| || t[|line|] == '\n';
    MatchFirstLine(t, |line|);
    assert t[2 + w..|line|] == line[2 + w..];
    assert t[|line|..] == tail;
  }

  /** The pattern does not match at the start of a line that is neither a
      heading nor a bare heading. */
  lemma OtherLineNoMatch(line: string, tail: string)
    requires '\n' !in line && IsLineTail(tail) && HeadingOf(line).None? && !IsBareHeading(line)
    ensures MatchHere(line + tail).None?
  {
    var t := line + tail;
    if |t| >= 2 && t[0] == '#' && t[1] == '#' {
      assert |line| >= 3 && t[2] == line[2] && !IsSpace(t[2]);
      assert SpaceRun(t, 2) == 0;
    }
  }

  /** Where the pattern does not match, `^` holding or not makes no difference. */
  lemma NoMatchAtLineStart(t: string)
    requires t != [] && MatchHere(t).None?
    ensures Scan(t, true) == Scan(t, false)
  {
  }

  /** A line that neither is a heading nor is a bare heading contributes nothing. */
  lemma ScanOtherLine(line: string, tail: string)
    requires '\n' !in line && IsLineTail(tail) && HeadingOf(line).None? && !IsBareHeading(line)
    ensures Scan(line + tail, true) == Scan(tail, false)
  {
    var t := line + tail;
    OtherLineNoMatch(line, tail);
    if t != [] {
      NoMatchAtLineStart(t);
      ScanSkipsLine(line, tail);
    } else {
      assert line == [] && tail == [];
    }
  }

  /** A line that is not a bare heading contributes exactly its own heading,
      whatever follows it. */
  lemma ScanLine(line: string, tail: string)
    requires '\n' !in line && !IsBareHeading(line) && IsLineTail(tail)
    ensures Scan(line + tail, true)
         == (match HeadingOf(line) case Some(h) => [h] case None => []) + Scan(tail, false)
  {
    if HeadingOf(line).Some? {
      ScanHeadingLine(line, tail);
    } else {
      ScanOtherLine(line, tail);
    }
  }

  /** When no line is a bare heading, the scanner extracts exactly the
      headings of the heading lines, one per line, in line order, duplicates
      kept and `###` lines skipped. */
  lemma {:induction false} ScanByLines(lines: seq<string>)
    requires |lines| > 0
    requires forall i :: 0 <= i < |lines| ==> '\n' !in lines[i] && !IsBareHeading(lines[i])
    ensures FindAll(JoinLines(lines)) == Headings(lines)
    decreases |lines|
  {
    var h := match HeadingOf(lines[0]) case Some(x) => [x] case None => [];
    if |lines| == 1 {
      ScanLine(lines[0], []);
      assert lines[0] + [] == lines[0];
      assert Headings(lines) == h + Headings(lines[1..]);
    } else {
      var rest := JoinLines(lines[1..]);
      assert JoinLines(lines) == lines[0] + ("\n" + rest);
      ScanLine(lines[0], "\n" + rest);
      ScanLineEnd(rest);
      ScanByLines(lines[1..]);
      assert Headings(lines) == h + Headings(lines[1..]);
    }
  }

  /** The same for any outline text, read as its lines. */
  lemma FindAllByLines(content: string)
    requires forall i :: 0 <= i < |SplitLines(content)| ==> !IsBareHeading(SplitLines(content)[i])
    ensures FindAll(content) == Headings(SplitLines(content))
  {
    JoinSplitLines(content);
    ScanByLines(SplitLines(content));
  }

  // ---------------------------------------------------------------------
  // Worked outlines

  /** A heading as a line declares it: not empty, not starting with
      whitespace, on one line. */
  predicate IsHeadingText(h: string) {
    |h| > 0 && !IsSpace(h[0]) && '\n' !in h
  }

  /** "## " followed by a heading text is a heading line declaring that text. */
  lemma HeadingAfterSpace(h: string)
    requires IsHeadingText(h)
    ensures HeadingOf("## " + h) == Some(h)
    ensures '\n' !in "## " + h && !IsBareHeading("## " + h)
  {
    var line := "## " + h;
    assert line[3] == h[0];
    assert SpaceRun(line, 2) == 1;
    assert line[3..] == h;
  }

  /** A "### " line is never a heading line, nor a bare one. */
  lemma SubsectionLine(x: string)
    requires '\n' !in x
    ensures HeadingOf("### " + x) == None
    ensures '\n' !in "### " + x && !IsBareHeading("### " + x)
  {
    var line := "### " + x;
    assert line[2] == '#';
  }

  /** The first line of a text contributes its own heading, and the scan
      starts afresh on the next line. */
  lemma FirstLine(line: string, rest: string)
    requires '\n' !in line && !IsBareHeading(line)
    ensures FindAll(line + "\n" + rest)
         == (match HeadingOf(line) case Some(h) => [h] case None => []) + FindAll(rest)
  {
    assert line + "\n" + rest == line + ("\n" + rest);
    ScanLine(line, "\n" + rest);
    ScanLineEnd(rest);
  }

  /** The last line of a text contributes its own heading. */
  lemma LastLine(line: string)
    requires '\n' !in line && !IsBareHeading(line)
    ensures FindAll(line) == (match HeadingOf(line) case Some(h) => [h] case None => [])
  {
    assert line + [] == line;
    ScanLine(line, []);
  }

  /** Two heading lines give both headings, in order, even when they are the
      same text. */
  lemma TwoHeadings(a: string, b: string)
    requires IsHeadingText(a) && IsHeadingText(b)
    ensures FindAll("## " + a + "\n" + ("## " + b)) == [a, b]
  {
    HeadingAfterSpace(a);
    HeadingAfterSpace(b);
    LastLine("## " + b);
    FirstLine("## " + a, "## " + b);
  }

  /** A "###" line between two heading lines gives no entry. */
  lemma SubsectionBetweenHeadings(a: string, x: string, b: string)
    requires IsHeadingText(a) && IsHeadingText(b) && '\n' !in x
    ensures FindAll("## " + a + "\n" + ("### " + x + "\n" + ("## " + b))) == [a, b]
  {
    HeadingAfterSpace(a);
    SubsectionLine(x);
    HeadingAfterSpace(b);
    LastLine("## " + b);
    FirstLine("### " + x, "## " + b);
    FirstLine("## " + a, "### " + x + "\n" + ("## " + b));
  }

  /** "## A\n### A.1\n## B" gives ["A", "B"]. */
  lemma SubsectionsSkipped()
    ensures FindAll("## A\n### A.1\n## B") == ["A", "B"]
  {
    var content := "## " + "A" + "\n" + ("### " + "A.1" + "\n" + ("## " + "B"));
    assert content == "## A\n### A.1\n## B";
    assert !IsSpace('A') && !IsSpace('B');
    SubsectionBetweenHeadings("A", "A.1", "B");
  }

  /** Duplicate headings are all kept, and the capture is not trimmed: a
      trailing '\r' stays in the entry. */
  lemma DuplicatesAndCarriageReturnKept()
    ensures FindAll("## A\r\n## A") == ["A\r", "A"]
  {
    var content := "## " + "A\r" + "\n" + ("## " + "A");
    assert content == "## A\r\n## A";
    assert !IsSpace('A');
    TwoHeadings("A\r", "A");
  }

  /** A bare `##` line lets `\s+` run over the line end, so the next line is
      captured as a heading even though it does not start with `##`. */
  lemma BareHeadingCapturesNextLine()
    ensures FindAll("##\nIntro") == ["Intro"]
  {
    var t := "##\nIntro";
    assert SpaceRun(t, 3) == 0;
    assert SpaceRun(t, 2) == 1;
    assert GiveBack(t, 1) == Some(1);
    assert LineRun(t, 3) == 5;
    assert MatchHere(t) == Some(Span(3, 8));
    assert t[3..8] == "Intro";
    assert t[8..] == [];
  }

  /** A bare `##` line followed by blank lines: `\s+` runs over all of them,
      and the first line with text is captured. */
  lemma BareHeadingSkipsBlankLines()
    ensures FindAll("##\n\nIntro") == ["Intro"]
  {
    var t := "##\n\nIntro";
    assert SpaceRun(t, 4) == 0;
    assert SpaceRun(t, 3) == 1;
    assert SpaceRun(t, 2) == 2;
    assert GiveBack(t, 2) == Some(2);
    assert LineRun(t, 4) == 5;
    assert MatchHere(t) == Some(Span(4, 9));
    assert t[4..9] == "Intro";
    assert t[9..] == [];
  }

  /** A bare `##` line at the end of the text with two trailing spaces:
      `\s+` gives back one space, and that space is captured. */
  lemma BareHeadingAtEndCapturesSpace()
    ensures FindAll("##  ") == [" "]
  {
    var t := "##  ";
    assert SpaceRun(t, 4) == 0;
    assert SpaceRun(t, 3) == 1;
    assert SpaceRun(t, 2) == 2;
    assert GiveBack(t, 1) == Some(1);
    assert GiveBack(t, 2) == Some(1);
    assert LineRun(t, 4) == 0;
    assert LineRun(t, 3) == 1;
    assert MatchHere(t) == Some(Span(3, 4));
    assert t[3..4] == " ";
    assert t[4..] == [];
  }

  /** Right after a bare `##` line, a `###` line is captured whole. */
  lemma SubsectionAfterBareHeadingCaptured(x: string)
    requires '\n' !in x
    ensures FindAll("##\n" + ("### " + x)) == ["### " + x]
  {
    var t := "##\n" + ("### " + x);
    assert t[3..] == "### " + x;
    assert SpaceRun(t, 3) == 0;
    assert SpaceRun(t, 2) == 1;
    assert GiveBack(t, 1) == Some(1);
    forall j | 3 <= j < |t|
      ensures t[j] != '\n'
    {
      assert t[j] == ("### " + x)[j - 3];
      if j >= 7 {
        assert t[j] == x[j - 7];
      }
    }
    LineRunUntil(t, 3, |t|);
    assert MatchHere(t) == Some(Span(3, |t|));
    assert t[3..|t|] == "### " + x;
    assert t[|t|..] == [];
    assert Scan(t, true) == [t[3..|t|]] + Scan(t[|t|..], false);
  }

  /** Blank lines between a bare `##` line and a `###` line do not stop the
      capture: `\s+` crosses them all and the `###` line is captured whole. */
  lemma SubsectionAfterBareHeadingAndBlankLine(x: string)
    requires '\n' !in x
    ensures FindAll("##\n\n" + ("### " + x)) == ["### " + x]
  {
    var t := "##\n\n" + ("### " + x);
    assert t[4..] == "### " + x;
    assert SpaceRun(t, 4) == 0;
    assert SpaceRun(t, 3) == 1;
    assert SpaceRun(t, 2) == 2;
    assert GiveBack(t, 2) == Some(2);
    forall j | 4 <= j < |t|
      ensures t[j] != '\n'
    {
      assert t[j] == ("### " + x)[j - 4];
      if j >= 8 {
        assert t[j] == x[j - 8];
      }
    }
    LineRunUntil(t, 4, |t|);
    assert MatchHere(t) == Some(Span(4, |t|));
    assert t[4..|t|] == "### " + x;
    assert t[|t|..] == [];
    assert Scan(t, true) == [t[4..|t|]] + Scan(t[|t|..], false);
  }

  /** A bare `##` line followed only by whitespace that ends in a line end:
      `\s+` gives back characters until `(.+)` can start on one that is not
      a line end, here two of them, and the space is captured. */
  lemma BareHeadingBeforeLineEndCapturesSpace()
    ensures FindAll("##  \n") == [" "]
  {
    var t := "##  \n";
    assert SpaceRun(t, 5) == 0;
    assert SpaceRun(t, 2) == 3;
    assert GiveBack(t, 1) == Some(1);
    assert GiveBack(t, 3) == Some(1);
    assert LineRun(t, 4) == 0;
    assert LineRun(t, 3) == 1;
    assert MatchHere(t) == Some(Span(3, 4));
    assert t[3..4] == " ";
    assert t[4..] == "\n" + [];
    ScanLineEnd([]);
  }

  /** When every whitespace character after the first is a line end, `(.+)`
      cannot start anywhere and a bare `##` line gives nothing. */
  lemma NoMatchWhenOnlyLineEndsFollow()
    ensures FindAll("## \n") == []
  {
    var t := "## \n";
    assert SpaceRun(t, 4) == 0;
    assert SpaceRun(t, 2) == 2;
    assert GiveBack(t, 0) == None;
    assert GiveBack(t, 2) == None;
    assert MatchHere(t) == None;
    assert t[1..] == "# " + "\n";
    ScanSkipsLine("# ", "\n");
    ScanLineEnd([]);
    assert "\n" + [] == "\n";
  }

  /** A bare `##` line that a match above it captured starts no match of its
      own, so a `###` line after it is skipped. */
  lemma CapturedBareHeadingStartsNoMatch(x: string)
    requires '\n' !in x
    ensures FindAll("##\n##\n" + ("### " + x)) == ["##"]
  {
    var rest := "### " + x;
    var t := "##\n##\n" + rest;
    assert t[..6] == "##\n##\n";
    assert SpaceRun(t, 3) == 0;
    assert SpaceRun(t, 2) == 1;
    assert GiveBack(t, 1) == Some(1);
    assert LineRun(t, 5) == 0;
    assert LineRun(t, 3) == 2;
    assert MatchHere(t) == Some(Span(3, 5));
    assert t[3..5] == "##";
    assert t[5..] == "\n" + rest;
    ScanLineEnd(rest);
    SubsectionLine(x);
    LastLine(rest);
  }

  /** Reading the outline back in text mode turns a lone '\r' into a line
      end, so "## a\r## b" gives two sections. */
  lemma CarriageReturnSeparatesHeadings(disk: Disk, name: string, a: string, b: string)
    requires IsHeadingText(a) && IsHeadingText(b) && '\r' !in a && '\r' !in b
    ensures ParseOutline(SaveFile(disk, name, "## " + a + "\r" + ("## " + b)), name) == [a, b]
  {
    assert '\r' !in "## " + a && '\r' !in "## " + b;
    LoneCarriageReturnRead("## " + a, "## " + b);
    TwoHeadings(a, b);
  }

  /** Reading the outline back in text mode turns "\r\n" into a line end,
      so the '\r' of a Windows line end never reaches a section. */
  lemma CarriageReturnLineFeedSections(disk: Disk, name: string, a: string, b: string)
    requires IsHeadingText(a) && IsHeadingText(b) && '\r' !in a && '\r' !in b
    ensures ParseOutline(SaveFile(disk, name, "## " + a + "\r\n" + ("## " + b)), name) == [a, b]
  {
    assert '\r' !in "## " + a && '\r' !in "## " + b;
    CarriageReturnLineFeedRead("## " + a, "## " + b);
    TwoHeadings(a, b);
  }
}
