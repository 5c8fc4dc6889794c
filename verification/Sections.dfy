/** The three section splitters of knowledge/chunking.go. */
module Sections {
  import opened Text

  datatype Line = Line(number: nat, text: string)

  type Section = seq<Line>

  datatype Splitter = Markdown | Code | Paragraphs

  // ---- Where sections begin, said line by line ----

  /** isFencedCodeDelimiter. */
  predicate IsFence(line: string) {
    var t := TrimLeftBlanks(line);
    |t| >= 3 && t[..3] == "```"
  }

  function Hashes(line: string): nat {
    if line != "" && line[0] == '#' then 1 + Hashes(line[1..]) else 0
  }

  /** isMarkdownHeading: at least two hashes, then white space. */
  predicate IsHeading(line: string) {
    var k := Hashes(line);
    k >= 2 && k < |line| && line[k] in {'\t', '\n', '\U{C}', '\r', ' '}
  }

  lemma {:induction false} HashesCount(line: string)
    ensures Hashes(line) <= |line| && forall i :: 0 <= i < Hashes(line) ==> line[i] == '#'
    ensures Hashes(line) < |line| ==> line[Hashes(line)] != '#'
  {
    if line != "" && line[0] == '#' {
      HashesCount(line[1..]);
      assert forall i :: 1 <= i < Hashes(line) ==> line[i] == line[1..][i - 1];
    }
  }

  /** The line matches ^#{2,}\s: two hashes or more, then white space. */
  ghost predicate MatchesHeader(line: string, k: nat) {
    && 2 <= k < |line| && (forall i :: 0 <= i < k ==> line[i] == '#')
    && (line[k] == ' ' || line[k] == '\t' || line[k] == '\n' || line[k] == '\r' || line[k] == '\U{C}')
  }

  /** isMarkdownHeading is that regular expression. */
  lemma {:induction false} HeadingMatches(line: string)
    ensures IsHeading(line) <==> exists k: nat :: MatchesHeader(line, k)
  {
    hide Hashes;
    HashesCount(line);
    var n := Hashes(line);
    assert IsHeading(line) ==> MatchesHeader(line, n);
    if k: nat :| MatchesHeader(line, k) {
      assert line[k] != '#';
      FirstOther(line, k, n);
    }
  }

  /** Three backticks after any blanks and tabs. */
  ghost predicate StartsFence(line: string, k: nat) {
    k + 3 <= |line| && (forall i :: 0 <= i < k ==> line[i] == ' ' || line[i] == '\t') && line[k..k + 3] == "```"
  }

  lemma {:induction false} FenceStarts(line: string)
    ensures IsFence(line) <==> exists k: nat :: StartsFence(line, k)
  {
    var m := LeftBlanks(line);
    assert TrimLeftBlanks(line) == line[m..];
    if IsFence(line) {
      assert line[m..m + 3] == TrimLeftBlanks(line)[..3];
      assert StartsFence(line, m);
    }
    if k: nat :| StartsFence(line, k) {
      assert line[k..k + 3][0] == line[k];
      FirstOther(line, k, m);
      assert line[m..][..3] == line[m..m + 3];
    }
  }

  /** Two counts of the same leading characters agree. */
  lemma {:induction false} FirstOther(line: string, k: nat, n: nat)
    requires k <= |line| && n <= |line|
    requires n < |line| ==> forall i :: 0 <= i < k ==> line[i] != line[n]
    requires k < |line| ==> forall i :: 0 <= i < n ==> line[i] != line[k]
    ensures k == n
  {
    var c := if n < |line| then line[n] else ' ';
    var d := if k < |line| then line[k] else ' ';
    assert (n < |line| ==> c == line[n]) && (k < |line| ==> d == line[k]);
  }

  lemma {:induction false} LeftBlanks(line: string) returns (m: nat)
    ensures m <= |line| && TrimLeftBlanks(line) == line[m..]
    ensures forall i :: 0 <= i < m ==> line[i] == ' ' || line[i] == '\t'
    ensures m < |line| ==> line[m] != ' ' && line[m] != '\t'
  {
    if line != "" && (line[0] == ' ' || line[0] == '\t') {
      var n := LeftBlanks(line[1..]);
      m := n + 1;
      assert line[1..][n..] == line[m..];
      assert forall i :: 1 <= i < m ==> line[i] == line[1..][i - 1];
    } else {
      m := 0;
    }
  }

  /** Whether an odd number of fence delimiters precedes line i. */
  predicate InFence(lines: seq<string>, i: nat)
    requires i <= |lines|
  {
    i > 0 && (InFence(lines, i - 1) != IsFence(lines[i - 1]))
  }

  /** Line i - 1 is a blank line, outside any fence, that ends a paragraph. */
  predicate ParagraphEndsBefore(lines: seq<string>, i: nat)
    requires i <= |lines|
  {
    i >= 2 && IsBlank(lines[i - 1]) && !IsBlank(lines[i - 2]) && !InFence(lines, i - 1)
  }

  predicate HasTextFrom(lines: seq<string>, i: nat)
    requires i <= |lines|
    decreases |lines| - i
  {
    i < |lines| && (!IsBlank(lines[i]) || HasTextFrom(lines, i + 1))
  }

  /** A section begins at line i (0-based), besides the one at line 0. */
  predicate CutBefore(splitter: Splitter, lines: seq<string>, i: nat)
    requires i < |lines|
  {
    match splitter
    case Paragraphs => IsBlank(lines[i])
    case Code => IsBlank(lines[i]) && HasTextFrom(lines, i + 1)
    case Markdown =>
      || ParagraphEndsBefore(lines, i)
      || (IsHeading(lines[i]) && !IsFence(lines[i]) && !InFence(lines, i))
  }

  function NumberedLine(lines: seq<string>, i: nat): Line
    requires i < |lines|
  {
    Line(i + 1, lines[i])
  }

  /** The sections of the first k lines: a new one at line 0 and at every cut, otherwise the last one grows. */
  function SectionsUpTo(splitter: Splitter, lines: seq<string>, k: nat): seq<Section>
    requires k <= |lines|
  {
    if k == 0 then []
    else
      var before, line := SectionsUpTo(splitter, lines, k - 1), NumberedLine(lines, k - 1);
      if before == [] || CutBefore(splitter, lines, k - 1) then before + [[line]]
      else before[|before| - 1 := before[|before| - 1] + [line]]
  }

  function AllSections(splitter: Splitter, lines: seq<string>): seq<Section> {
    SectionsUpTo(splitter, lines, |lines|)
  }

  /** The sections already closed plus the one still open. */
  function WithOpen(sections: seq<Section>, current: Section): seq<Section> {
    if current == [] then sections else sections + [current]
  }

  lemma {:induction false} OpenGrows(sections: seq<Section>, current: Section, lo: Line)
    ensures var open := WithOpen(sections, current);
      WithOpen(sections, current + [lo]) ==
      if current == [] then open + [[lo]] else open[|open| - 1 := open[|open| - 1] + [lo]]
  {
    assert current == [] ==> current + [lo] == [lo];
  }

  // ---- The loops ----

  method SplitParagraphs(fileLines: seq<string>) returns (sections: seq<Section>)
    ensures sections == AllSections(Paragraphs, fileLines)
  {
    sections := [];
    var current: Section := [];
    for i := 0 to |fileLines|
      invariant WithOpen(sections, current) == SectionsUpTo(Paragraphs, fileLines, i)
      invariant current == [] <==> i == 0
    {
      var line := fileLines[i];
      var lo := Line(i + 1, line);
      OpenGrows(sections, current, lo);
      if IsBlank(line) && |current| > 0 {
        sections := sections + [current];
        current := [lo];
        continue;
      }
      current := current + [lo];
    }
    if |current| > 0 {
      sections := sections + [current];
    }
  }

  method SplitCode(fileLines: seq<string>) returns (sections: seq<Section>)
    ensures sections == AllSections(Code, fileLines)
  {
    sections := [];
    var current: Section := [];
    for i := 0 to |fileLines|
      invariant WithOpen(sections, current) == SectionsUpTo(Code, fileLines, i)
      invariant current == [] <==> i == 0
    {
      var line := fileLines[i];
      var lo := Line(i + 1, line);
      OpenGrows(sections, current, lo);
      if IsBlank(line) && |current| > 0 {
        var hasNextNonBlank := false;
        var j := i + 1;
        while j < |fileLines|
          invariant i < j <= |fileLines| && !hasNextNonBlank
          invariant HasTextFrom(fileLines, i + 1) == HasTextFrom(fileLines, j)
        {
          if !IsBlank(fileLines[j]) {
            hasNextNonBlank := true;
            break;
          }
          j := j + 1;
        }
        if hasNextNonBlank {
          sections := sections + [current];
          current := [lo];
          continue;
        }
      }
      current := current + [lo];
    }
    if |current| > 0 {
      sections := sections + [current];
    }
  }

  predicate HasNonBlank(lines: Section) {
    exists i :: 0 <= i < |lines| && !IsBlank(lines[i].text)
  }

  /** splitMarkdownLine: a line outside a code block. */
  function SplitMarkdownLine(sections: seq<Section>, current: Section, lo: Line): (seq<Section>, Section) {
    if IsHeading(lo.text) && |current| > 0 then (sections + [current], [lo])
    else if IsBlank(lo.text) && |current| > 0 && HasNonBlank(current) then (sections + [current + [lo]], [])
    else (sections, current + [lo])
  }

  method SplitMarkdown(fileLines: seq<string>) returns (sections: seq<Section>)
    ensures sections == AllSections(Markdown, fileLines)
  {
    sections := [];
    var current: Section := [];
    var inCodeBlock := false;
    for i := 0 to |fileLines|
      invariant MarkdownState(fileLines, i, sections, current, inCodeBlock)
    {
      var line := fileLines[i];
      var lo := Line(i + 1, line);
      MarkdownStep(fileLines, i, sections, current);
      if IsFence(line) {
        inCodeBlock := !inCodeBlock;
        current := current + [lo];
        continue;
      }
      if !inCodeBlock {
        var (s, c) := SplitMarkdownLine(sections, current, lo);
        sections, current := s, c;
        continue;
      }
      current := current + [lo];
    }
    if |current| > 0 {
      sections := sections + [current];
    }
  }

  ghost predicate MarkdownState(lines: seq<string>, i: nat, sections: seq<Section>, current: Section, inCodeBlock: bool)
    requires i <= |lines|
  {
    && inCodeBlock == InFence(lines, i)
    && WithOpen(sections, current) == SectionsUpTo(Markdown, lines, i)
    && (current == [] <==> i == 0 || ParagraphEndsBefore(lines, i))
    && (current != [] ==> current[|current| - 1].text == lines[i - 1])
    // Outside a fence, an open section has text exactly when its last line has.
    && (current != [] && !inCodeBlock ==> (HasNonBlank(current) <==> !IsBlank(lines[i - 1])))
  }

  lemma {:induction false} MarkdownStep(lines: seq<string>, i: nat, sections: seq<Section>, current: Section)
    requires i < |lines| && MarkdownState(lines, i, sections, current, InFence(lines, i))
    ensures var (lo, fenced) := (Line(i + 1, lines[i]), InFence(lines, i));
      if IsFence(lines[i]) then MarkdownState(lines, i + 1, sections, current + [lo], !fenced)
      else if fenced then MarkdownState(lines, i + 1, sections, current + [lo], fenced)
      else
        var (s, c) := SplitMarkdownLine(sections, current, lo);
        MarkdownState(lines, i + 1, s, c, fenced)
  {
    OpenGrows(sections, current, Line(i + 1, lines[i]));
    FenceIsNotBlank(lines[i]);
    HeadingIsNotBlank(lines[i]);
  }

  lemma {:induction false} FenceIsNotBlank(line: string)
    ensures IsFence(line) ==> !IsBlank(line)
  {
    if line != "" && (line[0] == ' ' || line[0] == '\t') {
      FenceIsNotBlank(line[1..]);
    } else if IsFence(line) {
      assert line[0] == line[..3][0] == '`';
    }
  }

  lemma {:induction false} HeadingIsNotBlank(line: string)
    ensures IsHeading(line) ==> !IsBlank(line)
  {
    if IsHeading(line) {
      assert line[0] == '#';
    }
  }

  method SplitIntoSections(fileLines: seq<string>, splitter: Splitter) returns (sections: seq<Section>)
    ensures sections == AllSections(splitter, fileLines)
  {
    match splitter
    case Markdown => sections := SplitMarkdown(fileLines);
    case Code => sections := SplitCode(fileLines);
    case Paragraphs => sections := SplitParagraphs(fileLines);
  }

  // ---- What the sections of a file are ----

  function Flatten(sections: seq<Section>): Section {
    if sections == [] then [] else Flatten(sections[..|sections| - 1]) + sections[|sections| - 1]
  }

  function Slice(lines: seq<string>, a: nat, b: nat): Section
    requires a <= b <= |lines|
  {
    seq(b - a, i requires 0 <= i < b - a => NumberedLine(lines, a + i))
  }

  ghost predicate NoneEmpty(sections: seq<Section>) {
    forall i :: 0 <= i < |sections| ==> sections[i] != []
  }

  /** No line is lost, repeated or moved. */
  lemma {:induction false} SectionsTile(splitter: Splitter, lines: seq<string>, k: nat)
    requires k <= |lines|
    ensures Flatten(SectionsUpTo(splitter, lines, k)) == Slice(lines, 0, k)
    ensures NoneEmpty(SectionsUpTo(splitter, lines, k))
  {
    if k > 0 {
      SectionsTile(splitter, lines, k - 1);
      var before, line := SectionsUpTo(splitter, lines, k - 1), NumberedLine(lines, k - 1);
      var after := SectionsUpTo(splitter, lines, k);
      assert Slice(lines, 0, k) == Slice(lines, 0, k - 1) + [line];
      if before == [] || CutBefore(splitter, lines, k - 1) {
        assert after[..|after| - 1] == before;
      } else {
        assert after[..|after| - 1] == before[..|before| - 1];
      }
    }
  }

  /** Lines a..b of one section: no section begins after a and up to b. */
  ghost predicate Uncut(splitter: Splitter, lines: seq<string>, a: nat, b: nat)
    requires a <= b < |lines|
  {
    forall i :: a < i <= b ==> !CutBefore(splitter, lines, i)
  }

  /** The section holds the lines numbered a + 1 to b + 1. */
  ghost predicate Holds(section: Section, lines: seq<string>, a: nat, b: nat)
    requires a <= b < |lines|
  {
    exists lo, hi :: 0 <= lo <= hi <= |section| && section[lo..hi] == Slice(lines, a, b + 1)
  }

  ghost predicate EndsIn(s: Section, part: Section) {
    |part| <= |s| && s[|s| - |part|..] == part
  }

  lemma {:induction false} EndsInMore(s: Section, part: Section, line: Line)
    requires EndsIn(s, part)
    ensures EndsIn(s + [line], part + [line])
  { }

  lemma {:induction false} LastSection(splitter: Splitter, lines: seq<string>, k: nat)
    requires k < |lines|
    ensures var (s, t) := (SectionsUpTo(splitter, lines, k), SectionsUpTo(splitter, lines, k + 1));
      && t != [] && t[|t| - 1] ==
        (if s == [] || CutBefore(splitter, lines, k) then [] else s[|s| - 1]) + [NumberedLine(lines, k)]
  {
    hide CutBefore;
  }

  lemma {:induction false} UncutLinesShareLast(splitter: Splitter, lines: seq<string>, a: nat, b: nat)
    requires a <= b < |lines| && Uncut(splitter, lines, a, b)
    ensures var s := SectionsUpTo(splitter, lines, b + 1); s != [] && EndsIn(s[|s| - 1], Slice(lines, a, b + 1))
    decreases b
  {
    hide CutBefore, SectionsUpTo, EndsIn;
    LastSection(splitter, lines, b);
    var (s, line) := (SectionsUpTo(splitter, lines, b), NumberedLine(lines, b));
    if a < b {
      UncutLinesShareLast(splitter, lines, a, b - 1);
      assert !CutBefore(splitter, lines, b);
      EndsInMore(s[|s| - 1], Slice(lines, a, b), line);
      assert Slice(lines, a, b + 1) == Slice(lines, a, b) + [line];
    } else {
      assert Slice(lines, a, b + 1) == [] + [line];
      NothingEnds(if s == [] || CutBefore(splitter, lines, b) then [] else s[|s| - 1]);
      EndsInMore(if s == [] || CutBefore(splitter, lines, b) then [] else s[|s| - 1], [], line);
    }
  }

  lemma {:induction false} NothingEnds(s: Section)
    ensures EndsIn(s, [])
  { }

  lemma {:induction false} SectionsOnlyGrow(splitter: Splitter, lines: seq<string>, j: nat, k: nat)
    requires 0 < j <= k <= |lines|
    ensures var (s, t) := (SectionsUpTo(splitter, lines, j), SectionsUpTo(splitter, lines, k));
      s != [] && |s| <= |t| && s[|s| - 1] <= t[|s| - 1]
    decreases k
  {
    if j < k {
      SectionsOnlyGrow(splitter, lines, j, k - 1);
    }
  }

  /** Lines with no cut between them lie whole in one section of the file. */
  lemma {:induction false} UncutLinesShareSection(splitter: Splitter, lines: seq<string>, a: nat,
    b: nat) returns (i: nat)
    requires a <= b < |lines| && Uncut(splitter, lines, a, b)
    ensures i < |AllSections(splitter, lines)| && Holds(AllSections(splitter, lines)[i], lines, a, b)
  {
    UncutLinesShareLast(splitter, lines, a, b);
    SectionsOnlyGrow(splitter, lines, b + 1, |lines|);
    var s, t := SectionsUpTo(splitter, lines, b + 1), AllSections(splitter, lines);
    i := |s| - 1;
    var last := s[i];
    assert t[i][|last| - (b - a + 1)..|last|] == last[|last| - (b - a + 1)..];
  }

  /** From an opening delimiter to the next delimiter, or to the end of the file, by the code's toggle rule. */
  ghost predicate FencedBlock(lines: seq<string>, a: nat, b: nat)
    requires a < b < |lines|
  {
    && IsFence(lines[a]) && !InFence(lines, a)
    && (IsFence(lines[b]) || b == |lines| - 1)
    && forall i :: a < i < b ==> !IsFence(lines[i])
  }

  lemma {:induction false} InsideFence(lines: seq<string>, a: nat, b: nat, i: nat)
    requires a < b < |lines| && FencedBlock(lines, a, b) && a < i <= b
    ensures InFence(lines, i)
    decreases i
  {
    if a + 1 < i {
      InsideFence(lines, a, b, i - 1);
    }
  }

  /** A fenced block is never cut. */
  lemma {:induction false} FencedBlockUncut(lines: seq<string>, a: nat, b: nat)
    requires a < b < |lines| && FencedBlock(lines, a, b)
    ensures Uncut(Markdown, lines, a, b)
  {
    forall i | a < i <= b
      ensures !CutBefore(Markdown, lines, i)
    {
      InsideFence(lines, a, b, i);
      if i > a + 1 { InsideFence(lines, a, b, i - 1); }
      FenceIsNotBlank(lines[a]);
    }
  }

  // ---- Where the sections of a file begin ----

  function FencesBefore(lines: seq<string>, i: nat): set<nat>
    requires i <= |lines|
  {
    set k: nat | k < i && IsFence(lines[k])
  }

  lemma {:induction false} InFenceIsOdd(lines: seq<string>, i: nat)
    requires i <= |lines|
    ensures InFence(lines, i) <==> |FencesBefore(lines, i)| % 2 == 1
  {
    hide IsFence;
    if i > 0 {
      InFenceIsOdd(lines, i - 1);
      assert FencesBefore(lines, i) == FencesBefore(lines, i - 1) + if IsFence(lines[i - 1]) then {i - 1} else {};
    } else {
      assert FencesBefore(lines, i) == {};
    }
  }

  /** Some section begins with the line of this number. */
  ghost predicate Begins(sections: seq<Section>, number: nat) {
    exists j :: 0 <= j < |sections| && sections[j] != [] && sections[j][0].number == number
  }

  lemma {:induction false} BeginsAtCuts(splitter: Splitter, lines: seq<string>, k: nat, number: nat)
    requires k <= |lines|
    ensures var sections := SectionsUpTo(splitter, lines, k);
      && NoneEmpty(sections) && (sections == [] <==> k == 0)
      && (Begins(sections, number) <==>
        1 <= number <= k && (number == 1 || CutBefore(splitter, lines, number - 1)))
  {
    hide CutBefore;
    if k > 0 {
      BeginsAtCuts(splitter, lines, k - 1, number);
      var (before, line) := (SectionsUpTo(splitter, lines, k - 1), NumberedLine(lines, k - 1));
      if before == [] || CutBefore(splitter, lines, k - 1) {
        BeginsOneMore(before, line, number);
      } else {
        BeginsNoMore(before, line, number);
      }
    }
  }

  lemma {:induction false} BeginsOneMore(before: seq<Section>, line: Line, number: nat)
    ensures Begins(before + [[line]], number) <==> Begins(before, number) || number == line.number
  {
    var after := before + [[line]];
    assert after[|before|] == [line];
    assert forall j :: 0 <= j < |before| ==> after[j] == before[j];
  }

  lemma {:induction false} BeginsNoMore(before: seq<Section>, line: Line, number: nat)
    requires before != [] && NoneEmpty(before)
    ensures var n := |before| - 1; Begins(before[n := before[n] + [line]], number) <==> Begins(before, number)
  {
    var n := |before| - 1;
    var after := before[n := before[n] + [line]];
    assert forall j :: 0 <= j < |before| ==> after[j] != [] && after[j][0] == before[j][0];
  }

  /** Outside fences: an even number of delimiters precedes the line. */
  predicate IsOutside(lines: seq<string>, i: nat)
    requires i <= |lines|
  {
    |FencesBefore(lines, i)| % 2 == 0
  }

  /** Why a section begins at line i, the first line being 0. */
  ghost predicate HasReason(splitter: Splitter, lines: seq<string>, i: nat)
    requires 0 < i < |lines|
  {
    match splitter
    case Paragraphs => IsBlank(lines[i])
    case Code => IsBlank(lines[i]) && exists k :: i < k < |lines| && !IsBlank(lines[k])
    case Markdown =>
      || (i >= 2 && IsBlank(lines[i - 1]) && !IsBlank(lines[i - 2]) && IsOutside(lines, i - 1))
      || (IsOutside(lines, i) && exists k: nat :: MatchesHeader(lines[i], k))
  }

  lemma {:induction false} TextFollows(lines: seq<string>, i: nat)
    requires i <= |lines|
    ensures HasTextFrom(lines, i) <==> exists k :: i <= k < |lines| && !IsBlank(lines[k])
    decreases |lines| - i
  {
    hide IsBlank;
    if i < |lines| {
      TextFollows(lines, i + 1);
    }
  }

  lemma {:induction false} HeadingIsNoFence(line: string)
    ensures !(IsHeading(line) && IsFence(line))
  {
    if line != "" && line[0] == '#' {
      assert TrimLeftBlanks(line) == line;
    }
  }

  lemma {:induction false} CutsHaveReasons(splitter: Splitter, lines: seq<string>, i: nat)
    requires 0 < i < |lines|
    ensures CutBefore(splitter, lines, i) <==> HasReason(splitter, lines, i)
  {
    hide IsBlank, IsFence, IsHeading, MatchesHeader, InFence, FencesBefore, HasTextFrom;
    InFenceIsOdd(lines, i);
    InFenceIsOdd(lines, i - 1);
    HeadingMatches(lines[i]);
    HeadingIsNoFence(lines[i]);
    TextFollows(lines, i + 1);
  }

  /** A section begins at the first line, and at every line that has a reason for it, and nowhere else. */
  lemma {:induction false} SectionsBeginIff(splitter: Splitter, lines: seq<string>, i: nat)
    requires i < |lines|
    ensures Begins(AllSections(splitter, lines), i + 1) <==> i == 0 || HasReason(splitter, lines, i)
  {
    hide CutBefore, HasReason, Begins;
    BeginsAtCuts(splitter, lines, |lines|, i + 1);
    if i > 0 {
      CutsHaveReasons(splitter, lines, i);
    }
  }
}
