/** Document chunking (knowledge/chunking.go): greedy accumulation of sections with an overlap window. */
module Chunking {
  import opened Prelude
  import opened Text
  import opened Sections
  import opened Grouping

  const DEFAULT_TARGET_SIZE := 1600
  const DEFAULT_OVERLAP_SIZE := 320

  /** A truncated SHA-256 of "path:start:end", taken as injective. */
  datatype ChunkId = ChunkId(path: string, startLine: nat, endLine: nat)

  datatype Chunk = Chunk(id: ChunkId, filePath: string, startLine: nat, endLine: nat, text: string, contentHash: Hash)

  datatype ChunkOptions = ChunkOptions(targetSize: int, overlapSize: int)

  // ---- Sizes ----

  /** sectionTextLen: bytes of the lines joined by newlines. */
  function TextLen(section: Section): nat {
    if section == [] then 0
    else TextLen(section[..|section| - 1]) + ByteLen(section[|section| - 1].text) + (if |section| > 1 then 1 else 0)
  }

  method SectionTextLen(section: Section) returns (total: nat)
    ensures total == TextLen(section)
  {
    total := 0;
    for i := 0 to |section|
      invariant total == TextLen(section[..i])
    {
      assert section[..i + 1][..i] == section[..i];
      total := total + ByteLen(section[i].text);
      if i > 0 {
        total := total + 1;
      }
    }
    assert section[..|section|] == section;
  }

  // ---- The overlap window ----

  /** Bytes of the lines, each with its newline. */
  function Cost(lines: Section): nat {
    if lines == [] then 0 else ByteLen(lines[0].text) + 1 + Cost(lines[1..])
  }

  /** Where the overlap starts once lines[from..] has been taken. */
  function OverlapStart(lines: Section, size: int, from: nat): (start: nat)
    requires from <= |lines|
    ensures start <= from
  {
    if from == 0 || (Cost(lines[from - 1..]) > size && from < |lines|) then from
    else OverlapStart(lines, size, from - 1)
  }

  function Overlap(lines: Section, size: int): Section {
    if size <= 0 then [] else lines[OverlapStart(lines, size, |lines|)..]
  }

  /** lines[start..] fits or is one line, and no longer suffix fits. */
  ghost predicate IsLongestFit(lines: Section, size: int, start: nat) {
    && start < |lines|
    && (Cost(lines[start..]) <= size || start == |lines| - 1)
    && forall j :: 0 <= j < start ==> Cost(lines[j..]) > size
  }

  /** The overlap is the longest suffix that fits, or exactly one line. */
  lemma {:induction false} OverlapIsLongest(lines: Section, size: int)
    requires lines != [] && size > 0
    ensures exists start: nat :: IsLongestFit(lines, size, start) && Overlap(lines, size) == lines[start..]
  {
    var start := OverlapStart(lines, size, |lines|);
    OverlapStops(lines, size, |lines|);
    if start > 0 {
      forall j | 0 <= j < start ensures Cost(lines[j..]) > size {
        CostGrows(lines, j, start - 1);
      }
    }
    assert IsLongestFit(lines, size, start);
  }

  lemma {:induction false} OverlapStops(lines: Section, size: int, from: nat)
    requires from <= |lines| && lines != []
    requires from == |lines| || from == |lines| - 1 || Cost(lines[from..]) <= size
    ensures var start := OverlapStart(lines, size, from);
      && start < |lines|
      && (Cost(lines[start..]) <= size || start == |lines| - 1)
      && (start > 0 ==> Cost(lines[start - 1..]) > size)
  {
    if !(from == 0 || (Cost(lines[from - 1..]) > size && from < |lines|)) {
      OverlapStops(lines, size, from - 1);
    }
  }

  lemma {:induction false} CostGrows(lines: Section, i: nat, j: nat)
    requires i <= j <= |lines|
    ensures Cost(lines[i..]) >= Cost(lines[j..])
    decreases j - i
  {
    if i < j {
      CostGrows(lines, i + 1, j);
      assert lines[i..][1..] == lines[i + 1..];
    }
  }

  // ---- The chunks of a grouping ----

  function Sizes(sections: seq<Section>): seq<nat> {
    seq(|sections|, i requires 0 <= i < |sections| => TextLen(sections[i]))
  }

  /** The lines of the sections a..b. */
  function Gather(sections: seq<Section>, a: nat, b: nat): Section {
    if a < b <= |sections| then Gather(sections, a, b - 1) + sections[b - 1] else []
  }

  /** The overlap left by the last of the groups that end at the given sections. */
  function LeadAfter(sections: seq<Section>, ends: seq<nat>, overlapSize: int): Section {
    if ends == [] then [] else Overlap(Gather(sections, EndBefore(ends, |ends| - 1), ends[|ends| - 1]), overlapSize)
  }

  function FirstNumber(lines: Section): nat { if lines == [] then 0 else lines[0].number }

  function LastNumber(lines: Section): nat { if lines == [] then 0 else lines[|lines| - 1].number }

  function JoinLines(lines: Section): string {
    Join(seq(|lines|, i requires 0 <= i < |lines| => lines[i].text), '\n')
  }

  function MakeChunk(path: string, lines: Section): Chunk {
    var text := JoinLines(lines);
    Chunk(ChunkId(path, FirstNumber(lines), LastNumber(lines)), path, FirstNumber(lines), LastNumber(lines), text,
      Sha256(text))
  }

  /** One chunk a group: the overlap left by the group before, then the group's own lines. */
  function ChunksFor(path: string, sections: seq<Section>, ends: seq<nat>, overlapSize: int): seq<Chunk> {
    if ends == [] then []
    else
      var (front, e) := (ends[..|ends| - 1], ends[|ends| - 1]);
      ChunksFor(path, sections, front, overlapSize)
        + [MakeChunk(path, LeadAfter(sections, front, overlapSize) + Gather(sections, EndBefore(front, |front|), e))]
  }

  function ChunksOf(path: string, sections: seq<Section>, target: int, overlapSize: int): seq<Chunk> {
    ChunksFor(path, sections, Ends(Sizes(sections), target, 0, 0), overlapSize)
  }

  // ---- What the lengths measure ----

  lemma {:induction false} JoinLinesSnoc(front: Section, last: Line)
    ensures ByteLen(JoinLines(front + [last])) ==
      if front == [] then ByteLen(last.text) else ByteLen(JoinLines(front)) + 1 + ByteLen(last.text)
  {
    var texts := seq(|front|, i requires 0 <= i < |front| => front[i].text);
    assert seq(|front + [last]|, i requires 0 <= i < |front + [last]| => (front + [last])[i].text) ==
      texts + [last.text];
    if front != [] {
      JoinSnoc(texts, last.text, '\n');
      ByteLenConcat(Join(texts, '\n') + ['\n'], last.text);
      ByteLenConcat(Join(texts, '\n'), ['\n']);
      NewlineIsOneByte();
    }
  }

  lemma {:induction false} NewlineIsOneByte()
    ensures ByteLen(['\n']) == 1
  {
    assert ['\n'][..0] == [];
  }

  /** The length that is compared with the target is that of the joined text. */
  lemma {:induction false} TextLenIsBytes(section: Section)
    ensures TextLen(section) == ByteLen(JoinLines(section))
  {
    hide ByteLen, JoinLines;
    if section == [] {
      NoLinesNoBytes();
    } else {
      var (front, last) := (section[..|section| - 1], section[|section| - 1]);
      TextLenIsBytes(front);
      JoinLinesSnoc(front, last);
      assert section == front + [last];
    }
  }

  lemma {:induction false} NoLinesNoBytes()
    ensures ByteLen(JoinLines([])) == 0
  { }

  /** The length that is compared with the overlap is that of the joined text and one more newline. */
  lemma {:induction false} CostIsBytes(lines: Section)
    requires lines != []
    ensures Cost(lines) == ByteLen(JoinLines(lines)) + 1
  {
    hide ByteLen, JoinLines;
    TextLenIsBytes(lines);
    CostIsTextLen(lines);
  }

  lemma {:induction false} CostIsTextLen(lines: Section)
    requires lines != []
    ensures Cost(lines) == TextLen(lines) + 1
  {
    hide ByteLen;
    if |lines| > 1 {
      var (front, last) := (lines[..|lines| - 1], lines[|lines| - 1]);
      CostIsTextLen(front);
      CostSnoc(front, last);
      assert lines == front + [last];
    }
  }

  lemma {:induction false} CostSnoc(front: Section, last: Line)
    ensures Cost(front + [last]) == Cost(front) + ByteLen(last.text) + 1
  {
    hide ByteLen;
    if front == [] {
      assert [] + [last] == [last];
    } else {
      CostSnoc(front[1..], last);
      assert (front + [last])[1..] == front[1..] + [last];
    }
  }

  // ---- The loops ----

  method EmitChunk(path: string, lines: Section, overlapLines: Section, overlapSize: int, chunks: seq<Chunk>)
    returns (chunks': seq<Chunk>, overlap: Section)
    ensures chunks' == if lines == [] then chunks else chunks + [MakeChunk(path, overlapLines + lines)]
    ensures overlap == if lines == [] then [] else Overlap(lines, overlapSize)
  {
    if |lines| == 0 {
      return chunks, [];
    }
    var allLines := overlapLines + lines;
    var text := JoinLines(allLines);
    var startLine, endLine := allLines[0].number, allLines[|allLines| - 1].number;
    chunks' := chunks + [Chunk(ChunkId(path, startLine, endLine), path, startLine, endLine, text, Sha256(text))];
    if overlapSize <= 0 {
      return chunks', [];
    }
    overlap := [];
    var overlapLen := 0;
    var i := |lines| - 1;
    while i >= 0
      invariant -1 <= i < |lines|
      invariant overlap == lines[i + 1..] && overlapLen == Cost(overlap)
      invariant OverlapStart(lines, overlapSize, i + 1) == OverlapStart(lines, overlapSize, |lines|)
    {
      var lineLen := ByteLen(lines[i].text) + 1;
      assert lines[i..][1..] == lines[i + 1..];
      if overlapLen + lineLen > overlapSize && |overlap| > 0 {
        break;
      }
      overlap := [lines[i]] + overlap;
      overlapLen := overlapLen + lineLen;
      i := i - 1;
    }
  }

  lemma {:induction false} GatherNotEmpty(sections: seq<Section>, a: nat, b: nat)
    requires NoneEmpty(sections) && a <= b <= |sections|
    ensures Gather(sections, a, b) == [] <==> a == b
  {
    if a < b {
      assert sections[b - 1] != [];
    }
  }

  /**
    What the loop variables hold before section k: the groups that end at `ends` are emitted, the sections since are
    accumulated.
   */
  ghost predicate Accumulated(path: string, sections: seq<Section>, overlapSize: int, ends: seq<nat>, k: nat,
    chunks: seq<Chunk>, accumulated: Section, accumulatedLength: nat, overlapLines: Section)
  {
    var from := EndBefore(ends, |ends|);
    && from <= k <= |sections|
    && accumulated == Gather(sections, from, k) && accumulatedLength == Sum(Sizes(sections), from, k)
    && chunks == ChunksFor(path, sections, ends, overlapSize) && overlapLines == LeadAfter(sections, ends, overlapSize)
  }

  lemma {:induction false} TakeSection(path: string, sections: seq<Section>, overlapSize: int, ends: seq<nat>, k: nat,
    chunks: seq<Chunk>, accumulated: Section, accumulatedLength: nat, overlapLines: Section)
    requires k < |sections| && Accumulated(path, sections, overlapSize, ends, k, chunks, accumulated,
      accumulatedLength, overlapLines)
    ensures Accumulated(path, sections, overlapSize, ends, k + 1,
      chunks, accumulated + sections[k], accumulatedLength + TextLen(sections[k]), overlapLines)
  { }

  /** Emitting everything accumulated. */
  method EmitAll(path: string, ghost sections: seq<Section>, overlapSize: int, ghost ends: seq<nat>, ghost k: nat,
    chunks: seq<Chunk>, accumulated: Section, ghost accumulatedLength: nat, overlapLines: Section)
    returns (chunks': seq<Chunk>, overlapLines': Section, ghost ends': seq<nat>)
    requires accumulated != [] && Accumulated(path, sections, overlapSize, ends, k, chunks, accumulated,
      accumulatedLength, overlapLines)
    ensures ends' == ends + [k] && Accumulated(path, sections, overlapSize, ends', k, chunks', [], 0, overlapLines')
  {
    ends' := ends + [k];
    assert ends'[..|ends|] == ends;
    chunks', overlapLines' := EmitChunk(path, accumulated, overlapLines, overlapSize, chunks);
  }

  /** The first test of the loop: emit when section k does not fit. */
  method FlushIfFull(path: string, ghost sections: seq<Section>, sectionLen: nat, targetSize: int, overlapSize: int,
    ghost ends: seq<nat>, ghost k: nat,
    chunks: seq<Chunk>, accumulated: Section, accumulatedLength: nat, overlapLines: Section)
    returns (chunks': seq<Chunk>, accumulated': Section, accumulatedLength': nat, overlapLines': Section,
      ghost ends': seq<nat>)
    requires NoneEmpty(sections) && k < |sections| && sectionLen == TextLen(sections[k])
    requires Accumulated(path, sections, overlapSize, ends, k, chunks, accumulated, accumulatedLength, overlapLines)
    ensures Accumulated(path, sections, overlapSize, ends', k, chunks', accumulated', accumulatedLength', overlapLines')
    ensures ends' == if Flushes(Sizes(sections), targetSize, EndBefore(ends, |ends|), k) then ends + [k] else ends
  {
    chunks', accumulated', accumulatedLength', overlapLines', ends' :=
      chunks, accumulated, accumulatedLength, overlapLines, ends;
    if accumulatedLength > 0 && accumulatedLength + sectionLen > targetSize {
      GatherNotEmpty(sections, EndBefore(ends, |ends|), k);
      chunks', overlapLines', ends' :=
        EmitAll(path, sections, overlapSize, ends, k, chunks, accumulated, accumulatedLength, overlapLines);
      accumulated' := [];
      accumulatedLength' := 0;
    }
  }

  /** The rest of the loop: take section k, and emit when the target is exceeded. */
  method TakeAndEmit(path: string, sections: seq<Section>, sectionLen: nat, targetSize: int, overlapSize: int,
    ghost ends: seq<nat>, k: nat,
    chunks: seq<Chunk>, accumulated: Section, accumulatedLength: nat, overlapLines: Section)
    returns (chunks': seq<Chunk>, accumulated': Section, accumulatedLength': nat, overlapLines': Section,
      ghost ends': seq<nat>)
    requires NoneEmpty(sections) && k < |sections| && sectionLen == TextLen(sections[k])
    requires Accumulated(path, sections, overlapSize, ends, k, chunks, accumulated, accumulatedLength, overlapLines)
    ensures Accumulated(path, sections, overlapSize, ends', k + 1, chunks', accumulated', accumulatedLength',
      overlapLines')
    ensures ends' == if Sum(Sizes(sections), EndBefore(ends, |ends|), k + 1) > targetSize then ends + [k + 1] else ends
  {
    TakeSection(path, sections, overlapSize, ends, k, chunks, accumulated, accumulatedLength, overlapLines);
    chunks', overlapLines', ends' := chunks, overlapLines, ends;
    accumulated' := accumulated + sections[k];
    accumulatedLength' := accumulatedLength + sectionLen;
    if accumulatedLength' > targetSize {
      GatherNotEmpty(sections, EndBefore(ends, |ends|), k + 1);
      chunks', overlapLines', ends' :=
        EmitAll(path, sections, overlapSize, ends, k + 1, chunks, accumulated', accumulatedLength', overlapLines);
      accumulated' := [];
      accumulatedLength' := 0;
    }
  }

  method BuildChunks(sections: seq<Section>, path: string, targetSize: int,
    overlapSize: int) returns (chunks: seq<Chunk>)
    requires NoneEmpty(sections)
    ensures chunks == ChunksOf(path, sections, targetSize, overlapSize)
  {
    chunks := [];
    var accumulated: Section := [];
    var accumulatedLength: nat := 0;
    var overlapLines: Section := [];
    ghost var sizes := Sizes(sections);
    ghost var ends: seq<nat> := [];
    for k := 0 to |sections|
      invariant Accumulated(path, sections, overlapSize, ends, k, chunks, accumulated, accumulatedLength, overlapLines)
      invariant ends + Ends(sizes, targetSize, EndBefore(ends, |ends|), k) == Ends(sizes, targetSize, 0, 0)
    {
      var sectionLen := SectionTextLen(sections[k]);
      EndsStep(sizes, targetSize, ends, k);
      chunks, accumulated, accumulatedLength, overlapLines, ends :=
        FlushIfFull(path, sections, sectionLen, targetSize, overlapSize, ends, k,
        chunks, accumulated, accumulatedLength, overlapLines);
      chunks, accumulated, accumulatedLength, overlapLines, ends :=
        TakeAndEmit(path, sections, sectionLen, targetSize, overlapSize, ends, k,
        chunks, accumulated, accumulatedLength, overlapLines);
    }
    GatherNotEmpty(sections, EndBefore(ends, |ends|), |sections|);
    if |accumulated| > 0 {
      chunks, overlapLines, ends :=
        EmitAll(path, sections, overlapSize, ends, |sections|, chunks, accumulated, accumulatedLength, overlapLines);
    }
    assert ends == Ends(sizes, targetSize, 0, 0);
  }
}
