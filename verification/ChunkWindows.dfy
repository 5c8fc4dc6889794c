/** What chunking a file guarantees: chunks are windows of the file that tile it (knowledge/chunking.go). */
module ChunkWindows {
  import opened Prelude
  import opened Text
  import opened Sections
  import opened Chunking
  import opened Grouping

  function SplitterFor(path: string): Splitter {
    var ext := LowerAscii(Ext(path));
    if ext == ".md" then Markdown
    else if ext in {".ts", ".tsx", ".js", ".jsx", ".py"} then Code
    else Paragraphs
  }

  lemma {:induction false} ExtOf(a: string, s: string)
    requires '.' !in s && '/' !in s
    ensures Ext(a + "." + s) == "." + s
  {
    var path := a + "." + s;
    if s == "" {
      assert path == a + ".";
    } else {
      ExtOf(a, s[..|s| - 1]);
      assert path[..|path| - 1] == a + "." + s[..|s| - 1];
      assert "." + s == "." + s[..|s| - 1] + [s[|s| - 1]];
    }
  }

  lemma {:induction false} LowerDot(s: string)
    ensures LowerAscii("." + s) == "." + LowerAscii(s)
  { }

  /** The splitter is chosen by the text after the last dot, whatever its case and whatever comes before. */
  lemma {:induction false} SplitterByExtension(a: string, s: string)
    requires '.' !in s && '/' !in s
    ensures SplitterFor(a + "." + s) ==
      if LowerAscii(s) == "md" then Markdown
      else if LowerAscii(s) in {"ts", "tsx", "js", "jsx", "py"} then Code
      else Paragraphs
  {
    hide Ext, LowerAscii;
    ExtOf(a, s);
    LowerDot(s);
    DotCancels(LowerAscii(s));
    KnownExtensions();
  }

  lemma {:induction false} KnownExtensions()
    ensures ".md" == "." + "md" && ".ts" == "." + "ts" && ".tsx" == "." + "tsx" && ".js" == "." + "js"
    ensures ".jsx" == "." + "jsx" && ".py" == "." + "py"
  { }

  /** Upper-case extensions count as well. */
  lemma {:induction false} UpperCaseExtensions(a: string)
    ensures SplitterFor(a + "." + "MD") == Markdown && SplitterFor(a + "." + "Py") == Code
    ensures SplitterFor(a + "." + "TXT") == Paragraphs
  {
    hide SplitterFor;
    SomeLowered();
    SplitterByExtension(a, "MD");
    SplitterByExtension(a, "Py");
    SplitterByExtension(a, "TXT");
  }

  lemma {:induction false} DotCancels(s: string)
    ensures forall t: string :: "." + s == "." + t <==> s == t
  {
    forall t: string ensures "." + s == "." + t <==> s == t {
      assert ("." + s)[1..] == s && ("." + t)[1..] == t;
    }
  }

  lemma {:induction false} SomeLowered()
    ensures LowerAscii("MD") == "md" && LowerAscii("Py") == "py" && LowerAscii("TXT") == "txt"
  { }

  /** resolveChunkSizes: sizes that are not positive fall back to the defaults. */
  function ResolveChunkSizes(opts: Option<ChunkOptions>): (sizes: (int, int))
    ensures sizes.0 > 0 && sizes.1 > 0
  {
    match opts
    case None => (DEFAULT_TARGET_SIZE, DEFAULT_OVERLAP_SIZE)
    case Some(o) =>
      (if o.targetSize > 0 then o.targetSize else DEFAULT_TARGET_SIZE,
       if o.overlapSize > 0 then o.overlapSize else DEFAULT_OVERLAP_SIZE)
  }

  predicate Chunkable(content: string) {
    !IsBlank(content) && '\0' !in content
  }

  function FileSections(path: string, content: string): seq<Section> {
    AllSections(SplitterFor(path), Split(content, '\n'))
  }

  function FileChunks(path: string, content: string, opts: Option<ChunkOptions>): seq<Chunk> {
    if !Chunkable(content) then []
    else
      var (target, overlap) := ResolveChunkSizes(opts);
      ChunksOf(path, FileSections(path, content), target, overlap)
  }

  method ChunkFile(path: string, content: string, opts: Option<ChunkOptions>) returns (chunks: seq<Chunk>)
    ensures chunks == FileChunks(path, content, opts)
  {
    if IsBlank(content) {
      return [];
    }
    if '\0' in content {
      return [];
    }
    var (targetSize, overlapSize) := ResolveChunkSizes(opts);
    var fileLines := Split(content, '\n');
    var sections := SplitIntoSections(fileLines, SplitterFor(path));
    SectionsTile(SplitterFor(path), fileLines, |fileLines|);
    chunks := BuildChunks(sections, path, targetSize, overlapSize);
  }

  // ---- Own lines ----

  lemma {:induction false} GatherAll(sections: seq<Section>, k: nat)
    requires k <= |sections|
    ensures Gather(sections, 0, k) == Flatten(sections[..k])
  {
    if k > 0 {
      GatherAll(sections, k - 1);
      assert sections[..k][..k - 1] == sections[..k - 1];
    }
  }

  lemma {:induction false} GatherSplit(sections: seq<Section>, a: nat, b: nat)
    requires a <= b <= |sections|
    ensures Gather(sections, 0, b) == Gather(sections, 0, a) + Gather(sections, a, b)
    decreases b
  {
    if a < b {
      GatherSplit(sections, a, b - 1);
    }
  }

  /** The sections, put together, are the lines of the file. */
  ghost predicate Tile(lines: seq<string>, sections: seq<Section>) {
    NoneEmpty(sections) && Gather(sections, 0, |sections|) == Slice(lines, 0, |lines|)
  }

  /** The number of lines before section k. */
  ghost function Offset(sections: seq<Section>, k: nat): nat {
    |Gather(sections, 0, k)|
  }

  lemma {:induction false} GatherIsSlice(lines: seq<string>, sections: seq<Section>, a: nat, b: nat)
    requires Tile(lines, sections) && a < b <= |sections|
    ensures Offset(sections, a) < Offset(sections, b) <= |lines|
    ensures Gather(sections, a, b) == Slice(lines, Offset(sections, a), Offset(sections, b))
  {
    GatherSplit(sections, a, b);
    GatherSplit(sections, b, |sections|);
    GatherNotEmpty(sections, a, b);
    SliceOf(lines, Gather(sections, 0, a), Gather(sections, a, b), Gather(sections, b, |sections|));
  }

  lemma {:induction false} SliceOf(lines: seq<string>, x: Section, y: Section, z: Section)
    requires Slice(lines, 0, |lines|) == x + y + z
    ensures |x| + |y| <= |lines| && y == Slice(lines, |x|, |x| + |y|)
  {
    var all := Slice(lines, 0, |lines|);
    forall i | 0 <= i < |y| ensures y[i] == NumberedLine(lines, |x| + i) {
      assert y[i] == all[|x| + i];
    }
  }

  lemma {:induction false} FileTiles(path: string, content: string)
    ensures Tile(Split(content, '\n'), FileSections(path, content)) && FileSections(path, content) != []
  {
    var lines, sections := Split(content, '\n'), FileSections(path, content);
    SectionsTile(SplitterFor(path), lines, |lines|);
    GatherAll(sections, |sections|);
    assert sections[..|sections|] == sections;
  }

  // ---- Chunks: windows of the file ----

  /** How many lines the chunks before k own: each chunk owns the lines after its predecessor's end. */
  ghost function OwnStart(chunks: seq<Chunk>, k: nat): nat
    requires k <= |chunks|
  {
    if k == 0 then 0 else chunks[k - 1].endLine
  }

  /**
    Chunk k's text is exactly lines startLine..endLine; it starts no later than its own lines, with the
    longest fitting suffix of the previous chunk's own lines, and owns at least one line.
   */
  ghost predicate IsWindow(lines: seq<string>, chunks: seq<Chunk>, overlapSize: int, k: nat)
    requires k < |chunks|
  {
    var (own, c) := (OwnStart(chunks, k), chunks[k]);
    && IsText(lines, own, c)
    && if k == 0 then c.startLine == 1 else LeadFits(lines, OwnStart(chunks, k - 1), own, overlapSize, c.startLine - 1)
  }

  ghost predicate IsText(lines: seq<string>, own: nat, c: Chunk) {
    && 1 <= c.startLine <= own + 1 && own < c.endLine <= |lines|
    && c.text == Join(lines[c.startLine - 1..c.endLine], '\n')
  }

  /** Lines a..p are the longest fitting suffix of lines q..p, or its last line. */
  ghost predicate LeadFits(lines: seq<string>, q: nat, p: nat, size: int, a: int) {
    q < p <= |lines| && q <= a && IsLongestFit(Slice(lines, q, p), size, a - q)
  }

  /** The chunks are windows that together own every line once, in order. */
  ghost predicate TileFile(lines: seq<string>, chunks: seq<Chunk>, overlapSize: int) {
    && chunks != [] && OwnStart(chunks, |chunks|) == |lines|
    && forall k :: 0 <= k < |chunks| ==> IsWindow(lines, chunks, overlapSize, k)
  }

  lemma {:induction false} ChunkAt(path: string, sections: seq<Section>, ends: seq<nat>, overlapSize: int, k: nat)
    requires k < |ends|
    ensures |ChunksFor(path, sections, ends, overlapSize)| == |ends|
    ensures ChunksFor(path, sections, ends, overlapSize)[k] ==
      MakeChunk(path, LeadAfter(sections, ends[..k], overlapSize) + Gather(sections, EndBefore(ends, k), ends[k]))
    decreases |ends|
  {
    hide MakeChunk, LeadAfter, Gather;
    var front := ends[..|ends| - 1];
    if k < |front| {
      ChunkAt(path, sections, front, overlapSize, k);
      assert front[..k] == ends[..k];
    } else if k > 0 {
      ChunkAt(path, sections, front, overlapSize, k - 1);
    }
  }

  /** Chunk by chunk: the own lines of group k end after bounds[k + 1] lines. */
  ghost predicate Bounds(lines: seq<string>, sections: seq<Section>, ends: seq<nat>, bounds: seq<nat>) {
    && |bounds| == |ends| + 1 && bounds[0] == 0 && bounds[|ends|] == |lines|
    && forall k :: 0 <= k < |ends| ==> OwnLines(lines, sections, EndBefore(ends, k), ends[k], bounds[k], bounds[k + 1])
  }

  ghost predicate OwnLines(lines: seq<string>, sections: seq<Section>, a: nat, b: nat, p: nat, e: nat) {
    p < e <= |lines| && Gather(sections, a, b) == Slice(lines, p, e)
  }

  lemma {:induction false} GroupsHaveBounds(lines: seq<string>, sections: seq<Section>, sizes: seq<nat>,
    target: int, ends: seq<nat>) returns (bounds: seq<nat>)
    requires Tile(lines, sections) && |sizes| == |sections| && CutsGreedily(sizes, target, 0, ends)
    ensures Bounds(lines, sections, ends, bounds)
    ensures forall k :: 0 <= k <= |ends| ==> bounds[k] == Offset(sections, EndBefore(ends, k))
  {
    bounds := seq(|ends| + 1, k requires 0 <= k <= |ends| => Offset(sections, EndBefore(ends, k)));
    CutsReachEnd(sizes, target, 0, ends);
    forall k | 0 <= k < |ends|
      ensures OwnLines(lines, sections, EndBefore(ends, k), ends[k], bounds[k], bounds[k + 1])
    {
      GreedyAt(sizes, target, 0, ends, k);
      GatherIsSlice(lines, sections, EndBefore(ends, k), ends[k]);
    }
  }

  lemma {:induction false} ChunkOfSlice(lines: seq<string>, path: string, a: nat, b: nat)
    requires a < b <= |lines|
    ensures MakeChunk(path, Slice(lines, a, b)) ==
      Chunk(ChunkId(path, a + 1, b), path, a + 1, b, Join(lines[a..b], '\n'), Sha256(Join(lines[a..b], '\n')))
  {
    var s := Slice(lines, a, b);
    var texts := seq(|s|, i requires 0 <= i < |s| => s[i].text);
    assert |texts| == |lines[a..b]|;
    forall i | 0 <= i < |texts| ensures texts[i] == lines[a..b][i] { }
    assert texts == lines[a..b];
    assert s[0] == NumberedLine(lines, a) && s[b - a - 1] == NumberedLine(lines, b - 1);
  }

  lemma {:induction false} OverlapOfSlice(lines: seq<string>, q: nat, p: nat, size: int) returns (a: nat)
    requires q < p <= |lines| && size > 0
    ensures a < p && Overlap(Slice(lines, q, p), size) == Slice(lines, a, p) && LeadFits(lines, q, p, size, a)
  {
    hide Overlap, Cost;
    OverlapIsLongest(Slice(lines, q, p), size);
    var start: nat :| IsLongestFit(Slice(lines, q, p), size, start)
      && Overlap(Slice(lines, q, p), size) == Slice(lines, q, p)[start..];
    a := q + start;
  }

  lemma {:induction false} SliceConcat(lines: seq<string>, a: nat, p: nat, e: nat)
    requires a <= p <= e <= |lines|
    ensures Slice(lines, a, p) + Slice(lines, p, e) == Slice(lines, a, e)
  { }

  /** Chunk k is made of the lines from `a`, within the own lines of the chunk before, to its own end. */
  lemma {:induction false} ChunkLines(lines: seq<string>, path: string, sections: seq<Section>, ends: seq<nat>,
    bounds: seq<nat>, overlapSize: int, k: nat)
    returns (a: nat)
    requires overlapSize > 0 && Bounds(lines, sections, ends, bounds) && k < |ends|
    ensures a <= bounds[k] < bounds[k + 1] <= |lines|
    ensures |ChunksFor(path, sections, ends, overlapSize)| == |ends|
    ensures var text := Join(lines[a..bounds[k + 1]], '\n');
      ChunksFor(path, sections, ends, overlapSize)[k] ==
      Chunk(ChunkId(path, a + 1, bounds[k + 1]), path, a + 1, bounds[k + 1], text, Sha256(text))
    ensures if k == 0 then a == 0 else LeadFits(lines, bounds[k - 1], bounds[k], overlapSize, a)
  {
    var (p, e) := (bounds[k], bounds[k + 1]);
    ChunkAt(path, sections, ends, overlapSize, k);
    assert OwnLines(lines, sections, EndBefore(ends, k), ends[k], p, e);
    if k == 0 {
      a := 0;
      assert [] + Slice(lines, 0, e) == Slice(lines, 0, e);
    } else {
      assert OwnLines(lines, sections, EndBefore(ends, k - 1), ends[k - 1], bounds[k - 1], p);
      assert EndBefore(ends[..k], k - 1) == EndBefore(ends, k - 1);
      a := OverlapOfSlice(lines, bounds[k - 1], p, overlapSize);
      SliceConcat(lines, a, p, e);
    }
    ChunkOfSlice(lines, path, a, e);
  }

  lemma {:induction false} BoundsGiveWindow(lines: seq<string>, path: string, chunks: seq<Chunk>, bounds: seq<nat>,
    overlapSize: int, k: nat, a: nat)
    requires k < |chunks| && k + 1 < |bounds| && a <= bounds[k] < bounds[k + 1] <= |lines|
    requires OwnStart(chunks, k) == bounds[k] && (k > 0 ==> OwnStart(chunks, k - 1) == bounds[k - 1])
    requires var text := Join(lines[a..bounds[k + 1]], '\n');
      chunks[k] == Chunk(ChunkId(path, a + 1, bounds[k + 1]), path, a + 1, bounds[k + 1], text, Sha256(text))
    requires if k == 0 then a == 0 else LeadFits(lines, bounds[k - 1], bounds[k], overlapSize, a)
    ensures IsWindow(lines, chunks, overlapSize, k)
  {
    hide Join, LeadFits;
  }

  /** The sections at which the chunks of a file end. */
  ghost function FileEnds(path: string, content: string, opts: Option<ChunkOptions>): seq<nat> {
    Ends(Sizes(FileSections(path, content)), ResolveChunkSizes(opts).0, 0, 0)
  }

  /** No chunk's accumulated text exceeds the target but for one section that does so alone, and none ends early. */
  lemma {:induction false} ChunksFillTarget(path: string, content: string, opts: Option<ChunkOptions>)
    ensures CutsGreedily(Sizes(FileSections(path, content)), ResolveChunkSizes(opts).0, 0,
      FileEnds(path, content, opts))
  {
    EndsCutGreedily(Sizes(FileSections(path, content)), ResolveChunkSizes(opts).0, 0, 0);
  }

  /** Files are cut at the caller's target and overlap by the caller's overlap, or by 1600 and 320 if not given. */
  lemma {:induction false} SizesAreTheCallers(path: string, content: string, t: int, v: int)
    requires Chunkable(content)
    ensures var (target, overlap) := (if t > 0 then t else 1600, if v > 0 then v else 320);
      HasSizes(path, content, Some(ChunkOptions(t, v)), target, overlap)
    ensures HasSizes(path, content, None, 1600, 320)
  {
    hide FileSections, TileFile, Ends;
    ChunksFillTarget(path, content, Some(ChunkOptions(t, v)));
    ChunksTileFile(path, content, Some(ChunkOptions(t, v)));
    ChunksFillTarget(path, content, None);
    ChunksTileFile(path, content, None);
  }

  /** The chunks are those of a greedy grouping of the file's sections for this target, and overlap by this much. */
  ghost predicate HasSizes(path: string, content: string, opts: Option<ChunkOptions>, target: int, overlap: int) {
    var (sections, chunks) := (FileSections(path, content), FileChunks(path, content, opts));
    && TileFile(Split(content, '\n'), chunks, overlap)
    && exists ends: seq<nat> ::
      CutsGreedily(Sizes(sections), target, 0, ends) && chunks == ChunksFor(path, sections, ends, overlap)
  }

  lemma {:induction false} FileBounds(path: string, content: string,
    opts: Option<ChunkOptions>) returns (bounds: seq<nat>)
    ensures var ends := FileEnds(path, content, opts);
      && Bounds(Split(content, '\n'), FileSections(path, content), ends, bounds) && ends != []
      && forall k :: 0 <= k <= |ends| ==> bounds[k] == Offset(FileSections(path, content), EndBefore(ends, k))
  {
    FileTiles(path, content);
    ChunksFillTarget(path, content, opts);
    bounds := GroupsHaveBounds(Split(content, '\n'), FileSections(path, content), Sizes(FileSections(path, content)),
      ResolveChunkSizes(opts).0, FileEnds(path, content, opts));
  }

  /** Every chunk is a window of the file and the windows' own lines tile it, for every splitter and size. */
  lemma {:induction false} ChunksTileFile(path: string, content: string, opts: Option<ChunkOptions>)
    requires Chunkable(content)
    ensures TileFile(Split(content, '\n'), FileChunks(path, content, opts), ResolveChunkSizes(opts).1)
  {
    hide ChunksFor, Join, LeadFits, IsWindow, OwnLines, Split, FileSections;
    var lines, sections, ends := Split(content, '\n'), FileSections(path, content), FileEnds(path, content, opts);
    var overlapSize := ResolveChunkSizes(opts).1;
    var chunks := ChunksFor(path, sections, ends, overlapSize);
    var bounds := FileBounds(path, content, opts);
    var _ := ChunkLines(lines, path, sections, ends, bounds, overlapSize, |ends| - 1);
    forall k | 0 <= k < |ends|
      ensures IsWindow(lines, chunks, overlapSize, k)
    {
      var a := ChunkLines(lines, path, sections, ends, bounds, overlapSize, k);
      if k > 0 {
        var _ := ChunkLines(lines, path, sections, ends, bounds, overlapSize, k - 1);
      }
      if k > 1 {
        var _ := ChunkLines(lines, path, sections, ends, bounds, overlapSize, k - 2);
      }
      BoundsGiveWindow(lines, path, chunks, bounds, overlapSize, k, a);
    }
  }

  /** Exactly blank files and files with a NUL have no chunks. */
  lemma {:induction false} NoChunksIff(path: string, content: string, opts: Option<ChunkOptions>)
    ensures FileChunks(path, content, opts) == [] <==>
      (forall i :: 0 <= i < |content| ==> IsSpace(content[i])) || '\0' in content
  {
    hide FileChunks, TileFile, IsSpace;
    NotChunkable(path, content, opts);
    if Chunkable(content) {
      ChunksTileFile(path, content, opts);
      TiledIsNotEmpty(Split(content, '\n'), FileChunks(path, content, opts), ResolveChunkSizes(opts).1);
    }
  }

  lemma {:induction false} NotChunkable(path: string, content: string, opts: Option<ChunkOptions>)
    ensures !Chunkable(content) ==> FileChunks(path, content, opts) == []
  { }

  lemma {:induction false} TiledIsNotEmpty(lines: seq<string>, chunks: seq<Chunk>, overlapSize: int)
    requires TileFile(lines, chunks, overlapSize)
    ensures chunks != []
  { }

  lemma {:induction false} EndsIncrease(lines: seq<string>, chunks: seq<Chunk>, overlapSize: int, i: nat, j: nat)
    requires TileFile(lines, chunks, overlapSize) && i < j < |chunks|
    ensures chunks[i].endLine < chunks[j].endLine
    decreases j
  {
    hide Join, LeadFits;
    assert IsWindow(lines, chunks, overlapSize, j);
    if i + 1 < j {
      EndsIncrease(lines, chunks, overlapSize, i, j - 1);
    }
  }

  ghost predicate DistinctIds(chunks: seq<Chunk>) {
    forall i, j :: 0 <= i < j < |chunks| ==> chunks[i].id != chunks[j].id
  }

  /** The chunk's path, its ID of path and lines, and the hash of its text. */
  predicate IsIdentified(path: string, c: Chunk) {
    c.filePath == path && c.id == ChunkId(path, c.startLine, c.endLine) && c.contentHash == Sha256(c.text)
  }

  /** End lines strictly increase, so no two chunks of a file share an ID. */
  lemma {:induction false} ChunkIdsDistinct(path: string, content: string, opts: Option<ChunkOptions>)
    ensures var chunks := FileChunks(path, content, opts);
      DistinctIds(chunks) && forall k :: 0 <= k < |chunks| ==> IsIdentified(path, chunks[k])
  {
    var chunks := FileChunks(path, content, opts);
    if Chunkable(content) {
      var overlapSize := ResolveChunkSizes(opts).1;
      ChunksTileFile(path, content, opts);
      forall k | 0 <= k < |chunks|
        ensures IsIdentified(path, chunks[k])
      {
        var bounds := FileBounds(path, content, opts);
        var _ := ChunkLines(Split(content, '\n'), path, FileSections(path, content), FileEnds(path, content, opts),
          bounds, overlapSize, 0);
        ChunkAt(path, FileSections(path, content), FileEnds(path, content, opts), overlapSize, k);
      }
      forall i, j | 0 <= i < j < |chunks|
        ensures chunks[i].id != chunks[j].id
      {
        EndsIncrease(Split(content, '\n'), chunks, overlapSize, i, j);
      }
    }
  }

  // ---- Putting the file back together ----

  /** The lines of a chunk's text after the first `known` lines of the file. */
  function LinesAfter(known: int, c: Chunk): seq<string> {
    var lines, overlap := Split(c.text, '\n'), known + 1 - c.startLine;
    if 0 <= overlap <= |lines| then lines[overlap..] else []
  }

  /** The lines of the file, from the chunks alone: each chunk's text without the lines its predecessor already gave. */
  function Reassemble(chunks: seq<Chunk>): seq<string> {
    if chunks == [] then []
    else
      var front := chunks[..|chunks| - 1];
      var known := if front == [] then 0 else front[|front| - 1].endLine;
      Reassemble(front) + LinesAfter(known, chunks[|chunks| - 1])
  }

  lemma {:induction false} ReassemblePrefix(lines: seq<string>, chunks: seq<Chunk>, overlapSize: int, k: nat)
    requires Free(lines, '\n') && TileFile(lines, chunks, overlapSize) && k <= |chunks|
    ensures OwnStart(chunks, k) <= |lines| && Reassemble(chunks[..k]) == lines[..OwnStart(chunks, k)]
  {
    hide Reassemble, LinesAfter, Split, Join, LeadFits;
    if k == 0 {
      ReassembleNone(chunks[..0]);
    } else {
      ReassemblePrefix(lines, chunks, overlapSize, k - 1);
      var own := OwnStart(chunks, k - 1);
      assert IsWindow(lines, chunks, overlapSize, k - 1);
      OwnLinesOfText(lines, own, chunks[k - 1]);
      assert chunks[..k] == chunks[..k - 1] + [chunks[k - 1]];
      ReassembleStep(lines, chunks[..k - 1], chunks[k - 1], own);
    }
  }

  lemma {:induction false} ReassembleNone(chunks: seq<Chunk>)
    requires chunks == []
    ensures Reassemble(chunks) == []
  { }

  lemma {:induction false} ReassembleStep(lines: seq<string>, before: seq<Chunk>, c: Chunk, own: nat)
    requires own == OwnStart(before, |before|) && own <= c.endLine <= |lines|
    requires Reassemble(before) == lines[..own] && LinesAfter(own, c) == lines[own..c.endLine]
    ensures Reassemble(before + [c]) == lines[..c.endLine]
  {
    hide LinesAfter;
    assert (before + [c])[..|before|] == before;
    assert lines[..own] + lines[own..c.endLine] == lines[..c.endLine];
  }

  lemma {:induction false} OwnLinesOfText(lines: seq<string>, own: nat, c: Chunk)
    requires Free(lines, '\n') && IsText(lines, own, c)
    ensures LinesAfter(own, c) == lines[own..c.endLine]
  {
    SplitJoin(lines[c.startLine - 1..c.endLine], '\n');
  }

  /** Chunking loses nothing: the chunks alone give back the file. */
  lemma {:induction false} ReassembleGivesContent(path: string, content: string, opts: Option<ChunkOptions>)
    requires Chunkable(content)
    ensures Join(Reassemble(FileChunks(path, content, opts)), '\n') == content
  {
    var lines, chunks := Split(content, '\n'), FileChunks(path, content, opts);
    ChunksTileFile(path, content, opts);
    SplitIsFree(content, '\n');
    ReassemblePrefix(lines, chunks, ResolveChunkSizes(opts).1, |chunks|);
    assert chunks[..|chunks|] == chunks && lines[..|lines|] == lines;
    JoinSplit(content, '\n');
  }

  // ---- Fenced code blocks ----

  /** A fenced code block lies whole in the own lines of one chunk, for every markdown file and size. */
  lemma {:induction false} FencedBlockInOneChunk(path: string, content: string, opts: Option<ChunkOptions>,
    a: nat, b: nat) returns (k: nat)
    requires Chunkable(content) && SplitterFor(path) == Markdown
    requires a < b < |Split(content, '\n')| && FencedBlock(Split(content, '\n'), a, b)
    ensures k < |FileChunks(path, content, opts)|
    ensures OwnStart(FileChunks(path, content, opts), k) <= a && b < FileChunks(path, content, opts)[k].endLine
  {
    var lines, sections, ends := Split(content, '\n'), FileSections(path, content), FileEnds(path, content, opts);
    FencedBlockUncut(lines, a, b);
    var i := UncutLinesShareSection(Markdown, lines, a, b);
    ChunksFillTarget(path, content, opts);
    k := GroupOf(Sizes(sections), ResolveChunkSizes(opts).0, 0, ends, i);
    GreedyAt(Sizes(sections), ResolveChunkSizes(opts).0, 0, ends, k);
    var bounds := FileBounds(path, content, opts);
    if k > 0 {
      var _ := ChunkLines(lines, path, sections, ends, bounds, ResolveChunkSizes(opts).1, k - 1);
    }
    var _ := ChunkLines(lines, path, sections, ends, bounds, ResolveChunkSizes(opts).1, k);
    FileTiles(path, content);
    SectionWithin(lines, sections, EndBefore(ends, k), i, ends[k]);
    HeldLines(lines, sections, i, a, b);
  }

  lemma {:induction false} SectionWithin(lines: seq<string>, sections: seq<Section>, from: nat, i: nat, end: nat)
    requires Tile(lines, sections) && from <= i < end <= |sections|
    ensures Offset(sections, from) <= Offset(sections, i) && Offset(sections, i + 1) <= Offset(sections, end)
  {
    GatherSplit(sections, from, i);
    GatherSplit(sections, i + 1, end);
  }

  /** A slice that holds lines a..b covers them: line numbers identify lines. */
  lemma {:induction false} SliceHolds(lines: seq<string>, s: Section, p: nat, e: nat, a: nat, b: nat)
    requires p <= e <= |lines| && s == Slice(lines, p, e) && a <= b < |lines| && Holds(s, lines, a, b)
    ensures p <= a && b < e
  {
    var lo, hi :| 0 <= lo <= hi <= |s| && s[lo..hi] == Slice(lines, a, b + 1);
    SubsliceNumbers(lines, s, p, e, lo, hi, a, b + 1);
  }

  lemma {:induction false} SubsliceNumbers(lines: seq<string>, s: Section, p: nat, e: nat, lo: nat, hi: nat,
    a: nat, b: nat)
    requires p <= e <= |lines| && s == Slice(lines, p, e) && lo <= hi <= |s|
    requires a < b <= |lines| && s[lo..hi] == Slice(lines, a, b)
    ensures a == p + lo && b == p + hi
  {
    var held := s[lo..hi];
    assert |held| == b - a && |s| == e - p;
    assert held[0] == NumberedLine(lines, a);
    assert held[0] == s[lo];
    assert s[lo] == NumberedLine(lines, p + lo);
  }

  lemma {:induction false} HeldLines(lines: seq<string>, sections: seq<Section>, i: nat, a: nat, b: nat)
    requires Tile(lines, sections) && i < |sections| && a <= b < |lines| && Holds(sections[i], lines, a, b)
    ensures Offset(sections, i) <= a && b < Offset(sections, i + 1)
  {
    GatherIsSlice(lines, sections, i, i + 1);
    assert Gather(sections, i, i) == [];
    assert [] + sections[i] == sections[i];
    SliceHolds(lines, sections[i], Offset(sections, i), Offset(sections, i + 1), a, b);
  }
}
