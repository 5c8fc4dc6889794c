/** The incremental document index (knowledge/indexing.go, storage/knowledge_db.go). */
module KnowledgeIndex {
  import opened Prelude
  import opened Chunking
  import opened ChunkWindows
  import opened Text

  /** The table of chunks by primary key, and the file hashes kept in the metadata table. */
  datatype Tables = Tables(chunks: map<ChunkId, Chunk>, hashes: map<string, Hash>)

  datatype Stats = Stats(filesIndexed: nat, filesSkipped: nat, filesErrored: nat, chunksCreated: nat,
    chunksDeleted: nat)

  const NO_STATS := Stats(0, 0, 0, 0, 0)

  // ---- Rows ----

  /** INSERT OR REPLACE, one row at a time. */
  function Upserted(rows: map<ChunkId, Chunk>, chunks: seq<Chunk>): map<ChunkId, Chunk> {
    if chunks == [] then rows
    else var last := chunks[|chunks| - 1]; Upserted(rows, chunks[..|chunks| - 1])[last.id := last]
  }

  function RowsOf(rows: map<ChunkId, Chunk>, path: string): map<ChunkId, Chunk> {
    map id | id in rows && rows[id].filePath == path :: rows[id]
  }

  function WithoutPaths(rows: map<ChunkId, Chunk>, paths: set<string>): map<ChunkId, Chunk> {
    map id | id in rows && rows[id].filePath !in paths :: rows[id]
  }

  /** The rows a file with this content has in an index built from scratch. */
  function FileRows(path: string, content: string): map<ChunkId, Chunk> {
    Upserted(map[], FileChunks(path, content, None))
  }

  class KnowledgeDB {
    var chunks: map<ChunkId, Chunk>
    var hashes: map<string, Hash>

    function Contents(): Tables
      reads this
    {
      Tables(chunks, hashes)
    }

    constructor ()
      ensures Contents() == Tables(map[], map[])
    {
      chunks, hashes := map[], map[];
    }

    method UpsertChunks(newChunks: seq<Chunk>)
      modifies this`chunks
      ensures chunks == Upserted(old(chunks), newChunks)
    {
      for i := 0 to |newChunks|
        invariant chunks == Upserted(old(chunks), newChunks[..i])
      {
        var c := newChunks[i];
        assert newChunks[..i + 1][..i] == newChunks[..i];
        chunks := chunks[c.id := c];
      }
      assert newChunks[..|newChunks|] == newChunks;
    }

    method DeleteChunksByFilePath(filePaths: seq<string>)
      modifies this`chunks
      ensures chunks == WithoutPaths(old(chunks), PathSet(filePaths))
    {
      for i := 0 to |filePaths|
        invariant chunks == WithoutPaths(old(chunks), PathSet(filePaths[..i]))
      {
        var path := filePaths[i];
        chunks := map id | id in chunks && chunks[id].filePath != path :: chunks[id];
        assert filePaths[..i + 1] == filePaths[..i] + [path];
      }
      assert filePaths[..|filePaths|] == filePaths;
    }

    method GetChunkCountByFilePath(path: string) returns (count: nat)
      ensures count == |RowsOf(chunks, path)|
    {
      count := |RowsOf(chunks, path)|;
    }

    /** SELECT DISTINCT file_path FROM chunks, in any order. */
    method GetIndexedFilePaths() returns (paths: seq<string>)
      ensures Distinct(paths)
      ensures forall p :: p in paths <==> RowsOf(chunks, p) != map[]
    {
      paths := [];
      var rest := chunks.Keys;
      while rest != {}
        invariant rest <= chunks.Keys && Distinct(paths)
        invariant forall p :: p in paths <==> exists id :: id in chunks && id !in rest && chunks[id].filePath == p
      {
        var id :| id in rest;
        if chunks[id].filePath !in paths {
          paths := paths + [chunks[id].filePath];
        }
        rest := rest - {id};
      }
      forall p ensures p in paths <==> RowsOf(chunks, p) != map[] {
        if RowsOf(chunks, p) != map[] {
          var id :| id in RowsOf(chunks, p);
        } else {
          assert forall id :: id in chunks ==> id !in RowsOf(chunks, p);
        }
      }
    }

    method GetFileHash(path: string) returns (hash: Option<Hash>)
      ensures hash == if path in hashes then Some(hashes[path]) else None
    {
      hash := if path in hashes then Some(hashes[path]) else None;
    }

    method SetFileHash(path: string, hash: Hash)
      modifies this`hashes
      ensures hashes == old(hashes)[path := hash]
    {
      hashes := hashes[path := hash];
    }

    method RemoveFileHash(path: string)
      modifies this`hashes
      ensures hashes == old(hashes) - {path}
    {
      hashes := hashes - {path};
    }
  }

  function PathSet(paths: seq<string>): set<string> {
    set p | p in paths
  }

  ghost predicate Distinct(paths: seq<string>) {
    forall i, j :: 0 <= i < j < |paths| ==> paths[i] != paths[j]
  }

  // ---- What one file, and one call, does to the tables ----

  predicate IsFresh(hashes: map<string, Hash>, path: string, content: string) {
    path in hashes && hashes[path] == Sha256(content)
  }

  /** indexSingleFile; `files` holds the files that can be read. */
  function FileStep(t: Tables, files: map<string, string>, path: string, force: bool): Tables {
    if path !in files || (!force && IsFresh(t.hashes, path, files[path])) then t
    else Tables(Upserted(WithoutPaths(t.chunks, {path}), FileChunks(path, files[path], None)),
      t.hashes[path := Sha256(files[path])])
  }

  function FilesStep(t: Tables, files: map<string, string>, listed: seq<string>, force: bool): Tables {
    if listed == [] then t
    else FileStep(FilesStep(t, files, listed[..|listed| - 1], force), files, listed[|listed| - 1], force)
  }

  function StalePaths(rows: map<ChunkId, Chunk>, listed: seq<string>): set<string> {
    set id | id in rows && rows[id].filePath !in listed :: rows[id].filePath
  }

  /** syncDeletedFiles */
  function SyncStep(t: Tables, listed: seq<string>): Tables {
    Tables(WithoutPaths(t.chunks, StalePaths(t.chunks, listed)), t.hashes - StalePaths(t.chunks, listed))
  }

  function IndexStep(t: Tables, files: map<string, string>, listed: seq<string>, force: bool): Tables {
    SyncStep(FilesStep(t, files, listed, force), listed)
  }

  /** What indexFiles counts. */
  function Tally(t: Tables, files: map<string, string>, listed: seq<string>, force: bool): Stats {
    if listed == [] then NO_STATS
    else
      var (front, path) := (listed[..|listed| - 1], listed[|listed| - 1]);
      var (s, before) := (Tally(t, files, front, force), FilesStep(t, files, front, force));
      if path !in files then s.(filesErrored := s.filesErrored + 1)
      else if !force && IsFresh(before.hashes, path, files[path]) then s.(filesSkipped := s.filesSkipped + 1)
      else s.(filesIndexed := s.filesIndexed + 1,
        chunksCreated := s.chunksCreated + |FileChunks(path, files[path], None)|)
  }

  // ---- The methods ----

  method IndexSingleFile(kdb: KnowledgeDB, files: map<string, string>, path: string,
    force: bool) returns (indexed: bool, chunks: int)
    modifies kdb
    ensures kdb.Contents() == FileStep(old(kdb.Contents()), files, path, force)
    ensures (indexed, chunks) ==
      if path !in files then (false, -1)
      else if !force && IsFresh(old(kdb.hashes), path, files[path]) then (false, 0)
      else (true, |FileChunks(path, files[path], None)|)
  {
    hide FileChunks;
    if path !in files {
      return false, -1;
    }
    var content := files[path];
    var hash := Sha256(content);
    var stored := kdb.GetFileHash(path);
    if !force && stored == Some(hash) {
      return false, 0;
    }
    var kChunks := ChunkFile(path, content, None);
    kdb.DeleteChunksByFilePath([path]);
    assert PathSet([path]) == {path};
    if |kChunks| > 0 {
      kdb.UpsertChunks(kChunks);
    }
    kdb.SetFileHash(path, hash);
    return true, |kChunks|;
  }

  method IndexFiles(kdb: KnowledgeDB, files: map<string, string>, listed: seq<string>,
    force: bool) returns (stats: Stats)
    modifies kdb
    ensures kdb.Contents() == FilesStep(old(kdb.Contents()), files, listed, force)
    ensures stats == Tally(old(kdb.Contents()), files, listed, force)
  {
    hide FileChunks;
    stats := NO_STATS;
    for i := 0 to |listed|
      invariant kdb.Contents() == FilesStep(old(kdb.Contents()), files, listed[..i], force)
      invariant stats == Tally(old(kdb.Contents()), files, listed[..i], force)
    {
      assert listed[..i + 1][..i] == listed[..i];
      var indexed, chunks := IndexSingleFile(kdb, files, listed[i], force);
      if indexed {
        stats := stats.(filesIndexed := stats.filesIndexed + 1, chunksCreated := stats.chunksCreated + chunks);
      } else if chunks == -1 {
        stats := stats.(filesErrored := stats.filesErrored + 1);
      } else {
        stats := stats.(filesSkipped := stats.filesSkipped + 1);
      }
    }
    assert listed[..|listed|] == listed;
  }

  method SyncDeletedFiles(kdb: KnowledgeDB, currentFiles: seq<string>) returns (deleted: nat)
    modifies kdb
    ensures kdb.Contents() == SyncStep(old(kdb.Contents()), currentFiles)
    ensures |kdb.chunks| + deleted == |old(kdb.chunks)|
  {
    var indexedPaths := kdb.GetIndexedFilePaths();
    var stalePaths := [];
    for i := 0 to |indexedPaths|
      invariant Distinct(stalePaths)
      invariant forall p :: p in stalePaths <==> p in indexedPaths[..i] && p !in currentFiles
    {
      var p := indexedPaths[i];
      assert indexedPaths[..i + 1] == indexedPaths[..i] + [p];
      if p !in currentFiles {
        stalePaths := stalePaths + [p];
      }
    }
    assert indexedPaths[..|indexedPaths|] == indexedPaths;
    ghost var rows := kdb.chunks;
    StaleAreIndexed(rows, currentFiles, stalePaths);
    if |stalePaths| == 0 {
      assert WithoutPaths(rows, {}) == rows && kdb.hashes - {} == kdb.hashes;
      return 0;
    }
    deleted := CountRows(kdb, stalePaths);
    kdb.DeleteChunksByFilePath(stalePaths);
    RemoveHashes(kdb, stalePaths);
  }

  method CountRows(kdb: KnowledgeDB, paths: seq<string>) returns (count: nat)
    requires Distinct(paths)
    ensures |WithoutPaths(kdb.chunks, PathSet(paths))| + count == |kdb.chunks|
  {
    count := 0;
    assert WithoutPaths(kdb.chunks, PathSet(paths[..0])) == kdb.chunks;
    for i := 0 to |paths|
      invariant |WithoutPaths(kdb.chunks, PathSet(paths[..i]))| + count == |kdb.chunks|
    {
      var c := kdb.GetChunkCountByFilePath(paths[i]);
      CountWithout(kdb.chunks, PathSet(paths[..i]), paths[i]);
      assert PathSet(paths[..i + 1]) == PathSet(paths[..i]) + {paths[i]};
      count := count + c;
    }
    assert paths[..|paths|] == paths;
  }

  method RemoveHashes(kdb: KnowledgeDB, paths: seq<string>)
    modifies kdb`hashes
    ensures kdb.hashes == old(kdb.hashes) - PathSet(paths)
  {
    for i := 0 to |paths|
      invariant kdb.hashes == old(kdb.hashes) - PathSet(paths[..i])
    {
      assert PathSet(paths[..i + 1]) == PathSet(paths[..i]) + {paths[i]};
      kdb.RemoveFileHash(paths[i]);
    }
    assert paths[..|paths|] == paths;
  }

  method IndexDocs(kdb: KnowledgeDB, files: map<string, string>, filePaths: seq<string>,
    force: bool) returns (stats: Stats)
    modifies kdb
    ensures kdb.Contents() == IndexStep(old(kdb.Contents()), files, filePaths, force)
    ensures stats == Tally(old(kdb.Contents()), files, filePaths, force).(chunksDeleted := stats.chunksDeleted)
    ensures |kdb.chunks| + stats.chunksDeleted == |FilesStep(old(kdb.Contents()), files, filePaths, force).chunks|
  {
    stats := IndexFiles(kdb, files, filePaths, force);
    var deleted := SyncDeletedFiles(kdb, filePaths);
    stats := stats.(chunksDeleted := deleted);
  }

  lemma {:induction false} StaleAreIndexed(rows: map<ChunkId, Chunk>, listed: seq<string>, stale: seq<string>)
    requires forall p :: p in stale <==> RowsOf(rows, p) != map[] && p !in listed
    ensures PathSet(stale) == StalePaths(rows, listed)
  {
    forall p ensures p in stale <==> p in StalePaths(rows, listed) {
      if RowsOf(rows, p) != map[] {
        var id :| id in RowsOf(rows, p);
      } else {
        assert forall id :: id in rows ==> id !in RowsOf(rows, p);
      }
    }
  }

  /** Deleting one more path removes exactly its rows. */
  lemma {:induction false} CountWithout(rows: map<ChunkId, Chunk>, paths: set<string>, path: string)
    requires path !in paths
    ensures |WithoutPaths(rows, paths + {path})| + |RowsOf(rows, path)| == |WithoutPaths(rows, paths)|
  {
    var (before, after, gone) := (WithoutPaths(rows, paths).Keys, WithoutPaths(rows, paths + {path}).Keys,
      RowsOf(rows, path).Keys);
    assert before == after + gone;
    assert after !! gone;
    CountKeys(WithoutPaths(rows, paths));
    CountKeys(WithoutPaths(rows, paths + {path}));
    CountKeys(RowsOf(rows, path));
  }

  lemma {:induction false} CountKeys(rows: map<ChunkId, Chunk>)
    ensures |rows| == |rows.Keys|
  { }

  // ---- Over whole runs ----

  /** Rows are keyed by their own ID, which carries their path. */
  ghost predicate Keyed(rows: map<ChunkId, Chunk>) {
    forall id :: id in rows ==> rows[id].id == id && rows[id].filePath == id.path
  }

  /** A stored hash is a promise: the file's rows are exactly the chunks of the content with that hash. */
  ghost predicate Faithful(t: Tables) {
    Keyed(t.chunks) && forall p :: p in t.hashes ==> RowsOf(t.chunks, p) == FileRows(p, t.hashes[p].content)
  }

  lemma {:induction false} RowsAfterUpdate(rows: map<ChunkId, Chunk>, c: Chunk, path: string)
    requires Keyed(rows) && c.filePath == path && c.id.path == path
    ensures Keyed(rows[c.id := c]) && RowsOf(rows[c.id := c], path) == RowsOf(rows, path)[c.id := c]
    ensures forall q :: q != path ==> RowsOf(rows[c.id := c], q) == RowsOf(rows, q)
  {
    forall q | q != path ensures RowsOf(rows[c.id := c], q) == RowsOf(rows, q) { }
  }

  lemma {:induction false} UpsertedAt(rows: map<ChunkId, Chunk>, chunks: seq<Chunk>, path: string)
    requires Keyed(rows) && RowsOf(rows, path) == map[]
    requires forall k :: 0 <= k < |chunks| ==> chunks[k].filePath == path && chunks[k].id.path == path
    ensures Keyed(Upserted(rows, chunks)) && RowsOf(Upserted(rows, chunks), path) == Upserted(map[], chunks)
    ensures forall q :: q != path ==> RowsOf(Upserted(rows, chunks), q) == RowsOf(rows, q)
  {
    hide RowsOf, Keyed;
    if chunks != [] {
      var front := chunks[..|chunks| - 1];
      UpsertedAt(rows, front, path);
      RowsAfterUpdate(Upserted(rows, front), chunks[|chunks| - 1], path);
    }
  }

  /** The chunks of one file never overwrite a row: replacing a file adds exactly one row a chunk. */
  lemma {:induction false} ReplaceAddsEveryChunk(t: Tables, path: string, content: string)
    requires Keyed(t.chunks)
    ensures var kept := WithoutPaths(t.chunks, {path});
      |Upserted(kept, FileChunks(path, content, None))| == |kept| + |FileChunks(path, content, None)|
  {
    hide FileChunks;
    ChunkIdsDistinct(path, content, None);
    UpsertedCount(WithoutPaths(t.chunks, {path}), FileChunks(path, content, None));
  }

  lemma {:induction false} UpsertedCount(rows: map<ChunkId, Chunk>, chunks: seq<Chunk>)
    requires DistinctIds(chunks) && forall k :: 0 <= k < |chunks| ==> chunks[k].id !in rows
    ensures |Upserted(rows, chunks)| == |rows| + |chunks|
    ensures forall id :: id in Upserted(rows, chunks) <==>
      id in rows || exists k :: 0 <= k < |chunks| && chunks[k].id == id
  {
    if chunks != [] {
      var front, c := chunks[..|chunks| - 1], chunks[|chunks| - 1];
      UpsertedCount(rows, front);
      assert c.id !in Upserted(rows, front);
      forall id ensures id in Upserted(rows, chunks) <==>
        id in rows || exists k :: 0 <= k < |chunks| && chunks[k].id == id {
        if k :| 0 <= k < |chunks| && chunks[k].id == id {
          assert k < |front| ==> front[k].id == id;
        }
      }
    }
  }

  /** The rows of path p after indexFiles, and its hash. */
  lemma {:induction false} FilesStepAt(t: Tables, files: map<string, string>, listed: seq<string>, force: bool,
    p: string)
    requires Faithful(t)
    ensures var t' := FilesStep(t, files, listed, force);
      && Faithful(t')
      && RowsOf(t'.chunks, p) == (if p in listed && p in files then FileRows(p, files[p]) else RowsOf(t.chunks, p))
      && (p in t'.hashes <==> p in t.hashes || (p in listed && p in files))
      && (p in t'.hashes ==> t'.hashes[p] == if p in listed && p in files then Sha256(files[p]) else t.hashes[p])
  {
    hide FileChunks, RowsOf;
    if listed != [] {
      var (front, last) := (listed[..|listed| - 1], listed[|listed| - 1]);
      FilesStepAt(t, files, front, force, p);
      assert listed == front + [last];
      FileStepAt(FilesStep(t, files, front, force), files, last, force, p);
    }
  }

  lemma {:induction false} FileStepAt(t: Tables, files: map<string, string>, path: string, force: bool, p: string)
    requires Faithful(t)
    ensures var t' := FileStep(t, files, path, force);
      && Faithful(t')
      && RowsOf(t'.chunks, p) == (if p == path && p in files then FileRows(p, files[p]) else RowsOf(t.chunks, p))
      && (p in t'.hashes <==> p in t.hashes || (p == path && p in files))
      && (p in t'.hashes ==> t'.hashes[p] == if p == path && p in files then Sha256(files[p]) else t.hashes[p])
  {
    hide FileChunks;
    if path in files && (force || !IsFresh(t.hashes, path, files[path])) {
      var kept := WithoutPaths(t.chunks, {path});
      ChunkIdsDistinct(path, files[path], None);
      assert RowsOf(kept, path) == map[];
      forall q | q != path ensures RowsOf(kept, q) == RowsOf(t.chunks, q) { }
      UpsertedAt(kept, FileChunks(path, files[path], None), path);
    }
  }

  lemma {:induction false} SyncStepAt(t: Tables, listed: seq<string>, p: string)
    requires Faithful(t)
    ensures Faithful(SyncStep(t, listed))
    ensures RowsOf(SyncStep(t, listed).chunks, p) == if p in listed then RowsOf(t.chunks, p) else map[]
    ensures p in listed ==> (p in SyncStep(t, listed).hashes <==> p in t.hashes)
  {
    var (stale, rows) := (StalePaths(t.chunks, listed), SyncStep(t, listed).chunks);
    forall q ensures RowsOf(rows, q) == if q in listed then RowsOf(t.chunks, q) else map[] { }
    forall q | q in t.hashes && q !in stale ensures RowsOf(rows, q) == RowsOf(t.chunks, q) {
      assert forall id :: id in t.chunks && t.chunks[id].filePath == q ==> q in listed;
    }
  }

  /** The rows of path p after one call of IndexDocs. */
  lemma {:induction false} IndexStepAt(t: Tables, files: map<string, string>, listed: seq<string>, force: bool,
    p: string)
    requires Faithful(t)
    ensures var t' := IndexStep(t, files, listed, force);
      && Faithful(t')
      && RowsOf(t'.chunks, p) ==
         (if p !in listed then map[] else if p in files then FileRows(p, files[p]) else RowsOf(t.chunks, p))
      && (p in listed && p in files ==> IsFresh(t'.hashes, p, files[p]))
  {
    hide FileRows, RowsOf, FilesStep, SyncStep, Faithful;
    FilesStepAt(t, files, listed, force, p);
    SyncStepAt(FilesStep(t, files, listed, force), listed, p);
    if p in listed && p in files {
      SyncKeepsHash(FilesStep(t, files, listed, force), listed, p);
    }
  }

  lemma {:induction false} SyncKeepsHash(t: Tables, listed: seq<string>, p: string)
    requires p in listed && p in t.hashes
    ensures p in SyncStep(t, listed).hashes && SyncStep(t, listed).hashes[p] == t.hashes[p]
  { }

  datatype Call = Call(files: map<string, string>, listed: seq<string>, force: bool)

  const EMPTY := Tables(map[], map[])

  function RunOf(calls: seq<Call>): Tables {
    if calls == [] then EMPTY
    else var last := calls[|calls| - 1]; IndexStep(RunOf(calls[..|calls| - 1]), last.files, last.listed, last.force)
  }

  /** Over every run of calls, with files changing, appearing, vanishing and failing to be read in between. */
  lemma {:induction false} RunIsFaithful(calls: seq<Call>)
    ensures Faithful(RunOf(calls))
  {
    if calls != [] {
      var last := calls[|calls| - 1];
      RunIsFaithful(calls[..|calls| - 1]);
      IndexStepAt(RunOf(calls[..|calls| - 1]), last.files, last.listed, last.force, "");
    }
  }

  lemma {:induction false} SameRows(a: map<ChunkId, Chunk>, b: map<ChunkId, Chunk>)
    requires forall p :: RowsOf(a, p) == RowsOf(b, p)
    ensures a == b
  {
    forall id | id in a ensures id in b && a[id] == b[id] {
      assert id in RowsOf(a, a[id].filePath);
    }
    forall id | id in b ensures id in a {
      assert id in RowsOf(b, b[id].filePath);
    }
  }

  /** Only a listed file that cannot be read, and has rows, makes the table differ from one built from scratch. */
  ghost predicate NoStrandedRows(rows: map<ChunkId, Chunk>, files: map<string, string>, listed: seq<string>) {
    forall p :: p in listed && p !in files ==> RowsOf(rows, p) == map[]
  }

  /** Incremental indexing is full re-indexing, after every run, exactly when no unreadable file had rows. */
  lemma {:induction false} IncrementalIsRebuild(calls: seq<Call>, files: map<string, string>, listed: seq<string>,
    force: bool)
    ensures IndexStep(RunOf(calls), files, listed, force).chunks == IndexStep(EMPTY, files, listed, true).chunks
      <==> NoStrandedRows(RunOf(calls).chunks, files, listed)
  {
    var t := RunOf(calls);
    RunIsFaithful(calls);
    RebuiltAt(t, files, listed, force);
    if NoStrandedRows(t.chunks, files, listed) {
      SameRows(IndexStep(t, files, listed, force).chunks, IndexStep(EMPTY, files, listed, true).chunks);
    }
  }

  lemma {:induction false} RebuiltAt(t: Tables, files: map<string, string>, listed: seq<string>, force: bool)
    requires Faithful(t)
    ensures forall p ::
      RowsOf(IndexStep(t, files, listed, force).chunks, p) == RowsOf(IndexStep(EMPTY, files, listed, true).chunks, p)
      <==> (p in listed && p !in files ==> RowsOf(t.chunks, p) == map[])
  {
    hide IndexStep, FileRows;
    forall p ensures
      RowsOf(IndexStep(t, files, listed, force).chunks, p) == RowsOf(IndexStep(EMPTY, files, listed, true).chunks, p)
      <==> (p in listed && p !in files ==> RowsOf(t.chunks, p) == map[])
    {
      IndexStepAt(t, files, listed, force, p);
      IndexStepAt(EMPTY, files, listed, true, p);
      assert RowsOf(EMPTY.chunks, p) == map[];
    }
  }

  /** A file that becomes unreadable keeps its rows, even when everything is re-indexed. */
  lemma {:induction false} UnreadableFileKeepsRows()
    ensures var once := RunOf([Call(map["a.md" := "x"], ["a.md"], false)]);
      IndexStep(once, map[], ["a.md"], true).chunks != IndexStep(EMPTY, map[], ["a.md"], true).chunks
  {
    hide FileRows, FileChunks, IndexStep, NoStrandedRows;
    var first := Call(map["a.md" := "x"], ["a.md"], false);
    assert RunOf([first]) == IndexStep(EMPTY, first.files, ["a.md"], false) by { assert RunOf([first][..0]) == EMPTY; }
    assert !IsSpace("x"[0]);
    TextHasRows("a.md", "x");
    IndexStepAt(EMPTY, first.files, ["a.md"], false, "a.md");
    StrandedRows([first], map[], ["a.md"], "a.md");
  }

  lemma {:induction false} StrandedRows(calls: seq<Call>, files: map<string, string>, listed: seq<string>, p: string)
    requires p in listed && p !in files && RowsOf(RunOf(calls).chunks, p) != map[]
    ensures IndexStep(RunOf(calls), files, listed, true).chunks != IndexStep(EMPTY, files, listed, true).chunks
  {
    hide IndexStep, RowsOf, RunOf;
    IncrementalIsRebuild(calls, files, listed, true);
  }

  lemma {:induction false} TextHasRows(path: string, content: string)
    requires Chunkable(content)
    ensures FileRows(path, content) != map[]
  {
    hide FileChunks, IsWindow, Chunkable;
    ChunksTileFile(path, content, None);
    var chunks := FileChunks(path, content, None);
    assert chunks[|chunks| - 1].id in FileRows(path, content);
  }

  // ---- Counts ----

  lemma {:induction false} EveryFileCounted(t: Tables, files: map<string, string>, listed: seq<string>, force: bool)
    ensures var s := Tally(t, files, listed, force);
      s.filesIndexed + s.filesSkipped + s.filesErrored == |listed|
        && (s.filesErrored == 0 <==> forall p :: p in listed ==> p in files)
  {
    hide FilesStep, IsFresh, FileChunks;
    if listed != [] {
      EveryFileCounted(t, files, listed[..|listed| - 1], force);
      assert listed == listed[..|listed| - 1] + [listed[|listed| - 1]];
    }
  }

  ghost predicate AllFresh(t: Tables, files: map<string, string>, listed: seq<string>) {
    forall p :: p in listed && p in files ==> IsFresh(t.hashes, p, files[p])
  }

  lemma {:induction false} FreshFilesSkipped(t: Tables, files: map<string, string>, listed: seq<string>)
    requires AllFresh(t, files, listed)
    ensures FilesStep(t, files, listed, false) == t
    ensures Tally(t, files, listed, false).filesIndexed == 0 && Tally(t, files, listed, false).chunksCreated == 0
  {
    hide IsFresh, FileChunks;
    if listed != [] {
      assert listed == listed[..|listed| - 1] + [listed[|listed| - 1]];
      FreshFilesSkipped(t, files, listed[..|listed| - 1]);
    }
  }

  /** A second call over unchanged files indexes nothing and changes nothing. */
  lemma {:induction false} SecondRunIsSilent(calls: seq<Call>, files: map<string, string>, listed: seq<string>,
    force: bool)
    ensures var t := IndexStep(RunOf(calls), files, listed, force);
      && IndexStep(t, files, listed, false) == t
      && Tally(t, files, listed, false).filesIndexed == 0 && Tally(t, files, listed, false).chunksCreated == 0
  {
    hide IsFresh, Tally, FilesStep, FileRows;
    var t0, t := RunOf(calls), IndexStep(RunOf(calls), files, listed, force);
    RunIsFaithful(calls);
    forall p | p in listed && p in files ensures IsFresh(t.hashes, p, files[p]) {
      IndexStepAt(t0, files, listed, force, p);
    }
    FreshFilesSkipped(t, files, listed);
    SyncIsIdempotent(FilesStep(t0, files, listed, force), listed);
  }

  lemma {:induction false} SyncIsIdempotent(t: Tables, listed: seq<string>)
    ensures SyncStep(SyncStep(t, listed), listed) == SyncStep(t, listed)
  {
    var once := SyncStep(t, listed);
    assert StalePaths(once.chunks, listed) == {};
    assert WithoutPaths(once.chunks, {}) == once.chunks && once.hashes - {} == once.hashes;
  }

  // ---- What is counted ----

  /** The file has not changed since its chunks were stored. */
  predicate IsUnchanged(t: Tables, files: map<string, string>, path: string) {
    path in files && path in t.hashes && t.hashes[path] == Sha256(files[path])
  }

  /** The chunks of the files that are read, or of those that changed. */
  function NewChunks(t: Tables, files: map<string, string>, listed: seq<string>, force: bool): nat {
    if listed == [] then 0
    else
      var (front, path) := (listed[..|listed| - 1], listed[|listed| - 1]);
      NewChunks(t, files, front, force) +
        if path in files && (force || !IsUnchanged(t, files, path)) then |FileChunks(path, files[path], None)| else 0
  }

  lemma {:induction false} OthersKeepHash(t: Tables, files: map<string, string>, listed: seq<string>, force: bool,
    path: string)
    requires path !in listed
    ensures var after := FilesStep(t, files, listed, force).hashes;
      (path in after <==> path in t.hashes) && (path in after ==> after[path] == t.hashes[path])
  {
    hide Upserted, WithoutPaths, FileChunks, IsFresh;
    if listed != [] {
      OthersKeepHash(t, files, listed[..|listed| - 1], force, path);
    }
  }

  datatype Fate = Errored | Skipped | Indexed

  /** A file is an error if it cannot be read, skipped if unchanged and not forced, and indexed otherwise. */
  function FateOf(t: Tables, files: map<string, string>, path: string, force: bool): Fate {
    if path !in files then Errored else if !force && IsUnchanged(t, files, path) then Skipped else Indexed
  }

  function WithFate(t: Tables, files: map<string, string>, listed: seq<string>, force: bool, fate: Fate): set<nat> {
    set k: nat | k < |listed| && FateOf(t, files, listed[k], force) == fate
  }

  lemma {:induction false} FatesGrow(t: Tables, files: map<string, string>, listed: seq<string>, force: bool,
    fate: Fate)
    requires listed != []
    ensures var (front, n) := (listed[..|listed| - 1], |listed| - 1);
      |WithFate(t, files, listed, force, fate)| ==
        |WithFate(t, files, front, force, fate)| + if FateOf(t, files, listed[n], force) == fate then 1 else 0
  {
    hide FateOf;
    var (front, n) := (listed[..|listed| - 1], |listed| - 1);
    var (before, after) := (WithFate(t, files, front, force, fate), WithFate(t, files, listed, force, fate));
    forall k: nat | k < n ensures k in after <==> k in before {
      assert front[k] == listed[k];
    }
    var more: set<nat> := if FateOf(t, files, listed[n], force) == fate then {n} else {};
    assert n in after <==> n in more;
    assert after == before + more;
  }

  /** The counters are the numbers of files with each fate, and of the chunks of those indexed. */
  lemma {:induction false} TallyTells(t: Tables, files: map<string, string>, listed: seq<string>, force: bool)
    requires Distinct(listed)
    ensures var s := Tally(t, files, listed, force);
      && s.filesErrored == |WithFate(t, files, listed, force, Errored)|
      && s.filesSkipped == |WithFate(t, files, listed, force, Skipped)|
      && s.filesIndexed == |WithFate(t, files, listed, force, Indexed)|
      && s.chunksCreated == NewChunks(t, files, listed, force) && s.chunksDeleted == 0
  {
    hide FilesStep, FileChunks, WithFate;
    if listed == [] {
      NoFates(t, files, force);
    } else {
      var (front, n) := (listed[..|listed| - 1], |listed| - 1);
      TallyTells(t, files, front, force);
      OthersKeepHash(t, files, front, force, listed[n]);
      FatesGrow(t, files, listed, force, Errored);
      FatesGrow(t, files, listed, force, Skipped);
      FatesGrow(t, files, listed, force, Indexed);
    }
  }

  lemma {:induction false} NoFates(t: Tables, files: map<string, string>, force: bool)
    ensures forall fate :: WithFate(t, files, [], force, fate) == {}
  { }
}
