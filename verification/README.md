# Verified models of compound-agent

compound-agent keeps the lessons an AI coding agent learns, indexes a repository's documents, searches both, runs an
unattended loop over epics, and installs hooks and templates. These Dafny 4.11 modules model the parts of it that keep
state or transform data, and prove what they promise for every input and over every run.
`dafny verify dfyconfig.toml` checks everything.

| module | subject |
|---|---|
| Cosine, DisjointSets, Clustering | cosine similarity, union-find with path halving in a real array, single-linkage clustering |
| Text, Sections, Grouping, Chunking, ChunkWindows | the three document splitters, the greedy accumulator with its overlap, chunks as windows of a file |
| KnowledgeIndex | the hash-gated document index and its two tables |
| Listing, Lessons, LessonCommands | the append-only lesson log, its readers, compaction, and the commands that write it |
| LessonIndex | the table derived from the log, its row encoding, and when it is rebuilt |
| EmbeddingCache | batched embedding and the two hash-guarded vector columns |
| Harvest | background sessions, their worktrees, and when `claude rm` may run |
| EpicLoop | the main loop of the infinity-loop script: choice, retries, reviews, counters, exit code, dry runs |
| HookCommands, Hooks, HookSettings, HookProfiles, HookFallback | shell quoting, hook recognition, and reconciling a settings file with a profile, with and without a binary |
| Prune | recursive pruning of a template tree |
| PhaseGate, PhaseRuns | the phase file, its commands, the guard, reader and stop hooks, and what they say about the events of a run |
| Ranking | hybrid score blending, boosting and ranking |

Code that updates state is a class or a method with loops, proved equal to a specification function; the theorems are
lemmas about those functions. Nothing is assumed: SHA-256 is a free constructor (so injective), the square root is a
parameter `sqrt` with `IsSqrt(sqrt)`, float32 storage is a parameter `narrow` with `IsNarrowing(narrow)`, an embedding
model is any function of model name and text, and the environment of a run (git, sessions, file system, clock) is any
sequence of events.

## Findings

Where the code falls short of what it or its documentation promises, the model keeps the code, a lemma gives an input,
and another lemma says exactly when the promise holds.

- Incremental indexing differs from a rebuild exactly when a listed file that cannot be read still has rows
  (`IncrementalIsRebuild`, `UnreadableFileKeepsRows`); `--force` does not help.
- Compaction drops records that lack one of their three arrays, although readers accept them: `Compact` does not
  normalise before validating. It is invisible exactly when every such record left standing writes again what the last
  complete record before it wrote (`CompactionIsInvisible`, `BareRecordVanishes`).
- An update that blanks the insight or the trigger reports success and changes nothing (`UpdateTakesEffect`).
- `wrong` followed by `validate` loses an old invalidation reason (`WrongThenValidate`).
- The row encoding of a lesson is undone exactly for tags that are comma-free and not one empty string, and for
  options that are not zero (`RowRoundTrip`); ReadAll agrees with the log exactly when all its rows are of this kind
  (`SyncedReadsAreLiveIff`).
- A sync leaves stale rows exactly when the log file is gone, it is not forced and the table is not empty
  (`SyncedTableIsFreshIff`, `RemovedLogLeavesRows`).
- `claude rm` can remove unmerged work when git finds the repository but `git worktree list` fails, which reads as no
  worktree at all: over every run exactly when that happens about a session that has a snapshot and unmerged work
  (`NothingIsLostIff`, `ListFailureLosesWorktree`). When git fails altogether, no snapshot is found and nothing is
  removed. That theorem takes new worktrees as not hidden by a snapshot. They can be: worktrees are compared by
  substring and by the first blank-delimited field of their path, and `DiffIsExact` says when that comparison is right
  (`HiddenWorktreeIsLostIff`, `SubstringHidesWorktree`, `BlankHidesWorktree`).
- The comments on `agent_cleanup` promise a refusal when the snapshot is missing. It is reached exactly when moreover
  git does not list the worktrees, because otherwise the main worktree itself counts as new (`RefusalIff`).
- Ready epics beyond the tenth listed are not looked at, so the loop can end with eligible epics left
  (`EligibleEpicIsMissed`); with at most ten, or with epics named by the user, it cannot (`NoneFoundMeansNoneIff`).
- A failing dispatch ends the script before its final review. With reviewers configured, the epics completed since the
  last full period are then never reviewed, and all others exactly once (`CompletedAreReviewedIff`,
  `CompletedEpicIsUnreviewed`).
- Hook reconciliation is a fixpoint exactly when no hook left to the user calls npx again after its first call: the
  upgrade rewrites one call a run (`SettingsFixpointIff`, `TwoCallsMove`). A binary path with a single quote is never
  recognised again (`RecognisedIffUnquoted`).
- Without a binary, old direct commands are kept, and reconciling is a fixpoint exactly unless the first command
  recognised as the post-tool-success hook is also recognised as the post-read hook and stands beside another one
  that is: the first run then drops it and the second installs the npx command (`FallbackFixpointIff`,
  `TangledHooksMove`).
- `CleanPhaseStateIfFinal` waits for a stored "final" gate, which no run stores (`CleanIfFinalNeverFires`).

## Model

| member | source | states |
|---|---|---|
| Cosine.CosineSimilarity | go/internal/util/cosine.go:11-28 | unequal lengths are an error; otherwise the loop's three sums give the dot product over the product of the norms, 0 for a zero vector |
| Cosine.CauchySchwarz | go/internal/util/cosine.go:16-27 | the squared dot product is at most the product of the squared norms, for vectors of any length |
| Cosine.DotAdds | go/internal/util/cosine.go:16-21 | the dot product of single coordinates is their product, and that of vectors put together the sum |
| Cosine.SimilarityTimesLengths | go/internal/util/cosine.go:23-27 | the similarity times both lengths is the dot product, sign included, so opposite vectors differ from equal ones |
| Cosine.SimilarityInRange | go/internal/util/cosine.go:11-28 | similarity lies in [-1, 1] |
| Cosine.SimilaritySymmetric | go/internal/util/cosine.go:11-28 | swapping the vectors does not change the similarity |
| Cosine.SelfSimilarity | go/internal/util/cosine.go:11-28 | a non-zero vector has similarity 1 with itself, a zero vector 0 |
| DisjointSets.DisjointSet.constructor | go/internal/compound/compound.go:100-104 | every element starts as its own root, and no union has joined anything |
| DisjointSets.DisjointSet.Find | go/internal/compound/compound.go:106-113 | returns the element's root and terminates; path halving changes no element's root |
| DisjointSets.DisjointSet.Union | go/internal/compound/compound.go:115-121 | the two classes get one root and no other element changes class; the number of joins grows exactly when the roots differed |
| DisjointSets.ParentsLeadToRoot | go/internal/compound/compound.go:107-113 | climbing from any element reaches its root in finitely many steps |
| DisjointSets.RootsAreUnique | go/internal/compound/compound.go:107-113 | in an acyclic forest each element leads to one root |
| DisjointSets.HalvingKeepsForest | go/internal/compound/compound.go:108-111 | pointing an element at its grandparent leaves an acyclic forest with the same roots |
| DisjointSets.HangingKeepsForest | go/internal/compound/compound.go:118-120 | hanging one root below another leaves an acyclic forest |
| DisjointSets.HangingDropsOneRoot | go/internal/compound/compound.go:118-120 | a union of two classes removes exactly one root, so roots plus joins stay n |
| Clustering.BuildSimilarityMatrix | go/internal/compound/compound.go:51-70 | entry (i, j) is the similarity of i and j, 1 on the diagonal, filled by halves |
| Clustering.MatrixShape | go/internal/compound/compound.go:51-70 | the matrix is symmetric, has a unit diagonal and entries in [-1, 1] |
| Clustering.UnionAddsEdge | go/internal/compound/compound.go:115-129 | a union keeps the classes equal to the connected components of the graph with one more edge |
| Clustering.JoinSimilar | go/internal/compound/compound.go:123-129 | after the double loop the classes are the components of the threshold graph |
| Clustering.BuildClusters | go/internal/compound/compound.go:73-89 | groups of two or more are clusters, single items noise; there are n minus joins of them |
| Clustering.SplitGroups | go/internal/compound/compound.go:80-88 | the groups, walked in any order, split into clusters and noise, each label once |
| Clustering.ClusterBySimilarity | go/internal/compound/compound.go:92-132 | clusters are exactly the components of at least two items, each item once and in index order; noise is exactly the isolated items |
| Clustering.SimilarShareCluster | go/internal/compound/compound.go:92-132 | two lessons at least as similar as the threshold are in one cluster; embeddings of different lengths count as orthogonal |
| Clustering.NoiseIsDissimilar | go/internal/compound/compound.go:73-132 | a lesson is noise exactly when no other reaches the threshold with it |
| Clustering.ClusteringIsUnique | go/internal/compound/compound.go:73-89 | two clusterings of one graph have the same groups of indices |
| Clustering.ResultIsUnique | go/internal/compound/compound.go:73-132 | the result does not depend on map iteration order, up to the order of clusters and noise |
| Text.SplitJoin | go/internal/knowledge/chunking.go:165-171 | splitting joined text gives the parts back when none holds the separator |
| Text.JoinSplit | go/internal/knowledge/chunking.go:165-171 | joining split text gives the text back |
| Text.TrimSpaceIs | go/internal/knowledge/chunking.go:66-68 | trimming takes off exactly the blanks at both ends |
| Text.Utf8RoundTrip | go/internal/knowledge/chunking.go:155-156 | the bytes counted for a character are those of its UTF-8 encoding (RFC 3629, section 3), which gives the character back |
| Text.ByteLenIsUtf8 | go/internal/knowledge/chunking.go:173-182 | the length of a text is that of its UTF-8 encoding |
| Sections.SplitMarkdown | go/internal/knowledge/chunking.go:198-246 | the loop's sections are those of a reference definition that decides each cut from the lines around it |
| Sections.SplitCode | go/internal/knowledge/chunking.go:257-285 | likewise for code: a cut at a blank line before a line that is not blank |
| Sections.SplitParagraphs | go/internal/knowledge/chunking.go:287-306 | likewise for paragraphs |
| Sections.SplitIntoSections | go/internal/knowledge/chunking.go:185-196 | the splitter of the file's extension |
| Sections.SectionsTile | go/internal/knowledge/chunking.go:185-306 | for all three splitters the sections are not empty and, put together, are the numbered lines of the file |
| Sections.SectionsBeginIff | go/internal/knowledge/chunking.go:198-306 | a section begins at the first line and exactly where the splitter has a reason: a blank line, one with text to follow, the end of a paragraph or a heading with an even number of fences before it |
| Sections.HeadingMatches | go/internal/knowledge/chunking.go:62-254 | a heading is exactly two or more hashes followed by white space |
| Sections.FenceStarts | go/internal/knowledge/chunking.go:248-250 | a fence delimiter is exactly three backticks after any blanks and tabs |
| Sections.UncutLinesShareSection | go/internal/knowledge/chunking.go:185-306 | a run of lines with no cut inside lies whole in one section |
| Sections.FencedBlockUncut | go/internal/knowledge/chunking.go:198-250 | no cut falls inside a fenced block |
| Grouping.EndsCutGreedily | go/internal/knowledge/chunking.go:103-127 | every group is as long as the target allows, and exceeds it only when one section alone does |
| Chunking.SectionTextLen | go/internal/knowledge/chunking.go:173-182 | the byte length of the section's joined text |
| Chunking.TextLenIsBytes | go/internal/knowledge/chunking.go:173-182 | the length compared with the target is that of the joined text in bytes |
| Chunking.CostIsBytes | go/internal/knowledge/chunking.go:153-160 | the length compared with the overlap is that of the joined lines and one newline more |
| Chunking.OverlapIsLongest | go/internal/knowledge/chunking.go:148-162 | the carried overlap is the longest suffix that fits, or exactly one line |
| Chunking.EmitChunk | go/internal/knowledge/chunking.go:129-163 | one more chunk of overlap plus own lines; nothing for no lines; the overlap for the next chunk |
| Chunking.FlushIfFull | go/internal/knowledge/chunking.go:106-110 | emits what is accumulated exactly when the next section does not fit |
| Chunking.TakeAndEmit | go/internal/knowledge/chunking.go:112-119 | takes the section, and emits exactly when the target is exceeded |
| Chunking.BuildChunks | go/internal/knowledge/chunking.go:97-127 | the accumulator emits one chunk for each greedy group of sections, led by the overlap of the group before |
| ChunkWindows.ChunkFile | go/internal/knowledge/chunking.go:65-94 | blank and binary files have no chunks; other files the chunks of their sections with resolved sizes |
| ChunkWindows.NoChunksIff | go/internal/knowledge/chunking.go:65-71 | exactly blank files and files with a NUL have no chunks |
| ChunkWindows.SplitterByExtension | go/internal/knowledge/chunking.go:185-196 | the text after the last dot, in any case, decides the splitter: md, one of the five code extensions, or anything else |
| ChunkWindows.SizesAreTheCallers | go/internal/knowledge/chunking.go:82-94 | files are cut greedily at the caller's target and overlap by the caller's overlap; 1600 and 320 stand in for none and for sizes that are not positive |
| ChunkWindows.ChunksFillTarget | go/internal/knowledge/chunking.go:103-127 | own sections of a chunk exceed the target only when one section alone does, and a chunk never ends early |
| ChunkWindows.ChunksTileFile | go/internal/knowledge/chunking.go:65-163 | every chunk's text is exactly its lines StartLine..EndLine; without overlaps the chunks tile the file in order, for every splitter and size |
| ChunkWindows.EndsIncrease | go/internal/knowledge/chunking.go:97-163 | end lines strictly increase |
| ChunkWindows.ChunkIdsDistinct | go/internal/knowledge/chunking.go:44-48 | no two chunks of a file share an ID; each carries its path, an ID of path and lines, and the hash of its text |
| ChunkWindows.ReassembleGivesContent | go/internal/knowledge/chunking.go:65-171 | chunking loses nothing: the chunks alone give the file back |
| ChunkWindows.FencedBlockInOneChunk | go/internal/knowledge/chunking.go:97-250 | a fenced code block lies whole in the own lines of one chunk, for every markdown file and size |
| KnowledgeIndex.KnowledgeDB.UpsertChunks | go/internal/storage/knowledge_db.go:196-224 | inserts or replaces row by row |
| KnowledgeIndex.KnowledgeDB.DeleteChunksByFilePath | go/internal/storage/knowledge_db.go:227-251 | exactly the rows of the given paths go |
| KnowledgeIndex.KnowledgeDB.GetIndexedFilePaths | go/internal/storage/knowledge_db.go:268-287 | each path with a row, once |
| KnowledgeIndex.KnowledgeDB.SetFileHash | go/internal/storage/knowledge_db.go:306-309 | one hash is set, the others stay |
| KnowledgeIndex.KnowledgeDB.RemoveFileHash | go/internal/storage/knowledge_db.go:312-315 | one hash goes, the others stay |
| KnowledgeIndex.IndexSingleFile | go/internal/knowledge/indexing.go:83-110 | unreadable, fresh and indexed files, with tables and result for each |
| KnowledgeIndex.IndexFiles | go/internal/knowledge/indexing.go:67-79 | tables and counters after all files |
| KnowledgeIndex.SyncDeletedFiles | go/internal/knowledge/indexing.go:132-161 | rows and hashes of unlisted paths go; the count is exactly the rows removed |
| KnowledgeIndex.CountWithout | go/internal/storage/knowledge_db.go:227-265 | deleting a path takes away exactly as many rows as the count of that path said it had |
| KnowledgeIndex.IndexDocs | go/internal/knowledge/indexing.go:32-63 | the whole call, with rows before deletion conserved as rows kept plus rows counted deleted |
| KnowledgeIndex.ReplaceAddsEveryChunk | go/internal/storage/knowledge_db.go:206-221 | replacing a file adds exactly one row a chunk: the replace never overwrites |
| KnowledgeIndex.IndexStepAt | go/internal/knowledge/indexing.go:32-161 | the rows of any path after a call: its fresh chunks, its old rows if unreadable, none if unlisted |
| KnowledgeIndex.RunIsFaithful | go/internal/knowledge/indexing.go:83-161 | over every run a stored hash implies that the file's rows are exactly the chunks of the content with that hash |
| KnowledgeIndex.IncrementalIsRebuild | go/internal/knowledge/indexing.go:32-161 | after every run the table equals one built from scratch if and only if no unreadable listed file had rows |
| KnowledgeIndex.UnreadableFileKeepsRows | go/internal/knowledge/indexing.go:84-88 | the input on which they differ, even with force |
| KnowledgeIndex.EveryFileCounted | go/internal/knowledge/indexing.go:67-79 | indexed, skipped and errored add up to the files listed, and errored is 0 exactly when all can be read |
| KnowledgeIndex.TallyTells | go/internal/knowledge/indexing.go:67-110 | each file is an error if unreadable, skipped if unchanged and not forced, and indexed otherwise; the counters count these and the new chunks |
| KnowledgeIndex.SecondRunIsSilent | go/internal/knowledge/indexing.go:90-93 | a second call over unchanged files indexes nothing and changes neither table |
| Listing.DeduplicateAndSort | go/internal/memory/jsonl.go:103-114 | the one listing of the map by creation time and ID, whatever order the map is ranged in |
| Listing.ListingIsUnique | go/internal/memory/jsonl.go:103-114 | two ascending listings of the same items are equal |
| Listing.ListedByTimeThenId | go/internal/memory/jsonl.go:103-114 | earlier creation times come first, and smaller IDs among equal ones |
| Listing.FirstDifferenceDecides | go/internal/memory/jsonl.go:108-113 | strings compare by their first difference, and a proper prefix is smaller |
| Lessons.LessonLog.AppendItem | go/internal/memory/jsonl.go:27-50 | one record more, with its arrays filled in |
| Lessons.LessonLog.ReadItems | go/internal/memory/jsonl.go:55-100 | the sorted live items, the IDs ever deleted, and the count of records skipped |
| Lessons.LessonLog.CountTombstones | go/internal/memory/compact.go:25-57 | the records that say deleted |
| Lessons.LessonLog.NeedsCompaction | go/internal/memory/compact.go:60-66 | asks for a compaction from 100 records on that say deleted |
| Lessons.LessonLog.ParseCompactRecords | go/internal/memory/compact.go:110-141 | the map compaction keeps, and its counters |
| Lessons.LessonLog.Compact | go/internal/memory/compact.go:70-106 | the log becomes the sorted encoding of the kept map; the counters are those of the old log |
| Lessons.AcceptedRecords | go/internal/memory/types.go:125-186 | which records readers accept, with every type, source and severity spelled out, the item each gives, and that compaction asks for the arrays as well |
| Lessons.CountersTell | go/internal/memory/compact.go:25-179 | the counters are the numbers of records that say deleted, that readers skip, and that compaction drops, each kind spelled out |
| Lessons.LastWriteWins | go/internal/memory/jsonl.go:70-96 | an item is live exactly when the last record about its ID writes it |
| Lessons.LastFullWriteIsKept | go/internal/memory/compact.go:110-179 | compaction keeps an item exactly when the last record about its ID that is not bare writes it |
| Lessons.CompactionIsInvisible | go/internal/memory/compact.go:70-179 | readers see the same sorted items after compaction if and only if every bare record left standing writes again what the last record before it that is not bare wrote |
| Lessons.FullRecordsAreHarmless | go/internal/memory/compact.go:166-179 | always so for records that carry their three arrays |
| Lessons.BareRecordVanishes | go/internal/memory/compact.go:166-179 | a legacy record without tags is read before compaction and gone after it |
| Lessons.CompactIsIdempotent | go/internal/memory/compact.go:70-106 | a second compaction changes nothing, and a compacted log has no tombstone, no skipped record and no deleted ID |
| Lessons.NeededAgainIff | go/internal/memory/compact.go:60-106 | after a compaction another is asked for exactly when the records appended since hold 100 that say deleted |
| Lessons.CompactCommutesWithAppends | go/internal/memory/compact.go:70-179 | compacting before or after later appends gives the same log, and under the same condition the same live items |
| LessonCommands.DedupTagsLoop | go/internal/cli/commands_crud.go:418-430 | the distinct trimmed tags in order of first appearance |
| LessonCommands.CommandLineTagsArePlain | go/internal/cli/commands_crud.go:418-430 | tags given on the command line have no comma and are not empty, so the derived table keeps them |
| LessonCommands.DistinctTagsAre | go/internal/cli/commands_crud.go:418-430 | exactly the parts that are not blank, trimmed, each where it first appears |
| LessonCommands.RunUpdate | go/internal/cli/commands_crud.go:170-204 | when an update is refused, and the one record it appends otherwise |
| LessonCommands.FindItem | go/internal/cli/commands_crud.go:409-416 | the live item with this ID, found in the listing |
| LessonCommands.RunWrong | go/internal/cli/commands_crud.go:315-360 | appends the invalidated item exactly when it is live and not invalidated |
| LessonCommands.RunValidate | go/internal/cli/commands_crud.go:366-405 | appends the re-enabled item exactly when it is live and invalidated |
| LessonCommands.ProcessDeleteIDs | go/internal/cli/commands_crud.go:224-260 | tombstones for the live IDs among those given, each ID reported deleted or missing |
| LessonCommands.UpdateTakesEffect | go/internal/cli/commands_crud.go:147-168 | the live items change as asked exactly when neither insight nor trigger is blanked |
| LessonCommands.UpdatedFields | go/internal/cli/commands_crud.go:148-168 | after an update that takes effect a reader sees each given flag in its own field, and every other field and lesson as before |
| LessonCommands.RefusedFlags | go/internal/cli/commands_crud.go:116-145 | an update is refused exactly without any flag or with a severity that is not one of three |
| LessonCommands.StampedFields | go/internal/cli/commands_crud.go:300-380 | `wrong` stores time and reason, `validate` clears both, and nothing else changes |
| LessonCommands.TombstoneKeepsLesson | go/internal/cli/commands_crud.go:224-250 | a deletion appends the lesson itself, marked deleted, with the time |
| LessonCommands.WrongThenValidate | go/internal/cli/commands_crud.go:315-405 | the pair gives the live items back exactly when the item carried no old reason |
| LessonCommands.DeletesThem | go/internal/cli/commands_crud.go:224-260 | deleting removes exactly the given live IDs |
| LessonCommands.RunIsPlainMap | go/internal/cli/commands_crud.go:147-405 | over every run of commands and compactions the live items are a plain last-write-wins map |
| LessonCommands.CompactionsDoNotShow | go/internal/memory/compact.go:70-106 | a compaction anywhere in a run changes no reader's view, then or later |
| LessonIndex.TagsRoundTrip | go/internal/storage/search.go:267-272 | the comma-separated column gives tags back exactly when they are comma-free and not one empty tag |
| LessonIndex.RowKeepsTheRest | go/internal/storage/search.go:256-356 | what a row gives back: all but tags, deletion time, a false deletion flag and zero options is unchanged |
| LessonIndex.RowRoundTrip | go/internal/storage/sync.go:85-120 | the row encoding is undone if and only if the item has such tags, arrays and options |
| LessonIndex.SearchDB.RebuildIndex | go/internal/storage/sync.go:26-63 | the table becomes the rows of the live items; the mtime is stored when there is a file |
| LessonIndex.SearchDB.SyncIfNeeded | go/internal/storage/sync.go:66-83 | exactly when it rebuilds, and what it leaves |
| LessonIndex.SyncsWhenWritten | go/internal/storage/sync.go:66-83 | a sync after a sync rebuilds nothing unless forced, and one after a write always rebuilds |
| LessonIndex.SearchDB.ReadAll | go/internal/storage/search.go:124-141 | each row that is not invalidated, once, as its row gives it back |
| LessonIndex.RunStaysInStep | go/internal/storage/sync.go:26-83 | over every run, a table synced no earlier than the log was written is the log's table |
| LessonIndex.SyncedTableIsFreshIff | go/internal/storage/sync.go:66-83 | after every run a sync leaves exactly the log's rows if and only if there is a log file, it is forced, or the table was empty |
| LessonIndex.RemovedLogLeavesRows | go/internal/storage/sync.go:67-70 | without a log file and without force the old rows stay |
| LessonIndex.ReadsExactlyIff | go/internal/storage/search.go:124-141 | ReadAll on a rebuilt table gives exactly the live items that are not invalidated, if and only if each of those survives the row encoding |
| LessonIndex.SyncedReadsAreLiveIff | go/internal/storage/search.go:124-141 | after every run and such a sync, ReadAll gives exactly the log's items that are not invalidated, if and only if each of those survives the row encoding |
| LessonIndex.StaleReadsStay | go/internal/storage/sync.go:67-70 | in every other case the log has no items and searches still read whatever the table held |
| EmbeddingCache.EmbedBatched | go/internal/search/vector.go:28-46 | batching is embedding element by element; it fails exactly on a daemon that takes fewer than min(count, 64) texts |
| EmbeddingCache.DefaultDaemonTakesAll | go/internal/search/vector.go:17-46 | batches fit a daemon that takes 64 texts, and only as many as it takes fit a smaller one |
| EmbeddingCache.EqualHashEqualText | go/internal/storage/cache.go:25-28 | equal hashes imply the same model and the same embedded text, in both columns, for model names without a colon |
| EmbeddingCache.HitIsCurrent | go/internal/search/vector.go:79-86 | a cache hit is what embedding the item's present text gives, as stored |
| EmbeddingCache.VectorDB.SetCached | go/internal/storage/cache.go:66-135 | only a row that exists is written, and only in its own column |
| EmbeddingCache.VectorDB.Rebuild | go/internal/storage/sync.go:38-52 | a rebuild clears both cached columns |
| EmbeddingCache.ResolveEmbeddings | go/internal/search/vector.go:68-104 | one vector an item, cached or new; the column afterwards; failure exactly when the misses do not fit the daemon, and then nothing is written |
| EmbeddingCache.FindMisses | go/internal/search/vector.go:257-270 | the items without a current hash, with the texts to embed |
| EmbeddingCache.WriteMisses | go/internal/search/vector.go:97-100 | every new vector goes to its item and, for rows that exist, to the column |
| EmbeddingCache.RunStaysSound | go/internal/search/vector.go:68-288 | over every run of rebuilds and searches each entry holds what its hash stands for |
| EmbeddingCache.AnswersAreCurrent | go/internal/search/vector.go:68-288 | after every run both resolvers answer what embedding each item's present text would, trigger and insight in one column and the insight in the other, up to float32 storage |
| EmbeddingCache.ShippedAnswersAreCurrent | go/internal/search/vector.go:68-288 | in particular whenever all searches use the shipped model, whose name has no colon |
| EmbeddingCache.SecondSearchEmbedsNothing | go/internal/search/vector.go:79-104 | a second search over the same items has no misses |
| EmbeddingCache.RepeatedSearchIsWarm | go/internal/search/vector.go:68-104 | in any run a search the daemon can serve leaves nothing to embed for its repetition, and one it refuses changes nothing |
| Harvest.DiffIsExact | go/internal/cli/commands_scripts.go:1498-1508 | the snapshot comparison finds exactly the new worktrees if and only if no snapshot line contains a new one's first field |
| Harvest.HasNewWorktree | go/internal/cli/commands_scripts.go:504-513 | the loop with its early exit agrees with the full comparison |
| Harvest.FindNewWorktrees | go/internal/cli/commands_scripts.go:1498-1508 | all new paths, in order |
| Harvest.BranchOfPath | go/internal/cli/commands_scripts.go:1543-1546 | the branch to merge is named after the last component of the path |
| Harvest.LadderTakesAway | go/internal/cli/commands_scripts.go:653-741 | the kill ladder leaves everything as it was, or takes away exactly the session, its worktrees and its snapshot |
| Harvest.HarvestTakesAway | go/internal/cli/commands_scripts.go:1530-1582 | a merge adds its branch and takes away exactly the session, its worktrees and, if it is found, its snapshot; a clean-up without a merge keeps the snapshot |
| Harvest.Host.SweepOne | go/internal/cli/commands_scripts.go:470-528 | one orphan: skipped, kept, or removed with its snapshot; kept as well when git does not find the repository |
| Harvest.Host.AgentDispatch | go/internal/cli/commands_scripts.go:1248-1284 | the snapshot holds the worktrees from before the dispatch, none when git fails to list them; none is kept if its file cannot be located or written |
| Harvest.Host.BgKillLadder | go/internal/cli/commands_scripts.go:653-741 | the session and its snapshot go only when git finds the repository and a snapshot in it that shows no new worktree |
| Harvest.Host.CleanupOrphans | go/internal/cli/commands_scripts.go:449-531 | the same test for each stale session that is neither active nor terminal |
| Harvest.Host.AgentCleanup | go/internal/cli/commands_scripts.go:1474-1582 | the five outcomes, with the world and MARKER each leaves, whichever of the two calls to git fail |
| Harvest.CleanupDecides | go/internal/cli/commands_scripts.go:1474-1582 | a session is removed only with a snapshot that is found and no new worktree, or once its single new worktree is merged; otherwise nothing changes; the marker left in each case |
| Harvest.LadderLosesIff | go/internal/cli/commands_scripts.go:653-741 | the kill ladder loses nothing if and only if the session is terminal, git lists the worktrees, git does not find the repository, there is no snapshot, or the session has no unmerged work |
| Harvest.SweepLosesIff | go/internal/cli/commands_scripts.go:449-531 | the same for each session an orphan sweep reaches, whose list may fail by itself |
| Harvest.CleanupLosesIff | go/internal/cli/commands_scripts.go:1474-1582 | the clean-up loses nothing if and only if git lists the worktrees, git does not find the repository, there is no snapshot, or the session has no unmerged work |
| Harvest.NothingIsLostIff | go/internal/cli/commands_scripts.go:449-1582 | over every run of dispatches, ladders, sweeps, clean-ups and user actions no worktree is removed before its branch is merged, if and only if every removal meets these conditions; given new handles, and new worktrees that no snapshot hides |
| Harvest.NothingIsLost | go/internal/cli/commands_scripts.go:449-1582 | in particular nothing is lost over every run in which git, when asked, lists the worktrees or fails altogether |
| Harvest.CompleteMeansMerged | go/internal/cli/commands_scripts.go:1547-1582 | when the marker is still complete after clean-up, every worktree of the session is merged, if git lists the worktrees or fails altogether |
| Harvest.RefusalIff | go/internal/cli/commands_scripts.go:1518-1528 | the documented refusal is reached if and only if no snapshot is found and git does not list the worktrees, since otherwise the main worktree itself counts as new |
| Harvest.HiddenWorktreeIsLostIff | go/internal/cli/commands_scripts.go:503-741 | after a user worktree, a dispatch and the session's own worktree, the kill ladder loses that one if and only if its first field is part of an older one's, for all paths |
| Harvest.SubstringHidesWorktree | go/internal/cli/commands_scripts.go:505-511 | a run in which a new worktree whose path is part of a listed one is lost |
| Harvest.BlankHidesWorktree | go/internal/cli/commands_scripts.go:503-511 | a run in which one under a directory with a blank is |
| Harvest.ListFailureLosesWorktree | go/internal/cli/commands_scripts.go:1487-1536 | runs in which a clean-up loses a worktree because git finds the repository but fails to list; when git fails altogether it refuses |
| EpicLoop.MentionsIsMembership | go/internal/cli/commands_scripts.go:822-823 | the textual test on PROCESSED is membership, for IDs without blanks |
| EpicLoop.GetNextEpic | go/internal/cli/commands_scripts.go:820-863 | the first epic looked at that is unprocessed, open when named, and has its dependencies closed |
| EpicLoop.NoneLeftMeansNoneEligible | go/internal/cli/commands_scripts.go:820-863 | no epic is found if and only if none of the named, or of the first ten ready, is eligible |
| EpicLoop.NoneFoundMeansNoneIff | go/internal/cli/commands_scripts.go:832-863 | for n epics, finding none means that none at all is eligible if and only if they were named or n is at most ten |
| EpicLoop.EligibleEpicIsMissed | go/internal/cli/commands_scripts.go:832-863 | ten ready epics with open dependencies hide an eligible epic listed after them |
| EpicLoop.ProcessEpic | go/internal/cli/commands_scripts.go:2366-2542 | the retry loop reaches the verdict of the first decisive attempt; a dry run only previews |
| EpicLoop.FirstDecisiveAttempt | go/internal/cli/commands_scripts.go:2512-2542 | an epic is given up exactly when no attempt was decisive; a verdict comes from the first that was |
| EpicLoop.PeriodicTrigger | go/internal/cli/commands_scripts_review.go:150-160 | after a completed epic a review runs exactly when the period is full, over what follows the last one; a blocking one ends the script |
| EpicLoop.FinalTrigger | go/internal/cli/commands_scripts_review.go:162-176 | after the loop whatever is left is reviewed, if an epic was completed in it |
| EpicLoop.RunLoop | go/internal/cli/commands_scripts.go:2257-2586 | terminates for finitely many epics, dry or not; each turn's epic and verdict; no epic twice; all reviews and their ranges; counters, PROCESSED, reason to stop and exit code |
| EpicLoop.TurnTakesFirst | go/internal/cli/commands_scripts.go:820-863 | each turn takes the first epic listed that is unprocessed, has its dependencies closed and, if named, is open, among the first ten unless named |
| EpicLoop.CountersTell | go/internal/cli/commands_scripts.go:2549-2573 | the counters are the numbers of epics that completed, needed a human and failed |
| EpicLoop.EveryEpicCounted | go/internal/cli/commands_scripts.go:2549-2573 | completed, skipped, failed and previewed add up to the processed epics |
| EpicLoop.DispatchesAreBounded | go/internal/cli/commands_scripts.go:2366-2542 | at most MAX_RETRIES + 1 dispatches an epic, none in a dry run; a failed epic has used them all and is the last |
| EpicLoop.ExitCodeTells | go/internal/cli/commands_scripts.go:2581-2586 | 1 exactly when something failed or a review blocked, 2 exactly when the epics ran out with none completed, 0 otherwise |
| EpicLoop.CompletedAreReviewedIff | go/internal/cli/commands_scripts_review.go:142-178 | every completed epic lies in a review if and only if no failing dispatch ended the script, or none was completed since the last period; it never lies in two, and there is one review a period |
| EpicLoop.CompletedEpicIsUnreviewed | go/internal/cli/commands_scripts_review.go:142-178 | a run whose second dispatch fails leaves its first, completed epic unreviewed, for every period but one epic |
| EpicLoop.DryRunPreviews | go/internal/cli/commands_scripts.go:2382-2386 | a dry run dispatches and reviews nothing, exits 2 unless memory runs out, and previews exactly the epics it looks at and could take |
| HookCommands.ShellEscapeRoundTrip | go/internal/util/shellescape.go:9-11 | the shell reads an escaped string back as that one string, whatever is in it (POSIX.1-2017 Shell Command Language, section 2.2.2) |
| HookCommands.NormalizeUndoesEscape | go/internal/setup/settings.go:239-256 | a command of a quote-free path normalises to its verb |
| HookCommands.NormalizeUndoesNpx | go/internal/setup/settings.go:239-243 | so does an npx command |
| HookCommands.NormalizeUndoesDirect | go/internal/setup/settings.go:239-256 | so does a direct command by name or by a path without blanks |
| HookCommands.RecognisedIffUnquoted | go/internal/setup/settings.go:239-266 | an installed command carries its own marker if and only if its path has no single quote |
| HookCommands.ForeignMarkerAbsent | go/internal/setup/settings.go:258-266 | it carries no marker found in neither path nor verb |
| HookCommands.UpgradeChanges | go/internal/setup/settings.go:358-361 | an upgrade leaves a command unchanged exactly when it calls no npx |
| HookCommands.UpgradedIs | go/internal/setup/settings.go:358-361 | an upgrade puts the quoted path in place of the first npx call and touches nothing else |
| HookCommands.UpgradedCallsIff | go/internal/setup/settings.go:358-361 | an upgraded command still calls npx if and only if there was a call after its first |
| Hooks.FilterHookEntries | go/internal/setup/settings.go:282-331 | the kept entries, the number of managed hooks, and the first managed command |
| Hooks.FlatFiltered | go/internal/setup/settings.go:282-331 | filtering keeps exactly the unmanaged hooks, in order |
| Hooks.EntriesRemain | go/internal/setup/settings.go:282-331 | an entry stays as it is but for its managed hooks, and goes exactly when it loses all its hooks |
| Hooks.FilteredTwice | go/internal/setup/settings.go:282-331 | filtering by two marker sets is filtering by both at once |
| Hooks.ReconciledIs | go/internal/setup/settings.go:377-414 | the passes over one array amount to one filter and one appended entry a spec |
| Hooks.FixpointIff | go/internal/setup/settings.go:377-414 | reconciling an array twice is reconciling it once if and only if no user hook calls npx after the upgrade |
| Hooks.NoNpxLeftIff | go/internal/setup/settings.go:336-365 | which is so if and only if, before it, none of the hooks left to the user calls npx again after its first call |
| Hooks.OneHookEach | go/internal/setup/settings.go:387-414 | one hook for each spec in the profile and none for a spec outside it |
| Hooks.UserHooksKept | go/internal/setup/settings.go:377-414 | the user's hooks stay in order before the installed ones |
| HookSettings.Settings.UpgradeNpxHooks | go/internal/setup/settings.go:336-365 | every managed type's array is upgraded, and created when it is missing or no array |
| HookSettings.Settings.RemoveOutOfProfileHooks | go/internal/setup/settings.go:387-399 | each type loses the hooks of its specs outside the profile |
| HookSettings.Settings.InstallInProfileHooks | go/internal/setup/settings.go:403-414 | each type gets the hooks of its specs in the profile, keeping an old direct command when there is no binary |
| HookSettings.Settings.DropEmptyHookArrays | go/internal/setup/settings.go:418-425 | exactly the empty arrays go |
| HookSettings.Settings.AddHooksForProfile | go/internal/setup/settings.go:377-383 | the slot of each hook type after the four passes |
| HookSettings.TableIsApart | go/internal/setup/settings.go:49-106 | for a plain path every command of the table carries its own marker and no other of its type |
| HookSettings.SettingsFixpointIff | go/internal/setup/settings.go:377-425 | reconciling a settings file is idempotent if and only if no hook left to the user calls npx again after its first call |
| HookSettings.TwoCallsMove | go/internal/setup/settings.go:336-365 | a settings file with one stop hook that calls npx twice changes again in the second run, for every profile and plain path |
| HookSettings.ExactlyTheProfile | go/internal/setup/settings.go:377-414 | each spec in the profile has exactly one hook of its type, each spec outside it none |
| HookSettings.HasAllHooksForProfile | go/internal/setup/settings.go:435-451 | whether every spec of the profile has a hook |
| HookSettings.HooksHaveOutOfProfileEntries | go/internal/setup/settings.go:455-472 | whether a spec outside the profile has one |
| HookSettings.HooksNeedDedupe | go/internal/setup/settings.go:523-539 | whether a spec has more than one |
| HookSettings.ReconciledIsSettled | go/internal/setup/settings.go:377-539 | after reconciling with a plain path, has-all holds and needs-dedupe and out-of-profile fail |
| HookSettings.UserHooksUntouched | go/internal/setup/settings.go:377-414 | user hooks without npx calls are unchanged and in order |
| HookProfiles.MatchesByProfile | go/internal/setup/profile.go:33-67 | with every marker spelled out: the prime and user-prompt hooks are there once in every profile, the five workflow hooks once except in minimal |
| HookProfiles.WrittenByProfile | go/internal/setup/settings.go:49-106 | the very entries written for each type and profile, matcher and command spelled out, after the user's; no empty array is left |
| HookProfiles.SettledIff | go/internal/setup/settings.go:435-539 | has-all holds and the other two tests fail exactly when every hook of the profile is there once and no other |
| HookFallback.OneSpecIsStable | go/internal/setup/settings.go:403-414 | without a binary, installing one spec twice is installing it once: an old direct command is found and kept again |
| HookFallback.BothFixpointIff | go/internal/setup/settings.go:403-414 | installing two specs of one type twice is installing them once if and only if they are not entangled: the first command of one also carries the other's marker, and so does another hook |
| HookFallback.FallbackFixpointIff | go/internal/setup/settings.go:377-425 | without a binary, reconciling a settings file is idempotent if and only if the two PostToolUse specs are outside the profile or not entangled |
| HookFallback.TangledHooksMove | go/internal/setup/settings.go:403-414 | a settings file with two hooks of the former script that changes again in the second run |
| Prune.FileTree.PruneManagedSubtree | go/internal/setup/primitives.go:751-781 | the recursive walk leaves exactly what survives and terminates; its count is the number of removals |
| Prune.FileTree.PruneEntry | go/internal/setup/primitives.go:784-810 | one entry: skipped, walked, removed or kept, and how many removals that takes |
| Prune.FileTree.PruneDir | go/internal/setup/primitives.go:738-747 | an unexpected directory goes whole and counts once, an expected one is walked |
| Prune.FileTree.ReadDir | go/internal/setup/primitives.go:763-769 | each child once |
| Prune.AddAncestors | go/internal/setup/primitives.go:652-657 | all proper ancestors of a path |
| Prune.ExactlyTheExpected | go/internal/setup/primitives.go:751-810 | against closed sets exactly the expected entries stay, and everything under skipped top-level directories |
| Prune.TopsAreTopmost | go/internal/setup/primitives.go:751-810 | the removals counted are exactly the entries that go while the directory they lie in stays |
| Prune.PruneIsIdempotent | go/internal/setup/primitives.go:751-810 | a second prune removes nothing |
| Prune.PrunedIsTree | go/internal/setup/primitives.go:751-810 | no file is left without its directories |
| Prune.OpenSetsLoseFiles | go/internal/setup/primitives.go:738-747 | with sets that are not closed an expected file can go |
| Prune.ExpectedTemplates | go/internal/setup/primitives.go:648-660 | the sets are exactly the templates and the directories on their way, and are closed |
| Prune.ExpectedSkills | go/internal/setup/primitives.go:664-705 | likewise for references and generated files, with one directory and one SKILL.md for each skill |
| PhaseGate.Repo.GetPhaseState | go/internal/hook/phase_state.go:66-143 | the state if it is valid and fresh; a stale file is removed |
| PhaseGate.Repo.HandlePhaseInit | go/internal/cli/commands_phase.go:62-92 | refused over a live state unless forced |
| PhaseGate.Repo.HandlePhaseStart | go/internal/cli/commands_phase.go:107-124 | changes phase and forgets gates and skills |
| PhaseGate.Repo.HandlePhaseGate | go/internal/cli/commands_phase.go:139-175 | records a gate once; "final" removes the file |
| PhaseGate.Repo.ProcessReadTracker | go/internal/hook/read_tracker.go:12-47 | records a skill read once |
| PhaseGate.Repo.ProcessPhaseGuard | go/internal/hook/phase_guard.go:37-72 | warns exactly on a guarded tool under a live state whose skill is unread |
| PhaseGate.Repo.ProcessStopAudit | go/internal/hook/stop_audit.go:38-72 | refuses exactly without the gate and with evidence of transition |
| PhaseGate.SkillInPathIff | go/internal/hook/read_tracker.go:9-35 | a read counts for a phase exactly when its path, with either slash, is that skill file here or in some directory |
| PhaseGate.RunIsGood | go/internal/hook/phase_state.go:115-143 | in every reachable state the index matches the phase, nothing is recorded twice and "final" is never stored |
| PhaseGate.CleanIfFinalNeverFires | go/internal/hook/phase_state.go:211-224 | the clean-up for a stored "final" gate never removes a live state |
| PhaseRuns.IndexIsPosition | go/internal/hook/phase_state.go:24-37 | a stored state names one of the six phases with its index from 1 to 6 |
| PhaseRuns.LifeIsRecorded | go/internal/hook/phase_state.go:115-143 | the stored start time and epic are those of the last effective init of the run, and there is a file exactly when nothing since ended it |
| PhaseRuns.WorkIsRecorded | go/internal/hook/read_tracker.go:12-47 | the file holds exactly the skills read and the gates passed since the last effective init or start, and the phase that one named |
| PhaseRuns.LifeIsFromInit | go/internal/hook/phase_state.go:129-140 | a state is live exactly when the last effective init of the run is at most 72 hours old and nothing since ended it; no start, gate or read prolongs it |
| PhaseRuns.GuardIsExact | go/internal/hook/phase_guard.go:37-72 | an edit is warned of if and only if a state lives and no event of the run since the last effective init or start read the phase's skill |
| PhaseRuns.StopIsRefusedIff | go/internal/hook/stop_audit.go:11-72 | all stops that are refused, by the events of the run: compound, or the next phase's skill read and the gate not passed since the last effective init or start |
| PhaseRuns.CompoundStopIsRefused | go/internal/hook/stop_audit.go:11-72 | a stop in the compound phase is always refused while the state lives, unless the stop hook is active |
| Ranking.BlendScores | go/internal/search/hybrid.go:72-100 | each blended item that passes the floor, once |
| Ranking.MergeHybridScores | go/internal/search/hybrid.go:113-134 | the first `limit` of them by falling score; nothing when the weights do not add up to more than 0 |
| Ranking.PoolIsTheBlend | go/internal/search/hybrid.go:72-100 | exactly the IDs of either list whose blend passes the floor, once each, scored by the blend |
| Ranking.PoolIsGiven | go/internal/search/hybrid.go:72-100 | no item is made up: each comes from one of the lists |
| Ranking.WeightsAreScaled | go/internal/search/hybrid.go:42-67 | weights are scaled to add up to 1, 0.7 and 0.3 stand in for those not given, limit and floor are as given |
| Ranking.HybridPoolIs | go/internal/retrieval/plan.go:30-34 | with vectors an item scores 0.7 of its vector score plus 0.3 of its keyword score, and is dropped below 0.35 |
| Ranking.BlendInUnit | go/internal/search/hybrid.go:42-67 | with weights that are not negative, scores in [0, 1] stay there |
| Ranking.KeywordScoreInUnit | go/internal/storage/search.go:191-197 | keyword scores lie in [0, 1) |
| Ranking.KeywordScoreIs | go/internal/storage/search.go:191-197 | a keyword score is the rank's size over one more, so a better rank scores more |
| Ranking.BoostInRange | go/internal/search/ranking.go:29-76 | every boost lies in [0.8, 1.8] |
| Ranking.BoostIsFactor | go/internal/search/ranking.go:29-76 | the factor for each severity, confirmation and age, thirty days in nanoseconds, with the cap of 1.8 |
| Ranking.RankItems | go/internal/search/ranking.go:80-95 | all items with their final scores, by falling final score |
| Ranking.SeverityOrders | go/internal/search/ranking.go:29-95 | of items alike but for severity, the high one comes before any other and the low one after any other |
| Ranking.ConfirmationOrders | go/internal/search/ranking.go:60-95 | of items alike but for confirmation, the confirmed one comes first unless both are young and high, where the cap makes them equal |
| Ranking.AgeOrders | go/internal/search/ranking.go:47-95 | of items alike but for age, the young one comes first unless both are confirmed and high |
| Ranking.MergeAndRank | go/internal/retrieval/plan.go:20-40 | the best `limit` of the merged items by final score |
| Ranking.KeywordScoresUnchanged | go/internal/retrieval/plan.go:22-28 | without vectors, keyword scores are ranked unchanged and none is dropped by a floor |
| Ranking.BestBeatsRest | go/internal/retrieval/plan.go:35-39 | nothing left out beats anything kept |
| Ranking.ClearWinnerComesFirst | go/internal/search/ranking.go:70-95 | an item whose blend is more than 2.25 times another's comes before it |
| Ranking.ClearWinnerIsKept | go/internal/retrieval/plan.go:35-39 | nor can the limit drop it: whatever beats a kept item so clearly is kept, and before it |

## Left out

- JSON, SQLite, FTS5 and file I/O: records, rows and files are values behind a codec that round-trips; JSON keys are
  matched by exact case, while Go also accepts other cases.
- Lines of the log over 1 MB, on which the scanner stops with an error.
- Strings that are not valid UTF-8, and Unicode lower-casing of file extensions beyond ASCII.
- Floating point: similarities, weights and scores are reals; NaN and infinity do not occur.
- SHA-256 collisions, also those of the 16-digit prefix used in chunk IDs.
- Failing database writes, and timestamps and embeddings in the chunk table.
- LessonIndex.SyncedTableIsFreshIff: each write of the log gets a later mtime than any before, and a sync reads the log and its mtime in one step; a writer landing in between is not modelled.
- DisjointSets.DisjointSet.Union: keeps a ghost rank to show that no cycle arises; the source keeps no rank.
- Hooks other than those of the seven managed types, which no pass touches, and RemoveAllHooks.
- HookSettings.SettingsFixpointIff: for paths free of quotes, marker text and npx calls; HookFallback.FallbackFixpointIff is the case of no path.
- EpicLoop.RunLoop: what a review does is not modelled, only its range and whether it ends the script; nor are the auto-commit and the final push.
- Harvest.NothingIsLostIff: `claude rm` is taken to remove the session and every worktree it made; handles are new and a session's worktrees are not hidden by its snapshot (Findings say what happens otherwise); no snapshot directory lies at the root of the file system; the parallel fleet, process sweeps by pkill, and commits made after the merge are not modelled.
- Prune.ExpectedSkills: skill names are single components, as the templates have them; the profile filter on templates is not modelled.
- PhaseGate.RunIsGood: the legacy phase file and its migration; runs start without phase files.
- Ranking.RankItems: the clock is read once for a whole ranking, and the RFC 3339 parser is a parameter.
- Embedding models, the daemon's protocol, prompts, preflights, other implementers, telemetry, and the command-line interface.
- Pattern synthesis from clusters (tags, names, JSONL of patterns) and regular-expression tables: no deep invariant.
