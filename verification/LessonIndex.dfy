/** The table derived from the lesson log (storage/sync.go, storage/search.go). */
module LessonIndex {
  import opened Prelude
  import opened Text
  import opened Listing
  import opened Lessons

  /** A row of the lessons table; None is NULL, and JSON columns hold the value they encode. */
  datatype Row = Row(
    id: string, rowType: string, trigger: string, insight: string, evidence: Option<string>, severity: Option<string>,
    tags: string, source: string, context: Context, supersedes: Option<seq<string>>, related: Option<seq<string>>,
    created: string, confirmed: int, deleted: int, retrievalCount: int, lastRetrieved: Option<string>,
    invalidatedAt: Option<string>, invalidationReason: Option<string>,
    citationFile: Option<string>, citationLine: Option<int>, citationCommit: Option<string>,
    compactionLevel: int, compactedAt: Option<string>, patternBad: Option<string>, patternGood: Option<string>)

  // ---- The row encoding ----

  /** strings.Join(item.Tags, ","), where a nil slice is empty. */
  function JoinTags(tags: Option<seq<string>>): string { if tags.None? then "" else Join(tags.value, ',') }

  function SplitTags(column: string): seq<string> { if column != "" then Split(column, ',') else [] }

  /** insertItem */
  function ToRow(item: Item): Row {
    Row(item.id, item.itemType, item.trigger, item.insight, item.evidence, item.severity,
        JoinTags(item.tags), item.source, item.context, item.supersedes, item.related,
        item.created, if item.confirmed then 1 else 0, if item.deleted == Some(true) then 1 else 0,
        if item.retrievalCount.Some? then item.retrievalCount.value else 0, item.lastRetrieved,
        item.invalidatedAt, item.invalidationReason,
        if item.citation.Some? then Some(item.citation.value.file) else None,
        if item.citation.Some? then item.citation.value.line else None,
        if item.citation.Some? then item.citation.value.commit else None,
        if item.compactionLevel.Some? then item.compactionLevel.value else 0, item.compactedAt,
        if item.pattern.Some? then Some(item.pattern.value.bad) else None,
        if item.pattern.Some? then Some(item.pattern.value.good) else None)
  }

  /** convertToItem */
  function ConvertToItem(raw: Row): Item {
    Item(raw.id, raw.rowType, raw.trigger, raw.insight, Some(SplitTags(raw.tags)), raw.source,
         raw.context, raw.created, raw.confirmed == 1, OrEmpty(raw.supersedes), OrEmpty(raw.related),
         raw.evidence, raw.severity, if raw.deleted == 1 then Some(true) else None, None,
         if raw.retrievalCount > 0 then Some(raw.retrievalCount) else None, raw.lastRetrieved,
         raw.invalidatedAt, raw.invalidationReason,
         if raw.compactionLevel != 0 then Some(raw.compactionLevel) else None, raw.compactedAt,
         if raw.citationFile.Some? then Some(Citation(raw.citationFile.value, raw.citationLine, raw.citationCommit))
         else None,
         if raw.patternBad.Some? && raw.patternGood.Some?
           then Some(Pattern(raw.patternBad.value, raw.patternGood.value)) else None)
  }

  /** Tags that a comma-separated column gives back. */
  ghost predicate ColumnTags(tags: Option<seq<string>>) {
    tags.Some? && Free(tags.value, ',') && tags.value != [""]
  }

  lemma {:induction false} TagsRoundTrip(tags: Option<seq<string>>)
    ensures Some(SplitTags(JoinTags(tags))) == tags <==> ColumnTags(tags)
    ensures tags.None? || tags.value == [] ==> SplitTags(JoinTags(tags)) == []
  {
    if tags.Some? && tags.value != [] {
      var column := Join(tags.value, ',');
      if Free(tags.value, ',') {
        SplitJoin(tags.value, ',');
      } else {
        SplitIsFree(column, ',');
      }
    }
  }

  /** The item a row gives back. */
  function AsIndexed(item: Item): Item { ConvertToItem(ToRow(item)) }

  /** Whatever is not a tag, a nil array, a deletion time or a zero-valued option comes back. */
  lemma {:induction false} RowKeepsTheRest(item: Item)
    ensures AsIndexed(item) == EnsureArrayFields(item).(
      tags := Some(SplitTags(JoinTags(item.tags))),
      deleted := if item.deleted == Some(true) then item.deleted else None,
      deletedAt := None,
      retrievalCount :=
        if item.retrievalCount.Some? && item.retrievalCount.value > 0 then item.retrievalCount else None,
      compactionLevel := if item.compactionLevel == Some(0) then None else item.compactionLevel)
  { }

  ghost predicate RowFaithful(item: Item) {
    && ColumnTags(item.tags) && item.supersedes.Some? && item.related.Some?
    && item.deleted != Some(false) && item.deletedAt.None?
    && (item.retrievalCount.Some? ==> item.retrievalCount.value > 0) && item.compactionLevel != Some(0)
  }

  /** The row encoding is undone exactly for these items. */
  lemma {:induction false} RowRoundTrip(item: Item)
    ensures AsIndexed(item) == item <==> RowFaithful(item)
  {
    hide ConvertToItem, ToRow, AsIndexed, SplitTags, JoinTags;
    TagsRoundTrip(item.tags);
    RowKeepsTheRest(item);
    assert item.deleted.Some? && item.deleted.value ==> item.deleted == Some(true);
    assert item.deleted.Some? && !item.deleted.value ==> item.deleted == Some(false);
  }

  // ---- The table ----

  function RowsFor(items: map<string, Item>): map<string, Row> {
    map id | id in items :: ToRow(items[id])
  }

  /** One INSERT an item. */
  function Inserts(items: seq<Item>): map<string, Row> {
    if items == [] then map[]
    else var last := items[|items| - 1]; Inserts(items[..|items| - 1])[last.id := ToRow(last)]
  }

  lemma {:induction false} InsertsAt(items: seq<Item>, live: map<string, Item>)
    requires forall x :: x in items ==> x.id in live && live[x.id] == x
    ensures forall id :: id in Inserts(items) <==> id in live && live[id] in items && live[id].id == id
    ensures forall id :: id in Inserts(items) ==> id in live && Inserts(items)[id] == ToRow(live[id])
  {
    hide ToRow;
    if items != [] {
      var (front, last) := (items[..|items| - 1], items[|items| - 1]);
      assert items == front + [last];
      InsertsAt(front, live);
    }
  }

  lemma {:induction false} InsertsAreRows(live: map<string, Item>, items: seq<Item>)
    requires KeyedById(live) && IsListing(live, items)
    ensures Inserts(items) == RowsFor(live)
  {
    hide ToRow, Ascending, Inserts;
    InsertsAt(items, live);
    assert forall id :: id in live ==> live[id] in items;
  }

  /** The items ReadAll reads from the table. */
  ghost predicate Reads(lessons: map<string, Row>, x: Item) {
    exists id :: id in lessons && lessons[id].invalidatedAt.None? && ConvertToItem(lessons[id]) == x
  }

  class SearchDB {
    var lessons: map<string, Row>
    var lastSyncMtime: int

    constructor ()
      ensures lessons == map[] && lastSyncMtime == 0
    {
      lessons, lastSyncMtime := map[], 0;
    }

    /** Plain INSERTs after a DELETE; `mtime` is 0 when there is no log file. */
    method RebuildIndex(log: LessonLog, mtime: int)
      modifies this
      ensures lessons == RowsFor(Live(log.records))
      ensures lastSyncMtime == if mtime > 0 then mtime else old(lastSyncMtime)
    {
      hide ToRow, Live, Ascending;
      var result := log.ReadItems();
      LiveIsKeyed(log.records);
      SortedItemsAreListing(Live(log.records));
      lessons := map[];
      for i := 0 to |result.items|
        invariant lessons == Inserts(result.items[..i])
        invariant lastSyncMtime == old(lastSyncMtime)
      {
        var item := result.items[i];
        assert result.items[..i + 1][..i] == result.items[..i];
        lessons := lessons[item.id := ToRow(item)];
      }
      assert result.items[..|result.items|] == result.items;
      InsertsAreRows(Live(log.records), result.items);
      if mtime > 0 {
        lastSyncMtime := mtime;
      }
    }

    method SyncIfNeeded(log: LessonLog, mtime: int, force: bool) returns (synced: bool)
      requires mtime >= 0
      modifies this
      ensures synced <==> force || (mtime > 0 && (old(lastSyncMtime) == 0 || mtime > old(lastSyncMtime)))
      ensures lessons == if synced then RowsFor(Live(log.records)) else old(lessons)
      ensures lastSyncMtime == if synced && mtime > 0 then mtime else old(lastSyncMtime)
    {
      if mtime == 0 && !force {
        return false;
      }
      var needsRebuild := force || lastSyncMtime == 0 || (mtime > 0 && mtime > lastSyncMtime);
      if !needsRebuild {
        return false;
      }
      RebuildIndex(log, mtime);
      synced := true;
    }

    /** SELECT ... WHERE invalidated_at IS NULL, in any order. */
    method ReadAll() returns (items: seq<Item>)
      ensures forall x: Item :: x in items <==> Reads(lessons, x)
      ensures |items| == |set id | id in lessons && lessons[id].invalidatedAt.None?|
    {
      hide ConvertToItem;
      items := [];
      var done: set<string> := {};
      while done != lessons.Keys
        invariant done <= lessons.Keys
        invariant forall x: Item :: x in items <==>
          exists id :: id in done && lessons[id].invalidatedAt.None? && ConvertToItem(lessons[id]) == x
        invariant |items| == |set id | id in done && lessons[id].invalidatedAt.None?|
        decreases lessons.Keys - done
      {
        var id :| id in lessons && id !in done;
        ghost var before := set i | i in done && lessons[i].invalidatedAt.None?;
        done := done + {id};
        ghost var after := set i | i in done && lessons[i].invalidatedAt.None?;
        if lessons[id].invalidatedAt.None? {
          items := items + [ConvertToItem(lessons[id])];
          assert after == before + {id};
        } else {
          assert after == before;
        }
      }
      assert (set id | id in done && lessons[id].invalidatedAt.None?)
        == (set id | id in lessons && lessons[id].invalidatedAt.None?);
    }
  }

  // ---- Whole runs of writes, file removals and syncs ----

  /** The log file (mtime 0: no file), the greatest mtime a write was ever given, and the table. */
  datatype World = World(log: seq<Record>, mtime: nat, clock: nat, lessons: map<string, Row>, lastSync: nat)

  const START := World([], 0, 0, map[], 0)

  datatype Event = Write(log: seq<Record>, later: nat) | RemoveFile | Sync(force: bool)

  predicate Syncs(w: World, force: bool) { force || (w.mtime > 0 && (w.lastSync == 0 || w.mtime > w.lastSync)) }

  /** A write, append or compaction, leaves any log and a later mtime than any before. */
  function Next(w: World, e: Event): World {
    match e
    case Write(log, later) => w.(log := log, mtime := w.clock + 1 + later, clock := w.clock + 1 + later)
    case RemoveFile => w.(log := [], mtime := 0)
    case Sync(force) =>
      if Syncs(w, force)
      then w.(lessons := RowsFor(Live(w.log)), lastSync := if w.mtime > 0 then w.mtime else w.lastSync)
      else w
  }

  function After(events: seq<Event>): World {
    if events == [] then START else Next(After(events[..|events| - 1]), events[|events| - 1])
  }

  /** A table synced no earlier than the log was written is the log's table. */
  ghost predicate InStep(w: World) {
    && w.lastSync <= w.clock && w.mtime <= w.clock
    && (w.mtime == 0 ==> w.log == []) && (0 < w.mtime <= w.lastSync ==> w.lessons == RowsFor(Live(w.log)))
  }

  lemma {:induction false} RunStaysInStep(events: seq<Event>)
    ensures InStep(After(events))
  {
    hide RowsFor, Live;
    if events != [] {
      RunStaysInStep(events[..|events| - 1]);
    }
  }

  /** A sync right after another rebuilds nothing unless it is forced; after a write the next one always rebuilds. */
  lemma {:induction false} SyncsWhenWritten(events: seq<Event>, force: bool, log: seq<Record>, later: nat)
    ensures !Syncs(After(events + [Sync(force)]), false)
    ensures Syncs(After(events + [Write(log, later)]), false) && Syncs(After(events), true)
  {
    hide RowsFor, Live;
    RunStaysInStep(events);
    assert (events + [Sync(force)])[..|events|] == events && (events + [Write(log, later)])[..|events|] == events;
  }

  /** There is a log file, the sync is forced, or the table is empty already. */
  predicate CanRefresh(w: World, force: bool) { w.mtime > 0 || force || w.lessons == map[] }

  /** After any run, a sync leaves exactly the log's rows, if and only if one of these holds. */
  lemma {:induction false} SyncedTableIsFreshIff(events: seq<Event>, force: bool)
    ensures var w := After(events + [Sync(force)]);
      w.lessons == RowsFor(Live(w.log)) <==> CanRefresh(After(events), force)
  {
    hide RowsFor, Live;
    RunStaysInStep(events);
    EmptyLogHasNoRows();
    assert (events + [Sync(force)])[..|events|] == events;
  }

  lemma {:induction false} EmptyLogHasNoRows()
    ensures RowsFor(Live([])) == map[]
  { }

  /** Without a log file and without force, a sync leaves whatever the table held. */
  lemma {:induction false} RemovedLogLeavesRows(log: seq<Record>)
    requires Live(log) != map[]
    ensures var w := After([Write(log, 0), Sync(false), RemoveFile, Sync(false)]); w.lessons != RowsFor(Live(w.log))
  {
    hide ToRow, ReadStep;
    var w0 := START;
    var w1 := Next(w0, Write(log, 0));
    var w2 := Next(w1, Sync(false));
    var w3 := Next(w2, RemoveFile);
    var all := [Write(log, 0), Sync(false), RemoveFile, Sync(false)];
    assert all[..3] == [Write(log, 0), Sync(false), RemoveFile];
    assert all[..3][..2] == [Write(log, 0), Sync(false)];
    assert all[..3][..2][..1] == [Write(log, 0)];
    assert all[..3][..2][..1][..0] == [];
    assert After(all[..3][..2][..1]) == w1;
    assert After(all[..3][..2]) == w2;
    assert After(all[..3]) == w3;
    var id :| id in Live(log);
    assert id in RowsFor(Live(log)) && id !in RowsFor(map[]);
  }

  /** What ReadAll returns is each live item that is not invalidated, as its row gives it back. */
  lemma {:induction false} ReadAllIsLive(log: seq<Record>, x: Item)
    ensures Reads(RowsFor(Live(log)), x) <==>
      exists id :: id in Live(log) && Live(log)[id].invalidatedAt.None? && AsIndexed(Live(log)[id]) == x
  {
    hide Live;
    var (live, rows) := (Live(log), RowsFor(Live(log)));
    if Reads(rows, x) {
      var id :| id in rows && rows[id].invalidatedAt.None? && ConvertToItem(rows[id]) == x;
      assert AsIndexed(live[id]) == x;
    }
    if id :| id in live && live[id].invalidatedAt.None? && AsIndexed(live[id]) == x {
      assert ConvertToItem(rows[id]) == x;
    }
  }

  ghost predicate AllFaithful(items: map<string, Item>) {
    forall id :: id in items && items[id].invalidatedAt.None? ==> RowFaithful(items[id])
  }

  /** Log, table and search agree: ReadAll gives exactly the log's items that are not invalidated. */
  lemma {:induction false} ReadAllIsExact(log: seq<Record>, x: Item)
    requires AllFaithful(Live(log))
    ensures Reads(RowsFor(Live(log)), x) <==> x.id in Live(log) && Live(log)[x.id] == x && x.invalidatedAt.None?
  {
    hide Live, Reads, RowsFor, AsIndexed, RowFaithful;
    ReadAllIsLive(log, x);
    LiveIsKeyed(log);
    forall id | id in Live(log) && Live(log)[id].invalidatedAt.None? ensures AsIndexed(Live(log)[id]) == Live(log)[id] {
      RowRoundTrip(Live(log)[id]);
    }
  }

  /** ReadAll gives exactly the items of a map that are not invalidated. */
  ghost predicate ReadsExactly(lessons: map<string, Row>, live: map<string, Item>) {
    forall x :: Reads(lessons, x) <==> x.id in live && live[x.id] == x && x.invalidatedAt.None?
  }

  /** Only then: a row that does not give its item back is read as another item. */
  lemma {:induction false} ReadsExactlyIff(log: seq<Record>)
    ensures ReadsExactly(RowsFor(Live(log)), Live(log)) <==> AllFaithful(Live(log))
  {
    hide Live, Reads, RowsFor, AsIndexed, RowFaithful;
    var (live, rows) := (Live(log), RowsFor(Live(log)));
    if AllFaithful(live) {
      forall x ensures Reads(rows, x) <==> x.id in live && live[x.id] == x && x.invalidatedAt.None? {
        ReadAllIsExact(log, x);
      }
    }
    if ReadsExactly(rows, live) {
      LiveIsKeyed(log);
      forall id | id in live && live[id].invalidatedAt.None? ensures RowFaithful(live[id]) {
        ReadAllIsLive(log, AsIndexed(live[id]));
        RowKeepsId(live[id]);
        RowRoundTrip(live[id]);
      }
    }
  }

  lemma {:induction false} RowKeepsId(item: Item)
    ensures AsIndexed(item).id == item.id
  { }

  /** The whole path, after any run: a search after a sync reads the log exactly when its rows are faithful. */
  lemma {:induction false} SyncedReadsAreLiveIff(events: seq<Event>, force: bool)
    requires CanRefresh(After(events), force)
    ensures var live := Live(After(events).log);
      ReadsExactly(After(events + [Sync(force)]).lessons, live) <==> AllFaithful(live)
  {
    hide Live, RowsFor, AllFaithful, CanRefresh, ReadsExactly;
    SyncedTableIsFreshIff(events, force);
    assert (events + [Sync(force)])[..|events|] == events;
    ReadsExactlyIff(After(events).log);
  }

  /** Otherwise the log is gone, and a search still reads whatever the table held. */
  lemma {:induction false} StaleReadsStay(events: seq<Event>, force: bool, x: Item)
    requires !CanRefresh(After(events), force)
    ensures var w := After(events + [Sync(force)]);
      Live(w.log) == map[] && (Reads(w.lessons, x) <==> Reads(After(events).lessons, x))
  {
    hide Reads;
    RunStaysInStep(events);
    assert (events + [Sync(force)])[..|events|] == events;
  }
}
