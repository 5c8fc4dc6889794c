/** The append-only lesson log and its compaction (memory/jsonl.go, compact.go, types.go). */
module Lessons {
  import opened Prelude
  import opened Listing

  const TOMBSTONE_THRESHOLD := 100

  /** A trimmed line of the log: blank, not a JSON object, an object that is no item, or an item. */
  datatype Record =
    | Blank
    | Garbage
    | Malformed(rawDeleted: bool, rawId: string)
    | Wellformed(item: Item)

  predicate IsObject(r: Record) { r.Malformed? || r.Wellformed? }

  /** The record says deleted: true. */
  predicate SaysDeleted(r: Record) {
    match r
    case Malformed(deleted, _) => deleted
    case Wellformed(item) => item.deleted == Some(true)
    case _ => false
  }

  function RawId(r: Record): string {
    match r
    case Malformed(_, id) => id
    case Wellformed(item) => item.id
    case _ => ""
  }

  /** parseTombstone */
  predicate IsTombstone(r: Record) { SaysDeleted(r) && RawId(r) != "" }

  function ConvertLegacy(item: Item): Item {
    if item.itemType in {"quick", "full"} then item.(itemType := "lesson") else item
  }

  function OrEmpty(a: Option<seq<string>>): Option<seq<string>> { if a.None? then Some([]) else a }

  function EnsureArrayFields(item: Item): Item {
    item.(tags := OrEmpty(item.tags), supersedes := OrEmpty(item.supersedes), related := OrEmpty(item.related))
  }

  predicate HasArrays(item: Item) { item.tags.Some? && item.supersedes.Some? && item.related.Some? }

  predicate ValidScalars(item: Item) {
    && item.id != "" && item.itemType in {"lesson", "solution", "pattern", "preference"}
    && item.trigger != "" && item.insight != ""
    && item.source in {"user_correction", "self_correction", "test_failure", "manual"}
    && item.created != ""
    && (item.severity.Some? ==> item.severity.value in {"high", "medium", "low"})
    && (item.itemType == "pattern" ==> item.pattern.Some?)
  }

  /** ValidateItem returns no error. */
  predicate ValidItem(item: Item) { ValidScalars(item) && HasArrays(item) }

  /** The item a reader makes of a record. */
  function Normalised(item: Item): Item { EnsureArrayFields(ConvertLegacy(item)) }

  /** parseLine returns an item. */
  predicate ReadsAsItem(r: Record) { r.Wellformed? && !IsTombstone(r) && ValidItem(Normalised(r.item)) }

  /** processCompactItem accepts the record. */
  predicate KeepsAsItem(r: Record) { r.Wellformed? && !SaysDeleted(r) && ValidItem(ConvertLegacy(r.item)) }

  /**
    The records that readers accept, and the item each gives: legacy types are lessons and missing arrays are empty.
    Compaction accepts those of them that have all three arrays.
   */
  lemma {:induction false} AcceptedRecords(x: Item)
    ensures ReadsAsItem(Wellformed(x)) <==>
      && x.deleted != Some(true) && x.id != "" && x.trigger != "" && x.insight != "" && x.created != ""
      && x.itemType in {"lesson", "solution", "pattern", "preference", "quick", "full"}
      && x.source in {"user_correction", "self_correction", "test_failure", "manual"}
      && (x.severity.Some? ==> x.severity.value in {"high", "medium", "low"})
      && (x.itemType == "pattern" ==> x.pattern.Some?)
    ensures Normalised(x) == x.(
      itemType := if x.itemType == "quick" || x.itemType == "full" then "lesson" else x.itemType,
      tags := Some(if x.tags.Some? then x.tags.value else []),
      supersedes := Some(if x.supersedes.Some? then x.supersedes.value else []),
      related := Some(if x.related.Some? then x.related.value else []))
    ensures KeepsAsItem(Wellformed(x)) <==>
      ReadsAsItem(Wellformed(x)) && x.tags.Some? && x.supersedes.Some? && x.related.Some?
  {
    SaysDeletedIff(x);
  }

  lemma {:induction false} SaysDeletedIff(x: Item)
    ensures SaysDeleted(Wellformed(x)) <==> x.deleted.Some? && x.deleted.value
    ensures x.deleted != Some(true) <==> x.deleted.None? || !x.deleted.value
  { }

  // ---- The two folds over the log ----

  function ReadStep(items: map<string, Item>, r: Record): map<string, Item> {
    if IsTombstone(r) then items - {RawId(r)}
    else if ReadsAsItem(r) then items[r.item.id := Normalised(r.item)]
    else items
  }

  function KeepStep(items: map<string, Item>, r: Record): map<string, Item> {
    if SaysDeleted(r) then (if RawId(r) != "" then items - {RawId(r)} else items)
    else if KeepsAsItem(r) then items[r.item.id := ConvertLegacy(r.item)]
    else items
  }

  /** The items ReadItems collects. */
  function Live(log: seq<Record>): map<string, Item> {
    if log == [] then map[] else ReadStep(Live(log[..|log| - 1]), log[|log| - 1])
  }

  /** The items Compact collects. */
  function Kept(log: seq<Record>): map<string, Item> {
    if log == [] then map[] else KeepStep(Kept(log[..|log| - 1]), log[|log| - 1])
  }

  function Tombstones(log: seq<Record>): nat {
    if log == [] then 0 else Tombstones(log[..|log| - 1]) + if SaysDeleted(log[|log| - 1]) then 1 else 0
  }

  /** The records ReadItems counts as skipped. */
  function Skipped(log: seq<Record>): nat {
    if log == [] then 0
    else
      var r := log[|log| - 1];
      Skipped(log[..|log| - 1]) + if r.Blank? || IsTombstone(r) || ReadsAsItem(r) then 0 else 1
  }

  /** The records Compact counts as dropped. */
  function Dropped(log: seq<Record>): nat {
    if log == [] then 0
    else
      var r := log[|log| - 1];
      Dropped(log[..|log| - 1]) + if !IsObject(r) || SaysDeleted(r) || KeepsAsItem(r) then 0 else 1
  }

  /** The record is a JSON object that says deleted. */
  predicate MarksDeleted(r: Record) {
    (r.Malformed? && r.rawDeleted) || (r.Wellformed? && r.item.deleted.Some? && r.item.deleted.value)
  }

  predicate HasRawId(r: Record) { (r.Malformed? && r.rawId != "") || (r.Wellformed? && r.item.id != "") }

  /** Neither blank, nor a deletion of some ID, nor an item that readers accept. */
  predicate IsUnread(r: Record) { !r.Blank? && !(MarksDeleted(r) && HasRawId(r)) && !ReadsAsItem(r) }

  /** An object that is no deletion and no item that compaction accepts. */
  predicate IsRejected(r: Record) { (r.Malformed? || r.Wellformed?) && !MarksDeleted(r) && !KeepsAsItem(r) }

  datatype Counted = Deletions | Unread | Rejected

  predicate Counts(c: Counted, r: Record) {
    match c
    case Deletions => MarksDeleted(r)
    case Unread => IsUnread(r)
    case Rejected => IsRejected(r)
  }

  function Those(log: seq<Record>, c: Counted): set<nat> { set k: nat | k < |log| && Counts(c, log[k]) }

  lemma {:induction false} ThoseGrow(log: seq<Record>, c: Counted)
    requires log != []
    ensures var (front, n) := (log[..|log| - 1], |log| - 1);
      |Those(log, c)| == |Those(front, c)| + if Counts(c, log[n]) then 1 else 0
  {
    hide Counts;
    var (front, n) := (log[..|log| - 1], |log| - 1);
    var (before, after) := (Those(front, c), Those(log, c));
    forall k: nat | k < n ensures k in after <==> k in before {
      assert front[k] == log[k];
    }
    var more: set<nat> := if Counts(c, log[n]) then {n} else {};
    assert n in after <==> n in more;
    assert after == before + more;
  }

  /** The counters are the numbers of the records that say deleted, that readers skip, and that compaction drops. */
  lemma {:induction false} CountersTell(log: seq<Record>)
    ensures Tombstones(log) == |Those(log, Deletions)|
    ensures Skipped(log) == |Those(log, Unread)|
    ensures Dropped(log) == |Those(log, Rejected)|
  {
    hide ReadsAsItem, KeepsAsItem, MarksDeleted, HasRawId, SaysDeleted, IsTombstone, Those;
    if log == [] {
      NoneOfNothing();
    } else {
      CountersTell(log[..|log| - 1]);
      RecordTells(log[|log| - 1]);
      ThoseGrow(log, Deletions);
      ThoseGrow(log, Unread);
      ThoseGrow(log, Rejected);
    }
  }

  lemma {:induction false} NoneOfNothing()
    ensures forall c :: Those([], c) == {}
  { }

  lemma {:induction false} RecordTells(r: Record)
    ensures SaysDeleted(r) <==> MarksDeleted(r)
    ensures IsTombstone(r) <==> MarksDeleted(r) && HasRawId(r)
  { }

  function EncodeAll(items: seq<Item>): seq<Record> {
    seq(|items|, i requires 0 <= i < |items| => Wellformed(items[i]))
  }

  ghost function Compacted(log: seq<Record>): seq<Record> { EncodeAll(SortedItems(Kept(log))) }

  lemma {:induction false} LiveIsKeyed(log: seq<Record>)
    ensures KeyedById(Live(log)) && "" !in Live(log)
  {
    if log != [] {
      LiveIsKeyed(log[..|log| - 1]);
    }
  }

  lemma {:induction false} KeptIsKeyed(log: seq<Record>)
    ensures KeyedById(Kept(log)) && "" !in Kept(log)
    ensures forall id :: id in Kept(log) ==>
      KeepsAsItem(Wellformed(Kept(log)[id])) && ConvertLegacy(Kept(log)[id]) == Kept(log)[id]
  {
    if log != [] {
      KeptIsKeyed(log[..|log| - 1]);
    }
  }

  // ---- The log file ----

  datatype ReadItemsResult = ReadItemsResult(items: seq<Item>, deletedIds: set<string>, skippedCount: nat)

  datatype CompactResult = CompactResult(tombstonesRemoved: nat, lessonsRemaining: nat, droppedInvalid: nat)

  function DeletedIds(log: seq<Record>): set<string> { set r | r in log && IsTombstone(r) :: RawId(r) }

  class LessonLog {
    var records: seq<Record>

    constructor ()
      ensures records == []
    {
      records := [];
    }

    method AppendItem(item: Item)
      modifies this
      ensures records == old(records) + [Wellformed(EnsureArrayFields(item))]
    {
      records := records + [Wellformed(EnsureArrayFields(item))];
    }

    method ReadItems() returns (result: ReadItemsResult)
      ensures result.items == SortedItems(Live(records)) && result.deletedIds == DeletedIds(records)
      ensures result.skippedCount == Skipped(records)
    {
      hide ValidScalars;
      var items: map<string, Item> := map[];
      var deletedIds: set<string> := {};
      var skipped: nat := 0;
      for k := 0 to |records|
        invariant items == Live(records[..k]) && deletedIds == DeletedIds(records[..k])
        invariant skipped == Skipped(records[..k])
      {
        var r := records[k];
        assert records[..k + 1] == records[..k] + [r];
        assert records[..k + 1][..k] == records[..k];
        if r.Blank? {
          assert DeletedIds(records[..k + 1]) == deletedIds;
        } else if IsTombstone(r) {
          items := items - {RawId(r)};
          deletedIds := deletedIds + {RawId(r)};
          assert DeletedIds(records[..k + 1]) == deletedIds;
        } else {
          if r.Wellformed? && ValidItem(Normalised(r.item)) {
            items := items[r.item.id := Normalised(r.item)];
          } else {
            skipped := skipped + 1;
          }
          assert DeletedIds(records[..k + 1]) == deletedIds;
        }
      }
      assert records[..|records|] == records;
      LiveIsKeyed(records);
      var sorted := DeduplicateAndSort(items);
      result := ReadItemsResult(sorted, deletedIds, skipped);
    }

    method CountTombstones() returns (count: nat)
      ensures count == Tombstones(records)
    {
      count := 0;
      for k := 0 to |records|
        invariant count == Tombstones(records[..k])
      {
        assert records[..k + 1][..k] == records[..k];
        if IsObject(records[k]) && SaysDeleted(records[k]) {
          count := count + 1;
        }
      }
      assert records[..|records|] == records;
    }

    method ParseCompactRecords() returns (lessonMap: map<string, Item>, result: CompactResult)
      ensures lessonMap == Kept(records) && result == CompactResult(Tombstones(records), 0, Dropped(records))
    {
      hide ValidScalars;
      lessonMap, result := map[], CompactResult(0, 0, 0);
      for k := 0 to |records|
        invariant lessonMap == Kept(records[..k])
          && result == CompactResult(Tombstones(records[..k]), 0, Dropped(records[..k]))
      {
        var r := records[k];
        assert records[..k + 1][..k] == records[..k];
        if IsObject(r) {
          if SaysDeleted(r) {
            if RawId(r) != "" {
              lessonMap := lessonMap - {RawId(r)};
            }
            result := result.(tombstonesRemoved := result.tombstonesRemoved + 1);
          } else if r.Wellformed? && ValidItem(ConvertLegacy(r.item)) {
            lessonMap := lessonMap[r.item.id := ConvertLegacy(r.item)];
          } else {
            result := result.(droppedInvalid := result.droppedInvalid + 1);
          }
        }
      }
      assert records[..|records|] == records;
    }

    method NeedsCompaction() returns (needed: bool)
      ensures needed <==> Tombstones(records) >= TOMBSTONE_THRESHOLD
    {
      var count := CountTombstones();
      needed := count >= TOMBSTONE_THRESHOLD;
    }

    method Compact() returns (result: CompactResult)
      modifies this
      ensures records == Compacted(old(records))
      ensures result == CompactResult(Tombstones(old(records)), |records|, Dropped(old(records)))
    {
      var lessonMap;
      lessonMap, result := ParseCompactRecords();
      KeptIsKeyed(records);
      var lessons := DeduplicateAndSort(lessonMap);
      result := result.(lessonsRemaining := |lessons|);
      records := EncodeAll(lessons);
    }
  }

  // ---- Last write wins ----

  /** The record decides what a reader sees under this ID. */
  predicate Concerns(r: Record, id: string) {
    (IsTombstone(r) && RawId(r) == id) || (ReadsAsItem(r) && r.item.id == id)
  }

  /** Record k is the last one that concerns its ID. */
  ghost predicate LastFor(log: seq<Record>, k: nat, id: string)
    requires k < |log|
  {
    Concerns(log[k], id) && forall j :: k < j < |log| ==> !Concerns(log[j], id)
  }

  ghost predicate LastWrite(log: seq<Record>, k: nat, x: Item) {
    k < |log| && LastFor(log, k, x.id) && ReadsAsItem(log[k]) && Normalised(log[k].item) == x
  }

  /** An item is live exactly when the last record about its ID writes it. */
  lemma {:induction false} LastWriteWins(log: seq<Record>, x: Item)
    ensures x.id in Live(log) && Live(log)[x.id] == x <==> exists k: nat :: LastWrite(log, k, x)
  {
    hide ValidItem;
    LiveIsKeyed(log);
    if log != [] {
      var (front, n) := (log[..|log| - 1], |log| - 1);
      if Concerns(log[n], x.id) {
        assert LastWrite(log, n, x) <==> ReadsAsItem(log[n]) && Normalised(log[n].item) == x;
        assert forall k: nat :: LastWrite(log, k, x) ==> k == n;
      } else {
        LastWriteWins(front, x);
        assert forall k: nat :: LastWrite(log, k, x) <==> LastWrite(front, k, x);
      }
    }
  }

  // ---- Compaction ----

  /** A record a reader accepts and compaction drops: an item without one of its arrays. */
  predicate Bare(r: Record) { ReadsAsItem(r) && !HasArrays(r.item) }

  lemma {:induction false} BareIsDropped(r: Record)
    ensures Bare(r) <==> ReadsAsItem(r) && !KeepsAsItem(r)
    ensures KeepsAsItem(r) ==> ReadsAsItem(r) && Normalised(r.item) == ConvertLegacy(r.item)
  { }

  ghost predicate AgreeAt(a: map<string, Item>, b: map<string, Item>, id: string) {
    (id in a <==> id in b) && (id in a ==> a[id] == b[id])
  }

  /** Record j is the last one about x's ID that is not bare, and it writes x. */
  ghost predicate LastFullWrite(log: seq<Record>, j: nat, x: Item) {
    && j < |log| && !Bare(log[j]) && ReadsAsItem(log[j]) && Normalised(log[j].item) == x
    && forall i :: j < i < |log| && Concerns(log[i], x.id) ==> Bare(log[i])
  }

  /** Compaction keeps, under each ID, what the last record about it that is not bare writes. */
  lemma {:induction false} LastFullWriteIsKept(log: seq<Record>, x: Item)
    ensures x.id in Kept(log) && Kept(log)[x.id] == x <==> exists j: nat :: LastFullWrite(log, j, x)
  {
    hide ValidItem, HasArrays;
    if log != [] {
      var (front, n) := (log[..|log| - 1], |log| - 1);
      StepAt(Live(front), Kept(front), log[n], x.id);
      BareIsDropped(log[n]);
      if Concerns(log[n], x.id) && !Bare(log[n]) {
        assert LastFullWrite(log, n, x) <==> ReadsAsItem(log[n]) && Normalised(log[n].item) == x;
        assert forall j: nat :: LastFullWrite(log, j, x) ==> j == n;
      } else {
        LastFullWriteIsKept(front, x);
        assert forall j: nat :: LastFullWrite(log, j, x) <==> LastFullWrite(front, j, x);
      }
    }
  }

  /** A bare record that nothing later overrides writes what the last record before it that is not bare wrote. */
  ghost predicate HarmlessAt(log: seq<Record>, id: string) {
    forall k :: 0 <= k < |log| && Bare(log[k]) && LastFor(log, k, id) ==> WritesAgain(log, Normalised(log[k].item))
  }

  ghost predicate WritesAgain(log: seq<Record>, x: Item) {
    exists j: nat :: LastFullWrite(log, j, x)
  }

  ghost predicate BareRecordsHarmless(log: seq<Record>) {
    forall id :: HarmlessAt(log, id)
  }

  ghost predicate NoBareRecords(log: seq<Record>) {
    forall k :: 0 <= k < |log| ==> !Bare(log[k])
  }

  /** One more record: what it does to both folds at an ID. */
  lemma {:induction false} StepAt(live: map<string, Item>, kept: map<string, Item>, r: Record, id: string)
    ensures !Concerns(r, id) ==> AgreeAt(ReadStep(live, r), live, id) && AgreeAt(KeepStep(kept, r), kept, id)
    ensures Concerns(r, id) && !Bare(r) ==> AgreeAt(ReadStep(live, r), KeepStep(kept, r), id)
    ensures Concerns(r, id) && Bare(r) ==>
      AgreeAt(KeepStep(kept, r), kept, id) && id in ReadStep(live, r) && ReadStep(live, r)[id] == Normalised(r.item)
  {
    hide ValidItem, HasArrays;
    BareIsDropped(r);
  }

  /** The same condition, on the map that compaction keeps. */
  ghost predicate RepeatsKept(log: seq<Record>, id: string) {
    forall k :: 0 <= k < |log| && Bare(log[k]) && LastFor(log, k, id) ==>
      id in Kept(log) && Kept(log)[id] == Normalised(log[k].item)
  }

  lemma {:induction false} HarmlessRepeatsKept(log: seq<Record>, id: string)
    ensures HarmlessAt(log, id) <==> RepeatsKept(log, id)
  {
    hide HasArrays, LastFullWrite, Kept;
    forall k | 0 <= k < |log| && Bare(log[k]) && LastFor(log, k, id)
      ensures WritesAgain(log, Normalised(log[k].item)) <==> id in Kept(log) && Kept(log)[id] == Normalised(log[k].item)
    {
      BareWritesItsId(log[k], id);
      LastFullWriteIsKept(log, Normalised(log[k].item));
    }
  }

  lemma {:induction false} BareWritesItsId(r: Record, id: string)
    requires Bare(r) && Concerns(r, id)
    ensures Normalised(r.item).id == id
  { }

  lemma {:induction false} KeptAgreesWithLive(log: seq<Record>, id: string)
    ensures AgreeAt(Kept(log), Live(log), id) <==> RepeatsKept(log, id)
  {
    hide Bare, ReadStep, KeepStep, Concerns, Normalised;
    if log != [] {
      var (front, n) := (log[..|log| - 1], |log| - 1);
      StepAt(Live(front), Kept(front), log[n], id);
      if Concerns(log[n], id) {
        assert LastFor(log, n, id);
        assert forall k :: 0 <= k < n ==> !LastFor(log, k, id);
      } else {
        KeptAgreesWithLive(front, id);
        assert forall k :: 0 <= k < n ==> (LastFor(log, k, id) <==> LastFor(front, k, id));
      }
    }
  }

  lemma {:induction false} ReadEncoded(items: seq<Item>, x: Item)
    requires forall y :: y in items ==> KeepsAsItem(Wellformed(y)) && ConvertLegacy(y) == y
    requires forall y, z :: y in items && z in items && y.id == z.id ==> y == z
    ensures x.id in Live(EncodeAll(items)) && Live(EncodeAll(items))[x.id] == x <==> x in items
    ensures forall id :: id in Live(EncodeAll(items)) ==> exists y :: y in items && y.id == id
  {
    hide ValidItem, Before, HasArrays;
    if items != [] {
      var (front, last) := (items[..|items| - 1], items[|items| - 1]);
      ReadEncoded(front, x);
      assert EncodeAll(items)[..|items| - 1] == EncodeAll(front);
      assert items == front + [last];
      BareIsDropped(Wellformed(last));
    }
  }

  lemma {:induction false} EncodedAgree(items: seq<Item>)
    requires forall y :: y in items ==> KeepsAsItem(Wellformed(y))
    ensures Kept(EncodeAll(items)) == Live(EncodeAll(items))
  {
    hide ValidItem, HasArrays;
    if items != [] {
      var (front, last) := (items[..|items| - 1], items[|items| - 1]);
      EncodedAgree(front);
      assert EncodeAll(items)[..|items| - 1] == EncodeAll(front);
      assert items == front + [last];
      BareIsDropped(Wellformed(last));
    }
  }

  /** Reading a compacted log gives the compacted map, whichever fold reads it. */
  lemma {:induction false} CompactedRead(log: seq<Record>)
    ensures Live(Compacted(log)) == Kept(log) && Kept(Compacted(log)) == Kept(log)
  {
    hide KeepsAsItem, Before, Kept, Live, SortedItems, Ascending;
    var (items, listing) := (Kept(log), SortedItems(Kept(log)));
    KeptIsKeyed(log);
    SortedItemsAreListing(items);
    assert Compacted(log) == EncodeAll(listing);
    LiveIsKeyed(EncodeAll(listing));
    EncodedAgree(listing);
    forall x: Item ensures x.id in Live(EncodeAll(listing)) && Live(EncodeAll(listing))[x.id] == x <==> x in listing {
      ReadEncoded(listing, x);
    }
    SameKeyed(Live(EncodeAll(listing)), items);
  }

  lemma {:induction false} SameKeyed(a: map<string, Item>, b: map<string, Item>)
    requires KeyedById(a) && KeyedById(b)
    requires forall x: Item :: x.id in a && a[x.id] == x <==> x.id in b && b[x.id] == x
    ensures a == b
  {
    forall id | id in a ensures id in b && b[id] == a[id] {
      assert a[id].id == id;
    }
    forall id | id in b ensures id in a {
      assert b[id].id == id;
    }
  }

  lemma {:induction false} AgreeEverywhere(a: map<string, Item>, b: map<string, Item>)
    ensures a == b <==> forall id :: AgreeAt(a, b, id)
  {
    if forall id :: AgreeAt(a, b, id) {
      assert forall id :: id in a || id in b ==> AgreeAt(a, b, id);
    }
  }

  lemma {:induction false} SameListing(a: map<string, Item>, b: map<string, Item>)
    requires KeyedById(a) && KeyedById(b)
    ensures SortedItems(a) == SortedItems(b) <==> a == b
  {
    hide SortedItems, Ascending;
    SortedItemsAreListing(a);
    SortedItemsAreListing(b);
    if SortedItems(a) == SortedItems(b) {
      SameKeyed(a, b);
    }
  }

  /** Compaction is invisible to readers exactly when every bare record left standing repeats what compaction keeps. */
  lemma {:induction false} CompactionIsInvisible(log: seq<Record>)
    ensures SortedItems(Live(Compacted(log))) == SortedItems(Live(log)) <==> BareRecordsHarmless(log)
  {
    hide SortedItems, Live, Kept, HarmlessAt;
    CompactedRead(log);
    LiveIsKeyed(log);
    KeptIsKeyed(log);
    SameListing(Kept(log), Live(log));
    forall id ensures AgreeAt(Kept(log), Live(log), id) <==> HarmlessAt(log, id) {
      KeptAgreesWithLive(log, id);
      HarmlessRepeatsKept(log, id);
    }
    AgreeEverywhere(Kept(log), Live(log));
  }

  /** Records that carry their arrays are always safe. */
  lemma {:induction false} FullRecordsAreHarmless(log: seq<Record>)
    requires NoBareRecords(log)
    ensures BareRecordsHarmless(log) && Live(Compacted(log)) == Live(log)
  {
    hide SortedItems, Live, Kept, Bare;
    CompactedRead(log);
    forall id ensures AgreeAt(Kept(log), Live(log), id) {
      KeptAgreesWithLive(log, id);
    }
    AgreeEverywhere(Kept(log), Live(log));
  }

  const BARE_LESSON := Item("L1", "lesson", "t", "i", None, "manual", Context("", ""), "2025", true, Some([]), Some([]),
    None, None, None, None, None, None, None, None, None, None, None, None)

  /** A legacy record without tags is read before compaction and gone after it. */
  lemma {:induction false} BareRecordVanishes()
    ensures "L1" in Live([Wellformed(BARE_LESSON)]) && Live(Compacted([Wellformed(BARE_LESSON)])) == map[]
  {
    var log := [Wellformed(BARE_LESSON)];
    assert log[..0] == [];
    CompactedRead(log);
  }

  /** Compacting twice is compacting once, and leaves no tombstones. */
  lemma {:induction false} CompactIsIdempotent(log: seq<Record>)
    ensures Compacted(Compacted(log)) == Compacted(log)
    ensures Tombstones(Compacted(log)) == 0 && Skipped(Compacted(log)) == 0 && DeletedIds(Compacted(log)) == {}
  {
    hide SortedItems, Kept, Ascending, ValidItem, ConvertLegacy;
    CompactedRead(log);
    KeptIsKeyed(log);
    SortedItemsAreListing(Kept(log));
    EncodedIsClean(SortedItems(Kept(log)));
  }

  lemma {:induction false} TombstonesAdd(log: seq<Record>, tail: seq<Record>)
    ensures Tombstones(log + tail) == Tombstones(log) + Tombstones(tail) && Tombstones(tail) <= |tail|
  {
    if tail == [] {
      assert log + tail == log;
    } else {
      var front := tail[..|tail| - 1];
      TombstonesAdd(log, front);
      assert (log + tail)[..|log + tail| - 1] == log + front;
    }
  }

  /** After a compaction another one is needed only when enough records that say deleted were appended. */
  lemma {:induction false} NeededAgainIff(log: seq<Record>, tail: seq<Record>)
    ensures Tombstones(Compacted(log) + tail) >= TOMBSTONE_THRESHOLD <==> Tombstones(tail) >= 100
    ensures |tail| < 100 ==> Tombstones(Compacted(log) + tail) < TOMBSTONE_THRESHOLD
  {
    hide SortedItems, Kept;
    CompactIsIdempotent(log);
    TombstonesAdd(Compacted(log), tail);
  }

  lemma {:induction false} EncodedIsClean(items: seq<Item>)
    requires forall y :: y in items ==> KeepsAsItem(Wellformed(y))
    ensures Tombstones(EncodeAll(items)) == 0 && Skipped(EncodeAll(items)) == 0 && DeletedIds(EncodeAll(items)) == {}
  {
    hide ValidItem, HasArrays;
    if items != [] {
      var (front, last) := (items[..|items| - 1], items[|items| - 1]);
      EncodedIsClean(front);
      assert EncodeAll(items)[..|items| - 1] == EncodeAll(front);
      assert EncodeAll(items) == EncodeAll(front) + [Wellformed(last)];
      assert items == front + [last];
      BareIsDropped(Wellformed(last));
    }
  }

  lemma {:induction false} SameFold(a: seq<Record>, b: seq<Record>, tail: seq<Record>)
    ensures Live(a) == Live(b) ==> Live(a + tail) == Live(b + tail)
    ensures Kept(a) == Kept(b) ==> Kept(a + tail) == Kept(b + tail)
  {
    hide ReadStep, KeepStep;
    if tail == [] {
      assert a + tail == a && b + tail == b;
    } else {
      var front := tail[..|tail| - 1];
      SameFold(a, b, front);
      assert (a + tail)[..|a + tail| - 1] == a + front && (b + tail)[..|b + tail| - 1] == b + front;
    }
  }

  /** Compaction commutes with any later appends. */
  lemma {:induction false} CompactCommutesWithAppends(log: seq<Record>, tail: seq<Record>)
    ensures Compacted(Compacted(log) + tail) == Compacted(log + tail)
    ensures BareRecordsHarmless(log) ==> Live(Compacted(log) + tail) == Live(log + tail)
  {
    hide SortedItems, Live, Kept, BareRecordsHarmless;
    CompactedRead(log);
    CompactionIsInvisible(log);
    LiveIsKeyed(log);
    LiveIsKeyed(Compacted(log));
    SameListing(Live(Compacted(log)), Live(log));
    SameFold(Compacted(log), log, tail);
  }
}
