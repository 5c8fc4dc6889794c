/** The commands that write the lesson log (cli/commands_crud.go), and whole runs of them. */
module LessonCommands {
  import opened Prelude
  import opened Text
  import opened Listing
  import opened Lessons

  datatype UpdateFlags = UpdateFlags(insight: Option<string>, trigger: Option<string>, evidence: Option<string>,
    severity: Option<string>, tags: Option<string>, confirmed: Option<string>)

  const NO_FLAGS := UpdateFlags(None, None, None, None, None, None)

  // ---- Tags given on the command line ----

  /** The distinct trimmed tags, in order of first appearance. */
  function DistinctTags(parts: seq<string>): seq<string> {
    if parts == [] then []
    else
      var (before, tag) := (DistinctTags(parts[..|parts| - 1]), TrimSpace(parts[|parts| - 1]));
      if tag != "" && tag !in before then before + [tag] else before
  }

  /** dedupTags; no tags is a nil slice. */
  function DedupTags(raw: string): Option<seq<string>> {
    var tags := DistinctTags(Split(raw, ','));
    if tags == [] then None else Some(tags)
  }

  method DedupTagsLoop(raw: string) returns (result: Option<seq<string>>)
    ensures result == DedupTags(raw)
  {
    var parts := Split(raw, ',');
    var seen: set<string> := {};
    var tags: seq<string> := [];
    for i := 0 to |parts|
      invariant tags == DistinctTags(parts[..i]) && forall t :: t in seen <==> t in tags
    {
      assert parts[..i + 1][..i] == parts[..i];
      var tag := TrimSpace(parts[i]);
      if tag != "" && tag !in seen {
        seen := seen + {tag};
        tags := tags + [tag];
      }
    }
    assert parts[..|parts|] == parts;
    result := if tags == [] then None else Some(tags);
  }

  /** Tags that survive the comma-separated column of the derived index: no commas, none empty. */
  ghost predicate PlainTags(tags: seq<string>) {
    Free(tags, ',') && "" !in tags
  }

  lemma {:induction false} CommandLineTagsArePlain(raw: string)
    ensures DedupTags(raw).Some? ==> PlainTags(DedupTags(raw).value)
  {
    SplitIsFree(raw, ',');
    DistinctTagsArePlain(Split(raw, ','));
  }

  lemma {:induction false} DistinctTagsArePlain(parts: seq<string>)
    requires Free(parts, ',')
    ensures PlainTags(DistinctTags(parts))
    ensures forall i, j :: 0 <= i < j < |DistinctTags(parts)| ==> DistinctTags(parts)[i] != DistinctTags(parts)[j]
  {
    if parts != [] {
      DistinctTagsArePlain(parts[..|parts| - 1]);
      TrimmedChars(parts[|parts| - 1], ',');
    }
  }

  /** Exactly the parts that are not blank, trimmed, each where it first appears. */
  lemma {:induction false} DistinctTagsAre(parts: seq<string>, t: string)
    ensures t in DistinctTags(parts) <==> t != "" && exists k :: 0 <= k < |parts| && TrimSpace(parts[k]) == t
    ensures forall n: nat :: n <= |parts| ==> DistinctTags(parts[..n]) <= DistinctTags(parts)
  {
    if parts != [] {
      var (front, m) := (parts[..|parts| - 1], |parts| - 1);
      DistinctTagsAre(front, t);
      assert forall k :: 0 <= k < m ==> parts[k] == front[k];
      assert parts[..|parts|] == parts;
      forall n: nat | n <= |parts| ensures DistinctTags(parts[..n]) <= DistinctTags(parts) {
        if n <= m {
          assert parts[..n] == front[..n];
        } else {
          assert parts[..n] == parts;
        }
      }
    }
  }

  // ---- One command at a time ----

  predicate ValidFlags(f: UpdateFlags) {
    f != NO_FLAGS && (f.severity.Some? ==> f.severity.value in {"high", "medium", "low"})
  }

  function Changed<T>(flag: Option<T>, current: T): T { if flag.Some? then flag.value else current }

  function ApplyUpdateFlags(item: Item, f: UpdateFlags): Item {
    item.(
    insight := Changed(f.insight, item.insight),
    trigger := Changed(f.trigger, item.trigger),
    evidence := if f.evidence.Some? then f.evidence else item.evidence,
    severity := if f.severity.Some? then f.severity else item.severity,
    tags := if f.tags.Some? then DedupTags(f.tags.value) else item.tags,
    confirmed := if f.confirmed.Some? then f.confirmed.value == "true" else item.confirmed)
  }

  function Invalidated(item: Item, now: string, reason: Option<string>): Item {
    item.(invalidatedAt := Some(now), invalidationReason := if reason.Some? then reason else item.invalidationReason)
  }

  function Revalidated(item: Item): Item { item.(invalidatedAt := None, invalidationReason := None) }

  function Tombstone(item: Item, now: string): Item { item.(deleted := Some(true), deletedAt := Some(now)) }

  /** The log after an append. */
  function Appended(log: seq<Record>, item: Item): seq<Record> { log + [Wellformed(EnsureArrayFields(item))] }

  /** findItem in a listing of the log. */
  method FindItem(items: seq<Item>, ghost live: map<string, Item>, id: string) returns (found: Option<Item>)
    requires KeyedById(live) && items == SortedItems(live)
    ensures found == if id in live then Some(live[id]) else None
  {
    hide Before, Ascending, SortedItems;
    SortedItemsAreListing(live);
    for i := 0 to |items|
      invariant forall j :: 0 <= j < i ==> items[j].id != id
    {
      if items[i].id == id {
        assert items[i] in items;
        return Some(items[i]);
      }
    }
    if id in live {
      var _ := PositionOf(live, items, id);
    }
    found := None;
  }

  lemma {:induction false} PositionOf(live: map<string, Item>, items: seq<Item>, id: string) returns (i: nat)
    requires KeyedById(live) && IsListing(live, items) && id in live
    ensures i < |items| && items[i].id == id
  {
    hide Ascending;
    assert live[id] in items;
    i :| 0 <= i < |items| && items[i] == live[id];
  }

  method Lookup(log: LessonLog, id: string) returns (found: Option<Item>)
    ensures found == if id in Live(log.records) then Some(Live(log.records)[id]) else None
  {
    var result := log.ReadItems();
    LiveIsKeyed(log.records);
    found := FindItem(result.items, Live(log.records), id);
  }

  method RunUpdate(log: LessonLog, id: string, f: UpdateFlags) returns (r: Result<Item>)
    modifies log
    ensures r.Err? <==> !ValidFlags(f) || id !in Live(old(log.records))
    ensures r.Err? ==> log.records == old(log.records)
    ensures r.Ok? ==>
      r.value == ApplyUpdateFlags(Live(old(log.records))[id], f) && log.records == Appended(old(log.records), r.value)
  {
    if !ValidFlags(f) {
      return Err;
    }
    var item := Lookup(log, id);
    if item.None? {
      return Err;
    }
    var updated := ApplyUpdateFlags(item.value, f);
    log.AppendItem(updated);
    r := Ok(updated);
  }

  method RunWrong(log: LessonLog, id: string, now: string, reason: Option<string>) returns (r: Result<bool>)
    modifies log
    ensures r.Err? <==> id !in Live(old(log.records))
    ensures r.Ok? ==> (r.value <==> Live(old(log.records))[id].invalidatedAt.None?)
    ensures log.records ==
      if r == Ok(true) then Appended(old(log.records), Invalidated(Live(old(log.records))[id], now, reason))
      else old(log.records)
  {
    var item := Lookup(log, id);
    if item.None? {
      return Err;
    }
    if item.value.invalidatedAt.Some? {
      return Ok(false);
    }
    log.AppendItem(Invalidated(item.value, now, reason));
    r := Ok(true);
  }

  method RunValidate(log: LessonLog, id: string) returns (r: Result<bool>)
    modifies log
    ensures r.Err? <==> id !in Live(old(log.records))
    ensures r.Ok? ==> (r.value <==> Live(old(log.records))[id].invalidatedAt.Some?)
    ensures log.records ==
      if r == Ok(true) then Appended(old(log.records), Revalidated(Live(old(log.records))[id]))
      else old(log.records)
  {
    var item := Lookup(log, id);
    if item.None? {
      return Err;
    }
    if item.value.invalidatedAt.None? {
      return Ok(false);
    }
    log.AppendItem(Revalidated(item.value));
    r := Ok(true);
  }

  /** The log after deleting ids found in a listing read beforehand. */
  function WithTombstones(log: seq<Record>, live: map<string, Item>, ids: seq<string>, now: string): seq<Record> {
    if ids == [] then log
    else
      var (before, id) := (WithTombstones(log, live, ids[..|ids| - 1], now), ids[|ids| - 1]);
      if id in live then Appended(before, Tombstone(live[id], now)) else before
  }

  /** processDeleteIDs: `deleted` and `missing` are the ids removed and warned about. */
  method ProcessDeleteIDs(log: LessonLog, ids: seq<string>, now: string) returns (deleted: seq<string>,
    missing: seq<string>)
    modifies log
    ensures log.records == WithTombstones(old(log.records), Live(old(log.records)), ids, now)
    ensures forall id :: (id in deleted <==> id in ids && id in Live(old(log.records)))
    ensures forall id :: (id in missing <==> id in ids && id !in Live(old(log.records)))
    ensures |deleted| + |missing| == |ids|
  {
    hide Live;
    ghost var live := Live(log.records);
    var result := log.ReadItems();
    LiveIsKeyed(log.records);
    deleted, missing := [], [];
    for i := 0 to |ids|
      invariant log.records == WithTombstones(old(log.records), live, ids[..i], now)
      invariant forall id :: id in deleted <==> id in ids[..i] && id in live
      invariant forall id :: id in missing <==> id in ids[..i] && id !in live
      invariant |deleted| + |missing| == i
    {
      assert ids[..i + 1] == ids[..i] + [ids[i]];
      assert ids[..i + 1][..i] == ids[..i];
      var item := FindItem(result.items, live, ids[i]);
      if item.None? {
        missing := missing + [ids[i]];
      } else {
        log.AppendItem(Tombstone(item.value, now));
        deleted := deleted + [ids[i]];
      }
    }
    assert ids[..|ids|] == ids;
  }

  // ---- What each command does to the live items ----

  /** What a reader may rely on about a live item. */
  predicate Readable(item: Item) { ValidItem(item) && ConvertLegacy(item) == item && item.deleted != Some(true) }

  lemma {:induction false} LiveIsReadable(log: seq<Record>, id: string)
    ensures id in Live(log) ==> Readable(Live(log)[id])
  {
    if log != [] {
      LiveIsReadable(log[..|log| - 1], id);
    }
  }

  lemma {:induction false} LiveOfAppended(log: seq<Record>, item: Item)
    ensures Live(Appended(log, item)) ==
      if item.deleted == Some(true) && item.id != "" then Live(log) - {item.id}
      else if ValidItem(Normalised(item)) then Live(log)[item.id := Normalised(item)]
      else Live(log)
    ensures !Bare(Wellformed(EnsureArrayFields(item)))
  {
    assert Appended(log, item)[..|log|] == log;
    assert Normalised(EnsureArrayFields(item)) == Normalised(item);
  }

  /**
    An update takes effect exactly when it blanks neither insight nor trigger; otherwise it reports success and
    changes nothing.
   */
  lemma {:induction false} UpdateTakesEffect(log: seq<Record>, id: string, f: UpdateFlags)
    requires id in Live(log) && ValidFlags(f)
    ensures var x := ApplyUpdateFlags(Live(log)[id], f);
      Live(Appended(log, x)) ==
        if f.insight == Some("") || f.trigger == Some("") then Live(log) else Live(log)[id := EnsureArrayFields(x)]
  {
    var x := ApplyUpdateFlags(Live(log)[id], f);
    LiveIsReadable(log, id);
    LiveIsKeyed(log);
    LiveOfAppended(log, x);
    assert Normalised(x) == EnsureArrayFields(x);
  }

  /** The flags that are refused: none at all, or a severity that is not one of the three. */
  lemma {:induction false} RefusedFlags(f: UpdateFlags)
    ensures !ValidFlags(f) <==>
      || (f.insight.None? && f.trigger.None? && f.evidence.None? && f.severity.None? && f.tags.None?
        && f.confirmed.None?)
      || (f.severity.Some? && f.severity.value != "high" && f.severity.value != "medium" && f.severity.value != "low")
  { }

  /** The tags a flag stands for: its parts between commas, trimmed, without blanks and repetitions. */
  ghost predicate AreTagsOf(tags: seq<string>, raw: string) {
    && (forall i, j :: 0 <= i < j < |tags| ==> tags[i] != tags[j])
    && forall t :: t in tags <==>
      t != "" && exists k :: 0 <= k < |Split(raw, ',')| && TrimSpace(Split(raw, ',')[k]) == t
  }

  /** After an update that takes effect, each flag given stands in its own field, and every other field is as it was. */
  lemma {:induction false} UpdatedFields(log: seq<Record>, id: string, f: UpdateFlags)
    requires id in Live(log) && ValidFlags(f) && f.insight != Some("") && f.trigger != Some("")
    ensures var after := Live(Appended(log, ApplyUpdateFlags(Live(log)[id], f)));
      id in after && HasFlags(Live(log)[id], after[id], f)
    ensures forall other :: other in Live(log) && other != id ==>
      var after := Live(Appended(log, ApplyUpdateFlags(Live(log)[id], f)));
      other in after && after[other] == Live(log)[other]
  {
    hide Live, Split, TrimSpace, DistinctTags;
    var x := Live(log)[id];
    UpdateTakesEffect(log, id, f);
    LiveIsReadable(log, id);
    LiveIsKeyed(log);
    if f.tags.Some? {
      FlagTags(f.tags.value);
    }
  }

  lemma {:induction false} FlagTags(raw: string)
    ensures var tags := OrEmpty(DedupTags(raw)); tags.Some? && AreTagsOf(tags.value, raw)
  {
    var parts := Split(raw, ',');
    SplitIsFree(raw, ',');
    DistinctTagsArePlain(parts);
    forall t ensures t in DistinctTags(parts) <==> t != "" && exists k :: 0 <= k < |parts| && TrimSpace(parts[k]) == t {
      DistinctTagsAre(parts, t);
    }
  }

  /** y is x with the given flags, field by field. */
  ghost predicate HasFlags(x: Item, y: Item, f: UpdateFlags) {
    && (if f.insight.Some? then y.insight == f.insight.value else y.insight == x.insight)
    && (if f.trigger.Some? then y.trigger == f.trigger.value else y.trigger == x.trigger)
    && (if f.evidence.Some? then y.evidence == f.evidence else y.evidence == x.evidence)
    && (if f.severity.Some? then y.severity == f.severity else y.severity == x.severity)
    && (if f.tags.Some? then y.tags.Some? && AreTagsOf(y.tags.value, f.tags.value) else y.tags == x.tags)
    && (if f.confirmed.Some? then y.confirmed == (f.confirmed.value == "true") else y.confirmed == x.confirmed)
    && x == y.(insight := x.insight, trigger := x.trigger, evidence := x.evidence, severity := x.severity,
      tags := x.tags, confirmed := x.confirmed)
  }

  lemma {:induction false} WriteReadable(log: seq<Record>, id: string, x: Item)
    requires x.id == id && Readable(x)
    ensures Live(Appended(log, x)) == Live(log)[id := x]
  {
    LiveOfAppended(log, x);
    assert Normalised(x) == x;
  }

  /** Marking a lesson wrong and re-enabling it gives the lesson back, exactly when it carried no old reason. */
  lemma {:induction false} WrongThenValidate(log: seq<Record>, id: string, now: string, reason: Option<string>)
    requires id in Live(log) && Live(log)[id].invalidatedAt.None?
    ensures var wrong := Appended(log, Invalidated(Live(log)[id], now, reason));
      && id in Live(wrong)
      && (Live(Appended(wrong, Revalidated(Live(wrong)[id]))) == Live(log) <==> Live(log)[id].invalidationReason.None?)
  {
    var x := Live(log)[id];
    LiveIsReadable(log, id);
    LiveIsKeyed(log);
    var y := Invalidated(x, now, reason);
    var wrong := Appended(log, y);
    WriteReadable(log, id, y);
    WriteReadable(wrong, id, Revalidated(y));
    assert Live(Appended(wrong, Revalidated(y))) == Live(log)[id := y][id := Revalidated(y)]
      == Live(log)[id := Revalidated(y)];
    if Revalidated(y) == x {
      assert Live(log)[id := x] == Live(log);
    } else {
      assert Live(log)[id := Revalidated(y)][id] != Live(log)[id];
    }
  }

  /** Marking a lesson wrong stores the time, and a reason if given; re-enabling it clears both; all else stays. */
  lemma {:induction false} StampedFields(log: seq<Record>, id: string, now: string, reason: Option<string>)
    requires id in Live(log)
    ensures var (x, wrong) := (Live(log)[id], Live(Appended(log, Invalidated(Live(log)[id], now, reason))));
      var y := if id in wrong then wrong[id] else x;
      && y.invalidatedAt == Some(now) && (reason.Some? ==> y.invalidationReason == reason)
      && (reason.None? ==> y.invalidationReason == x.invalidationReason)
      && x == y.(invalidatedAt := x.invalidatedAt, invalidationReason := x.invalidationReason)
      && wrong == Live(log)[id := y]
    ensures var (x, valid) := (Live(log)[id], Live(Appended(log, Revalidated(Live(log)[id]))));
      var y := if id in valid then valid[id] else x;
      && y.invalidatedAt == None && y.invalidationReason == None
      && x == y.(invalidatedAt := x.invalidatedAt, invalidationReason := x.invalidationReason)
      && valid == Live(log)[id := y]
  {
    hide Live, ValidItem, ConvertLegacy;
    WriteStamped(log, id, Invalidated(Live(log)[id], now, reason));
    WriteStamped(log, id, Revalidated(Live(log)[id]));
  }

  /** A deletion's record is the lesson with its time of deletion. */
  lemma {:induction false} TombstoneKeepsLesson(x: Item, now: string)
    ensures var r := Wellformed(EnsureArrayFields(Tombstone(x, now)));
      && SaysDeleted(r) && RawId(r) == x.id && r.item.deletedAt == Some(now)
      && EnsureArrayFields(x) == r.item.(deleted := x.deleted, deletedAt := x.deletedAt)
  { }

  lemma {:induction false} DeletesThem(log: seq<Record>, live: map<string, Item>, ids: seq<string>, now: string)
    requires KeyedById(live) && "" !in live
    ensures Live(WithTombstones(log, live, ids, now)) == Live(log) - (set id | id in ids && id in live)
    ensures NoBareRecords(log) ==> NoBareRecords(WithTombstones(log, live, ids, now))
  {
    hide Live, Bare;
    if ids != [] {
      var (front, id) := (ids[..|ids| - 1], ids[|ids| - 1]);
      assert ids == front + [id];
      DeletesThem(log, live, front, now);
      if id in live {
        LiveOfAppended(WithTombstones(log, live, front, now), Tombstone(live[id], now));
        assert (set i | i in ids && i in live) == (set i | i in front && i in live) + {id};
      } else {
        assert (set i | i in ids && i in live) == (set i | i in front && i in live);
      }
    } else {
      assert (set i | i in ids && i in live) == {};
    }
  }

  // ---- Whole runs ----

  datatype Op =
    | Learn(item: Item)
    | Update(id: string, flags: UpdateFlags)
    | Wrong(id: string, now: string, reason: Option<string>)
    | Validate(id: string)
    | Delete(ids: seq<string>, now: string)
    | Compact

  ghost function OpStep(log: seq<Record>, op: Op): seq<Record> {
    var live := Live(log);
    match op
    case Learn(item) => Appended(log, item)
    case Update(id, f) => if ValidFlags(f) && id in live then Appended(log, ApplyUpdateFlags(live[id], f)) else log
    case Wrong(id, now, reason) =>
      if id in live && live[id].invalidatedAt.None? then Appended(log, Invalidated(live[id], now, reason)) else log
    case Validate(id) =>
      if id in live && live[id].invalidatedAt.Some? then Appended(log, Revalidated(live[id])) else log
    case Delete(ids, now) => WithTombstones(log, live, ids, now)
    case Compact => Compacted(log)
  }

  /** The same step on a plain map of items. */
  function MapStep(m: map<string, Item>, op: Op): map<string, Item> {
    match op
    case Learn(item) =>
      if item.deleted == Some(true) && item.id != "" then m - {item.id}
      else if ValidItem(Normalised(item)) then m[item.id := Normalised(item)]
      else m
    case Update(id, f) =>
      if ValidFlags(f) && id in m && f.insight != Some("") && f.trigger != Some("")
      then m[id := EnsureArrayFields(ApplyUpdateFlags(m[id], f))] else m
    case Wrong(id, now, reason) =>
      if id in m && m[id].invalidatedAt.None? then m[id := Invalidated(m[id], now, reason)] else m
    case Validate(id) => if id in m && m[id].invalidatedAt.Some? then m[id := Revalidated(m[id])] else m
    case Delete(ids, _) => m - (set id | id in ids && id in m)
    case Compact => m
  }

  ghost function RunOps(log: seq<Record>, ops: seq<Op>): seq<Record> {
    if ops == [] then log else OpStep(RunOps(log, ops[..|ops| - 1]), ops[|ops| - 1])
  }

  function RunMap(m: map<string, Item>, ops: seq<Op>): map<string, Item> {
    if ops == [] then m else MapStep(RunMap(m, ops[..|ops| - 1]), ops[|ops| - 1])
  }

  lemma {:induction false} StepOnMap(log: seq<Record>, op: Op)
    requires NoBareRecords(log)
    ensures Live(OpStep(log, op)) == MapStep(Live(log), op) && NoBareRecords(OpStep(log, op))
  {
    hide Live, Bare, Compacted, ValidItem, ConvertLegacy, EnsureArrayFields, ValidFlags, ApplyUpdateFlags,
      WithTombstones;
    LiveIsKeyed(log);
    match op
    case Learn(item) => LiveOfAppended(log, item);
    case Update(id, f) => if ValidFlags(f) && id in Live(log) {
      UpdateTakesEffect(log, id, f);
      LiveOfAppended(log, ApplyUpdateFlags(Live(log)[id], f));
    }
    case Wrong(id, now, reason) => if id in Live(log) {
      WriteStamped(log, id, Invalidated(Live(log)[id], now, reason));
    }
    case Validate(id) => if id in Live(log) {
      WriteStamped(log, id, Revalidated(Live(log)[id]));
    }
    case Delete(ids, now) => DeletesThem(log, Live(log), ids, now);
    case Compact =>
      FullRecordsAreHarmless(log);
      CompactedIsFull(log);
  }

  lemma {:induction false} WriteStamped(log: seq<Record>, id: string, x: Item)
    requires id in Live(log) && x
      == Live(log)[id].(invalidatedAt := x.invalidatedAt, invalidationReason := x.invalidationReason)
    ensures Live(Appended(log, x)) == Live(log)[id := x] && !Bare(Wellformed(EnsureArrayFields(x)))
  {
    LiveIsReadable(log, id);
    LiveIsKeyed(log);
    WriteReadable(log, id, x);
  }

  lemma {:induction false} CompactedIsFull(log: seq<Record>)
    ensures NoBareRecords(Compacted(log))
  {
    hide Kept, SortedItems, Ascending, ValidItem, ConvertLegacy, HasArrays;
    KeptIsKeyed(log);
    SortedItemsAreListing(Kept(log));
    forall k | 0 <= k < |Compacted(log)| ensures !Bare(Compacted(log)[k]) {
      assert SortedItems(Kept(log))[k] in SortedItems(Kept(log));
      BareIsDropped(Compacted(log)[k]);
    }
  }

  /** Over every run of commands and compactions, the live items are a plain last-write-wins map. */
  lemma {:induction false} RunIsPlainMap(log: seq<Record>, ops: seq<Op>)
    requires NoBareRecords(log)
    ensures Live(RunOps(log, ops)) == RunMap(Live(log), ops) && NoBareRecords(RunOps(log, ops))
  {
    hide OpStep, MapStep, Live, Bare;
    if ops != [] {
      RunIsPlainMap(log, ops[..|ops| - 1]);
      StepOnMap(RunOps(log, ops[..|ops| - 1]), ops[|ops| - 1]);
    }
  }

  /** Compacting anywhere in a run changes no reader's view, then or later. */
  lemma {:induction false} CompactionsDoNotShow(log: seq<Record>, before: seq<Op>, after: seq<Op>)
    requires NoBareRecords(log)
    ensures SortedItems(Live(RunOps(log, before + [Compact] + after))) == SortedItems(Live(RunOps(log, before + after)))
  {
    hide SortedItems, Live, NoBareRecords;
    RunIsPlainMap(log, before + [Compact] + after);
    RunIsPlainMap(log, before + after);
    SkipCompact(Live(log), before, after);
  }

  lemma {:induction false} CompactIsNothing(m: map<string, Item>)
    ensures MapStep(m, Compact) == m
  { }

  lemma {:induction false} SkipCompact(m: map<string, Item>, before: seq<Op>, after: seq<Op>)
    ensures RunMap(m, before + [Compact] + after) == RunMap(m, before + after)
  {
    hide MapStep;
    if after == [] {
      CompactIsNothing(RunMap(m, before));
      assert before + [Compact] + after == before + [Compact] && before + after == before;
      assert (before + [Compact])[..|before|] == before;
    } else {
      var (front, last) := (after[..|after| - 1], after[|after| - 1]);
      SkipCompact(m, before, front);
      assert (before + [Compact] + after)[..|before| + 1 + |front|] == before + [Compact] + front;
      assert (before + after)[..|before| + |front|] == before + front;
    }
  }
}
