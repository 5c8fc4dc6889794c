/** Cached embeddings (search/vector.go, storage/cache.go). */
module EmbeddingCache {
  import opened Prelude
  import opened Text
  import opened Listing

  const MAX_EMBED_BATCH := 64

  const EMBEDDING_MODEL_ID := "nomic-embed-text-v1.5-q8"

  type Vector = seq<real>

  /** What the model makes of a text: embed(model, text). */
  type Embedding = (string, string) -> Vector

  datatype CachedEmbedding = CachedEmbedding(vector: Vector, hash: Hash)

  /** Two columns of the lessons table: embeddings of trigger and insight, and of the insight alone. */
  datatype Column = Whole | InsightOnly

  function ContentHash(model: string, trigger: string, insight: string): Hash {
    Sha256(model + [':'] + (trigger + " " + insight))
  }

  /** The text a column's resolver embeds, and the hash it stores beside the vector. */
  function EmbeddedText(column: Column, item: Item): string {
    if column == Whole then item.trigger + " " + item.insight else item.insight
  }

  function ItemHash(column: Column, model: string, item: Item): Hash {
    if column == Whole then ContentHash(model, item.trigger, item.insight) else ContentHash(model, item.insight, "")
  }

  /** Storing a vector as float32 and reading it back. */
  function Stored(narrow: real -> real, v: Vector): Vector {
    seq(|v|, i requires 0 <= i < |v| => narrow(v[i]))
  }

  ghost predicate IsNarrowing(narrow: real -> real) {
    forall x: real :: narrow(narrow(x)) == narrow(x)
  }

  lemma {:induction false} StoredTwice(narrow: real -> real, v: Vector)
    requires IsNarrowing(narrow)
    ensures Stored(narrow, Stored(narrow, v)) == Stored(narrow, v)
  {
    var (once, twice) := (Stored(narrow, v), Stored(narrow, Stored(narrow, v)));
    forall i | 0 <= i < |v| ensures twice[i] == once[i] {
      var x := v[i];
      assert once[i] == narrow(x) && twice[i] == narrow(once[i]);
      assert narrow(narrow(x)) == narrow(x);
    }
  }

  // ---- Hashes identify what was embedded ----

  lemma {:induction false} HashFixesModelAndText(m: string, s: string, m': string, s': string)
    requires ':' !in m && ':' !in m' && Sha256(m + [':'] + s) == Sha256(m' + [':'] + s')
    ensures m == m' && s == s'
  {
    hide Split;
    SplitAtSeparator(m, s, ':');
    SplitAtSeparator(m', s', ':');
    assert ([m] + Split(s, ':'))[0] == ([m'] + Split(s', ':'))[0];
    var u := m + [':'] + s;
    assert u[|m| + 1..] == s && u[|m'| + 1..] == s';
  }

  /** Equal hashes mean equal embedded text under one model, as long as model names have no colon. */
  lemma {:induction false} EqualHashEqualText(column: Column, m: string, x: Item, m': string, y: Item)
    requires ':' !in m && ':' !in m' && ItemHash(column, m, x) == ItemHash(column, m', y)
    ensures m == m' && EmbeddedText(column, x) == EmbeddedText(column, y)
  {
    if column == Whole {
      HashFixesModelAndText(m, x.trigger + " " + x.insight, m', y.trigger + " " + y.insight);
    } else {
      HashFixesModelAndText(m, x.insight + " " + "", m', y.insight + " " + "");
      assert (x.insight + " " + "")[..|x.insight|] == x.insight && (y.insight + " " + "")[..|y.insight|] == y.insight;
    }
  }

  // ---- Batched embedding ----

  /** The daemon: element by element, but no more than maxBatch texts at once. */
  method Embed(embed: Embedding, model: string, maxBatch: nat, texts: seq<string>) returns (r: Result<seq<Vector>>)
    ensures r == if |texts| > maxBatch then Err else Ok(EmbedAll(embed, model, texts))
  {
    if |texts| > maxBatch {
      return Err;
    }
    r := Ok(EmbedAll(embed, model, texts));
  }

  function EmbedAll(embed: Embedding, model: string, texts: seq<string>): seq<Vector> {
    seq(|texts|, i requires 0 <= i < |texts| => embed(model, texts[i]))
  }

  predicate BatchFits(count: nat, maxBatch: nat) {
    count <= maxBatch || MAX_EMBED_BATCH <= maxBatch
  }

  /** Batches are made for a daemon that takes 64 texts, and no more: it never refuses one, and any smaller one does. */
  lemma {:induction false} DefaultDaemonTakesAll(count: nat, maxBatch: nat)
    ensures BatchFits(count, 64)
    ensures maxBatch < 64 ==> (BatchFits(count, maxBatch) <==> count <= maxBatch)
  { }

  /** Batching is embedding element by element, and fails only on a daemon that takes fewer than a full first batch. */
  method EmbedBatched(embed: Embedding, model: string, maxBatch: nat,
    texts: seq<string>) returns (r: Result<seq<Vector>>)
    ensures r == if BatchFits(|texts|, maxBatch) then Ok(EmbedAll(embed, model, texts)) else Err
  {
    if |texts| == 0 {
      return Ok([]);
    }
    var result: seq<Vector> := [];
    var i := 0;
    while i < |texts|
      invariant 0 <= i && result == EmbedAll(embed, model, texts[..if i <= |texts| then i else |texts|])
      invariant i > 0 ==> BatchFits(|texts|, maxBatch)
    {
      var end := i + MAX_EMBED_BATCH;
      if end > |texts| {
        end := |texts|;
      }
      var vecs := Embed(embed, model, maxBatch, texts[i..end]);
      if vecs.Err? {
        return Err;
      }
      assert texts[..end] == texts[..i] + texts[i..end];
      result := result + vecs.value;
      i := i + MAX_EMBED_BATCH;
    }
    assert texts[..|texts|] == texts;
    r := Ok(result);
  }

  // ---- One column of the cache ----

  type Cache = map<string, CachedEmbedding>

  predicate Hits(cache: Cache, column: Column, model: string, item: Item) {
    item.id in cache && cache[item.id].hash == ItemHash(column, model, item)
  }

  /** An entry holds what some model, named without a colon, made of the text its hash stands for. */
  ghost predicate IsGenuine(embed: Embedding, narrow: real -> real, column: Column, entry: CachedEmbedding) {
    exists m: string, x: Item {:trigger ItemHash(column, m, x)} ::
      ':' !in m && entry.hash == ItemHash(column, m, x)
        && entry.vector == Stored(narrow, embed(m, EmbeddedText(column, x)))
  }

  ghost predicate Sound(embed: Embedding, narrow: real -> real, column: Column, cache: Cache) {
    forall id :: id in cache ==> IsGenuine(embed, narrow, column, cache[id])
  }

  /** A hit gives what embedding the item's present text would give, as stored. */
  lemma {:induction false} HitIsCurrent(embed: Embedding, narrow: real -> real, column: Column, cache: Cache,
    model: string, item: Item)
    requires Sound(embed, narrow, column, cache) && ':' !in model && Hits(cache, column, model, item)
    ensures cache[item.id].vector == Stored(narrow, embed(model, EmbeddedText(column, item)))
  {
    hide ItemHash, EmbeddedText;
    var entry := cache[item.id];
    assert IsGenuine(embed, narrow, column, entry);
    var m, x {:trigger ItemHash(column, m, x)} :| ':' !in m && entry.hash == ItemHash(column, m, x)
      && entry.vector == Stored(narrow, embed(m, EmbeddedText(column, x)));
    EqualHashEqualText(column, m, x, model, item);
  }

  function NewEntry(embed: Embedding, narrow: real -> real, column: Column, model: string,
    item: Item): CachedEmbedding {
    CachedEmbedding(Stored(narrow, embed(model, EmbeddedText(column, item))), ItemHash(column, model, item))
  }

  /** The items that miss, in order. */
  function Misses(column: Column, model: string, cache: Cache, items: seq<Item>): seq<nat> {
    if items == [] then []
    else
      var before := Misses(column, model, cache, items[..|items| - 1]);
      if Hits(cache, column, model, items[|items| - 1]) then before else before + [|items| - 1]
  }

  lemma {:induction false} MissesAreTheMisses(column: Column, model: string, cache: Cache, items: seq<Item>)
    ensures forall k :: 0 <= k < |Misses(column, model, cache, items)| ==>
      IsMiss(column, model, cache, items, Misses(column, model, cache, items)[k])
    ensures forall i: nat :: i < |items| && !Hits(cache, column, model, items[i]) ==>
      i in Misses(column, model, cache, items)
  {
    hide Hits;
    if items != [] {
      MissesAreTheMisses(column, model, cache, items[..|items| - 1]);
    }
  }

  ghost predicate IsMiss(column: Column, model: string, cache: Cache, items: seq<Item>, i: nat) {
    i < |items| && !Hits(cache, column, model, items[i])
  }

  /** The column once the given misses are written, to rows that exist. */
  function Written(embed: Embedding, narrow: real -> real, column: Column, model: string, rows: set<string>,
    cache: Cache, items: seq<Item>, misses: seq<nat>): Cache {
    if misses == [] then cache
    else
      var (before, i) := (Written(embed, narrow, column, model, rows, cache, items, misses[..|misses| - 1]),
        misses[|misses| - 1]);
      if i >= |items| || items[i].id !in rows then before
      else before[items[i].id := NewEntry(embed, narrow, column, model, items[i])]
  }

  /** The column after resolving the items. */
  function Filled(embed: Embedding, narrow: real -> real, column: Column, model: string, rows: set<string>,
    cache: Cache, items: seq<Item>): Cache {
    Written(embed, narrow, column, model, rows, cache, items, Misses(column, model, cache, items))
  }

  lemma {:induction false} WritingStaysSound(embed: Embedding, narrow: real -> real, column: Column,
    model: string, rows: set<string>, cache: Cache, items: seq<Item>, misses: seq<nat>)
    requires Sound(embed, narrow, column, cache) && ':' !in model
    ensures Sound(embed, narrow, column, Written(embed, narrow, column, model, rows, cache, items, misses))
  {
    hide IsGenuine, NewEntry;
    if misses != [] {
      var i := misses[|misses| - 1];
      WritingStaysSound(embed, narrow, column, model, rows, cache, items, misses[..|misses| - 1]);
      if i < |items| {
        NewEntryIsGenuine(embed, narrow, column, model, items[i]);
      }
    }
  }

  lemma {:induction false} NewEntryIsGenuine(embed: Embedding, narrow: real -> real, column: Column,
    model: string, item: Item)
    requires ':' !in model
    ensures IsGenuine(embed, narrow, column, NewEntry(embed, narrow, column, model, item))
  {
    hide ItemHash, EmbeddedText, Stored;
    assert NewEntry(embed, narrow, column, model, item).hash == ItemHash(column, model, item);
  }

  // ---- The table and the resolvers ----

  class VectorDB {
    var rows: set<string>
    var whole: Cache
    var insightOnly: Cache

    function Cached(column: Column): Cache
      reads this
    {
      if column == Whole then whole else insightOnly
    }

    constructor ()
      ensures rows == {} && whole == map[] && insightOnly == map[]
    {
      rows, whole, insightOnly := {}, map[], map[];
    }

    /** Rebuilding deletes every row, and both cached columns with it. */
    method Rebuild(ids: set<string>)
      modifies this
      ensures rows == ids && whole == map[] && insightOnly == map[]
    {
      rows, whole, insightOnly := ids, map[], map[];
    }

    /** UPDATE ... WHERE id = ?: only a row that exists is written. */
    method SetCached(narrow: real -> real, column: Column, id: string, embedding: Vector, hash: Hash)
      modifies this`whole, this`insightOnly
      ensures Cached(column) == if id in rows
        then old(Cached(column))[id := CachedEmbedding(Stored(narrow, embedding), hash)] else old(Cached(column))
      ensures column == Whole ==> insightOnly == old(insightOnly)
      ensures column == InsightOnly ==> whole == old(whole)
    {
      if id in rows {
        var entry := CachedEmbedding(Stored(narrow, embedding), hash);
        if column == Whole {
          whole := whole[id := entry];
        } else {
          insightOnly := insightOnly[id := entry];
        }
      }
    }
  }

  /** What the resolvers answer for an item: the cached vector when its hash is current, otherwise a new one. */
  function Answer(embed: Embedding, column: Column, model: string, cache: Cache, item: Item): Vector {
    if Hits(cache, column, model, item) then cache[item.id].vector else embed(model, EmbeddedText(column, item))
  }

  ghost predicate IsResolved(embed: Embedding, column: Column, model: string, cache: Cache, items: seq<Item>,
    vecs: seq<Vector>) {
    |vecs| == |items| && forall i :: 0 <= i < |items| ==> vecs[i] == Answer(embed, column, model, cache, items[i])
  }

  /** resolveItemEmbeddings (Whole) and resolveInsightEmbeddings (InsightOnly). */
  method ResolveEmbeddings(db: VectorDB, embed: Embedding, narrow: real -> real, model: string, maxBatch: nat,
    column: Column, items: seq<Item>)
    returns (r: Result<seq<Vector>>)
    modifies db`whole, db`insightOnly
    ensures r.Ok? <==> BatchFits(|Misses(column, model, old(db.Cached(column)), items)|, maxBatch)
    ensures r.Ok? ==> IsResolved(embed, column, model, old(db.Cached(column)), items, r.value)
    ensures db.Cached(column) ==
      if r.Ok? then Filled(embed, narrow, column, model, db.rows, old(db.Cached(column)), items)
      else old(db.Cached(column))
    ensures column == Whole ==> db.insightOnly == old(db.insightOnly)
    ensures column == InsightOnly ==> db.whole == old(db.whole)
  {
    hide ItemHash, EmbeddedText, Hits, Answer, Written;
    var cache := db.Cached(column);
    var itemVecs := new Vector[|items|](_ => []);
    var uncached, texts := FindMisses(cache, embed, model, column, items, itemVecs);
    MissesAreTheMisses(column, model, cache, items);
    if |uncached| == 0 {
      NothingWritten(embed, narrow, column, model, db.rows, cache, items);
      return Ok(itemVecs[..]);
    }
    var vecs := EmbedBatched(embed, model, maxBatch, texts);
    if vecs.Err? {
      return Err;
    }
    WriteMisses(db, embed, narrow, model, column, cache, items, uncached, vecs.value, itemVecs);
    r := Ok(itemVecs[..]);
  }

  lemma {:induction false} NothingWritten(embed: Embedding, narrow: real -> real, column: Column, model: string,
    rows: set<string>, cache: Cache, items: seq<Item>)
    ensures Written(embed, narrow, column, model, rows, cache, items, []) == cache
  { }

  /** The last loop: new vectors are filled in and stored. */
  method WriteMisses(db: VectorDB, embed: Embedding, narrow: real -> real, model: string, column: Column,
    ghost cache: Cache, items: seq<Item>,
    uncached: seq<nat>, vecs: seq<Vector>, itemVecs: array<Vector>)
    requires itemVecs.Length == |items| && |vecs| == |uncached| && cache == db.Cached(column)
    requires forall k :: 0 <= k < |uncached| ==>
      uncached[k] < |items| && IsMiss(column, model, cache, items, uncached[k])
    requires forall k :: 0 <= k < |uncached| ==> vecs[k] == embed(model, EmbeddedText(column, items[uncached[k]]))
    requires forall i :: 0 <= i < |items| && i !in uncached ==>
      itemVecs[i] == Answer(embed, column, model, cache, items[i])
    modifies db`whole, db`insightOnly, itemVecs
    ensures db.Cached(column) == Written(embed, narrow, column, model, db.rows, cache, items, uncached)
    ensures forall i :: 0 <= i < |items| ==> itemVecs[i] == Answer(embed, column, model, cache, items[i])
    ensures column == Whole ==> db.insightOnly == old(db.insightOnly)
    ensures column == InsightOnly ==> db.whole == old(db.whole)
  {
    hide ItemHash, EmbeddedText, Hits;
    for k := 0 to |uncached|
      invariant db.Cached(column) == Written(embed, narrow, column, model, db.rows, cache, items, uncached[..k])
      invariant column == Whole ==> db.insightOnly == old(db.insightOnly)
      invariant column == InsightOnly ==> db.whole == old(db.whole)
      invariant forall i :: 0 <= i < |items| && i !in uncached[k..] ==>
        itemVecs[i] == Answer(embed, column, model, cache, items[i])
    {
      var i := uncached[k];
      assert IsMiss(column, model, cache, items, i);
      assert uncached[..k + 1][..k] == uncached[..k];
      assert uncached[k..] == [i] + uncached[k + 1..];
      itemVecs[i] := vecs[k];
      db.SetCached(narrow, column, items[i].id, vecs[k], ItemHash(column, model, items[i]));
    }
    assert uncached[..|uncached|] == uncached;
  }

  /** The first loop: cached vectors are filled in, the rest is listed for embedding. */
  method FindMisses(cache: Cache, ghost embed: Embedding, model: string, column: Column, items: seq<Item>,
    itemVecs: array<Vector>)
    returns (uncached: seq<nat>, texts: seq<string>)
    requires itemVecs.Length == |items|
    modifies itemVecs
    ensures uncached == Misses(column, model, cache, items) && |texts| == |uncached|
    ensures forall k :: 0 <= k < |uncached| ==>
      uncached[k] < |items| && texts[k] == EmbeddedText(column, items[uncached[k]])
    ensures forall i :: 0 <= i < |items| && Hits(cache, column, model, items[i]) ==>
      itemVecs[i] == Answer(embed, column, model, cache, items[i])
  {
    hide ItemHash, EmbeddedText;
    uncached, texts := [], [];
    for i := 0 to |items|
      invariant uncached == Misses(column, model, cache, items[..i]) && |texts| == |uncached|
      invariant forall k :: 0 <= k < |uncached| ==>
        uncached[k] < i && texts[k] == EmbeddedText(column, items[uncached[k]])
      invariant forall j :: 0 <= j < i && Hits(cache, column, model, items[j]) ==>
        itemVecs[j] == Answer(embed, column, model, cache, items[j])
    {
      var item := items[i];
      assert items[..i + 1][..i] == items[..i];
      if item.id in cache && cache[item.id].hash == ItemHash(column, model, item) {
        itemVecs[i] := cache[item.id].vector;
      } else {
        uncached := uncached + [i];
        texts := texts + [EmbeddedText(column, item)];
      }
    }
    assert items[..|items|] == items;
  }

  // ---- Whole runs of rebuilds and searches ----

  datatype Store = Store(rows: set<string>, whole: Cache, insightOnly: Cache)

  /** A rebuild leaves any rows; a search may use any model, see any items and meet any daemon. */
  datatype Event = Rebuild(ids: set<string>) | Search(column: Column, model: string, maxBatch: nat, items: seq<Item>)

  function ColumnOf(s: Store, column: Column): Cache { if column == Whole then s.whole else s.insightOnly }

  function Next(embed: Embedding, narrow: real -> real, s: Store, e: Event): Store {
    match e
    case Rebuild(ids) => Store(ids, map[], map[])
    case Search(column, model, maxBatch, items) =>
      var cache := ColumnOf(s, column);
      if !BatchFits(|Misses(column, model, cache, items)|, maxBatch) then s
      else
        var filled := Filled(embed, narrow, column, model, s.rows, cache, items);
        if column == Whole then s.(whole := filled) else s.(insightOnly := filled)
  }

  function After(embed: Embedding, narrow: real -> real, events: seq<Event>): Store {
    if events == [] then Store({}, map[], map[])
    else Next(embed, narrow, After(embed, narrow, events[..|events| - 1]), events[|events| - 1])
  }

  ghost predicate PlainModels(events: seq<Event>) {
    forall k :: 0 <= k < |events| && events[k].Search? ==> ':' !in events[k].model
  }

  lemma {:induction false} RunStaysSound(embed: Embedding, narrow: real -> real, events: seq<Event>)
    requires PlainModels(events)
    ensures var s := After(embed, narrow, events);
      Sound(embed, narrow, Whole, s.whole) && Sound(embed, narrow, InsightOnly, s.insightOnly)
  {
    hide IsGenuine, Written, Misses;
    if events != [] {
      var (front, e) := (events[..|events| - 1], events[|events| - 1]);
      RunStaysSound(embed, narrow, front);
      var s := After(embed, narrow, front);
      if e.Search? {
        var cache := ColumnOf(s, e.column);
        WritingStaysSound(embed, narrow, e.column, e.model, s.rows, cache, e.items,
          Misses(e.column, e.model, cache, e.items));
      }
    }
  }

  /** After any run, both resolvers answer what embedding each item's present text would, up to float32 storage. */
  lemma {:induction false} AnswersAreCurrent(embed: Embedding, narrow: real -> real, events: seq<Event>,
    column: Column, model: string, item: Item)
    requires IsNarrowing(narrow) && PlainModels(events) && ':' !in model
    ensures var text := match column case Whole => item.trigger + " " + item.insight case InsightOnly => item.insight;
      Stored(narrow, Answer(embed, column, model, ColumnOf(After(embed, narrow, events), column), item))
      == Stored(narrow, embed(model, text))
  {
    hide After, Sound, Hits, Stored, ItemHash;
    RunStaysSound(embed, narrow, events);
    var cache := ColumnOf(After(embed, narrow, events), column);
    if Hits(cache, column, model, item) {
      HitIsCurrent(embed, narrow, column, cache, model, item);
      StoredTwice(narrow, embed(model, EmbeddedText(column, item)));
    }
  }

  /** All searches use the one model that is shipped. */
  ghost predicate ShippedModelOnly(events: seq<Event>) {
    forall k :: 0 <= k < |events| && events[k].Search? ==> events[k].model == EMBEDDING_MODEL_ID
  }

  /** With the shipped model, whose name has no colon, every answer is current. */
  lemma {:induction false} ShippedAnswersAreCurrent(embed: Embedding, narrow: real -> real, events: seq<Event>,
    column: Column, item: Item)
    requires IsNarrowing(narrow) && ShippedModelOnly(events)
    ensures var cache := ColumnOf(After(embed, narrow, events), column);
      Stored(narrow, Answer(embed, column, EMBEDDING_MODEL_ID, cache, item))
      == Stored(narrow, embed("nomic-embed-text-v1.5-q8",
        match column case Whole => item.trigger + " " + item.insight case InsightOnly => item.insight))
  {
    hide After, Answer, Stored;
    ModelNameIsPlain();
    AnswersAreCurrent(embed, narrow, events, column, EMBEDDING_MODEL_ID, item);
  }

  lemma {:induction false} ModelNameIsPlain()
    ensures ':' !in EMBEDDING_MODEL_ID
  { }

  ghost predicate DistinctRows(rows: set<string>, items: seq<Item>) {
    && (forall i :: 0 <= i < |items| ==> items[i].id in rows)
    && forall i, j :: 0 <= i < j < |items| ==> items[i].id != items[j].id
  }

  lemma {:induction false} WrittenHits(embed: Embedding, narrow: real -> real, column: Column, model: string,
    rows: set<string>, cache: Cache, items: seq<Item>, misses: seq<nat>, i: nat)
    requires DistinctRows(rows, items) && i < |items| && (Hits(cache, column, model, items[i]) || i in misses)
    ensures Hits(Written(embed, narrow, column, model, rows, cache, items, misses), column, model, items[i])
  {
    hide ItemHash, EmbeddedText, Stored;
    if misses != [] {
      var (front, last) := (misses[..|misses| - 1], misses[|misses| - 1]);
      assert misses == front + [last];
      if i != last {
        WrittenHits(embed, narrow, column, model, rows, cache, items, front, i);
      }
    }
  }

  lemma {:induction false} SomeMiss(column: Column, model: string, cache: Cache, items: seq<Item>) returns (i: nat)
    requires Misses(column, model, cache, items) != []
    ensures IsMiss(column, model, cache, items, i)
  {
    hide Misses, Hits;
    MissesAreTheMisses(column, model, cache, items);
    i := Misses(column, model, cache, items)[0];
  }

  /** A second search over the same items embeds nothing. */
  lemma {:induction false} SecondSearchEmbedsNothing(embed: Embedding, narrow: real -> real, column: Column,
    model: string, rows: set<string>, cache: Cache, items: seq<Item>)
    requires DistinctRows(rows, items)
    ensures Misses(column, model, Filled(embed, narrow, column, model, rows, cache, items), items) == []
  {
    hide Hits, Written, Misses;
    var (misses, filled) := (Misses(column, model, cache, items),
      Filled(embed, narrow, column, model, rows, cache, items));
    MissesAreTheMisses(column, model, cache, items);
    forall i: nat | i < |items| ensures Hits(filled, column, model, items[i]) {
      WrittenHits(embed, narrow, column, model, rows, cache, items, misses, i);
    }
    if Misses(column, model, filled, items) != [] {
      var _ := SomeMiss(column, model, filled, items);
    }
  }

  /** A search that the daemon can serve leaves nothing to embed for its repetition; any other changes nothing. */
  lemma {:induction false} RepeatedSearchIsWarm(embed: Embedding, narrow: real -> real, events: seq<Event>,
    column: Column, model: string, maxBatch: nat, items: seq<Item>)
    requires DistinctRows(After(embed, narrow, events).rows, items)
    ensures var before := ColumnOf(After(embed, narrow, events), column);
      var after := ColumnOf(After(embed, narrow, events + [Search(column, model, maxBatch, items)]), column);
      var count := |Misses(column, model, before, items)|;
      if count <= maxBatch || maxBatch >= 64 then Misses(column, model, after, items) == [] else after == before
  {
    hide Misses, Filled;
    var (s, e) := (After(embed, narrow, events), Search(column, model, maxBatch, items));
    assert (events + [e])[..|events|] == events;
    SecondSearchEmbedsNothing(embed, narrow, column, model, s.rows, ColumnOf(s, column), items);
  }
}
