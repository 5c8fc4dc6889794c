/**
  Blending search results and ranking them (search/hybrid.go, search/ranking.go, retrieval/plan.go), over the reals.
 */
module Ranking {
  import opened Prelude
  import opened Listing
  import Cosine

  const DEFAULT_VECTOR_WEIGHT := 0.7
  const DEFAULT_TEXT_WEIGHT := 0.3
  const MIN_HYBRID_SCORE := 0.35

  datatype ScoredItem = ScoredItem(item: Item, score: real)
  datatype RankedItem = RankedItem(scored: ScoredItem, finalScore: real)

  datatype HybridMergeOptions = HybridMergeOptions(vectorWeight: Option<real>, textWeight: Option<real>, limit: int,
    minScore: real)

  datatype Weights = Weights(vecW: real, txtW: real, limit: int, minScore: real)

  // ---- Sorting ----

  ghost predicate Descending<T>(xs: seq<T>, key: T -> real) {
    forall i, j :: 0 <= i < j < |xs| ==> key(xs[i]) >= key(xs[j])
  }

  function Placed<T>(xs: seq<T>, x: T, key: T -> real): seq<T> {
    if xs == [] || key(x) >= key(xs[0]) then [x] + xs else [xs[0]] + Placed(xs[1..], x, key)
  }

  lemma {:induction false} PlacedMembers<T>(xs: seq<T>, x: T, key: T -> real)
    ensures multiset(Placed(xs, x, key)) == multiset(xs) + multiset{x}
  {
    if xs == [] || key(x) >= key(xs[0]) {
      assert multiset([x] + xs) == multiset{x} + multiset(xs);
    } else {
      var tail := Placed(xs[1..], x, key);
      PlacedMembers(xs[1..], x, key);
      assert xs == [xs[0]] + xs[1..];
      assert multiset([xs[0]] + tail) == multiset{xs[0]} + multiset(tail);
    }
  }

  lemma {:induction false} ConsDescends<T>(y: T, xs: seq<T>, key: T -> real)
    requires Descending(xs, key) && forall z :: z in multiset(xs) ==> key(y) >= key(z)
    ensures Descending([y] + xs, key)
  {
    var all := [y] + xs;
    forall i, j | 0 <= i < j < |all| ensures key(all[i]) >= key(all[j]) {
      assert all[j] == xs[j - 1] && xs[j - 1] in multiset(xs);
      if i > 0 {
        assert all[i] == xs[i - 1];
      }
    }
  }

  lemma {:induction false} HeadIsGreatest<T>(xs: seq<T>, key: T -> real, z: T)
    requires Descending(xs, key) && xs != [] && z in multiset(xs)
    ensures key(xs[0]) >= key(z)
  {
    assert z in xs;
  }

  lemma {:induction false} PlacedDescends<T>(xs: seq<T>, x: T, key: T -> real)
    requires Descending(xs, key)
    ensures Descending(Placed(xs, x, key), key)
  {
    if xs == [] {
    } else if key(x) >= key(xs[0]) {
      forall z | z in multiset(xs) ensures key(x) >= key(z) {
        HeadIsGreatest(xs, key, z);
      }
      ConsDescends(x, xs, key);
    } else {
      var tail := Placed(xs[1..], x, key);
      PlacedDescends(xs[1..], x, key);
      PlacedMembers(xs[1..], x, key);
      forall z | z in multiset(tail) ensures key(xs[0]) >= key(z) {
        if z != x {
          assert z in multiset(xs[1..]);
          assert xs == [xs[0]] + xs[1..];
          HeadIsGreatest(xs, key, z);
        }
      }
      ConsDescends(xs[0], tail, key);
    }
  }

  lemma {:induction false} NothingDescends<T>(key: T -> real)
    ensures Descending<T>([], key)
  { }

  /** sort.Slice by falling key; the order of equal keys is left open. */
  method SortDescending<T>(xs: seq<T>, key: T -> real) returns (ys: seq<T>)
    ensures Descending(ys, key) && multiset(ys) == multiset(xs)
  {
    hide Placed, Descending;
    ys := [];
    assert Descending(ys, key) by { NothingDescends(key); }
    for i := 0 to |xs|
      invariant Descending(ys, key) && multiset(ys) == multiset(xs[..i])
    {
      PlacedMembers(ys, xs[i], key);
      PlacedDescends(ys, xs[i], key);
      assert xs[..i + 1] == xs[..i] + [xs[i]];
      ys := Placed(ys, xs[i], key);
    }
    assert xs[..|xs|] == xs;
  }

  /** Each element of the pool once, in some order. */
  ghost predicate Arranges<T(!new)>(xs: seq<T>, pool: set<T>) {
    |xs| == |pool| && forall x :: x in xs <==> x in pool
  }

  lemma {:induction false} Rearranged<T(!new)>(xs: seq<T>, ys: seq<T>, pool: set<T>)
    requires Arranges(xs, pool) && multiset(ys) == multiset(xs)
    ensures Arranges(ys, pool)
  {
    assert |multiset(ys)| == |ys| && |multiset(xs)| == |xs|;
    forall x ensures x in ys <==> x in pool {
      assert x in ys <==> x in multiset(ys);
      assert x in xs <==> x in multiset(xs);
    }
  }

  // ---- Blending ----

  function ResolveHybridWeights(opts: Option<HybridMergeOptions>): Option<Weights> {
    var rawVecW :=
      if opts.Some? && opts.value.vectorWeight.Some? then opts.value.vectorWeight.value else DEFAULT_VECTOR_WEIGHT;
    var rawTxtW :=
      if opts.Some? && opts.value.textWeight.Some? then opts.value.textWeight.value else DEFAULT_TEXT_WEIGHT;
    if rawVecW + rawTxtW <= 0.0 then None
    else Some(Weights(Share(rawVecW, rawVecW + rawTxtW), Share(rawTxtW, rawVecW + rawTxtW),
                      if opts.Some? then opts.value.limit else 0, if opts.Some? then opts.value.minScore else 0.0))
  }

  datatype MergeEntry = MergeEntry(item: Item, vecScore: real, txtScore: real)

  function AddVector(m: map<string, MergeEntry>, v: ScoredItem): map<string, MergeEntry> {
    m[v.item.id := MergeEntry(v.item, v.score, 0.0)]
  }

  function AddKeyword(m: map<string, MergeEntry>, k: ScoredItem): map<string, MergeEntry> {
    if k.item.id in m then m[k.item.id := m[k.item.id].(txtScore := k.score)]
    else m[k.item.id := MergeEntry(k.item, 0.0, k.score)]
  }

  function VectorEntries(vec: seq<ScoredItem>): map<string, MergeEntry> {
    if vec == [] then map[] else AddVector(VectorEntries(vec[..|vec| - 1]), vec[|vec| - 1])
  }

  function Entries(vec: seq<ScoredItem>, kw: seq<ScoredItem>): map<string, MergeEntry> {
    if kw == [] then VectorEntries(vec) else AddKeyword(Entries(vec, kw[..|kw| - 1]), kw[|kw| - 1])
  }

  function Blend(w: Weights, e: MergeEntry): real { w.vecW * e.vecScore + w.txtW * e.txtScore }

  predicate PassesFloor(w: Weights, e: MergeEntry) { w.minScore > 0.0 ==> Blend(w, e) >= w.minScore }

  /** The blended items, of the given IDs, that pass the floor. */
  function PoolOf(m: map<string, MergeEntry>, ids: set<string>, w: Weights): set<ScoredItem> {
    set id | id in ids && id in m && PassesFloor(w, m[id]) :: ScoredItem(m[id].item, Blend(w, m[id]))
  }

  function Pool(vec: seq<ScoredItem>, kw: seq<ScoredItem>, w: Weights): set<ScoredItem> {
    PoolOf(Entries(vec, kw), Entries(vec, kw).Keys, w)
  }

  ghost predicate Keyed(m: map<string, MergeEntry>) {
    forall id :: id in m ==> m[id].item.id == id
  }

  lemma {:induction false} VectorEntriesAreKeyed(vec: seq<ScoredItem>)
    ensures Keyed(VectorEntries(vec))
  {
    if vec != [] {
      VectorEntriesAreKeyed(vec[..|vec| - 1]);
    }
  }

  lemma {:induction false} EntriesAreKeyed(vec: seq<ScoredItem>, kw: seq<ScoredItem>)
    ensures Keyed(Entries(vec, kw))
  {
    if kw == [] {
      VectorEntriesAreKeyed(vec);
    } else {
      EntriesAreKeyed(vec, kw[..|kw| - 1]);
    }
  }

  method BlendScores(vec: seq<ScoredItem>, kw: seq<ScoredItem>, w: Weights) returns (results: seq<ScoredItem>)
    ensures Arranges(results, Pool(vec, kw, w))
  {
    var merged: map<string, MergeEntry> := map[];
    for i := 0 to |vec|
      invariant merged == VectorEntries(vec[..i])
    {
      assert vec[..i + 1][..i] == vec[..i];
      merged := merged[vec[i].item.id := MergeEntry(vec[i].item, vec[i].score, 0.0)];
    }
    assert vec[..|vec|] == vec;
    for i := 0 to |kw|
      invariant merged == Entries(vec, kw[..i])
    {
      assert kw[..i + 1][..i] == kw[..i];
      var k := kw[i];
      if k.item.id in merged {
        merged := merged[k.item.id := merged[k.item.id].(txtScore := k.score)];
      } else {
        merged := merged[k.item.id := MergeEntry(k.item, 0.0, k.score)];
      }
    }
    assert kw[..|kw|] == kw;
    EntriesAreKeyed(vec, kw);
    results := CollectBlended(merged, w);
  }

  /** Ranging over the merged map, in any order. */
  method CollectBlended(merged: map<string, MergeEntry>, w: Weights) returns (results: seq<ScoredItem>)
    requires Keyed(merged)
    ensures Arranges(results, PoolOf(merged, merged.Keys, w))
  {
    hide Blend;
    results := [];
    var done: set<string> := {};
    while done != merged.Keys
      invariant done <= merged.Keys && Arranges(results, PoolOf(merged, done, w))
      decreases merged.Keys - done
    {
      var id :| id in merged && id !in done;
      var blended := Blend(w, merged[id]);
      ghost var before := PoolOf(merged, done, w);
      done := done + {id};
      if !(w.minScore > 0.0 && blended < w.minScore) {
        results := results + [ScoredItem(merged[id].item, blended)];
        assert PoolOf(merged, done, w) == before + {ScoredItem(merged[id].item, blended)};
      } else {
        assert PoolOf(merged, done, w) == before;
      }
    }
  }

  // ---- Merging ----

  /** The first `limit` of a descending arrangement of the pool; no limit when it is not positive. */
  ghost predicate IsTopMerged(result: seq<ScoredItem>, pool: set<ScoredItem>, limit: int) {
    exists all: seq<ScoredItem> ::
      Arranges(all, pool) && Descending(all, Score) && result ==
        if limit > 0 && |all| > limit then all[..limit] else all
  }

  function Score(x: ScoredItem): real { x.score }

  method MergeHybridScores(vec: seq<ScoredItem>, kw: seq<ScoredItem>,
    opts: Option<HybridMergeOptions>) returns (results: seq<ScoredItem>)
    ensures var w := ResolveHybridWeights(opts);
      if w.None? then results == [] else IsTopMerged(results, Pool(vec, kw, w.value), w.value.limit)
  {
    hide Pool, Descending, Arranges;
    var w := ResolveHybridWeights(opts);
    if |vec| == 0 && |kw| == 0 {
      if w.Some? {
        NothingMerged(w.value);
      }
      return [];
    }
    if w.None? {
      return [];
    }
    var blended := BlendScores(vec, kw, w.value);
    var all := SortDescending(blended, Score);
    Rearranged(blended, all, Pool(vec, kw, w.value));
    results := if w.value.limit > 0 && |all| > w.value.limit then all[..w.value.limit] else all;
  }

  lemma {:induction false} NothingMerged(w: Weights)
    ensures IsTopMerged([], Pool([], [], w), w.limit)
  {
    assert Pool([], [], w) == {};
    var none: seq<ScoredItem> := [];
    assert Arranges(none, {}) && Descending(none, Score);
  }

  // ---- What the blend is ----

  predicate HasId(xs: seq<ScoredItem>, id: string) { exists k :: 0 <= k < |xs| && xs[k].item.id == id }

  /** The score a list gives an ID, 0 when it does not list it. */
  function ScoreOf(xs: seq<ScoredItem>, id: string): real {
    if xs == [] then 0.0
    else if xs[|xs| - 1].item.id == id then xs[|xs| - 1].score
    else ScoreOf(xs[..|xs| - 1], id)
  }

  lemma {:induction false} HasIdSnoc(xs: seq<ScoredItem>, id: string)
    requires xs != []
    ensures HasId(xs, id) <==> HasId(xs[..|xs| - 1], id) || xs[|xs| - 1].item.id == id
  {
    var front := xs[..|xs| - 1];
    assert forall k :: 0 <= k < |front| ==> front[k] == xs[k];
    if k :| 0 <= k < |front| && front[k].item.id == id {
      assert xs[k].item.id == id;
    }
    if k :| 0 <= k < |xs| && xs[k].item.id == id {
      assert k < |front| ==> front[k].item.id == id;
    }
  }

  lemma {:induction false} VectorEntryAt(vec: seq<ScoredItem>, id: string)
    ensures id in VectorEntries(vec) <==> HasId(vec, id)
    ensures id in VectorEntries(vec) ==>
      VectorEntries(vec)[id].vecScore == ScoreOf(vec, id) && VectorEntries(vec)[id].txtScore == 0.0
    ensures !HasId(vec, id) ==> ScoreOf(vec, id) == 0.0
  {
    hide HasId;
    if vec == [] {
      assert !HasId([], id) by { NoId(id); }
    } else {
      VectorEntryAt(vec[..|vec| - 1], id);
      HasIdSnoc(vec, id);
    }
  }

  lemma {:induction false} NoId(id: string)
    ensures !HasId([], id)
  { }

  /** One entry for each ID of either list, holding the scores both lists give it. */
  lemma {:induction false} EntryAt(vec: seq<ScoredItem>, kw: seq<ScoredItem>, id: string)
    ensures id in Entries(vec, kw) <==> HasId(vec, id) || HasId(kw, id)
    ensures id in Entries(vec, kw) ==>
      Entries(vec, kw)[id].vecScore == ScoreOf(vec, id) && Entries(vec, kw)[id].txtScore == ScoreOf(kw, id)
  {
    hide HasId;
    VectorEntryAt(vec, id);
    if kw == [] {
      NoId(id);
    } else {
      EntryAt(vec, kw[..|kw| - 1], id);
      HasIdSnoc(kw, id);
      if !HasId(kw[..|kw| - 1], id) {
        Unlisted(kw[..|kw| - 1], id);
      }
    }
  }

  lemma {:induction false} Unlisted(xs: seq<ScoredItem>, id: string)
    requires !HasId(xs, id)
    ensures ScoreOf(xs, id) == 0.0
  {
    VectorEntryAt(xs, id);
  }

  function BlendedScore(vec: seq<ScoredItem>, kw: seq<ScoredItem>, w: Weights, id: string): real {
    w.vecW * ScoreOf(vec, id) + w.txtW * ScoreOf(kw, id)
  }

  /** The merge holds, once each, exactly the IDs of either list whose blend passes the floor, scored by the blend. */
  lemma {:induction false} PoolIsTheBlend(vec: seq<ScoredItem>, kw: seq<ScoredItem>, w: Weights, id: string)
    ensures (exists x :: x in Pool(vec, kw, w) && x.item.id == id) <==>
      (HasId(vec, id) || HasId(kw, id)) && (w.minScore > 0.0 ==> BlendedScore(vec, kw, w, id) >= w.minScore)
    ensures forall x :: x in Pool(vec, kw, w) && x.item.id == id ==> x.score == BlendedScore(vec, kw, w, id)
    ensures forall x, y :: x in Pool(vec, kw, w) && y in Pool(vec, kw, w) && x.item.id == id == y.item.id ==> x == y
  {
    hide HasId, ScoreOf, Entries;
    EntryAt(vec, kw, id);
    EntriesAreKeyed(vec, kw);
    var m := Entries(vec, kw);
    if id in m && PassesFloor(w, m[id]) {
      assert ScoredItem(m[id].item, Blend(w, m[id])) in Pool(vec, kw, w);
    }
  }

  /** No item is made up: each comes from one of the lists. */
  lemma {:induction false} PoolIsGiven(vec: seq<ScoredItem>, kw: seq<ScoredItem>, w: Weights, x: ScoredItem)
    requires x in Pool(vec, kw, w)
    ensures exists y :: y in vec + kw && y.item == x.item
  {
    hide Blend, PassesFloor, Entries;
    var id :| id in Entries(vec, kw) && Entries(vec, kw)[id].item == x.item;
    EntryIsGiven(vec, kw, id);
  }

  lemma {:induction false} EntryIsGiven(vec: seq<ScoredItem>, kw: seq<ScoredItem>, id: string)
    requires id in Entries(vec, kw)
    ensures exists y :: y in vec + kw && y.item == Entries(vec, kw)[id].item
  {
    if kw != [] {
      var last := kw[|kw| - 1];
      if id in Entries(vec, kw[..|kw| - 1]) {
        EntryIsGiven(vec, kw[..|kw| - 1], id);
      } else {
        assert last in vec + kw;
      }
    } else {
      VectorEntryIsGiven(vec, id);
    }
  }

  lemma {:induction false} VectorEntryIsGiven(vec: seq<ScoredItem>, id: string)
    requires id in VectorEntries(vec)
    ensures exists y :: y in vec && y.item == VectorEntries(vec)[id].item
  {
    var last := vec[|vec| - 1];
    if last.item.id != id {
      VectorEntryIsGiven(vec[..|vec| - 1], id);
    }
  }

  // ---- Bounds ----

  /** A weight's share of the total. */
  function Share(a: real, t: real): real { if t == 0.0 then 0.0 else a / t }

  lemma {:induction false} ShareTimes(a: real, t: real)
    requires t > 0.0
    ensures Share(a, t) * t == a && t * Share(a, t) == a
  { }

  lemma {:induction false} SharesAddUp(a: real, b: real)
    requires a >= 0.0 && b >= 0.0 && a + b > 0.0
    ensures Share(a, a + b) >= 0.0 && Share(b, a + b) >= 0.0 && Share(a, a + b) + Share(b, a + b) == 1.0
  {
    hide Share;
    var t := a + b;
    var x := Share(a, t);
    var y := Share(b, t);
    ShareTimes(a, t);
    ShareTimes(b, t);
    Cosine.FactorNonNegative(t, x);
    Cosine.FactorNonNegative(t, y);
    SumOfShares(x, y, a, b, t);
  }

  /** Weights are scaled to add up to 1; 0.7 and 0.3 stand in for those not given, and nothing else is. */
  lemma {:induction false} WeightsAreScaled(opts: Option<HybridMergeOptions>)
    ensures var given := if opts.Some? then opts.value else HybridMergeOptions(None, None, 0, 0.0);
      var vecW := if given.vectorWeight.Some? then given.vectorWeight.value else 0.7;
      var txtW := if given.textWeight.Some? then given.textWeight.value else 0.3;
      var w := ResolveHybridWeights(opts);
      && (w.None? <==> vecW + txtW <= 0.0)
      && (w.Some? ==> w.value.vecW * (vecW + txtW) == vecW && w.value.txtW * (vecW + txtW) == txtW)
      && (w.Some? ==> w.value.limit == given.limit && w.value.minScore == given.minScore)
  {
    hide Share;
    var given := if opts.Some? then opts.value else HybridMergeOptions(None, None, 0, 0.0);
    var vecW := if given.vectorWeight.Some? then given.vectorWeight.value else 0.7;
    var txtW := if given.textWeight.Some? then given.textWeight.value else 0.3;
    if vecW + txtW > 0.0 {
      ShareTimes(vecW, vecW + txtW);
      ShareTimes(txtW, vecW + txtW);
    }
  }

  lemma {:induction false} SumOfShares(x: real, y: real, a: real, b: real, t: real)
    requires t > 0.0 && x * t == a && y * t == b && a + b == t
    ensures x + y == 1.0
  {
    var d := x + y - 1.0;
    assert d * t == x * t + y * t - t;
    assert d * t == 0.0;
  }

  lemma {:induction false} ProductNonNegative(x: real, y: real)
    requires x >= 0.0 && y >= 0.0
    ensures x * y >= 0.0
  { }

  lemma {:induction false} ProductShrinks(x: real, s: real)
    requires x >= 0.0 && s <= 1.0
    ensures x * s <= x
  {
    var d := 1.0 - s;
    ProductNonNegative(x, d);
    assert x * d == x - x * s;
  }

  lemma {:induction false} AddBounds(p: real, q: real, x: real, y: real)
    requires 0.0 <= p <= x && 0.0 <= q <= y && x + y == 1.0
    ensures 0.0 <= p + q <= 1.0
  { }

  lemma {:induction false} ConvexInUnit(x: real, y: real, s: real, t: real)
    requires x >= 0.0 && y >= 0.0 && x + y == 1.0 && 0.0 <= s <= 1.0 && 0.0 <= t <= 1.0
    ensures 0.0 <= x * s + y * t <= 1.0
  {
    ProductNonNegative(x, s);
    ProductNonNegative(y, t);
    ProductShrinks(x, s);
    ProductShrinks(y, t);
    AddBounds(x * s, y * t, x, y);
  }

  /** The score of a keyword hit; an infinite or undefined rank is not modelled. */
  function NormalizeBm25Rank(rank: real): real {
    var abs := if rank < 0.0 then -rank else rank;
    Share(abs, abs + 1.0)
  }

  /** Keyword scores lie in [0, 1). */
  lemma {:induction false} KeywordScoreInUnit(rank: real)
    ensures 0.0 <= NormalizeBm25Rank(rank) < 1.0
  {
    hide Share;
    var abs := if rank < 0.0 then -rank else rank;
    SharesAddUp(abs, 1.0);
    ShareTimes(1.0, abs + 1.0);
    PositiveFactor(Share(1.0, abs + 1.0), abs + 1.0);
  }

  /** A keyword score is the share of the rank's size, so a hit that ranks better scores more. */
  lemma {:induction false} KeywordScoreIs(rank: real, better: real)
    requires better < rank <= 0.0
    ensures NormalizeBm25Rank(rank) * (1.0 - rank) == -rank
    ensures NormalizeBm25Rank(better) > NormalizeBm25Rank(rank)
  {
    hide Share;
    ShareTimes(-rank, 1.0 - rank);
    ShareTimes(-better, 1.0 - better);
    ShareRises(-rank, -better, NormalizeBm25Rank(rank), NormalizeBm25Rank(better));
  }

  lemma {:induction false} ShareRises(a: real, b: real, x: real, y: real)
    requires 0.0 <= a < b && x * (a + 1.0) == a && y * (b + 1.0) == b
    ensures x < y
  {
    var (s, t) := (a + 1.0, b + 1.0);
    assert (1.0 - x) * s == 1.0 && (1.0 - y) * t == 1.0;
    Reciprocals(1.0 - x, s, 1.0 - y, t);
  }

  lemma {:induction false} Reciprocals(p: real, s: real, q: real, t: real)
    requires 1.0 <= s < t && p * s == 1.0 && q * t == 1.0
    ensures p > q
  {
    Exceeds(p, s, t);
    if p <= q {
      Cosine.ScaleLe(p, q, t);
    }
  }

  lemma {:induction false} Exceeds(p: real, s: real, t: real)
    requires 1.0 <= s < t && p * s == 1.0
    ensures p * t > 1.0
  {
    assert p * s == s * p;
    Cosine.FactorNonNegative(s, p);
    PositiveFactor(p, s);
    var d := t - s;
    var (whole, more) := (p * t, p * d);
    ProductPositive(p, d);
    assert whole == p * s + more;
    assert whole > 1.0;
  }

  lemma {:induction false} ProductPositive(x: real, y: real)
    requires x > 0.0 && y > 0.0
    ensures x * y > 0.0
  { }

  lemma {:induction false} PositiveFactor(s: real, t: real)
    requires s >= 0.0 && s * t == 1.0
    ensures s > 0.0
  {
    assert s == 0.0 ==> s * t == 0.0;
  }

  ghost predicate UnitScores(xs: seq<ScoredItem>) {
    forall k :: 0 <= k < |xs| ==> 0.0 <= xs[k].score <= 1.0
  }

  lemma {:induction false} ScoreInUnit(xs: seq<ScoredItem>, id: string)
    requires UnitScores(xs)
    ensures 0.0 <= ScoreOf(xs, id) <= 1.0
  {
    if xs != [] && xs[|xs| - 1].item.id != id {
      ScoreInUnit(xs[..|xs| - 1], id);
    }
  }

  /** With weights that are not negative the blend is convex: scores in [0, 1] stay there. */
  lemma {:induction false} BlendInUnit(vec: seq<ScoredItem>, kw: seq<ScoredItem>,
    opts: Option<HybridMergeOptions>, x: ScoredItem)
    requires UnitScores(vec) && UnitScores(kw) && ResolveHybridWeights(opts).Some?
    requires opts.Some? && opts.value.vectorWeight.Some? ==> opts.value.vectorWeight.value >= 0.0
    requires opts.Some? && opts.value.textWeight.Some? ==> opts.value.textWeight.value >= 0.0
    requires x in Pool(vec, kw, ResolveHybridWeights(opts).value)
    ensures 0.0 <= x.score <= 1.0
  {
    hide Pool, ScoreOf, HasId, UnitScores, Share;
    var w := ResolveHybridWeights(opts).value;
    SharesAddUp(if opts.Some? && opts.value.vectorWeight.Some? then opts.value.vectorWeight.value
      else DEFAULT_VECTOR_WEIGHT,
                if opts.Some? && opts.value.textWeight.Some? then opts.value.textWeight.value else DEFAULT_TEXT_WEIGHT);
    PoolIsTheBlend(vec, kw, w, x.item.id);
    ScoreInUnit(vec, x.item.id);
    ScoreInUnit(kw, x.item.id);
    ConvexInUnit(w.vecW, w.txtW, ScoreOf(vec, x.item.id), ScoreOf(kw, x.item.id));
  }

  // ---- Boosting and ranking ----

  function SeverityBoost(item: Item): real {
    if item.severity == Some("high") then 1.5 else if item.severity == Some("low") then 0.8 else 1.0
  }

  /** The present instant, and how a text is read as an instant (RFC 3339), both in nanoseconds. */
  datatype Clock = Clock(now: int, parse: string -> Option<int>)

  const RECENCY_THRESHOLD_DAYS := 30

  const DAY := 24 * 60 * 60 * 1_000_000_000

  /** Created at most 30 days ago, or in the future; never when the time of creation cannot be read. */
  predicate IsRecent(item: Item, clock: Clock) {
    var created := clock.parse(item.created);
    created.Some? && clock.now - created.value <= RECENCY_THRESHOLD_DAYS * DAY
  }

  /** min(severity * recency * confirmation, 1.8) */
  function Boost(item: Item, clock: Clock): real {
    var recency := if IsRecent(item, clock) then 1.2 else 1.0;
    var confirmation := if item.confirmed then 1.3 else 1.0;
    var product := SeverityBoost(item) * recency * confirmation;
    if product <= 1.8 then product else 1.8
  }

  function CalculateScore(item: Item, similarity: real, clock: Clock): real { similarity * Boost(item, clock) }

  lemma {:induction false} BoostInRange(item: Item, clock: Clock)
    ensures 0.8 <= Boost(item, clock) <= 1.8
  {
    var s := SeverityBoost(item);
    if IsRecent(item, clock) {
      assert s * 1.2 >= 0.8;
    }
  }

  /** Created at most thirty days ago, in nanoseconds. */
  predicate IsYoung(item: Item, clock: Clock) {
    var created := clock.parse(item.created);
    created.Some? && clock.now - created.value <= 2_592_000_000_000_000
  }

  predicate IsHigh(item: Item) { item.severity.Some? && item.severity.value == "high" }

  predicate IsLow(item: Item) { item.severity.Some? && item.severity.value == "low" }

  /** The factor for each severity, age and confirmation; 1.8 is the most there is. */
  function Factor(item: Item, young: bool, confirmed: bool): real {
    if !young && !confirmed then (if IsHigh(item) then 1.5 else if IsLow(item) then 0.8 else 1.0)
    else if young && !confirmed then (if IsHigh(item) then 1.8 else if IsLow(item) then 0.96 else 1.2)
    else if !young && confirmed then (if IsHigh(item) then 1.8 else if IsLow(item) then 1.04 else 1.3)
    else (if IsHigh(item) then 1.8 else if IsLow(item) then 1.248 else 1.56)
  }

  lemma {:induction false} BoostIsFactor(item: Item, clock: Clock)
    ensures Boost(item, clock) == Factor(item, IsYoung(item, clock), item.confirmed)
  {
    assert IsRecent(item, clock) <==> IsYoung(item, clock);
    assert IsHigh(item) <==> item.severity == Some("high");
    assert IsLow(item) <==> item.severity == Some("low");
  }

  function Rank(x: ScoredItem, clock: Clock): RankedItem {
    RankedItem(x, CalculateScore(x.item, x.score, clock))
  }

  function FinalScore(r: RankedItem): real { r.finalScore }

  /** All of the pool, ranked, by falling final score. */
  ghost predicate RanksAll(ranked: seq<RankedItem>, pool: set<ScoredItem>, clock: Clock) {
    && |ranked| == |pool| && Descending(ranked, FinalScore)
    && forall r :: r in ranked <==> r.scored in pool && r == Rank(r.scored, clock)
  }

  method RankItems(items: seq<ScoredItem>, clock: Clock,
    ghost pool: set<ScoredItem>) returns (ranked: seq<RankedItem>)
    requires Arranges(items, pool)
    ensures RanksAll(ranked, pool, clock)
  {
    hide Rank, Descending;
    var unsorted: seq<RankedItem> := [];
    for i := 0 to |items|
      invariant |unsorted| == i && forall k :: 0 <= k < i ==> unsorted[k] == Rank(items[k], clock)
    {
      unsorted := unsorted + [Rank(items[i], clock)];
    }
    RankKeepsItem(clock);
    forall r ensures r in unsorted <==> r.scored in pool && r == Rank(r.scored, clock) {
      if r.scored in pool && r == Rank(r.scored, clock) {
        assert r.scored in items;
        var k :| 0 <= k < |items| && items[k] == r.scored;
        assert unsorted[k] == r;
      }
      if r in unsorted {
        var k :| 0 <= k < |unsorted| && unsorted[k] == r;
        assert items[k] in items;
      }
    }
    ranked := SortDescending(unsorted, FinalScore);
    assert |multiset(ranked)| == |multiset(unsorted)|;
    assert forall r :: r in ranked <==> r in multiset(ranked);
    assert forall r :: r in unsorted <==> r in multiset(unsorted);
  }

  lemma {:induction false} RankKeepsItem(clock: Clock)
    ensures forall x :: Rank(x, clock).scored == x
  { }

  /** The k best of the pool by final score. */
  ghost predicate IsBest(result: seq<RankedItem>, pool: set<ScoredItem>, limit: nat, clock: Clock) {
    exists all: seq<RankedItem> :: RanksAll(all, pool, clock) && result == if |all| > limit then all[..limit] else all
  }

  /** mergeAndRank: keyword results alone when there are no vectors, otherwise the hybrid merge with its floor. */
  function PlanOptions(vectorAvailable: bool): HybridMergeOptions {
    if vectorAvailable then HybridMergeOptions(None, None, 0, MIN_HYBRID_SCORE)
    else HybridMergeOptions(Some(0.0), Some(0.3), 0, 0.0)
  }

  function PlanPool(kw: seq<ScoredItem>, vec: seq<ScoredItem>, vectorAvailable: bool): set<ScoredItem> {
    var w := ResolveHybridWeights(Some(PlanOptions(vectorAvailable)));
    if w.None? then {} else Pool(if vectorAvailable then vec else [], kw, w.value)
  }

  method MergeAndRank(kw: seq<ScoredItem>, vec: seq<ScoredItem>, vectorAvailable: bool, limit: nat,
    clock: Clock)
    returns (ranked: seq<RankedItem>)
    ensures IsBest(ranked, PlanPool(kw, vec, vectorAvailable), limit, clock)
  {
    hide Pool, Descending, RanksAll;
    ghost var pool := PlanPool(kw, vec, vectorAvailable);
    var merged;
    if !vectorAvailable {
      merged := MergeHybridScores([], kw, Some(HybridMergeOptions(Some(0.0), Some(0.3), 0, 0.0)));
    } else {
      merged := MergeHybridScores(vec, kw, Some(HybridMergeOptions(None, None, 0, MIN_HYBRID_SCORE)));
    }
    assert Arranges(merged, pool);
    var all := RankItems(merged, clock, pool);
    ranked := if |all| > limit then all[..limit] else all;
  }

  /** With vectors, an item's score is 0.7 of its vector score plus 0.3 of its keyword score; less than 0.35 goes. */
  lemma {:induction false} HybridPoolIs(kw: seq<ScoredItem>, vec: seq<ScoredItem>, id: string)
    ensures var blend := 0.7 * ScoreOf(vec, id) + 0.3 * ScoreOf(kw, id);
      && ((exists x :: x in PlanPool(kw, vec, true) && x.item.id == id) <==>
        (HasId(vec, id) || HasId(kw, id)) && blend >= 0.35)
      && forall x :: x in PlanPool(kw, vec, true) && x.item.id == id ==> x.score == blend
  {
    hide Pool, ScoreOf, HasId;
    var w := ResolveHybridWeights(Some(PlanOptions(true))).value;
    assert w.vecW == 0.7 && w.txtW == 0.3 && w.minScore == 0.35;
    PoolIsTheBlend(vec, kw, w, id);
  }

  /** Without vectors, keyword scores are ranked unchanged, and none is dropped before the limit. */
  lemma {:induction false} KeywordScoresUnchanged(kw: seq<ScoredItem>, vec: seq<ScoredItem>, id: string)
    ensures (exists x :: x in PlanPool(kw, vec, false) && x.item.id == id) <==> HasId(kw, id)
    ensures forall x :: x in PlanPool(kw, vec, false) && x.item.id == id ==> x.score == ScoreOf(kw, id)
  {
    hide Pool, ScoreOf, HasId;
    var w := ResolveHybridWeights(Some(PlanOptions(false))).value;
    assert w.vecW == 0.0 && w.txtW == 1.0;
    PoolIsTheBlend([], kw, w, id);
    NoId(id);
  }

  /** Nothing left out beats anything kept. */
  lemma {:induction false} BestBeatsRest(result: seq<RankedItem>, pool: set<ScoredItem>, limit: nat,
    clock: Clock, x: ScoredItem, k: nat)
    requires IsBest(result, pool, limit, clock) && x in pool && Rank(x, clock) !in result && k < |result|
    ensures |result| == limit && result[k].finalScore >= Rank(x, clock).finalScore
  {
    hide Rank;
    RankKeepsItem(clock);
    var all :| RanksAll(all, pool, clock) && result == if |all| > limit then all[..limit] else all;
    var r := Rank(x, clock);
    assert r in all;
    var j :| 0 <= j < |all| && all[j] == r;
    PrefixMisses(all, |result|, r, j);
    assert FinalScore(all[k]) >= FinalScore(all[j]);
  }

  lemma {:induction false} PrefixMisses(all: seq<RankedItem>, n: nat, r: RankedItem, j: nat)
    requires n <= |all| && r !in all[..n] && j < |all| && all[j] == r
    ensures n <= j
  {
    assert forall i :: 0 <= i < n ==> all[..n][i] == all[i];
  }

  lemma {:induction false} BoostCannotOvertake(s: real, t: real, b: real, c: real)
    requires s > 2.25 * t && t >= 0.0 && 0.8 <= b && c <= 1.8
    ensures s * b > t * c
  {
    Cosine.ScaleLe(0.8, b, s);
    Cosine.ScaleLe(c, 1.8, t);
    assert s * b == b * s && t * c == c * t;
  }

  lemma {:induction false} RankScore(x: ScoredItem, clock: Clock)
    ensures Rank(x, clock).finalScore == x.score * Boost(x.item, clock)
  { }

  lemma {:induction false} WinnerFirst(all: seq<RankedItem>, pool: set<ScoredItem>, clock: Clock,
    i: nat, j: nat)
    requires RanksAll(all, pool, clock) && i < |all| && j < |all|
    requires all[j].scored.score >= 0.0 && all[i].scored.score > 2.25 * all[j].scored.score
    ensures i < j
  {
    hide Rank, Boost, Descending;
    assert all[i] in all && all[j] in all;
    RankScore(all[i].scored, clock);
    RankScore(all[j].scored, clock);
    WinnerScores(all[i].scored, all[j].scored, clock);
    Ordered(all, i, j);
  }

  /** An item whose blend is more than 2.25 times another's comes before it, whatever their boosts. */
  lemma {:induction false} ClearWinnerComesFirst(result: seq<RankedItem>, pool: set<ScoredItem>, limit: nat,
    clock: Clock, i: nat, j: nat)
    requires IsBest(result, pool, limit, clock) && i < |result| && j < |result|
    requires result[j].scored.score >= 0.0 && result[i].scored.score > 2.25 * result[j].scored.score
    ensures i < j
  {
    hide RanksAll;
    var all :| RanksAll(all, pool, clock) && result == if |all| > limit then all[..limit] else all;
    assert all[i] == result[i] && all[j] == result[j];
    WinnerFirst(all, pool, clock, i, j);
  }

  /** Nor can the limit drop it: what beats a kept item in this way is kept, before it. */
  lemma {:induction false} ClearWinnerIsKept(result: seq<RankedItem>, pool: set<ScoredItem>, limit: nat,
    clock: Clock, x: ScoredItem, k: nat)
    requires IsBest(result, pool, limit, clock) && x in pool && k < |result|
    requires result[k].scored.score >= 0.0 && x.score > 2.25 * result[k].scored.score
    ensures exists i: nat :: i < k && result[i] == Rank(x, clock)
  {
    hide Rank, Boost, IsBest;
    RankKeepsItem(clock);
    KeptIsRanked(result, pool, limit, clock, k);
    RankScore(x, clock);
    RankScore(result[k].scored, clock);
    WinnerScores(x, result[k].scored, clock);
    if Rank(x, clock) !in result {
      BestBeatsRest(result, pool, limit, clock, x, k);
    }
    var i :| 0 <= i < |result| && result[i] == Rank(x, clock);
    ClearWinnerComesFirst(result, pool, limit, clock, i, k);
  }

  lemma {:induction false} KeptIsRanked(result: seq<RankedItem>, pool: set<ScoredItem>, limit: nat, clock: Clock,
    k: nat)
    requires IsBest(result, pool, limit, clock) && k < |result|
    ensures result[k] == Rank(result[k].scored, clock)
  {
    hide Rank, Descending;
    var all :| RanksAll(all, pool, clock) && result == if |all| > limit then all[..limit] else all;
    assert all[k] == result[k] && all[k] in all;
  }

  lemma {:induction false} LargerFactorWins(x: ScoredItem, y: ScoredItem, clock: Clock)
    requires x.score == y.score > 0.0
    ensures Rank(x, clock).finalScore > Rank(y, clock).finalScore <==> Boost(x.item, clock) > Boost(y.item, clock)
  {
    hide Boost;
    ScalesStrictly(x.score, Boost(x.item, clock), Boost(y.item, clock));
  }

  lemma {:induction false} ScalesStrictly(s: real, b: real, c: real)
    requires s > 0.0
    ensures s * b > s * c <==> b > c
  {
    var d := b - c;
    assert s * b - s * c == s * d;
    assert d > 0.0 ==> s * d > 0.0;
    assert d <= 0.0 ==> s * d <= 0.0;
  }

  /** The items agree on age and confirmation and have the same positive score. */
  ghost predicate AlikeButSeverity(x: ScoredItem, y: ScoredItem, clock: Clock) {
    && x.score == y.score > 0.0 && x.item.confirmed == y.item.confirmed
    && (IsYoung(x.item, clock) <==> IsYoung(y.item, clock))
  }

  /** Of items alike but for their severity, those of high severity come first and those of low severity last. */
  lemma {:induction false} SeverityOrders(ranked: seq<RankedItem>, pool: set<ScoredItem>, clock: Clock, i: nat, j: nat)
    requires RanksAll(ranked, pool, clock) && i < |ranked| && j < |ranked|
    requires AlikeButSeverity(ranked[i].scored, ranked[j].scored, clock)
    requires (IsHigh(ranked[i].scored.item) && !IsHigh(ranked[j].scored.item))
      || (!IsLow(ranked[i].scored.item) && IsLow(ranked[j].scored.item))
    ensures i < j && ranked[i].finalScore > ranked[j].finalScore
  {
    hide Rank, Boost, Descending, IsYoung, IsHigh, IsLow;
    RankedAre(ranked, pool, clock, i, j);
    BoostIsFactor(ranked[i].scored.item, clock);
    BoostIsFactor(ranked[j].scored.item, clock);
    HighIsNotLow(ranked[i].scored.item);
    HighIsNotLow(ranked[j].scored.item);
    LargerFactorWins(ranked[i].scored, ranked[j].scored, clock);
    Ordered(ranked, i, j);
  }

  lemma {:induction false} HighIsNotLow(item: Item)
    ensures !(IsHigh(item) && IsLow(item))
  { }

  lemma {:induction false} RankedAre(ranked: seq<RankedItem>, pool: set<ScoredItem>, clock: Clock, i: nat, j: nat)
    requires RanksAll(ranked, pool, clock) && i < |ranked| && j < |ranked|
    ensures ranked[i] == Rank(ranked[i].scored, clock) && ranked[j] == Rank(ranked[j].scored, clock)
  {
    hide Rank, Descending;
    assert ranked[i] in ranked && ranked[j] in ranked;
  }

  /** The items agree on severity and have the same positive score. */
  ghost predicate SameSeverity(x: ScoredItem, y: ScoredItem) {
    && x.score == y.score > 0.0
    && (IsHigh(x.item) <==> IsHigh(y.item)) && (IsLow(x.item) <==> IsLow(y.item))
  }

  /** Of items alike but for confirmation, the confirmed one scores more, unless both are young and of high severity. */
  lemma {:induction false} ConfirmationOrders(ranked: seq<RankedItem>, pool: set<ScoredItem>, clock: Clock,
    i: nat, j: nat)
    requires RanksAll(ranked, pool, clock) && i < |ranked| && j < |ranked|
    requires SameSeverity(ranked[i].scored, ranked[j].scored)
    requires IsYoung(ranked[i].scored.item, clock) <==> IsYoung(ranked[j].scored.item, clock)
    requires ranked[i].scored.item.confirmed && !ranked[j].scored.item.confirmed
    ensures var x := ranked[i].scored.item;
      ranked[i].finalScore > ranked[j].finalScore <==> !(IsHigh(x) && IsYoung(x, clock))
    ensures ranked[i].finalScore > ranked[j].finalScore ==> i < j
  {
    hide Rank, Boost, Descending, IsYoung, IsHigh, IsLow;
    RankedAre(ranked, pool, clock, i, j);
    BoostIsFactor(ranked[i].scored.item, clock);
    BoostIsFactor(ranked[j].scored.item, clock);
    LargerFactorWins(ranked[i].scored, ranked[j].scored, clock);
    if ranked[i].finalScore > ranked[j].finalScore {
      Ordered(ranked, i, j);
    }
  }

  /** Of items alike but for their age, the young one scores more, unless both are confirmed and of high severity. */
  lemma {:induction false} AgeOrders(ranked: seq<RankedItem>, pool: set<ScoredItem>, clock: Clock, i: nat, j: nat)
    requires RanksAll(ranked, pool, clock) && i < |ranked| && j < |ranked|
    requires SameSeverity(ranked[i].scored, ranked[j].scored)
    requires ranked[i].scored.item.confirmed == ranked[j].scored.item.confirmed
    requires IsYoung(ranked[i].scored.item, clock) && !IsYoung(ranked[j].scored.item, clock)
    ensures var x := ranked[i].scored.item;
      ranked[i].finalScore > ranked[j].finalScore <==> !(IsHigh(x) && x.confirmed)
    ensures ranked[i].finalScore > ranked[j].finalScore ==> i < j
  {
    hide Rank, Boost, Descending, IsYoung, IsHigh, IsLow;
    RankedAre(ranked, pool, clock, i, j);
    BoostIsFactor(ranked[i].scored.item, clock);
    BoostIsFactor(ranked[j].scored.item, clock);
    LargerFactorWins(ranked[i].scored, ranked[j].scored, clock);
    if ranked[i].finalScore > ranked[j].finalScore {
      Ordered(ranked, i, j);
    }
  }

  lemma {:induction false} Ordered(all: seq<RankedItem>, i: nat, j: nat)
    requires Descending(all, FinalScore) && i < |all| && j < |all| && all[i].finalScore > all[j].finalScore
    ensures i < j
  {
    assert forall k :: 0 <= k < |all| ==> FinalScore(all[k]) == all[k].finalScore;
  }

  lemma {:induction false} WinnerScores(x: ScoredItem, y: ScoredItem, clock: Clock)
    requires y.score >= 0.0 && x.score > 2.25 * y.score
    ensures x.score * Boost(x.item, clock) > y.score * Boost(y.item, clock)
  {
    hide Boost;
    BoostInRange(x.item, clock);
    BoostInRange(y.item, clock);
    BoostCannotOvertake(x.score, y.score, Boost(x.item, clock), Boost(y.item, clock));
  }
}
