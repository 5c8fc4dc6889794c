/** Single-linkage clustering of lessons (compound/compound.go): its groups are connected components. */
module Clustering {
  import opened Cosine
  import opened DisjointSets

  /** The entry (i, j) of the similarity matrix; pairs of mismatched dimensions are skipped and stay 0. */
  function PairSimilarity(embeddings: seq<Vector>, i: nat, j: nat, sqrt: real -> real): real
    requires i < |embeddings| && j < |embeddings|
  {
    if i == j then 1.0
    else if |embeddings[i]| != |embeddings[j]| then 0.0
    else Similarity(embeddings[i], embeddings[j], sqrt)
  }

  ghost predicate IsSimilarityMatrix(matrix: array2<real>, embeddings: seq<Vector>, sqrt: real -> real)
    reads matrix
  {
    && matrix.Length0 == matrix.Length1 == |embeddings|
    && forall i, j :: 0 <= i < |embeddings| && 0 <= j < |embeddings| ==>
      matrix[i, j] == PairSimilarity(embeddings, i, j, sqrt)
  }

  method BuildSimilarityMatrix(embeddings: seq<Vector>, sqrt: real -> real) returns (matrix: array2<real>)
    ensures fresh(matrix) && IsSimilarityMatrix(matrix, embeddings, sqrt)
  {
    var n := |embeddings|;
    matrix := new real[n, n]((i, j) => if i == j then 1.0 else 0.0);
    for i := 0 to n
      invariant forall a, b :: 0 <= a < n && 0 <= b < n ==>
        matrix[a, b] == if a == b || a < i || b < i then PairSimilarity(embeddings, a, b, sqrt) else 0.0
    {
      for j := i + 1 to n
        invariant forall a, b :: 0 <= a < n && 0 <= b < n ==>
          matrix[a, b] == if a == b || a < i || b < i || (a == i && b < j) || (b == i && a < j)
                          then PairSimilarity(embeddings, a, b, sqrt) else 0.0
      {
        var sim := CosineSimilarity(embeddings[i], embeddings[j], sqrt);
        PairSimilaritySymmetric(embeddings, i, j, sqrt);
        if sim.Ok? {
          matrix[i, j] := sim.value;
          matrix[j, i] := sim.value;
        }
      }
    }
  }

  lemma {:induction false} PairSimilaritySymmetric(embeddings: seq<Vector>, i: nat, j: nat, sqrt: real -> real)
    requires i < |embeddings| && j < |embeddings|
    ensures PairSimilarity(embeddings, i, j, sqrt) == PairSimilarity(embeddings, j, i, sqrt)
  {
    if i != j && |embeddings[i]| == |embeddings[j]| {
      SimilaritySymmetric(embeddings[i], embeddings[j], sqrt);
    }
  }

  lemma {:induction false} MatrixShape(embeddings: seq<Vector>, i: nat, j: nat, sqrt: real -> real)
    requires i < |embeddings| && j < |embeddings| && IsSqrt(sqrt)
    ensures PairSimilarity(embeddings, i, i, sqrt) == 1.0
    ensures PairSimilarity(embeddings, i, j, sqrt) == PairSimilarity(embeddings, j, i, sqrt)
    ensures -1.0 <= PairSimilarity(embeddings, i, j, sqrt) <= 1.0
  {
    PairSimilaritySymmetric(embeddings, i, j, sqrt);
    if i != j && |embeddings[i]| == |embeddings[j]| {
      SimilarityInRange(embeddings[i], embeddings[j], sqrt);
    }
  }

  // ---- The threshold graph and its components ----

  type Edges = set<(nat, nat)>

  ghost predicate Adjacent(e: Edges, a: nat, b: nat) { (a, b) in e || (b, a) in e }

  ghost predicate IsChain(e: Edges, path: seq<nat>) {
    path != [] && forall k | 0 < k < |path| :: Adjacent(e, path[k - 1], path[k])
  }

  /** Some chain of adjacent items joins a and b. */
  ghost predicate Connected(e: Edges, a: nat, b: nat) {
    exists path :: Joins(e, path, a, b)
  }

  ghost predicate Joins(e: Edges, path: seq<nat>, a: nat, b: nat) {
    IsChain(e, path) && path[0] == a && path[|path| - 1] == b
  }

  /** The pairs i < j, both before n, whose similarity reaches the threshold. */
  ghost function ThresholdEdges(n: nat, embeddings: seq<Vector>, threshold: real, sqrt: real -> real): Edges
    requires n <= |embeddings|
  {
    set i: nat, j: nat | i < j < n && PairSimilarity(embeddings, i, j, sqrt) >= threshold :: (i, j)
  }

  ghost function WithEdge(e: Edges, i: nat, j: nat): Edges { e + {(i, j)} }

  lemma {:induction false} ConnectedReflexive(e: Edges, a: nat)
    ensures Connected(e, a, a)
  {
    assert Joins(e, [a], a, a);
  }

  lemma {:induction false} ConnectedTransitive(e: Edges, a: nat, b: nat, c: nat)
    requires Connected(e, a, b) && Connected(e, b, c)
    ensures Connected(e, a, c)
  {
    var p :| Joins(e, p, a, b);
    var q :| Joins(e, q, b, c);
    assert Joins(e, p + q[1..], a, c);
  }

  lemma {:induction false} EdgeConnects(e: Edges, a: nat, b: nat)
    requires Adjacent(e, a, b)
    ensures Connected(e, a, b)
  {
    assert Joins(e, [a, b], a, b);
  }

  lemma {:induction false} ConnectedMonotone(e: Edges, e': Edges, a: nat, b: nat)
    requires e <= e' && Connected(e, a, b)
    ensures Connected(e', a, b)
  {
    var p :| Joins(e, p, a, b);
    assert Joins(e', p, a, b);
  }

  ghost predicate EdgesWithin(e: Edges, n: nat) {
    forall p <- e :: p.0 < n && p.1 < n
  }

  /** Every edge joins two items of one mark. */
  ghost predicate Respects(e: Edges, mark: seq<nat>) {
    EdgesWithin(e, |mark|) && forall p <- e :: mark[p.0] == mark[p.1]
  }

  /** Items of one mark are connected. */
  ghost predicate LabelsConnect(e: Edges, mark: seq<nat>) {
    forall a, b :: 0 <= a < |mark| && 0 <= b < |mark| && mark[a] == mark[b] ==> Connected(e, a, b)
  }

  /** Two items carry one mark exactly when they are connected. */
  ghost predicate Represents(e: Edges, mark: seq<nat>) {
    Respects(e, mark) && LabelsConnect(e, mark)
  }

  lemma {:induction false} ChainKeepsLabel(e: Edges, mark: seq<nat>, path: seq<nat>)
    requires Respects(e, mark) && IsChain(e, path) && path[0] < |mark|
    ensures path[|path| - 1] < |mark| && mark[path[0]] == mark[path[|path| - 1]]
  {
    if |path| > 1 {
      assert Adjacent(e, path[0], path[1]);
      assert IsChain(e, path[1..]) by {
        forall k | 0 < k < |path[1..]| ensures Adjacent(e, path[1..][k - 1], path[1..][k]) {
          assert Adjacent(e, path[k], path[k + 1]);
        }
      }
      ChainKeepsLabel(e, mark, path[1..]);
    }
  }

  lemma {:induction false} ConnectedKeepsLabel(e: Edges, mark: seq<nat>, a: nat, b: nat)
    requires Respects(e, mark) && a < |mark| && Connected(e, a, b)
    ensures b < |mark| && mark[a] == mark[b]
  {
    var p :| Joins(e, p, a, b);
    ChainKeepsLabel(e, mark, p);
  }

  lemma {:induction false} UnionAddsEdge(e: Edges, mark: seq<nat>, i: nat, j: nat)
    requires i < |mark| && j < |mark| && Represents(e, mark)
    ensures Represents(WithEdge(e, i, j), Merged(mark, mark[i], mark[j]))
  {
    var e', mark' := WithEdge(e, i, j), Merged(mark, mark[i], mark[j]);
    forall a, b | 0 <= a < |mark| && 0 <= b < |mark| && mark'[a] == mark'[b]
      ensures Connected(e', a, b)
    {
      EdgeConnects(e', i, j);
      EdgeConnects(e', j, i);
      if mark[a] == mark[b] {
        ConnectedMonotone(e, e', a, b);
      } else if mark[a] == mark[i] {
        Bridge(e, e', a, i, j, b);
      } else {
        Bridge(e, e', a, j, i, b);
      }
    }
  }

  lemma {:induction false} Bridge(e: Edges, e': Edges, a: nat, i: nat, j: nat, b: nat)
    requires e <= e' && Connected(e, a, i) && Connected(e', i, j) && Connected(e, j, b)
    ensures Connected(e', a, b)
  {
    ConnectedMonotone(e, e', a, i);
    ConnectedMonotone(e, e', j, b);
    ConnectedTransitive(e', a, i, j);
    ConnectedTransitive(e', a, j, b);
  }

  // ---- Groups ----

  ghost predicate Increasing(s: seq<nat>) {
    forall i, j :: 0 <= i < j < |s| ==> s[i] < s[j]
  }

  ghost predicate Distinct<T(!new)>(s: seq<T>) {
    forall i, j :: 0 <= i < j < |s| ==> s[i] != s[j]
  }

  ghost function Front(s: seq<nat>): seq<nat>
    requires s != []
  {
    s[..|s| - 1]
  }

  ghost predicate Within(s: seq<nat>, n: nat) {
    forall i :: 0 <= i < |s| ==> s[i] < n
  }

  /** The items at the given indices, in order. */
  ghost function Pick<T>(items: seq<T>, indices: seq<nat>): seq<T>
    requires Within(indices, |items|)
  {
    seq(|indices|, k requires 0 <= k < |indices| => items[indices[k]])
  }

  /** The indices before n that carry mark r, in index order. */
  ghost function Members(mark: seq<nat>, r: nat, n: nat): (s: seq<nat>)
    requires n <= |mark|
    ensures Within(s, n)
  {
    if n == 0 then []
    else if mark[n - 1] == r then Members(mark, r, n - 1) + [n - 1]
    else Members(mark, r, n - 1)
  }

  lemma {:induction false} MembersCarryLabel(mark: seq<nat>, r: nat, n: nat)
    requires n <= |mark|
    ensures Increasing(Members(mark, r, n))
    ensures forall k: nat :: k in Members(mark, r, n) <==> k < n && mark[k] == r
  {
    if n > 0 {
      MembersCarryLabel(mark, r, n - 1);
    }
  }

  /**
    The indices 0..n split into clusters and noise: clusters are the components of at least two
    items, each listed once and in index order, and noise is exactly the isolated items.
   */
  ghost predicate IsClustering(n: nat, e: Edges, clusters: seq<seq<nat>>, noise: seq<nat>) {
    && (forall g <- clusters :: |g| >= 2 && Increasing(g) && Within(g, n))
    && (forall g <- clusters :: forall a <- g :: forall b: nat :: b in g <==> Connected(e, a, b))
    && Within(noise, n) && (forall a <- noise :: forall b: nat :: Connected(e, a, b) ==> b == a)
    && (forall a: nat :: a < n ==> a in noise || exists g <- clusters :: a in g)
    && Distinct(clusters) && Distinct(noise)
  }

  method BuildClusters<T(!new)>(items: seq<T>, sets: DisjointSet, ghost e: Edges)
    returns (clusters: seq<seq<T>>, noise: seq<T>, ghost clusterAt: seq<seq<nat>>, ghost noiseAt: seq<nat>)
    requires sets.Valid() && sets.parent.Length == |items|
    requires Represents(e, sets.root)
    modifies sets.parent
    ensures IsClustering(|items|, e, clusterAt, noiseAt)
    ensures |clusters| + |noise| == |items| - sets.joins
    ensures Shows(items, clusters, clusterAt) && noise == Pick(items, noiseAt)
  {
    ghost var root := sets.root;
    var groups: map<nat, seq<T>> := map[];
    for i := 0 to |items|
      invariant sets.Valid() && sets.root == root
      invariant IsGrouping(items, root, i, groups)
    {
      var r := sets.Find(i);
      GroupOne(items, root, i, groups);
      groups := groups[r := (if r in groups then groups[r] else []) + [items[i]]];
    }
    ghost var order;
    clusters, noise, order := SplitGroups(items, root, groups);
    clusterAt, noiseAt := ClustersOf(root, order), NoiseOf(root, order);
    OrderGathers(root, order);
    GatheredIsClustering(root, e, groups.Keys, clusterAt, noiseAt);
    KeysAreRoots(items, sets.parent[..], root, sets.rank, groups);
  }

  lemma {:induction false} KeysAreRoots<T>(items: seq<T>, parent: seq<nat>, root: seq<nat>, rank: seq<nat>,
    groups: map<nat, seq<T>>)
    requires |items| == |root| && IsForest(parent, root, rank) && IsGrouping(items, root, |items|, groups)
    ensures groups.Keys == Roots(root)
  {
    forall r: nat
      ensures r in groups <==> r in Roots(root)
    {
      var g := Members(root, r, |root|);
      MembersCarryLabel(root, r, |root|);
      if r in groups {
        var k := g[0];
        assert k in g && root[k] == r && parent[root[k]] == root[k];
      }
      if r in Roots(root) {
        assert r in g;
      }
    }
  }

  /** The map holds, per label among the first i items, the items of that label in order. */
  ghost predicate IsGrouping<T>(items: seq<T>, mark: seq<nat>, i: nat, groups: map<nat, seq<T>>)
    requires i <= |items| == |mark|
  {
    && (forall r: nat :: r in groups <==> Members(mark, r, i) != [])
    && (forall r <- groups :: groups[r] == Pick(items, Members(mark, r, i)))
  }

  lemma {:induction false} GroupOne<T>(items: seq<T>, mark: seq<nat>, i: nat, groups: map<nat, seq<T>>)
    requires i < |items| == |mark| && IsGrouping(items, mark, i, groups)
    ensures var r := mark[i];
      IsGrouping(items, mark, i + 1, groups[r := (if r in groups then groups[r] else []) + [items[i]]])
  {
    var r := mark[i];
    var before := Members(mark, r, i);
    assert Members(mark, r, i + 1) == before + [i];
    assert Pick(items, before + [i]) == Pick(items, before) + [items[i]];
    assert before == [] ==> Pick(items, before) == [];
    forall q: nat | q != r ensures Members(mark, q, i + 1) == Members(mark, q, i) { }
  }

  ghost predicate Shows<T>(items: seq<T>, clusters: seq<seq<T>>, clusterAt: seq<seq<nat>>) {
    |clusters| == |clusterAt|
    && forall c :: 0 <= c < |clusters| ==> Within(clusterAt[c], |items|) && clusters[c] == Pick(items, clusterAt[c])
  }

  lemma {:induction false} ShowOne<T>(items: seq<T>, clusters: seq<seq<T>>, clusterAt: seq<seq<nat>>,
    noiseAt: seq<nat>, g: seq<nat>)
    requires Shows(items, clusters, clusterAt) && Within(noiseAt, |items|) && Within(g, |items|)
    ensures Shows(items, clusters + [Pick(items, g)], clusterAt + [g])
    ensures g != [] ==> Pick(items, noiseAt + [g[0]]) == Pick(items, noiseAt) + [items[g[0]]]
  { }

  ghost function Labels(order: seq<nat>): set<nat> {
    if order == [] then {} else Labels(Front(order)) + {order[|order| - 1]}
  }

  /** Labels in use, none of them twice. */
  ghost predicate IsOrder(mark: seq<nat>, order: seq<nat>) {
    order == [] ||
    var r := order[|order| - 1];
    IsOrder(mark, Front(order)) && r !in Labels(Front(order)) && Members(mark, r, |mark|) != []
  }

  /** The groups of at least two items among the labels visited in this order. */
  ghost function ClustersOf(mark: seq<nat>, order: seq<nat>): seq<seq<nat>> {
    if order == [] then [] else
      var rest, g := ClustersOf(mark, Front(order)), Members(mark, order[|order| - 1], |mark|);
      if |g| == 1 then rest else rest + [g]
  }

  ghost function NoiseOf(mark: seq<nat>, order: seq<nat>): seq<nat> {
    if order == [] then [] else
      var rest, g := NoiseOf(mark, Front(order)), Members(mark, order[|order| - 1], |mark|);
      if |g| == 1 then rest + [g[0]] else rest
  }

  lemma {:induction false} NoneVisited(mark: seq<nat>)
    ensures IsOrder(mark, []) && Labels([]) == {} && ClustersOf(mark, []) == [] && NoiseOf(mark, []) == []
  { }

  lemma {:induction false} VisitOne(mark: seq<nat>, order: seq<nat>, r: nat)
    requires IsOrder(mark, order) && r !in Labels(order) && Members(mark, r, |mark|) != []
    ensures IsOrder(mark, order + [r]) && Labels(order + [r]) == Labels(order) + {r}
    ensures var g := Members(mark, r, |mark|);
      && ClustersOf(mark, order + [r]) == (if |g| == 1 then ClustersOf(mark, order) else ClustersOf(mark, order) + [g])
      && NoiseOf(mark, order + [r]) == if |g| == 1 then NoiseOf(mark, order) + [g[0]] else NoiseOf(mark, order)
  {
    assert Front(order + [r]) == order;
  }

  /** The second loop of BuildClusters: the map is walked in any order. */
  method SplitGroups<T(!new)>(ghost items: seq<T>, ghost root: seq<nat>, groups: map<nat, seq<T>>)
    returns (clusters: seq<seq<T>>, noise: seq<T>, ghost order: seq<nat>)
    requires |items| == |root| && IsGrouping(items, root, |items|, groups)
    ensures IsOrder(root, order) && Labels(order) == groups.Keys
    ensures Shows(items, clusters, ClustersOf(root, order))
    ensures Within(NoiseOf(root, order), |items|) && noise == Pick(items, NoiseOf(root, order))
  {
    hide IsOrder, Labels, ClustersOf, NoiseOf, Members;
    clusters, noise, order := [], [], [];
    NoneVisited(root);
    var pending := groups.Keys;
    while pending != {}
      invariant IsOrder(root, order) && pending !! Labels(order) && pending + Labels(order) == groups.Keys
      invariant Shows(items, clusters, ClustersOf(root, order))
      invariant Within(NoiseOf(root, order), |items|) && noise == Pick(items, NoiseOf(root, order))
    {
      var r :| r in pending;
      var group := groups[r];
      ShowOne(items, clusters, ClustersOf(root, order), NoiseOf(root, order), Members(root, r, |root|));
      VisitOne(root, order, r);
      pending, order := pending - {r}, order + [r];
      if |group| == 1 {
        noise := noise + [group[0]];
      } else {
        clusters := clusters + [group];
      }
    }
  }

  lemma {:induction false} OrderGathers(mark: seq<nat>, order: seq<nat>)
    requires IsOrder(mark, order)
    ensures Gathered(mark, Labels(order), ClustersOf(mark, order), NoiseOf(mark, order))
    ensures |ClustersOf(mark, order)| + |NoiseOf(mark, order)| == |Labels(order)|
  {
    if order != [] {
      var (before, r) := (Front(order), order[|order| - 1]);
      OrderGathers(mark, before);
      GatherOne(mark, Labels(before), ClustersOf(mark, before), NoiseOf(mark, before), r);
    }
  }

  /** Exactly the groups of the labels in `done` have been emitted, once each. */
  ghost predicate Gathered(mark: seq<nat>, done: set<nat>, clusters: seq<seq<nat>>, noise: seq<nat>) {
    && (forall g <- clusters ::
      |g| >= 2 && g[0] < |mark| && mark[g[0]] in done && g == Members(mark, mark[g[0]], |mark|))
    && Within(noise, |mark|)
    && (forall a <- noise :: a < |mark| && mark[a] in done && Members(mark, mark[a], |mark|) == [a])
    && (forall r <- done ::
      var g := Members(mark, r, |mark|);
      g != [] && if |g| == 1 then g[0] in noise else g in clusters)
    && Distinct(clusters) && Distinct(noise)
  }

  lemma {:induction false} GatherOne(mark: seq<nat>, done: set<nat>, clusters: seq<seq<nat>>, noise: seq<nat>, r: nat)
    requires Gathered(mark, done, clusters, noise) && r !in done && Members(mark, r, |mark|) != []
    ensures var g := Members(mark, r, |mark|);
      if |g| == 1 then Gathered(mark, done + {r}, clusters, noise + [g[0]])
      else Gathered(mark, done + {r}, clusters + [g], noise)
  {
    var g := Members(mark, r, |mark|);
    MembersCarryLabel(mark, r, |mark|);
    assert g[0] in g;
  }

  lemma {:induction false} SameLabelIsConnected(e: Edges, mark: seq<nat>, a: nat, b: nat)
    requires Represents(e, mark) && a < |mark|
    ensures Connected(e, a, b) <==> b < |mark| && mark[a] == mark[b]
  {
    if Connected(e, a, b) { ConnectedKeepsLabel(e, mark, a, b); }
  }

  lemma {:induction false} GatheredIsClustering(mark: seq<nat>, e: Edges, roots: set<nat>,
    clusters: seq<seq<nat>>, noise: seq<nat>)
    requires Gathered(mark, roots, clusters, noise)
    requires forall r: nat :: r in roots <==> Members(mark, r, |mark|) != []
    requires Represents(e, mark)
    ensures IsClustering(|mark|, e, clusters, noise)
  {
    hide Connected, Represents, Members, Increasing;
    forall a: nat, b: nat | a < |mark|
      ensures Connected(e, a, b) <==> b < |mark| && mark[a] == mark[b]
    {
      SameLabelIsConnected(e, mark, a, b);
    }
    forall r: nat { MembersCarryLabel(mark, r, |mark|); }
    forall a: nat | a < |mark|
      ensures a in noise || exists g <- clusters :: a in g
    {
      var g := Members(mark, mark[a], |mark|);
      assert a in g;
      assert mark[a] in roots;
    }
    forall a <- noise, b: nat | Connected(e, a, b)
      ensures b == a
    {
      assert b in Members(mark, mark[a], |mark|);
    }
  }

  /** The result lists the items of a clustering of their indices. */
  ghost predicate IsClusterResult<T(!new)>(items: seq<T>, e: Edges, clusters: seq<seq<T>>, noise: seq<T>) {
    exists clusterAt: seq<seq<nat>>, noiseAt: seq<nat> ::
      IsClustering(|items|, e, clusterAt, noiseAt) && Shows(items, clusters, clusterAt) && noise == Pick(items, noiseAt)
  }

  method ClusterBySimilarity<T(!new)>(items: seq<T>, embeddings: seq<Vector>, threshold: real, sqrt: real -> real)
    returns (clusters: seq<seq<T>>, noise: seq<T>)
    requires |items| <= |embeddings|
    ensures IsClusterResult(items, ThresholdEdges(|items|, embeddings, threshold, sqrt), clusters, noise)
  {
    hide IsClustering;
    var n := |items|;
    if n == 0 {
      NothingToCluster(items, ThresholdEdges(|items|, embeddings, threshold, sqrt));
      return [], [];
    }
    var sets := new DisjointSet(n);
    var e := JoinSimilar(sets, embeddings, threshold, sqrt);
    ghost var clusterAt, noiseAt;
    clusters, noise, clusterAt, noiseAt := BuildClusters(items, sets, e);
  }

  lemma {:induction false} NothingToCluster<T(!new)>(items: seq<T>, e: Edges)
    requires items == []
    ensures IsClusterResult(items, e, [], [])
  {
    var none: seq<seq<nat>>, nobody: seq<nat> := [], [];
    assert IsClustering(0, e, none, nobody) && Shows(items, [], none) && Pick(items, nobody) == [];
  }

  /** The double loop of ClusterBySimilarity over all pairs. */
  method JoinSimilar(sets: DisjointSet, embeddings: seq<Vector>, threshold: real,
    sqrt: real -> real) returns (ghost e: Edges)
    requires sets.Valid() && sets.parent.Length <= |embeddings|
    requires forall i :: 0 <= i < |sets.root| ==> sets.root[i] == i
    modifies sets, sets.parent
    ensures sets.Valid() && e == ThresholdEdges(sets.parent.Length, embeddings, threshold, sqrt)
    ensures Represents(e, sets.root)
  {
    var n := sets.parent.Length;
    var matrix := BuildSimilarityMatrix(embeddings, sqrt);
    e := {};
    assert Represents(e, sets.root) by {
      forall a: nat { ConnectedReflexive(e, a); }
    }
    for i := 0 to n
      invariant IsSimilarityMatrix(matrix, embeddings, sqrt)
      invariant sets.Valid() && Represents(e, sets.root)
      invariant e == EdgesUpTo(n, embeddings, threshold, sqrt, i, i + 1)
    {
      for j := i + 1 to n
        invariant IsSimilarityMatrix(matrix, embeddings, sqrt)
        invariant sets.Valid() && Represents(e, sets.root)
        invariant e == EdgesUpTo(n, embeddings, threshold, sqrt, i, j)
      {
        NextEdge(n, embeddings, threshold, sqrt, i, j);
        if matrix[i, j] >= threshold {
          UnionAddsEdge(e, sets.root, i, j);
          sets.Union(i, j);
          e := WithEdge(e, i, j);
        }
      }
      NextRow(n, embeddings, threshold, sqrt, i);
    }
    NextRow(n, embeddings, threshold, sqrt, n);
  }

  /** The threshold edges among the pairs visited before (i, j). */
  ghost function EdgesUpTo(n: nat, embeddings: seq<Vector>, threshold: real, sqrt: real -> real, i: nat, j: nat): Edges
    requires n <= |embeddings|
  {
    set p <- ThresholdEdges(n, embeddings, threshold, sqrt) | p.0 < i || (p.0 == i && p.1 < j)
  }

  lemma {:induction false} NextEdge(n: nat, embeddings: seq<Vector>, threshold: real, sqrt: real -> real, i: nat,
    j: nat)
    requires i < j < n <= |embeddings|
    ensures var e := EdgesUpTo(n, embeddings, threshold, sqrt, i, j);
      EdgesUpTo(n, embeddings, threshold, sqrt, i, j + 1) ==
      if PairSimilarity(embeddings, i, j, sqrt) >= threshold then WithEdge(e, i, j) else e
  { }

  lemma {:induction false} NextRow(n: nat, embeddings: seq<Vector>, threshold: real, sqrt: real -> real, i: nat)
    requires i <= n <= |embeddings|
    ensures EdgesUpTo(n, embeddings, threshold, sqrt, i, n) == EdgesUpTo(n, embeddings, threshold, sqrt, i + 1, i + 2)
    ensures i == n ==>
      EdgesUpTo(n, embeddings, threshold, sqrt, i, i + 1) == ThresholdEdges(n, embeddings, threshold, sqrt)
  { }

  /** Two clusterings of one graph have the same groups: the map's iteration order only reorders them. */
  lemma {:induction false} ClusteringIsUnique(n: nat, e: Edges, clusters: seq<seq<nat>>, noise: seq<nat>,
    clusters': seq<seq<nat>>, noise': seq<nat>)
    requires IsClustering(n, e, clusters, noise) && IsClustering(n, e, clusters', noise')
    ensures multiset(clusters) == multiset(clusters') && multiset(noise) == multiset(noise')
  {
    SameNoise(n, e, clusters, noise, clusters', noise');
    SameNoise(n, e, clusters', noise', clusters, noise);
    SameClusters(n, e, clusters, noise, clusters', noise');
    SameClusters(n, e, clusters', noise', clusters, noise);
    DistinctSameMultiset(clusters, clusters');
    DistinctSameMultiset(noise, noise');
  }

  function Without<X>(s: seq<X>, j: nat): seq<X>
    requires j < |s|
  {
    s[..j] + s[j + 1..]
  }

  lemma {:induction false} WithoutOne<X(!new)>(s: seq<X>, j: nat)
    requires j < |s|
    ensures multiset(s) == multiset(Without(s, j)) + multiset{s[j]}
  {
    assert s == s[..j] + [s[j]] + s[j + 1..];
  }

  lemma {:induction false} CancelOne<X(!new)>(m: multiset<X>, m': multiset<X>, x: X)
    requires m + multiset{x} == m' + multiset{x}
    ensures m == m'
  {
    forall y ensures m[y] == m'[y] {
      assert (m + multiset{x})[y] == (m' + multiset{x})[y];
    }
  }

  /** An element both have can be taken from both. */
  lemma {:induction false} TakeFromBoth<X(!new)>(s: seq<X>, t: seq<X>, i: nat) returns (j: nat)
    requires multiset(s) == multiset(t) && i < |s|
    ensures j < |t| && t[j] == s[i] && multiset(Without(s, i)) == multiset(Without(t, j))
  {
    assert s[i] in multiset(s);
    j :| 0 <= j < |t| && t[j] == s[i];
    WithoutOne(s, i);
    WithoutOne(t, j);
    CancelOne(multiset(Without(s, i)), multiset(Without(t, j)), s[i]);
  }

  lemma {:induction false} ShowsWithout<T(!new)>(items: seq<T>, clusters: seq<seq<T>>, at: seq<seq<nat>>, j: nat)
    requires Shows(items, clusters, at) && j < |at|
    ensures Shows(items, Without(clusters, j), Without(at, j))
  {
    hide Pick;
  }

  lemma {:induction false} ShowsSame<T(!new)>(items: seq<T>, clusters: seq<seq<T>>, at: seq<seq<nat>>,
    clusters': seq<seq<T>>, at': seq<seq<nat>>)
    requires Shows(items, clusters, at) && Shows(items, clusters', at') && multiset(at) == multiset(at')
    ensures multiset(clusters) == multiset(clusters')
    decreases |at|
  {
    hide Without;
    if at == [] {
      assert |multiset(at')| == 0;
    } else {
      var j := TakeFromBoth(at, at', 0);
      ShowsWithout(items, clusters, at, 0);
      ShowsWithout(items, clusters', at', j);
      ShorterWithout(at, 0);
      ShowsSame(items, Without(clusters, 0), Without(at, 0), Without(clusters', j), Without(at', j));
      WithoutOne(clusters, 0);
      WithoutOne(clusters', j);
    }
  }

  lemma {:induction false} ShorterWithout<X>(s: seq<X>, j: nat)
    requires j < |s|
    ensures |Without(s, j)| == |s| - 1
  { }

  lemma {:induction false} PickWithout<T(!new)>(items: seq<T>, a: seq<nat>, j: nat)
    requires Within(a, |items|) && j < |a|
    ensures Within(Without(a, j), |items|) && Pick(items, Without(a, j)) == Without(Pick(items, a), j)
  { }

  lemma {:induction false} PicksSame<T(!new)>(items: seq<T>, a: seq<nat>, b: seq<nat>)
    requires Within(a, |items|) && Within(b, |items|) && multiset(a) == multiset(b)
    ensures multiset(Pick(items, a)) == multiset(Pick(items, b))
    decreases |a|
  {
    hide Without;
    if a == [] {
      assert |multiset(b)| == 0;
    } else {
      var j := TakeFromBoth(a, b, 0);
      PickWithout(items, a, 0);
      PickWithout(items, b, j);
      ShorterWithout(a, 0);
      PicksSame(items, Without(a, 0), Without(b, j));
      WithoutOne(Pick(items, a), 0);
      WithoutOne(Pick(items, b), j);
    }
  }

  /** The result is determined by the items and the graph, up to the order of the clusters and of the noise. */
  lemma {:induction false} ResultIsUnique<T(!new)>(items: seq<T>, e: Edges, clusters: seq<seq<T>>, noise: seq<T>,
    clusters': seq<seq<T>>, noise': seq<T>)
    requires IsClusterResult(items, e, clusters, noise) && IsClusterResult(items, e, clusters', noise')
    ensures multiset(clusters) == multiset(clusters') && multiset(noise) == multiset(noise')
  {
    hide Shows, Pick, Connected, Distinct;
    var clusterAt: seq<seq<nat>>, noiseAt: seq<nat> :|
      IsClustering(|items|, e, clusterAt, noiseAt) && Shows(items, clusters, clusterAt)
        && noise == Pick(items, noiseAt);
    var clusterAt': seq<seq<nat>>, noiseAt': seq<nat> :|
      IsClustering(|items|, e, clusterAt', noiseAt') && Shows(items, clusters', clusterAt')
        && noise' == Pick(items, noiseAt');
    ClusteringIsUnique(|items|, e, clusterAt, noiseAt, clusterAt', noiseAt');
    ShowsSame(items, clusters, clusterAt, clusters', clusterAt');
    PicksSame(items, noiseAt, noiseAt');
  }

  lemma {:induction false} ClusterHasCompany(n: nat, e: Edges, clusters: seq<seq<nat>>, noise: seq<nat>,
    g: seq<nat>, a: nat)
    requires IsClustering(n, e, clusters, noise) && g in clusters && a in g
    ensures exists b: nat :: Connected(e, a, b) && b != a
  {
    assert g[0] < g[1] && g[0] in g && g[1] in g;
    assert Connected(e, a, g[0]) && Connected(e, a, g[1]);
  }

  lemma {:induction false} SameNoise(n: nat, e: Edges, clusters: seq<seq<nat>>, noise: seq<nat>,
    clusters': seq<seq<nat>>, noise': seq<nat>)
    requires IsClustering(n, e, clusters, noise) && IsClustering(n, e, clusters', noise')
    ensures forall a <- noise :: a in noise'
  {
    forall a <- noise
      ensures a in noise'
    {
      if a !in noise' {
        var g :| g in clusters' && a in g;
        ClusterHasCompany(n, e, clusters', noise', g, a);
      }
    }
  }

  lemma {:induction false} SameClusters(n: nat, e: Edges, clusters: seq<seq<nat>>, noise: seq<nat>,
    clusters': seq<seq<nat>>, noise': seq<nat>)
    requires IsClustering(n, e, clusters, noise) && IsClustering(n, e, clusters', noise')
    ensures forall g <- clusters :: g in clusters'
  {
    forall g <- clusters
      ensures g in clusters'
    {
      assert g[0] in g;
      ClusterHasCompany(n, e, clusters, noise, g, g[0]);
      assert g[0] !in noise';
      var g' :| g' in clusters' && g[0] in g';
      SameIncreasing(g, g');
    }
  }

  lemma {:induction false} LastIsGreatest(s: seq<nat>)
    requires Increasing(s) && s != []
    ensures s[|s| - 1] in s && forall k <- s :: k <= s[|s| - 1]
    ensures s == Front(s) + [s[|s| - 1]]
    ensures forall k: nat :: k in Front(s) <==> k in s && k != s[|s| - 1]
  {
    assert s == Front(s) + [s[|s| - 1]];
    assert s[|s| - 1] !in Front(s);
  }

  lemma {:induction false} SameIncreasing(s: seq<nat>, t: seq<nat>)
    requires Increasing(s) && Increasing(t) && forall k: nat :: k in s <==> k in t
    ensures s == t
  {
    assert t != [] ==> t[0] in t;
    if s != [] {
      assert s[0] in t;
      LastIsGreatest(s);
      LastIsGreatest(t);
      SameIncreasing(Front(s), Front(t));
    }
  }

  lemma {:induction false} DistinctSameMultiset<T(!new)>(s: seq<T>, t: seq<T>)
    requires Distinct(s) && Distinct(t) && (forall x <- s :: x in t) && (forall x <- t :: x in s)
    ensures multiset(s) == multiset(t)
  {
    forall x ensures multiset(s)[x] == multiset(t)[x] {
      OccursOnce(s, x);
      OccursOnce(t, x);
    }
  }

  lemma {:induction false} OccursOnce<T(!new)>(s: seq<T>, x: T)
    requires Distinct(s)
    ensures multiset(s)[x] == if x in s then 1 else 0
  {
    if s != [] {
      assert s == s[..|s| - 1] + [s[|s| - 1]];
      OccursOnce(s[..|s| - 1], x);
    }
  }

  // ---- What the threshold decides ----

  /** Two embeddings are at least as similar as the threshold; of different lengths they count as orthogonal. */
  ghost predicate IsSimilar(a: Vector, b: Vector, threshold: real, sqrt: real -> real) {
    if |a| == |b| then Similarity(a, b, sqrt) >= threshold else 0.0 >= threshold
  }

  lemma {:induction false} AdjacentIff(n: nat, embeddings: seq<Vector>, threshold: real, sqrt: real -> real, a: nat,
    b: nat)
    requires n <= |embeddings| && a < n && b < n && a != b
    ensures Adjacent(ThresholdEdges(n, embeddings, threshold, sqrt), a, b) <==>
      IsSimilar(embeddings[a], embeddings[b], threshold, sqrt)
  {
    hide Similarity;
    if |embeddings[a]| == |embeddings[b]| {
      SimilaritySymmetric(embeddings[a], embeddings[b], sqrt);
    }
  }

  /** On a chain that leaves its start, the start has a neighbour. */
  lemma {:induction false} FirstNeighbour(e: Edges, n: nat, a: nat, b: nat) returns (c: nat)
    requires EdgesWithin(e, n) && Connected(e, a, b) && a != b
    ensures c < n && c != a && Adjacent(e, a, c)
  {
    var path :| Joins(e, path, a, b);
    var k := 1;
    while path[k] == a
      invariant 1 <= k < |path| && forall i :: 0 <= i < k ==> path[i] == a
      decreases |path| - k
    {
      assert k < |path| - 1 by { assert path[|path| - 1] == b; }
      k := k + 1;
    }
    c := path[k];
    assert Adjacent(e, path[k - 1], path[k]);
  }

  lemma {:induction false} HasSimilar(n: nat, embeddings: seq<Vector>, threshold: real, sqrt: real -> real, a: nat,
    b: nat) returns (c: nat)
    requires n <= |embeddings| && a < n && a != b && Connected(ThresholdEdges(n, embeddings, threshold, sqrt), a, b)
    ensures c < n && c != a && Connected(ThresholdEdges(n, embeddings, threshold, sqrt), a, c)
    ensures IsSimilar(embeddings[a], embeddings[c], threshold, sqrt)
  {
    hide IsSimilar, Connected, ThresholdEdges;
    ThresholdWithin(n, embeddings, threshold, sqrt);
    c := FirstNeighbour(ThresholdEdges(n, embeddings, threshold, sqrt), n, a, b);
    AdjacentIff(n, embeddings, threshold, sqrt, a, c);
    EdgeConnects(ThresholdEdges(n, embeddings, threshold, sqrt), a, c);
  }

  lemma {:induction false} SimilarConnects(n: nat, embeddings: seq<Vector>, threshold: real, sqrt: real -> real,
    a: nat, b: nat)
    requires n <= |embeddings| && a < n && b < n && a != b && IsSimilar(embeddings[a], embeddings[b], threshold, sqrt)
    ensures Connected(ThresholdEdges(n, embeddings, threshold, sqrt), a, b)
  {
    hide IsSimilar, Connected, ThresholdEdges;
    AdjacentIff(n, embeddings, threshold, sqrt, a, b);
    EdgeConnects(ThresholdEdges(n, embeddings, threshold, sqrt), a, b);
  }

  /** A lesson is noise exactly when no other is similar to it. */
  lemma {:induction false} NoiseIsDissimilar(n: nat, embeddings: seq<Vector>, threshold: real, sqrt: real -> real,
    clusters: seq<seq<nat>>, noise: seq<nat>, a: nat)
    requires n <= |embeddings| && a < n
    requires IsClustering(n, ThresholdEdges(n, embeddings, threshold, sqrt), clusters, noise)
    ensures a in noise <==>
      forall b: nat :: b < n && b != a ==> !IsSimilar(embeddings[a], embeddings[b], threshold, sqrt)
  {
    hide IsSimilar, Connected, ThresholdEdges;
    if a in noise {
      forall b: nat | b < n && b != a ensures !IsSimilar(embeddings[a], embeddings[b], threshold, sqrt) {
        if IsSimilar(embeddings[a], embeddings[b], threshold, sqrt) {
          SimilarConnects(n, embeddings, threshold, sqrt, a, b);
        }
      }
    } else {
      var g :| g in clusters && a in g;
      var b := OtherMember(g, a);
      var c := HasSimilar(n, embeddings, threshold, sqrt, a, b);
    }
  }

  lemma {:induction false} OtherMember(g: seq<nat>, a: nat) returns (b: nat)
    requires |g| >= 2 && Increasing(g)
    ensures b in g && b != a
  {
    assert g[0] < g[1];
    b := if g[0] == a then g[1] else g[0];
  }

  /** Similar lessons share a cluster. */
  lemma {:induction false} SimilarShareCluster(n: nat, embeddings: seq<Vector>, threshold: real, sqrt: real -> real,
    clusters: seq<seq<nat>>, noise: seq<nat>, a: nat, b: nat)
    requires n <= |embeddings| && a < n && b < n && a != b
    requires IsClustering(n, ThresholdEdges(n, embeddings, threshold, sqrt), clusters, noise)
    requires IsSimilar(embeddings[a], embeddings[b], threshold, sqrt)
    ensures exists g <- clusters :: a in g && b in g
  {
    hide IsSimilar, Connected, ThresholdEdges;
    SimilarConnects(n, embeddings, threshold, sqrt, a, b);
    assert a !in noise;
    var g :| g in clusters && a in g;
  }

  lemma {:induction false} ThresholdWithin(n: nat, embeddings: seq<Vector>, threshold: real, sqrt: real -> real)
    requires n <= |embeddings|
    ensures EdgesWithin(ThresholdEdges(n, embeddings, threshold, sqrt), n)
  { }
}
