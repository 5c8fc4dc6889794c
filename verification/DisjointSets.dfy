/** Union-find with path halving over an array of parents (compound/compound.go). */
module DisjointSets {

  /** `parent` is a forest: every element's chain of parents leads to its root, and rank falls along it. */
  ghost predicate IsForest(parent: seq<nat>, root: seq<nat>, rank: seq<nat>) {
    && |root| == |rank| == |parent|
    && (forall i {:trigger parent[i]} :: 0 <= i < |parent| ==> parent[i] < |parent|)
    && (forall i {:trigger root[i]} :: 0 <= i < |parent| ==> root[i] < |parent| && parent[root[i]] == root[i])
    && (forall i {:trigger parent[i]} :: 0 <= i < |parent| ==> root[parent[i]] == root[i])
    && (forall i {:trigger parent[i]} :: 0 <= i < |parent| ==>
      if parent[i] == i then root[i] == i else rank[parent[i]] < rank[i])
  }

  /** Taking k parent steps from x. */
  function Climb(parent: seq<nat>, x: nat, k: nat): nat
    requires x < |parent| && forall i :: 0 <= i < |parent| ==> parent[i] < |parent|
    ensures Climb(parent, x, k) < |parent|
    decreases k
  {
    if k == 0 then x else Climb(parent, parent[x], k - 1)
  }

  /** The root map is no free choice: it is where the parents lead, in at most rank[x] steps. */
  lemma {:induction false} ParentsLeadToRoot(parent: seq<nat>, root: seq<nat>, rank: seq<nat>, x: nat) returns (k: nat)
    requires IsForest(parent, root, rank) && x < |parent|
    ensures k <= rank[x] && Climb(parent, x, k) == root[x]
    decreases rank[x]
  {
    if parent[x] == x {
      k := 0;
    } else {
      k := ParentsLeadToRoot(parent, root, rank, parent[x]);
      k := k + 1;
    }
  }

  /** Roots climb to themselves, so any two root maps of one parent array agree. */
  lemma {:induction false} RootsAreUnique(parent: seq<nat>, root: seq<nat>, rank: seq<nat>, root': seq<nat>,
    rank': seq<nat>)
    requires IsForest(parent, root, rank) && IsForest(parent, root', rank')
    ensures root == root'
  {
    forall x | 0 <= x < |parent|
      ensures root[x] == root'[x]
    {
      SameRoot(parent, root, rank, root', rank', x);
    }
  }

  lemma {:induction false} SameRoot(parent: seq<nat>, root: seq<nat>, rank: seq<nat>, root': seq<nat>,
    rank': seq<nat>, x: nat)
    requires IsForest(parent, root, rank) && IsForest(parent, root', rank') && x < |parent|
    ensures root[x] == root'[x]
    decreases rank[x]
  {
    if parent[x] != x {
      SameRoot(parent, root, rank, root', rank', parent[x]);
    }
  }

  ghost function RootsBelow(root: seq<nat>, n: nat): set<nat>
    requires n <= |root|
  {
    set i: nat | i < n && root[i] == i
  }

  ghost function Roots(root: seq<nat>): set<nat> {
    RootsBelow(root, |root|)
  }

  /** Re-pointing an element at its grandparent keeps the same roots. */
  lemma {:induction false} HalvingKeepsForest(parent: seq<nat>, root: seq<nat>, rank: seq<nat>, x: nat)
    requires IsForest(parent, root, rank) && x < |parent|
    ensures IsForest(parent[x := parent[parent[x]]], root, rank)
  { }

  /** The root map after hanging root a below root b. */
  ghost function Merged(root: seq<nat>, a: nat, b: nat): (r: seq<nat>)
    ensures |r| == |root|
  {
    seq(|root|, i requires 0 <= i < |root| => if root[i] == a then b else root[i])
  }

  ghost function Raised(root: seq<nat>, rank: seq<nat>, a: nat, lift: nat): (r: seq<nat>)
    requires |root| == |rank|
    ensures |r| == |rank|
  {
    seq(|rank|, i requires 0 <= i < |rank| => if root[i] == a then rank[i] + lift else rank[i])
  }

  lemma {:induction false} HangingKeepsForest(parent: seq<nat>, root: seq<nat>, rank: seq<nat>, a: nat, b: nat)
    requires IsForest(parent, root, rank)
    requires a < |parent| && b < |parent| && root[a] == a && root[b] == b && a != b
    ensures IsForest(parent[a := b], Merged(root, a, b), Raised(root, rank, a, rank[b] + 1))
  { }

  lemma {:induction false} HangingDropsOneRoot(root: seq<nat>, a: nat, b: nat)
    requires a < |root| && b < |root| && root[a] == a && root[b] == b && a != b
    requires forall i :: 0 <= i < |root| ==> root[i] < |root| && root[root[i]] == root[i]
    ensures |Roots(Merged(root, a, b))| == |Roots(root)| - 1
  {
    assert Roots(Merged(root, a, b)) == Roots(root) - {a};
  }

  class DisjointSet {
    const parent: array<nat>
    ghost var root: seq<nat>
    ghost var rank: seq<nat>
    ghost var joins: nat  // unions that joined two different roots

    ghost predicate Valid()
      reads this, parent
    {
      && IsForest(parent[..], root, rank)
      && |Roots(root)| + joins == parent.Length
    }

    constructor (n: nat)
      ensures Valid() && fresh(parent) && parent.Length == n && joins == 0
      ensures root == seq(n, i => i)
    {
      parent := new nat[n](i => i);
      root := seq(n, i => i);
      rank := seq(n, i => 0);
      joins := 0;
      new;
      AllRoots(root, n);
    }

    method Find(start: nat) returns (r: nat)
      requires Valid() && start < parent.Length
      modifies parent
      ensures Valid()
      ensures r == root[start]
    {
      var x: nat := start;
      while parent[x] != x
        invariant Valid() && x < parent.Length && root[x] == root[start]
        decreases rank[x]
      {
        HalvingKeepsForest(parent[..], root, rank, x);
        parent[x] := parent[parent[x]];
        x := parent[x];
      }
      return x;
    }

    method Union(a: nat, b: nat)
      requires Valid() && a < parent.Length && b < parent.Length
      modifies this, parent
      ensures Valid()
      ensures root == Merged(old(root), old(root[a]), old(root[b]))
      ensures joins == old(joins) + if old(root[a] == root[b]) then 0 else 1
    {
      var rootA := Find(a);
      var rootB := Find(b);
      if rootA != rootB {
        ghost var before := parent[..];
        HangingKeepsForest(before, root, rank, rootA, rootB);
        HangingDropsOneRoot(root, rootA, rootB);
        parent[rootA] := rootB;
        assert parent[..] == before[rootA := rootB];
        rank := Raised(root, rank, rootA, rank[rootB] + 1);
        root := Merged(root, rootA, rootB);
        joins := joins + 1;
      }
    }
  }

  lemma {:induction false} AllRoots(root: seq<nat>, n: nat)
    requires n <= |root| && forall i :: 0 <= i < |root| ==> root[i] == i
    ensures |RootsBelow(root, n)| == n
  {
    if n > 0 {
      AllRoots(root, n - 1);
      assert RootsBelow(root, n) == RootsBelow(root, n - 1) + {n - 1};
    }
  }
}
