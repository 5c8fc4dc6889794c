/** Pruning a directory tree against the sets of expected files and directories (setup/primitives.go). */
module Prune {
  /** A path below the pruned root, one name a component. */
  type Path = seq<string>

  datatype Kind = File | Directory

  type Tree = map<Path, Kind>

  datatype Expected = Expected(files: set<Path>, dirs: set<Path>, skipTopLevel: set<string>)

  predicate IsDir(t: Tree, p: Path) { p in t && t[p] == Directory }

  predicate Below(relDir: Path, p: Path) { |relDir| < |p| && relDir <= p }

  /** Below relDir, every path lies in directories. */
  ghost predicate IsTreeBelow(t: Tree, relDir: Path) {
    forall p, n :: p in t && Below(relDir, p) && |relDir| < n < |p| ==> IsDir(t, p[..n])
  }

  // ---- What a prune keeps ----

  predicate Wanted(ex: Expected, p: Path, kind: Kind) { if kind == Directory then p in ex.dirs else p in ex.files }

  /** Every directory on the way from a path of length `from` to p is expected, and so is p. */
  predicate Kept(ex: Expected, from: nat, p: Path, kind: Kind) {
    && (forall n :: from < n < |p| ==> p[..n] in ex.dirs)
    && Wanted(ex, p, kind)
  }

  /** The path is or lies in a top-level directory that is left alone. */
  predicate Skipped(ex: Expected, t: Tree, p: Path) {
    p != [] && p[0] in ex.skipTopLevel && IsDir(t, p[..1])
  }

  predicate Survives(ex: Expected, t: Tree, relDir: Path, p: Path)
    requires p in t
  {
    (relDir == [] && Skipped(ex, t, p)) || Kept(ex, |relDir|, p, t[p])
  }

  /** The tree once everything below relDir is pruned. */
  function Pruned(ex: Expected, t: Tree, relDir: Path): Tree {
    map p | p in t && (Below(relDir, p) ==> Survives(ex, t, relDir, p)) :: t[p]
  }

  /** The tree once the given children of relDir are dealt with. */
  function PrunedUpTo(ex: Expected, t: Tree, relDir: Path, done: set<Path>): Tree {
    map p | p in t && (Below(relDir, p) && p[..|relDir| + 1] in done ==> Survives(ex, t, relDir, p)) :: t[p]
  }

  /** Paths from c down are judged as in the tree t, others are left. */
  function ChildPruned(ex: Expected, t: Tree, now: Tree, relDir: Path, c: Path): Tree {
    map p | p in now && (c <= p && p in t ==> Survives(ex, t, relDir, p)) :: now[p]
  }

  /** The entries that are removed while their directory stays: one removal each. */
  function Tops(ex: Expected, t: Tree, relDir: Path): set<Path> {
    set p | p in t && Below(relDir, p) && IsTop(ex, t, relDir, p)
  }

  /** The way to p is expected and not left alone, but p is not expected. */
  predicate IsTop(ex: Expected, t: Tree, relDir: Path, p: Path)
    requires p in t
  {
    && !(relDir == [] && Skipped(ex, t, p))
    && (forall n :: |relDir| < n < |p| ==> p[..n] in ex.dirs)
    && !Wanted(ex, p, t[p])
  }

  function TopsUpTo(ex: Expected, t: Tree, relDir: Path, done: set<Path>): set<Path> {
    set p | p in Tops(ex, t, relDir) && p[..|relDir| + 1] in done
  }

  function TopsUnder(ex: Expected, t: Tree, relDir: Path, c: Path): set<Path> {
    set p | p in Tops(ex, t, relDir) && c <= p
  }

  predicate IsChild(relDir: Path, c: Path) { |c| == |relDir| + 1 && relDir <= c }

  ghost predicate AgreeFrom(a: Tree, b: Tree, c: Path) {
    forall p :: c <= p ==> (p in a <==> p in b) && (p in a ==> a[p] == b[p])
  }

  lemma {:induction false} ChildStep(ex: Expected, t: Tree, relDir: Path, done: set<Path>, c: Path)
    requires IsChild(relDir, c) && c !in done && forall d :: d in done ==> IsChild(relDir, d)
    ensures PrunedUpTo(ex, t, relDir, done + {c}) == ChildPruned(ex, t, PrunedUpTo(ex, t, relDir, done), relDir, c)
    ensures AgreeFrom(PrunedUpTo(ex, t, relDir, done), t, c)
  {
    hide Survives;
    forall p ensures c <= p <==> Below(relDir, p) && p[..|relDir| + 1] == c {
      UnderChild(relDir, c, p);
    }
    var (before, after) := (PrunedUpTo(ex, t, relDir, done), PrunedUpTo(ex, t, relDir, done + {c}));
    var step := ChildPruned(ex, t, before, relDir, c);
    forall p | p in t ensures p in after <==> p in step {
      assert Below(relDir, p) ==> (p[..|relDir| + 1] in done + {c} <==> p[..|relDir| + 1] in done || c <= p);
    }
  }

  lemma {:induction false} TopsStep(ex: Expected, t: Tree, relDir: Path, done: set<Path>, c: Path)
    requires IsChild(relDir, c) && c !in done
    ensures |TopsUpTo(ex, t, relDir, done + {c})| == |TopsUpTo(ex, t, relDir, done)| + |TopsUnder(ex, t, relDir, c)|
  {
    hide IsTop;
    var (before, under) := (TopsUpTo(ex, t, relDir, done), TopsUnder(ex, t, relDir, c));
    forall p | Below(relDir, p) ensures c <= p <==> p[..|relDir| + 1] == c {
      UnderChild(relDir, c, p);
    }
    assert TopsUpTo(ex, t, relDir, done + {c}) == before + under;
    assert before !! under;
  }

  lemma {:induction false} AllTopsDone(ex: Expected, t: Tree, relDir: Path, done: set<Path>)
    requires IsTreeBelow(t, relDir) && forall c :: c in t && IsChild(relDir, c) ==> c in done
    ensures TopsUpTo(ex, t, relDir, done) == Tops(ex, t, relDir)
  {
    hide IsTop;
    forall p | p in t && Below(relDir, p) ensures p[..|relDir| + 1] in done {
      ChildIsDone(t, relDir, done, p);
    }
  }

  lemma {:induction false} ChildIsDone(t: Tree, relDir: Path, done: set<Path>, p: Path)
    requires IsTreeBelow(t, relDir) && forall c :: c in t && IsChild(relDir, c) ==> c in done
    requires p in t && Below(relDir, p)
    ensures p[..|relDir| + 1] in done
  {
    var c := p[..|relDir| + 1];
    assert IsChild(relDir, c);
    assert c in t by {
      if |p| == |relDir| + 1 {
        assert c == p;
      } else {
        assert IsDir(t, p[..|relDir| + 1]);
      }
    }
  }

  lemma {:induction false} UnderChild(relDir: Path, c: Path, p: Path)
    requires IsChild(relDir, c)
    ensures c <= p <==> Below(relDir, p) && p[..|relDir| + 1] == c
  {
    if c <= p {
      assert c == p[..|c|];
      assert p[..|relDir|] == c[..|relDir|] == relDir;
    }
    if Below(relDir, p) && p[..|relDir| + 1] == c {
      assert c <= p;
    }
  }

  lemma {:induction false} AllChildrenDone(ex: Expected, t: Tree, relDir: Path, done: set<Path>)
    requires IsTreeBelow(t, relDir) && forall c :: c in t && IsChild(relDir, c) ==> c in done
    ensures PrunedUpTo(ex, t, relDir, done) == Pruned(ex, t, relDir)
  {
    hide Survives;
    forall p | p in t && Below(relDir, p) ensures p[..|relDir| + 1] in done {
      ChildIsDone(t, relDir, done, p);
    }
  }

  /** Below an expected directory, it is kept when its own subtree keeps it. */
  lemma {:induction false} KeptBelow(ex: Expected, from: nat, p: Path, kind: Kind)
    requires from + 1 < |p|
    ensures Kept(ex, from, p, kind) <==> p[..from + 1] in ex.dirs && Kept(ex, from + 1, p, kind)
  { }

  /** The three ways a child is dealt with. */
  lemma {:induction false} SkippedChild(ex: Expected, t: Tree, now: Tree, c: Path)
    requires IsChild([], c) && IsDir(t, c) && c[0] in ex.skipTopLevel
    ensures ChildPruned(ex, t, now, [], c) == now
  {
    hide Kept;
    forall p | p in now && c <= p && p in t ensures Survives(ex, t, [], p) {
      assert p[..1] == c;
    }
  }

  lemma {:induction false} SkippedTops(ex: Expected, t: Tree, c: Path)
    requires IsChild([], c) && IsDir(t, c) && c[0] in ex.skipTopLevel
    ensures TopsUnder(ex, t, [], c) == {}
  {
    forall p | p in t && c <= p ensures Skipped(ex, t, p) {
      assert p[..1] == c;
    }
  }

  /** An unexpected directory is one removal, whatever lies in it. */
  lemma {:induction false} UnexpectedTops(ex: Expected, t: Tree, relDir: Path, c: Path)
    requires IsChild(relDir, c) && IsDir(t, c) && c !in ex.dirs && !(relDir == [] && c[0] in ex.skipTopLevel)
    ensures TopsUnder(ex, t, relDir, c) == {c}
  {
    forall p | p in t && c <= p && |p| > |c| ensures p !in Tops(ex, t, relDir) {
      assert p[..|c|] == c;
    }
    assert forall p: Path :: c <= p && |p| <= |c| ==> p == c;
    assert IsTop(ex, t, relDir, c);
    assert relDir == [] ==> c[..1] == c;
  }

  lemma {:induction false} ExpectedTops(ex: Expected, t: Tree, now: Tree, relDir: Path, c: Path)
    requires IsChild(relDir, c) && IsDir(t, c) && AgreeFrom(now, t, c) && c in ex.dirs
    requires !(relDir == [] && c[0] in ex.skipTopLevel)
    ensures TopsUnder(ex, t, relDir, c) == Tops(ex, now, c)
  {
    forall p | p in t && c <= p ensures p in TopsUnder(ex, t, relDir, c) <==> p in Tops(ex, now, c) {
      UnderChild(relDir, c, p);
      if |p| > |c| {
        assert p[..|c|] == c;
        assert relDir == [] ==> p[..1] == c && p[0] == c[0];
      } else {
        assert p == c;
      }
    }
  }

  lemma {:induction false} FileTops(ex: Expected, t: Tree, relDir: Path, c: Path)
    requires IsChild(relDir, c) && c in t && t[c] == File && IsTreeBelow(t, relDir)
    ensures TopsUnder(ex, t, relDir, c) == if c in ex.files then {} else {c}
  {
    forall p | p in t && c <= p ensures p == c {
      LeafHasNothingBelow(t, relDir, c, p);
    }
    assert relDir == [] ==> c[..1] == c;
  }

  lemma {:induction false} UnexpectedDir(ex: Expected, t: Tree, now: Tree, relDir: Path, c: Path)
    requires IsChild(relDir, c) && IsDir(t, c) && AgreeFrom(now, t, c) && c !in ex.dirs
      && !(relDir == [] && c[0] in ex.skipTopLevel)
    ensures ChildPruned(ex, t, now, relDir, c) == map p | p in now && !(c <= p) :: now[p]
  {
    hide Kept;
    forall p | p in now && c <= p ensures p in t && !Survives(ex, t, relDir, p) {
      UnderChild(relDir, c, p);
      assert relDir == [] ==> p[..1] == c && p[0] == c[0];
      if |p| > |c| {
        KeptBelow(ex, |relDir|, p, t[p]);
      } else {
        assert p == c;
        KeptSelf(ex, |relDir|, c);
      }
    }
  }

  lemma {:induction false} ExpectedDir(ex: Expected, t: Tree, now: Tree, relDir: Path, c: Path)
    requires IsChild(relDir, c) && IsDir(t, c) && AgreeFrom(now, t, c) && c in ex.dirs
      && !(relDir == [] && c[0] in ex.skipTopLevel)
    ensures ChildPruned(ex, t, now, relDir, c) == Pruned(ex, now, c)
  {
    hide Kept;
    forall p | p in now && c <= p
      ensures p in t && (Survives(ex, t, relDir, p) <==> (Below(c, p) ==> Survives(ex, now, c, p)))
    {
      assert p[..|relDir| + 1] == c;
      if |p| > |c| {
        KeptBelow(ex, |relDir|, p, t[p]);
        assert relDir == [] ==> p[..1] == c && p[0] == c[0];
      } else {
        assert p == c;
        KeptSelf(ex, |relDir|, c);
      }
    }
  }

  lemma {:induction false} KeptSelf(ex: Expected, from: nat, c: Path)
    requires |c| == from + 1
    ensures Kept(ex, from, c, Directory) <==> c in ex.dirs
    ensures Kept(ex, from, c, File) <==> c in ex.files
  { }

  lemma {:induction false} LeafHasNothingBelow(t: Tree, relDir: Path, c: Path, p: Path)
    requires IsChild(relDir, c) && c in t && t[c] == File && IsTreeBelow(t, relDir)
    ensures p in t && c <= p ==> p == c
  {
    if p in t && Below(relDir, p) && |p| > |c| {
      assert IsDir(t, p[..|c|]);
    }
    UnderChild(relDir, c, p);
  }

  lemma {:induction false} FileChild(ex: Expected, t: Tree, now: Tree, relDir: Path, c: Path)
    requires IsChild(relDir, c) && c in t && t[c] == File && AgreeFrom(now, t, c) && IsTreeBelow(t, relDir)
    ensures ChildPruned(ex, t, now, relDir, c) == if c in ex.files then now else now - {c}
  {
    hide Kept;
    KeptSelf(ex, |relDir|, c);
    forall p | p in now && c <= p ensures p == c {
      LeafHasNothingBelow(t, relDir, c, p);
    }
    assert relDir == [] ==> c[..1] == c;
  }

  // ---- The walk ----

  function DirsBelow(t: Tree, relDir: Path): set<Path> { set d | d in t && IsDir(t, d) && Below(relDir, d) }

  class FileTree {
    var nodes: Tree

    /** os.ReadDir: the children of a directory, each once. */
    method ReadDir(relDir: Path) returns (entries: seq<Path>)
      ensures forall p :: p in entries <==> p in nodes && IsChild(relDir, p)
      ensures forall i, j :: 0 <= i < j < |entries| ==> entries[i] != entries[j]
    {
      entries := [];
      var rest := set p | p in nodes && IsChild(relDir, p);
      while rest != {}
        invariant forall p :: p in nodes && IsChild(relDir, p) <==> p in entries || p in rest
        invariant forall i :: 0 <= i < |entries| ==> entries[i] !in rest
        invariant forall i, j :: 0 <= i < j < |entries| ==> entries[i] != entries[j]
      {
        var p :| p in rest;
        entries := entries + [p];
        rest := rest - {p};
      }
    }

    /** os.RemoveAll on a directory. */
    method RemoveAll(dir: Path)
      modifies this
      ensures nodes == map p | p in old(nodes) && !(dir <= p) :: old(nodes)[p]
    {
      nodes := map p | p in nodes && !(dir <= p) :: nodes[p];
    }

    /** Everything below relDir that is not expected goes; the count is the number of removals. */
    method PruneManagedSubtree(relDir: Path, ex: Expected) returns (pruned: nat)
      requires IsTreeBelow(nodes, relDir)
      modifies this
      ensures nodes == Pruned(ex, old(nodes), relDir)
      ensures pruned == |Tops(ex, old(nodes), relDir)| && (pruned == 0 <==> nodes == old(nodes))
      decreases DirsBelow(nodes, relDir), 1
    {
      hide Survives, ChildPruned, Tops, TopsUnder, TopsUpTo;
      var entries := ReadDir(relDir);
      pruned := 0;
      ghost var done: set<Path> := {};
      assert PrunedUpTo(ex, nodes, relDir, done) == nodes;
      NoTopsYet(ex, nodes, relDir);
      for i := 0 to |entries|
        invariant forall p :: p in done <==> p in entries[..i]
        invariant nodes == PrunedUpTo(ex, old(nodes), relDir, done)
        invariant pruned == |TopsUpTo(ex, old(nodes), relDir, done)| && (pruned == 0 <==> nodes == old(nodes))
      {
        var c := entries[i];
        assert entries[..i + 1] == entries[..i] + [c];
        assert c in entries && c !in done;
        ChildStep(ex, old(nodes), relDir, done, c);
        TopsStep(ex, old(nodes), relDir, done, c);
        assert DirsBelow(nodes, relDir) <= DirsBelow(old(nodes), relDir);
        ghost var before := nodes;
        var n := PruneEntry(relDir, c, ex, old(nodes));
        Shrinks(ex, old(nodes), before, relDir, c);
        pruned := pruned + n;
        done := done + {c};
      }
      AllChildrenDone(ex, old(nodes), relDir, done);
      AllTopsDone(ex, old(nodes), relDir, done);
    }

    method PruneEntry(relDir: Path, entry: Path, ex: Expected, ghost t: Tree) returns (pruned: nat)
      requires IsChild(relDir, entry) && entry in nodes && AgreeFrom(nodes, t, entry) && IsTreeBelow(t, relDir)
      modifies this
      ensures nodes == ChildPruned(ex, t, old(nodes), relDir, entry)
      ensures pruned == |TopsUnder(ex, t, relDir, entry)| && (pruned == 0 <==> nodes == old(nodes))
      decreases DirsBelow(nodes, relDir), 0
    {
      hide Kept, Pruned, ChildPruned, Tops, TopsUnder;
      if IsDir(nodes, entry) && relDir == [] && entry[0] in ex.skipTopLevel {
        SkippedChild(ex, t, nodes, entry);
        SkippedTops(ex, t, entry);
        return 0;
      }
      if IsDir(nodes, entry) {
        FewerDirs(nodes, relDir, entry);
        pruned := PruneDir(relDir, entry, ex, t);
        return;
      }
      FileChild(ex, t, nodes, relDir, entry);
      FileTops(ex, t, relDir, entry);
      if entry !in ex.files {
        nodes := nodes - {entry};
        return 1;
      }
      pruned := 0;
    }

    method PruneDir(ghost relDir: Path, dir: Path, ex: Expected, ghost t: Tree) returns (pruned: nat)
      requires IsChild(relDir, dir) && IsDir(nodes, dir) && AgreeFrom(nodes, t, dir) && IsTreeBelow(t, relDir)
      requires !(relDir == [] && dir[0] in ex.skipTopLevel)
      modifies this
      ensures nodes == ChildPruned(ex, t, old(nodes), relDir, dir)
      ensures pruned == |TopsUnder(ex, t, relDir, dir)| && (pruned == 0 <==> nodes == old(nodes))
      decreases DirsBelow(nodes, dir), 2
    {
      hide Kept, Pruned, ChildPruned, Tops, TopsUnder;
      if dir !in ex.dirs {
        UnexpectedDir(ex, t, nodes, relDir, dir);
        UnexpectedTops(ex, t, relDir, dir);
        RemoveAll(dir);
        assert dir !in nodes;
        return 1;
      }
      ExpectedDir(ex, t, nodes, relDir, dir);
      ExpectedTops(ex, t, nodes, relDir, dir);
      StillATree(t, nodes, relDir, dir);
      pruned := PruneManagedSubtree(dir, ex);
    }
  }

  lemma {:induction false} FewerDirs(t: Tree, relDir: Path, c: Path)
    requires IsChild(relDir, c) && IsDir(t, c)
    ensures DirsBelow(t, c) < DirsBelow(t, relDir)
  {
    forall d | d in DirsBelow(t, c) ensures d in DirsBelow(t, relDir) {
      UnderChild(relDir, c, d);
    }
    assert c in DirsBelow(t, relDir) && c !in DirsBelow(t, c);
  }

  lemma {:induction false} StillATree(t: Tree, now: Tree, relDir: Path, c: Path)
    requires IsChild(relDir, c) && AgreeFrom(now, t, c) && IsTreeBelow(t, relDir)
    ensures IsTreeBelow(now, c)
  {
    forall p, n | p in now && Below(c, p) && |c| < n < |p| ensures IsDir(now, p[..n]) {
      assert c <= p[..n];
      assert p[..|relDir|] == c[..|relDir|];
      assert IsDir(t, p[..n]);
    }
  }

  /** Pruning a child of what is left of a tree changes it only if it removes something. */
  lemma {:induction false} Shrinks(ex: Expected, t: Tree, now: Tree, relDir: Path, c: Path)
    requires now.Keys <= t.Keys
    ensures ChildPruned(ex, t, now, relDir, c).Keys <= now.Keys
    ensures ChildPruned(ex, t, now, relDir, c) == t ==> now == t
  {
    hide Survives;
  }

  lemma {:induction false} NoTopsYet(ex: Expected, t: Tree, relDir: Path)
    ensures |TopsUpTo(ex, t, relDir, {})| == 0
  {
    assert TopsUpTo(ex, t, relDir, {}) == {};
  }

  // ---- What pruning a whole tree guarantees ----

  /** What is counted: the paths that go while the directory they lie in stays. */
  lemma {:induction false} TopsAreTopmost(ex: Expected, t: Tree, p: Path)
    requires IsTreeBelow(t, []) && [] !in t
    ensures p in Tops(ex, t, []) <==>
      p in t && p !in Pruned(ex, t, []) && (|p| > 1 ==> p[..|p| - 1] in Pruned(ex, t, []))
  {
    if p in t {
      assert p != [] && Below([], p);
      if |p| > 1 {
        var parent := p[..|p| - 1];
        assert IsDir(t, parent);
        assert parent[..1] == p[..1] && parent[0] == p[0];
        assert forall n :: 0 < n < |p| - 1 ==> parent[..n] == p[..n];
        assert Skipped(ex, t, p) <==> Skipped(ex, t, parent);
        assert (forall n :: 0 < n < |p| ==> p[..n] in ex.dirs) <==> Kept(ex, 0, parent, Directory) by {
          if Kept(ex, 0, parent, Directory) {
            forall n | 0 < n < |p| ensures p[..n] in ex.dirs {
              assert n < |p| - 1 ==> parent[..n] in ex.dirs;
            }
          }
        }
      }
    }
  }

  /** The ancestors of every expected path are expected directories. */
  ghost predicate IsClosed(ex: Expected) {
    && (forall p, n :: p in ex.files && 0 < n < |p| ==> p[..n] in ex.dirs)
    && (forall p, n :: p in ex.dirs && 0 < n < |p| ==> p[..n] in ex.dirs)
  }

  /** The path is or lies below a directory at the top whose name is to be skipped. */
  ghost predicate IsLeftAlone(ex: Expected, t: Tree, p: Path) {
    exists name :: name in ex.skipTopLevel && [name] <= p && [name] in t && t[[name]] == Directory
  }

  lemma {:induction false} LeftAloneIsSkipped(ex: Expected, t: Tree, p: Path)
    ensures IsLeftAlone(ex, t, p) <==> Skipped(ex, t, p)
  {
    if p != [] {
      assert p[..1] == [p[0]];
      assert [p[0]] <= p;
    }
  }

  /** Exactly the expected files and directories stay, and everything under the skipped top-level directories. */
  lemma {:induction false} ExactlyTheExpected(ex: Expected, t: Tree)
    requires IsClosed(ex) && [] !in t
    ensures Pruned(ex, t, []) ==
      map p | p in t && (IsLeftAlone(ex, t, p) || (if t[p] == File then p in ex.files else p in ex.dirs)) :: t[p]
  {
    forall p: Path ensures IsLeftAlone(ex, t, p) <==> Skipped(ex, t, p) {
      LeftAloneIsSkipped(ex, t, p);
    }
  }

  /** A second prune removes nothing, whatever is expected. */
  lemma {:induction false} PruneIsIdempotent(ex: Expected, t: Tree)
    requires [] !in t
    ensures Pruned(ex, Pruned(ex, t, []), []) == Pruned(ex, t, [])
  {
    hide Kept;
    var once := Pruned(ex, t, []);
    forall p | p in once && Skipped(ex, t, p) ensures Skipped(ex, once, p) {
      assert p[..1] in once by { assert p[..1][0] == p[0] && p[..1][..1] == p[..1]; }
    }
  }

  /** A pruned tree is still a tree: no file is left without its directories. */
  lemma {:induction false} PrunedIsTree(ex: Expected, t: Tree)
    requires IsTreeBelow(t, [])
    ensures IsTreeBelow(Pruned(ex, t, []), [])
  {
    var after := Pruned(ex, t, []);
    forall p, n | p in after && Below([], p) && 0 < n < |p| ensures IsDir(after, p[..n]) {
      assert IsDir(t, p[..n]);
      if Skipped(ex, t, p) {
        assert p[..n][..1] == p[..1] && p[..n][0] == p[0];
      } else {
        forall m | 0 < m < n ensures p[..n][..m] in ex.dirs {
          assert p[..n][..m] == p[..m];
        }
      }
    }
  }

  /** Without closed sets an expected file can go: its directory is not expected. */
  lemma {:induction false} OpenSetsLoseFiles()
    ensures var ex := Expected({["a", "f"]}, {}, {});
      ["a", "f"] !in Pruned(ex, map[["a"] := Directory, ["a", "f"] := File], [])
  {
    var (ex, p) := (Expected({["a", "f"]}, {}, {}), ["a", "f"]);
    assert p[..1] !in ex.dirs;
  }

  // ---- The expected sets ----

  /** The inner loop of the set builders: for dir := path.Dir(p); dir != "."; dir = path.Dir(dir). */
  method AddAncestors(dirs: set<Path>, p: Path) returns (dirs': set<Path>)
    ensures dirs' == dirs + set n | 0 < n < |p| :: p[..n]
  {
    dirs' := dirs;
    var n := |p| - 1;
    while n > 0
      invariant n < |p| && (n < 0 ==> p == [])
      invariant dirs' == dirs + set k | 0 < k < |p| && k > n :: p[..k]
    {
      assert (set k | 0 < k < |p| && k > n - 1 :: p[..k]) == (set k | 0 < k < |p| && k > n :: p[..k]) + {p[..n]};
      dirs' := dirs' + {p[..n]};
      n := n - 1;
    }
  }

  /** The directories on the way to some paths. */
  function Ancestors(paths: set<Path>): set<Path> { set p, n | p in paths && 0 < n < |p| :: p[..n] }

  /** pruneResearchInternals: the templates and their ancestors. */
  method ExpectedTemplates(relPaths: seq<Path>) returns (ex: Expected)
    ensures var files := set p | p in relPaths;
      ex == Expected(files, Ancestors(files), {}) && IsClosed(ex)
  {
    var files: set<Path>, dirs: set<Path> := {}, {};
    for i := 0 to |relPaths|
      invariant files == set p | p in relPaths[..i]
      invariant dirs == Ancestors(files)
    {
      assert relPaths[..i + 1] == relPaths[..i] + [relPaths[i]];
      dirs := AddAncestors(dirs, relPaths[i]);
      MoreAncestors(files, relPaths[i]);
      files := files + {relPaths[i]};
    }
    assert relPaths[..|relPaths|] == relPaths;
    AncestorsAreClosed(files);
    ex := Expected(files, dirs, {});
  }

  /**
    prunePhaseSkillInternals and pruneAgentRoleSkillInternals: one directory a skill, with its SKILL.md, and the
    references.
   */
  method ExpectedSkills(names: seq<string>, references: seq<Path>, generated: set<Path>,
    skip: set<string>) returns (ex: Expected)
    requires forall p :: p in generated ==> |p| == 1
    ensures ex.files == (set p | p in references) + (set name | name in names :: [name, "SKILL.md"]) + generated
    ensures ex.dirs == Ancestors(set p | p in references) + set name | name in names :: [name]
    ensures ex.skipTopLevel == skip && IsClosed(ex)
  {
    hide Ancestors;
    var base := ExpectedTemplates(references);
    var files, dirs := base.files, base.dirs;
    for i := 0 to |names|
      invariant files == base.files + set name | name in names[..i] :: [name, "SKILL.md"]
      invariant dirs == base.dirs + set name | name in names[..i] :: [name]
      invariant IsClosed(Expected(files, dirs, {}))
    {
      assert names[..i + 1] == names[..i] + [names[i]];
      assert [names[i], "SKILL.md"][..1] == [names[i]];
      dirs := dirs + {[names[i]]};
      files := files + {[names[i], "SKILL.md"]};
    }
    assert names[..|names|] == names;
    ex := Expected(files + generated, dirs, skip);
  }

  lemma {:induction false} MoreAncestors(paths: set<Path>, p: Path)
    ensures Ancestors(paths + {p}) == Ancestors(paths) + set n | 0 < n < |p| :: p[..n]
  { }

  lemma {:induction false} AncestorsAreClosed(paths: set<Path>)
    ensures IsClosed(Expected(paths, Ancestors(paths), {}))
  {
    forall q, m | q in Ancestors(paths) && 0 < m < |q| ensures q[..m] in Ancestors(paths) {
      var p, n :| p in paths && 0 < n < |p| && q == p[..n];
      assert q[..m] == p[..m];
    }
  }
}
