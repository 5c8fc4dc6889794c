/**
  Harvesting the worktrees of background sessions: the bash that commands_scripts.go emits, with git,
  the sessions and the user as environment (cli/commands_scripts.go).
 */
module Harvest {
  import opened Prelude
  import opened Text

  /** A worktree git knows; `owner` is the background session that made it. */
  datatype Worktree = Worktree(path: string, branch: string, owner: Option<string>)

  /**
    `snapshots` holds the lines of each session's snapshot file, `merged` the branches merged into the working
    branch and not taken up again by a new worktree, and `lost` the branches of worktrees that `claude rm` removed
    before they were merged.
   */
  datatype World = World(
    worktrees: seq<Worktree>, snapshots: map<string, seq<string>>, sessions: set<string>, merged: set<string>,
      lost: set<string>)

  datatype Marker = Complete | Failed | Human(reason: string) | NoMarker

  // ---- Listing and comparing worktrees ----

  /** awk '{print $2}' on "worktree <path>": the path up to its first blank. */
  function FirstField(path: string): string {
    if path == "" || path[0] == ' ' || path[0] == '\t' then "" else [path[0]] + FirstField(path[1..])
  }

  function Fields(paths: seq<string>): seq<string> {
    seq(|paths|, i requires 0 <= i < |paths| => FirstField(paths[i]))
  }

  function PathsOf(worktrees: seq<Worktree>): seq<string> {
    seq(|worktrees|, i requires 0 <= i < |worktrees| => worktrees[i].path)
  }

  /** What the script reads of the worktree list: nothing when `git worktree list` fails. */
  function Listed(w: World, listOk: bool): seq<string> {
    if listOk then Fields(PathsOf(w.worktrees)) else []
  }

  /** grep -qF: some line of the snapshot contains the path. */
  predicate Seen(pre: seq<string>, path: string) {
    exists k :: 0 <= k < |pre| && Contains(pre[k], path)
  }

  predicate IsNew(pre: seq<string>, path: string) { path != "" && !Seen(pre, path) }

  function NewPaths(pre: seq<string>, cur: seq<string>): seq<string> {
    if cur == [] then []
    else
      var (front, last) := (NewPaths(pre, cur[..|cur| - 1]), cur[|cur| - 1]);
      if IsNew(pre, last) then front + [last] else front
  }

  lemma {:induction false} NewPathsAre(pre: seq<string>, cur: seq<string>, p: string)
    ensures p in NewPaths(pre, cur) <==> p in cur && IsNew(pre, p)
  {
    hide IsNew;
    if cur != [] {
      var front := cur[..|cur| - 1];
      NewPathsAre(pre, front, p);
      assert cur == front + [cur[|cur| - 1]];
    }
  }

  /** Two different listed paths that are new are two entries. */
  lemma {:induction false} TwoNewPaths(pre: seq<string>, cur: seq<string>, i: nat, j: nat)
    requires i < j < |cur| && IsNew(pre, cur[i]) && IsNew(pre, cur[j])
    ensures |NewPaths(pre, cur)| >= 2
  {
    hide IsNew;
    var front := cur[..|cur| - 1];
    if j < |front| {
      TwoNewPaths(pre, front, i, j);
    } else {
      NewPathsAre(pre, front, cur[i]);
      assert front[i] == cur[i];
    }
  }

  /** Every worktree made since the snapshot has a first field that no snapshot line contains. */
  ghost predicate FieldsApart(before: seq<string>, after: seq<string>) {
    forall p :: p in after && p !in before ==> IsNew(Fields(before), FirstField(p))
  }

  /** The comparison finds exactly the worktrees made since the snapshot, if and only if their fields are apart. */
  lemma {:induction false} DiffIsExact(before: seq<string>, after: seq<string>)
    ensures (forall p :: p in after ==> (p !in before <==> FirstField(p) in NewPaths(Fields(before), Fields(after))))
      <==> FieldsApart(before, after)
  {
    hide FirstField, IsNew;
    forall p | p in after
      ensures FirstField(p) in NewPaths(Fields(before), Fields(after)) <==> IsNew(Fields(before), FirstField(p))
      ensures p in before ==> !IsNew(Fields(before), FirstField(p))
    {
      NewPathsAre(Fields(before), Fields(after), FirstField(p));
      var k :| 0 <= k < |after| && after[k] == p;
      assert Fields(after)[k] == FirstField(p);
      if p in before {
        OldIsSeen(before, p);
      }
    }
  }

  lemma {:induction false} OldIsSeen(before: seq<string>, p: string)
    requires p in before
    ensures !IsNew(Fields(before), FirstField(p))
  {
    hide FirstField;
    var k :| 0 <= k < |before| && before[k] == p;
    var field := FirstField(p);
    assert Contains(field, field);
    assert Fields(before)[k] == field;
  }

  // ---- What each step does ----

  function WithoutOwner(worktrees: seq<Worktree>, handle: string): seq<Worktree> {
    if worktrees == [] then []
    else
      var (front, last) := (WithoutOwner(worktrees[..|worktrees| - 1], handle), worktrees[|worktrees| - 1]);
      if last.owner == Some(handle) then front else front + [last]
  }

  function Unmerged(w: World, handle: string): set<string> {
    set t | t in w.worktrees && t.owner == Some(handle) && t.branch !in w.merged :: t.branch
  }

  /** claude rm: the session goes, and every worktree it made. */
  function Removed(w: World, handle: string): World {
    w.(worktrees := WithoutOwner(w.worktrees, handle), sessions := w.sessions - {handle},
      lost := w.lost + Unmerged(w, handle))
  }

  /**
    agent_dispatch: `written` is whether the snapshot file could be located and written; when the list fails the
    snapshot is empty.
   */
  function Dispatched(w: World, handle: string, written: bool, listOk: bool): World {
    w.(sessions := w.sessions + {handle},
       snapshots := if written then w.snapshots[handle := Listed(w, listOk)] else w.snapshots)
  }

  /**
    Every step asks git twice: `git rev-parse --show-toplevel` for the directory of the snapshot files, then `git
    worktree list`. Without the directory no snapshot file is found.
   */
  predicate SnapshotFound(w: World, handle: string, rootOk: bool) { rootOk && handle in w.snapshots }

  function SnapshotOf(w: World, handle: string, rootOk: bool): seq<string> {
    if SnapshotFound(w, handle, rootOk) then w.snapshots[handle] else []
  }

  /** The test of the kill ladder and the orphan sweep. */
  predicate SafeToRemove(w: World, handle: string, rootOk: bool, listOk: bool) {
    SnapshotFound(w, handle, rootOk) && NewPaths(SnapshotOf(w, handle, rootOk), Listed(w, listOk)) == []
  }

  /** bg_kill_ladder, when the session is not terminal after being stopped. */
  function Laddered(w: World, handle: string, terminal: bool, rootOk: bool, listOk: bool): World {
    if terminal || !SafeToRemove(w, handle, rootOk, listOk) then w
    else var r := Removed(w, handle); r.(snapshots := r.snapshots - {handle})
  }

  function Basename(path: string): string { if '/' in path then Basename(path[1..]) else path }

  function BranchFor(path: string): string { "worktree-" + Basename(path) }

  /** The world once a branch is merged and the session's snapshot file, if it is found, is gone. */
  function MergedIn(w: World, handle: string, branch: string, rootOk: bool): World {
    w.(merged := w.merged + {branch}, snapshots := if rootOk then w.snapshots - {handle} else w.snapshots)
  }

  function Harvested(w: World, handle: string, branch: string, rootOk: bool): World {
    Removed(MergedIn(w, handle, branch, rootOk), handle)
  }

  /** agent_cleanup: the world afterwards, and the marker the loop then acts on. */
  function CleanedUp(w: World, handle: string, marker: Marker, mergeOk: bool, rootOk: bool, listOk: bool)
    : (World, Marker)
  {
    var found := NewPaths(SnapshotOf(w, handle, rootOk), Listed(w, listOk));
    if found == [] && !SnapshotFound(w, handle, rootOk) then (w, Human("harvest-unverifiable"))
    else if found == [] then (Removed(w, handle), marker)
    else if |found| > 1 then (w, Human("harvest-ambiguous"))
    else if marker != Complete then (w, marker)
    else if mergeOk then (Harvested(w, handle, BranchFor(found[0]), rootOk), marker)
    else (w, Human("harvest-conflict"))
  }

  /** A session found in the jobs directory, and whether git lists the worktrees when the sweep gets to it. */
  datatype Orphan = Orphan(handle: string, terminal: bool, stale: bool, listOk: bool)

  function SweptOne(w: World, orphan: Orphan, active: string, rootOk: bool): World {
    if orphan.handle == active || orphan.terminal || !orphan.stale then w
    else Laddered(w, orphan.handle, false, rootOk, orphan.listOk)
  }

  /** cleanup_orphans */
  function Swept(w: World, orphans: seq<Orphan>, active: string, rootOk: bool): World {
    if orphans == [] then w
    else SweptOne(Swept(w, orphans[..|orphans| - 1], active, rootOk), orphans[|orphans| - 1], active, rootOk)
  }

  // ---- Safety over whole runs ----

  datatype Event =
    | Dispatch(handle: string, written: bool, listOk: bool)
    | AddWorktree(tree: Worktree)
    | RemoveUserWorktree(path: string)
    | Ladder(handle: string, terminal: bool, rootOk: bool, listOk: bool)
    | Sweep(orphans: seq<Orphan>, active: string, rootOk: bool)
    | Cleanup(handle: string, marker: Marker, mergeOk: bool, rootOk: bool, listOk: bool)

  /** A worktree made by a session: no blank in its path, and named as the harvest expects. */
  predicate PlainTree(t: Worktree) {
    t.path != "" && FirstField(t.path) == t.path && t.branch == BranchFor(t.path)
  }

  /** The user removes a worktree that is not the main one and that no session made. */
  function WithoutUserTree(worktrees: seq<Worktree>, path: string): seq<Worktree> {
    if |worktrees| <= 1 then worktrees
    else
      var (front, last) := (WithoutUserTree(worktrees[..|worktrees| - 1], path), worktrees[|worktrees| - 1]);
      if last.path == path && last.owner.None? then front else front + [last]
  }

  function Next(w: World, e: Event): World {
    match e
    case Dispatch(handle, written, listOk) => Dispatched(w, handle, written, listOk)
    case AddWorktree(tree) => w.(worktrees := w.worktrees + [tree], merged := w.merged - {tree.branch})
    case RemoveUserWorktree(path) => w.(worktrees := WithoutUserTree(w.worktrees, path))
    case Ladder(handle, terminal, rootOk, listOk) => Laddered(w, handle, terminal, rootOk, listOk)
    case Sweep(orphans, active, rootOk) => Swept(w, orphans, active, rootOk)
    case Cleanup(handle, marker, mergeOk, rootOk, listOk) => CleanedUp(w, handle, marker, mergeOk, rootOk, listOk).0
  }

  /**
    What is asked of the environment: session handles are new, and sessions that still exist make plainly named
    worktrees whose paths no line of their snapshot contains.
   */
  predicate Allowed(w: World, e: Event) {
    match e
    case Dispatch(handle, _, _) => handle !in w.sessions && handle !in w.snapshots
    case AddWorktree(t) =>
      t.owner.Some? ==>
        && t.owner.value in w.sessions && PlainTree(t)
        && (t.owner.value in w.snapshots ==> !Seen(w.snapshots[t.owner.value], t.path))
    case _ => true
  }

  /** A repository with its main worktree and nothing else. */
  function Start(main: string): World { World([Worktree(main, "main", None)], map[], {}, {}, {}) }

  function After(main: string, events: seq<Event>): World {
    if events == [] then Start(main) else Next(After(main, events[..|events| - 1]), events[|events| - 1])
  }

  ghost predicate AllAllowed(main: string, events: seq<Event>) {
    forall k :: 0 <= k < |events| ==> Allowed(After(main, events[..k]), events[k])
  }

  /** A session's worktree is one its snapshot cannot hide. */
  predicate Visible(w: World, t: Worktree) {
    t.owner.Some? ==>
      && t.owner.value in w.sessions && PlainTree(t)
      && (t.owner.value in w.snapshots ==> !Seen(w.snapshots[t.owner.value], t.path))
  }

  ghost predicate Tidy(w: World) {
    && w.worktrees != [] && w.worktrees[0].owner.None? && FirstField(w.worktrees[0].path) != ""
    && forall i :: 0 <= i < |w.worktrees| ==> Visible(w, w.worktrees[i])
  }

  lemma {:induction false} WithoutOwnerKeeps(worktrees: seq<Worktree>, handle: string)
    ensures forall t :: t in WithoutOwner(worktrees, handle) <==> t in worktrees && t.owner != Some(handle)
    ensures worktrees != [] && worktrees[0].owner.None? ==>
      WithoutOwner(worktrees, handle) != [] && WithoutOwner(worktrees, handle)[0] == worktrees[0]
  {
    if worktrees != [] {
      var (front, last) := (worktrees[..|worktrees| - 1], worktrees[|worktrees| - 1]);
      assert worktrees == front + [last];
      WithoutOwnerKeeps(front, handle);
    }
  }

  lemma {:induction false} RemovingIsTidy(w: World, handle: string)
    requires Tidy(w)
    ensures Tidy(Removed(w, handle)) && Tidy(Removed(w, handle).(snapshots := w.snapshots - {handle}))
  {
    hide PlainTree, Seen, FirstField, Unmerged;
    WithoutOwnerKeeps(w.worktrees, handle);
    var r := Removed(w, handle);
    forall i | 0 <= i < |r.worktrees|
      ensures Visible(r, r.worktrees[i]) && Visible(r.(snapshots := w.snapshots - {handle}), r.worktrees[i])
    {
      assert r.worktrees[i] in w.worktrees;
    }
  }

  /** A listed worktree of a session appears among the new paths. */
  lemma {:induction false} OwnTreeIsNew(w: World, handle: string, rootOk: bool, i: nat)
    requires Tidy(w) && i < |w.worktrees| && w.worktrees[i].owner == Some(handle)
    ensures var cur := Listed(w, true);
      i < |cur| && cur[i] == w.worktrees[i].path && IsNew(SnapshotOf(w, handle, rootOk), cur[i])
        && cur[i] in NewPaths(SnapshotOf(w, handle, rootOk), cur)
  {
    hide FirstField, BranchFor, Contains;
    assert Visible(w, w.worktrees[i]);
    var cur := Listed(w, true);
    assert cur[i] == FirstField(w.worktrees[i].path);
    NewPathsAre(SnapshotOf(w, handle, rootOk), cur, cur[i]);
  }

  lemma {:induction false} NoNewMeansNoOwn(w: World, handle: string, rootOk: bool)
    requires Tidy(w) && NewPaths(SnapshotOf(w, handle, rootOk), Listed(w, true)) == []
    ensures Unmerged(w, handle) == {}
  {
    hide Tidy, Listed, NewPaths;
    forall i | 0 <= i < |w.worktrees| ensures w.worktrees[i].owner != Some(handle) {
      if w.worktrees[i].owner == Some(handle) {
        OwnTreeIsNew(w, handle, rootOk, i);
      }
    }
  }

  /** With one new path, a session's only worktree can be the one at that path. */
  lemma {:induction false} OneNewMeansOneOwn(w: World, handle: string, rootOk: bool, i: nat)
    requires Tidy(w) && |NewPaths(SnapshotOf(w, handle, rootOk), Listed(w, true))| == 1 && i < |w.worktrees|
      && w.worktrees[i].owner == Some(handle)
    ensures w.worktrees[i].branch == BranchFor(NewPaths(SnapshotOf(w, handle, rootOk), Listed(w, true))[0])
  {
    hide FirstField, BranchFor, Seen, NewPaths, Basename;
    OwnTreeIsNew(w, handle, rootOk, i);
    assert Visible(w, w.worktrees[i]);
  }

  lemma {:induction false} LadderIsTidy(w: World, handle: string, terminal: bool, rootOk: bool, listOk: bool)
    requires Tidy(w)
    ensures Tidy(Laddered(w, handle, terminal, rootOk, listOk))
  {
    hide Tidy, Listed, NewPaths, Unmerged;
    RemovingIsTidy(w, handle);
  }

  lemma {:induction false} SweepIsTidy(w: World, orphans: seq<Orphan>, active: string, rootOk: bool)
    requires Tidy(w)
    ensures Tidy(Swept(w, orphans, active, rootOk))
  {
    hide Tidy, Laddered;
    if orphans != [] {
      SweepIsTidy(w, orphans[..|orphans| - 1], active, rootOk);
      var last := orphans[|orphans| - 1];
      LadderIsTidy(Swept(w, orphans[..|orphans| - 1], active, rootOk), last.handle, false, rootOk, last.listOk);
    }
  }

  lemma {:induction false} MergingIsTidy(w: World, handle: string, branch: string, rootOk: bool)
    requires Tidy(w)
    ensures Tidy(MergedIn(w, handle, branch, rootOk))
  {
    hide PlainTree, Seen, FirstField;
    var m := MergedIn(w, handle, branch, rootOk);
    forall i | 0 <= i < |m.worktrees| ensures Visible(m, m.worktrees[i]) {
      assert Visible(w, w.worktrees[i]);
    }
  }

  lemma {:induction false} HarvestMerges(w: World, handle: string, rootOk: bool)
    requires Tidy(w) && |NewPaths(SnapshotOf(w, handle, rootOk), Listed(w, true))| == 1
    ensures var branch := BranchFor(NewPaths(SnapshotOf(w, handle, rootOk), Listed(w, true))[0]);
      Unmerged(MergedIn(w, handle, branch, rootOk), handle) == {}
  {
    hide Tidy, Listed, NewPaths, BranchFor;
    var branch := BranchFor(NewPaths(SnapshotOf(w, handle, rootOk), Listed(w, true))[0]);
    var m := MergedIn(w, handle, branch, rootOk);
    forall i | 0 <= i < |w.worktrees| ensures w.worktrees[i].owner == Some(handle) ==> w.worktrees[i].branch == branch {
      if w.worktrees[i].owner == Some(handle) {
        OneNewMeansOneOwn(w, handle, rootOk, i);
      }
    }
    assert Unmerged(m, handle) == {};
  }

  lemma {:induction false} CleanupIsTidy(w: World, handle: string, marker: Marker, mergeOk: bool, rootOk: bool,
    listOk: bool)
    requires Tidy(w)
    ensures Tidy(CleanedUp(w, handle, marker, mergeOk, rootOk, listOk).0)
  {
    hide Tidy, Listed, NewPaths, BranchFor, Unmerged, Harvested, Removed;
    var found := NewPaths(SnapshotOf(w, handle, rootOk), Listed(w, listOk));
    RemovingIsTidy(w, handle);
    if |found| == 1 {
      HarvestIsTidy(w, handle, BranchFor(found[0]), rootOk);
    }
  }

  lemma {:induction false} HarvestIsTidy(w: World, handle: string, branch: string, rootOk: bool)
    requires Tidy(w)
    ensures Tidy(Harvested(w, handle, branch, rootOk))
  {
    hide Tidy, Removed;
    MergingIsTidy(w, handle, branch, rootOk);
    RemovingIsTidy(MergedIn(w, handle, branch, rootOk), handle);
  }

  lemma {:induction false} UserTreesOnly(worktrees: seq<Worktree>, path: string)
    ensures forall t :: t in WithoutUserTree(worktrees, path) ==> t in worktrees
    ensures forall t :: t in worktrees && t.owner.Some? ==> t in WithoutUserTree(worktrees, path)
    ensures worktrees != [] ==>
      WithoutUserTree(worktrees, path) != [] && WithoutUserTree(worktrees, path)[0] == worktrees[0]
  {
    if |worktrees| > 1 {
      var (front, last) := (worktrees[..|worktrees| - 1], worktrees[|worktrees| - 1]);
      assert worktrees == front + [last];
      UserTreesOnly(front, path);
    }
  }

  lemma {:induction false} StepIsTidy(w: World, e: Event)
    requires Tidy(w) && Allowed(w, e)
    ensures Tidy(Next(w, e))
  {
    hide Listed, PlainTree, Seen, FirstField, Laddered, Swept, CleanedUp, WithoutUserTree;
    match e
    case Dispatch(handle, written, listOk) =>
      var r := Next(w, e);
      forall i | 0 <= i < |r.worktrees| ensures Visible(r, r.worktrees[i]) {
        assert Visible(w, w.worktrees[i]);
      }
    case AddWorktree(tree) =>
      var r := Next(w, e);
      forall i | 0 <= i < |r.worktrees| ensures Visible(r, r.worktrees[i]) {
        assert i < |w.worktrees| ==> Visible(w, w.worktrees[i]);
      }
    case RemoveUserWorktree(path) =>
      var r := Next(w, e);
      UserTreesOnly(w.worktrees, path);
      forall i | 0 <= i < |r.worktrees| ensures Visible(r, r.worktrees[i]) {
        assert r.worktrees[i] in w.worktrees;
      }
    case Ladder(handle, terminal, rootOk, listOk) => LadderIsTidy(w, handle, terminal, rootOk, listOk);
    case Sweep(orphans, active, rootOk) => SweepIsTidy(w, orphans, active, rootOk);
    case Cleanup(handle, marker, mergeOk, rootOk, listOk) => CleanupIsTidy(w, handle, marker, mergeOk, rootOk, listOk);
  }

  // ---- When work is lost ----

  /**
    Removing this session cannot lose work: git lists the worktrees, or does not even find the repository, or there is
    no snapshot, or all the session made is merged.
   */
  predicate NothingAtStake(w: World, handle: string, rootOk: bool, listOk: bool) {
    listOk || !rootOk || handle !in w.snapshots || Unmerged(w, handle) == {}
  }

  /** The kill ladder loses nothing exactly when the session is terminal or nothing is at stake. */
  lemma {:induction false} LadderLosesIff(w: World, handle: string, terminal: bool, rootOk: bool, listOk: bool)
    requires Tidy(w)
    ensures Laddered(w, handle, terminal, rootOk, listOk).lost == {} <==>
      w.lost == {} && (terminal || NothingAtStake(w, handle, rootOk, listOk))
  {
    hide Tidy, Unmerged, NewPaths, WithoutOwner;
    if listOk && SafeToRemove(w, handle, rootOk, listOk) {
      NoNewMeansNoOwn(w, handle, rootOk);
    }
    if !listOk {
      NothingListed(w, SnapshotOf(w, handle, rootOk));
    }
  }

  lemma {:induction false} NothingListed(w: World, pre: seq<string>)
    ensures NewPaths(pre, Listed(w, false)) == []
  { }

  /** The clean-up loses nothing exactly when nothing is at stake, whatever the marker. */
  lemma {:induction false} CleanupLosesIff(w: World, handle: string, marker: Marker, mergeOk: bool, rootOk: bool,
    listOk: bool)
    requires Tidy(w)
    ensures CleanedUp(w, handle, marker, mergeOk, rootOk, listOk).0.lost == {} <==>
      w.lost == {} && NothingAtStake(w, handle, rootOk, listOk)
  {
    hide Tidy, Unmerged, NewPaths, WithoutOwner, BranchFor, Listed;
    var found := NewPaths(SnapshotOf(w, handle, rootOk), Listed(w, listOk));
    if !listOk {
      NothingListed(w, SnapshotOf(w, handle, rootOk));
    } else if found == [] {
      NoNewMeansNoOwn(w, handle, rootOk);
    } else if |found| == 1 {
      HarvestMerges(w, handle, rootOk);
    }
  }

  /** Orphan by orphan, what the sweep removes has nothing at stake. */
  predicate SweepIsHarmless(w: World, orphans: seq<Orphan>, active: string, rootOk: bool) {
    orphans == [] ||
    var (front, last) := (orphans[..|orphans| - 1], orphans[|orphans| - 1]);
    && SweepIsHarmless(w, front, active, rootOk)
    && (last.handle == active || last.terminal || !last.stale
      || NothingAtStake(Swept(w, front, active, rootOk), last.handle, rootOk, last.listOk))
  }

  lemma {:induction false} SweepLosesIff(w: World, orphans: seq<Orphan>, active: string, rootOk: bool)
    requires Tidy(w)
    ensures Swept(w, orphans, active, rootOk).lost == {} <==>
      w.lost == {} && SweepIsHarmless(w, orphans, active, rootOk)
  {
    hide Tidy, Laddered, NothingAtStake;
    if orphans != [] {
      var (front, last) := (orphans[..|orphans| - 1], orphans[|orphans| - 1]);
      SweepLosesIff(w, front, active, rootOk);
      SweepIsTidy(w, front, active, rootOk);
      LadderLosesIff(Swept(w, front, active, rootOk), last.handle, false, rootOk, last.listOk);
    }
  }

  /** The event removes no session with work at stake. */
  predicate IsHarmless(w: World, e: Event) {
    match e
    case Ladder(handle, terminal, rootOk, listOk) => terminal || NothingAtStake(w, handle, rootOk, listOk)
    case Sweep(orphans, active, rootOk) => SweepIsHarmless(w, orphans, active, rootOk)
    case Cleanup(handle, _, _, rootOk, listOk) => NothingAtStake(w, handle, rootOk, listOk)
    case _ => true
  }

  lemma {:induction false} StepLosesIff(w: World, e: Event)
    requires Tidy(w)
    ensures Next(w, e).lost == {} <==> w.lost == {} && IsHarmless(w, e)
  {
    hide Tidy, Laddered, Swept, CleanedUp, NothingAtStake, SweepIsHarmless;
    match e
    case Ladder(handle, terminal, rootOk, listOk) => LadderLosesIff(w, handle, terminal, rootOk, listOk);
    case Sweep(orphans, active, rootOk) => SweepLosesIff(w, orphans, active, rootOk);
    case Cleanup(handle, marker, mergeOk, rootOk, listOk) =>
      CleanupLosesIff(w, handle, marker, mergeOk, rootOk, listOk);
    case _ =>
  }

  ghost predicate AllHarmless(main: string, events: seq<Event>) {
    forall k :: 0 <= k < |events| ==> IsHarmless(After(main, events[..k]), events[k])
  }

  /**
    Over every run, `claude rm` removes no worktree before its branch is merged, if and only if git never finds the
    repository and then fails to list, when it is asked about a session that has a snapshot and unmerged work.
   */
  lemma {:induction false} NothingIsLostIff(main: string, events: seq<Event>)
    requires FirstField(main) != "" && AllAllowed(main, events)
    ensures Tidy(After(main, events))
    ensures After(main, events).lost == {} <==> AllHarmless(main, events)
  {
    hide Next, Allowed, IsHarmless, FirstField, Tidy;
    if events == [] {
      StartIsTidy(main);
    } else {
      var (front, n) := (events[..|events| - 1], |events| - 1);
      assert forall k :: 0 <= k < n ==> front[..k] == events[..k] && front[k] == events[k];
      NothingIsLostIff(main, front);
      StepIsTidy(After(main, front), events[n]);
      StepLosesIff(After(main, front), events[n]);
      assert AllHarmless(main, events) <==> AllHarmless(main, front) && IsHarmless(After(main, front), events[n]) by {
        assert events[..n] == front;
      }
    }
  }

  /** Git lists the worktrees when the event asks for them, or fails altogether. */
  predicate GitIsConsistent(e: Event) {
    match e
    case Ladder(_, _, rootOk, listOk) => listOk || !rootOk
    case Sweep(orphans, _, rootOk) => !rootOk || forall k :: 0 <= k < |orphans| ==> orphans[k].listOk
    case Cleanup(_, _, _, rootOk, listOk) => listOk || !rootOk
    case _ => true
  }

  lemma {:induction false} ConsistentSweepIsHarmless(w: World, orphans: seq<Orphan>, active: string, rootOk: bool)
    requires !rootOk || forall k :: 0 <= k < |orphans| ==> orphans[k].listOk
    ensures SweepIsHarmless(w, orphans, active, rootOk)
  {
    if orphans != [] {
      ConsistentSweepIsHarmless(w, orphans[..|orphans| - 1], active, rootOk);
    }
  }

  /** Over every run in which git lists the worktrees or fails altogether, nothing is removed before it is merged. */
  lemma {:induction false} NothingIsLost(main: string, events: seq<Event>)
    requires FirstField(main) != "" && AllAllowed(main, events)
    requires forall k :: 0 <= k < |events| ==> GitIsConsistent(events[k])
    ensures After(main, events).lost == {}
  {
    hide After, Tidy, AllAllowed, FirstField, SweepIsHarmless;
    NothingIsLostIff(main, events);
    forall k | 0 <= k < |events| ensures IsHarmless(After(main, events[..k]), events[k]) {
      assert GitIsConsistent(events[k]);
      if events[k].Sweep? {
        var e := events[k];
        ConsistentSweepIsHarmless(After(main, events[..k]), e.orphans, e.active, e.rootOk);
      }
    }
  }

  lemma {:induction false} StartIsTidy(main: string)
    requires FirstField(main) != ""
    ensures Tidy(Start(main))
  { }

  // ---- What the marker then says ----

  /**
    A session is removed only with a snapshot that shows no new worktree, or once its one new worktree is
    merged; otherwise every worktree stays. The marker stays complete in those two cases alone.
   */
  lemma {:induction false} CleanupDecides(w: World, handle: string, marker: Marker, mergeOk: bool, rootOk: bool,
    listOk: bool)
    ensures var found := NewPaths(SnapshotOf(w, handle, rootOk), Listed(w, listOk));
      var after := CleanedUp(w, handle, marker, mergeOk, rootOk, listOk);
      var (nothingNew, oneMerged) :=
        (SnapshotFound(w, handle, rootOk) && found == [], |found| == 1 && marker == Complete && mergeOk);
      && (nothingNew ==> after == (Removed(w, handle), marker))
      && (oneMerged ==> after.0 == Harvested(w, handle, BranchFor(found[0]), rootOk) && after.1 == Complete)
      && (!nothingNew && !oneMerged ==> after.0 == w)
      && (after.1 == Complete <==> marker == Complete && (nothingNew || oneMerged))
      && (!nothingNew && found == [] ==> after.1 == Human("harvest-unverifiable"))
      && (|found| > 1 ==> after.1 == Human("harvest-ambiguous"))
      && (|found| == 1 && !oneMerged ==> after.1 == if marker == Complete then Human("harvest-conflict") else marker)
  {
    hide NewPaths, Removed, Harvested, Listed, BranchFor;
  }

  /** What `claude rm` takes away: the session and its worktrees, and nothing else. */
  ghost predicate TakesAway(w: World, after: World, handle: string) {
    && (forall t :: t in after.worktrees <==> t in w.worktrees && t.owner != Some(handle))
    && (forall s :: s in after.sessions <==> s in w.sessions && s != handle)
    && after.lost ==
      w.lost + set t | t in w.worktrees && t.owner == Some(handle) && t.branch !in after.merged :: t.branch
  }

  /** The kill ladder leaves everything, or takes the session away with its snapshot; no other snapshot changes. */
  lemma {:induction false} LadderTakesAway(w: World, handle: string, terminal: bool, rootOk: bool, listOk: bool)
    ensures var after := Laddered(w, handle, terminal, rootOk, listOk);
      if terminal || !rootOk || handle !in w.snapshots
        || exists p :: p in Listed(w, listOk) && p != "" && !Seen(w.snapshots[handle], p)
      then after == w
      else TakesAway(w, after, handle) && after.merged == w.merged && after.snapshots == w.snapshots - {handle}
  {
    hide Listed, Seen, NewPaths;
    WithoutOwnerKeeps(w.worktrees, handle);
    if handle in w.snapshots {
      NoNewPathsIff(w.snapshots[handle], Listed(w, listOk));
    }
  }

  lemma {:induction false} NoNewPathsIff(pre: seq<string>, cur: seq<string>)
    ensures NewPaths(pre, cur) == [] <==> forall p :: p in cur && p != "" ==> Seen(pre, p)
  {
    hide Seen, NewPaths;
    forall p ensures p in NewPaths(pre, cur) <==> p in cur && p != "" && !Seen(pre, p) {
      NewPathsAre(pre, cur, p);
    }
    if NewPaths(pre, cur) != [] {
      assert NewPaths(pre, cur)[0] in NewPaths(pre, cur);
    }
  }

  /** A merge adds its branch and takes the session away; its snapshot goes if it can be found. */
  lemma {:induction false} HarvestTakesAway(w: World, handle: string, branch: string, rootOk: bool)
    ensures var after := Harvested(w, handle, branch, rootOk);
      && TakesAway(w, after, handle) && (forall b :: b in after.merged <==> b in w.merged || b == branch)
      && after.snapshots == if rootOk then w.snapshots - {handle} else w.snapshots
    ensures var after := Removed(w, handle);
      TakesAway(w, after, handle) && after.merged == w.merged && after.snapshots == w.snapshots
  {
    WithoutOwnerKeeps(w.worktrees, handle);
  }

  /** An epic counted complete has all its session's work merged, when git lists the worktrees or fails altogether. */
  lemma {:induction false} CompleteMeansMerged(w: World, handle: string, marker: Marker, mergeOk: bool,
    rootOk: bool, listOk: bool, t: Worktree)
    requires Tidy(w) && (listOk || !rootOk) && CleanedUp(w, handle, marker, mergeOk, rootOk, listOk).1 == Complete
    requires t in w.worktrees && t.owner == Some(handle)
    ensures t.branch in CleanedUp(w, handle, marker, mergeOk, rootOk, listOk).0.merged
  {
    hide Tidy, Listed, NewPaths, BranchFor;
    var found := NewPaths(SnapshotOf(w, handle, rootOk), Listed(w, listOk));
    if !listOk {
      NothingListed(w, SnapshotOf(w, handle, rootOk));
    }
    if found == [] {
      NoNewMeansNoOwn(w, handle, rootOk);
      OwnIsMerged(w, handle, t);
    } else {
      HarvestMerges(w, handle, rootOk);
      OwnIsMerged(MergedIn(w, handle, BranchFor(found[0]), rootOk), handle, t);
    }
  }

  lemma {:induction false} OwnIsMerged(w: World, handle: string, t: Worktree)
    requires Unmerged(w, handle) == {} && t in w.worktrees && t.owner == Some(handle)
    ensures t.branch in w.merged
  {
    assert t.branch in w.merged || t.branch in Unmerged(w, handle);
  }

  /**
    The documented refusal is reached if and only if no snapshot is found and git does not list the worktrees:
    otherwise the main worktree itself counts as new.
   */
  lemma {:induction false} RefusalIff(w: World, handle: string, marker: Marker, mergeOk: bool, rootOk: bool,
    listOk: bool)
    requires Tidy(w) && marker != Human("harvest-unverifiable")
    ensures CleanedUp(w, handle, marker, mergeOk, rootOk, listOk).1 == Human("harvest-unverifiable") <==>
      !SnapshotFound(w, handle, rootOk) && !listOk
  {
    hide FirstField, BranchFor, Removed, Harvested, NewPaths;
    if !listOk {
      NothingListed(w, SnapshotOf(w, handle, rootOk));
    } else if !SnapshotFound(w, handle, rootOk) {
      var cur := Listed(w, true);
      assert cur[0] == FirstField(w.worktrees[0].path);
      NewPathsAre([], cur, cur[0]);
    }
  }

  // ---- Runs in which a demand on the environment fails ----

  /** A user worktree, then a session whose worktree comes after its snapshot. */
  function SessionRun(neighbour: string, path: string): seq<Event> {
    [AddWorktree(Worktree(neighbour, "other", None)), Dispatch("s", true, true),
      AddWorktree(Worktree(path, BranchFor(path), Some("s")))]
  }

  function SessionWorld(main: string, neighbour: string, path: string): World {
    World([Worktree(main, "main", None), Worktree(neighbour, "other", None),
      Worktree(path, BranchFor(path), Some("s"))],
          map["s" := Fields([main, neighbour])], {"s"}, {}, {})
  }

  lemma {:induction false} SessionRunGives(main: string, neighbour: string, path: string)
    ensures After(main, SessionRun(neighbour, path)) == SessionWorld(main, neighbour, path)
  {
    hide BranchFor, FirstField, After;
    var run := SessionRun(neighbour, path);
    var one := World([Worktree(main, "main", None), Worktree(neighbour, "other", None)], map[], {}, {}, {});
    NoEvents(main);
    OneMore(main, [], run[0]);
    OneMore(main, [run[0]], run[1]);
    OneMore(main, [run[0], run[1]], run[2]);
    assert [] + [run[0]] == [run[0]] && [run[0]] + [run[1]] == [run[0], run[1]] && [run[0], run[1]] + [run[2]] == run;
    assert Start(main).worktrees + [Worktree(neighbour, "other", None)] == one.worktrees;
    assert PathsOf(one.worktrees) == [main, neighbour];
    assert Dispatched(one, "s", true, true).worktrees + [run[2].tree] == SessionWorld(main, neighbour, path).worktrees;
  }

  lemma {:induction false} NoEvents(main: string)
    ensures After(main, []) == Start(main)
  { }

  lemma {:induction false} OneMore(main: string, events: seq<Event>, e: Event)
    ensures After(main, events + [e]) == Next(After(main, events), e)
  {
    assert (events + [e])[..|events|] == events;
  }

  lemma {:induction false} SessionIsUnmerged(main: string, neighbour: string, path: string)
    ensures Unmerged(SessionWorld(main, neighbour, path), "s") == {BranchFor(path)}
  {
    hide BranchFor, Fields;
    var w := SessionWorld(main, neighbour, path);
    assert w.worktrees[2] in w.worktrees;
  }

  lemma {:induction false} NewInSessionWorld(main: string, neighbour: string, path: string)
    ensures NewPaths(Fields([main, neighbour]), Listed(SessionWorld(main, neighbour, path), true))
      == if IsNew(Fields([main, neighbour]), FirstField(path)) then [FirstField(path)] else []
  {
    hide IsNew, FirstField, BranchFor;
    var (pre, w) := (Fields([main, neighbour]), SessionWorld(main, neighbour, path));
    var cur := Listed(w, true);
    OldIsSeen([main, neighbour], main);
    OldIsSeen([main, neighbour], neighbour);
    assert cur == [FirstField(main), FirstField(neighbour), FirstField(path)];
    assert cur[..2] == [FirstField(main), FirstField(neighbour)] && cur[..2][..1] == [FirstField(main)]
      && cur[..2][..1][..0] == [];
    assert NewPaths(pre, cur[..2][..1]) == [];
    assert NewPaths(pre, cur[..2]) == [];
  }

  /**
    In this run the kill ladder loses the session's work exactly when the new path's first field is contained in an
    old one's.
   */
  lemma {:induction false} HiddenWorktreeIsLostIff(main: string, neighbour: string, path: string)
    ensures After(main, SessionRun(neighbour, path) + [Ladder("s", false, true, true)]).lost
      == if IsNew(Fields([main, neighbour]), FirstField(path)) then {} else {BranchFor(path)}
  {
    hide IsNew, FirstField, BranchFor, NewPaths, Listed, After, WithoutOwner, Unmerged, Fields;
    SessionRunGives(main, neighbour, path);
    OneMore(main, SessionRun(neighbour, path), Ladder("s", false, true, true));
    SessionIsUnmerged(main, neighbour, path);
    NewInSessionWorld(main, neighbour, path);
  }

  /**
    Matching is by substring: a worktree whose path begins the path of a snapshotted one is taken for old, and lost.
   */
  lemma {:induction false} SubstringHidesWorktree()
    ensures After("/r", SessionRun("/r-10", "/r-1") + [Ladder("s", false, true, true)]).lost == {BranchFor("/r-1")}
  {
    hide After, BranchFor, FirstField;
    var lines := Fields(["/r", "/r-10"]);
    PlainPath("/r-10");
    PlainPath("/r-1");
    assert lines[1] == "/r-10" && "/r-1" <= lines[1] && Contains(lines[1], "/r-1");
    HiddenWorktreeIsLostIff("/r", "/r-10", "/r-1");
  }

  lemma {:induction false} PlainPath(path: string)
    requires ' ' !in path && '\t' !in path
    ensures FirstField(path) == path
  {
    if path != "" {
      PlainPath(path[1..]);
      assert path == [path[0]] + path[1..];
    }
  }

  /**
    Only the first field of a path is compared: a worktree under a directory with a blank is taken for its neighbour,
    and lost.
   */
  lemma {:induction false} BlankHidesWorktree()
    ensures After("/r", SessionRun("/a b/x", "/a b/s") + [Ladder("s", false, true, true)]).lost == {BranchFor("/a b/s")}
  {
    hide After, BranchFor, FirstField;
    var lines := Fields(["/r", "/a b/x"]);
    CutAtBlank("/a", "b/s");
    CutAtBlank("/a", "b/x");
    assert "/a" + " " + "b/s" == "/a b/s" && "/a" + " " + "b/x" == "/a b/x";
    assert lines[1] == "/a" && Contains(lines[1], "/a");
    HiddenWorktreeIsLostIff("/r", "/a b/x", "/a b/s");
  }

  lemma {:induction false} CutAtBlank(a: string, b: string)
    requires ' ' !in a && '\t' !in a
    ensures FirstField(a + " " + b) == a && FirstField(a + "\t" + b) == a
  {
    if a != "" {
      CutAtBlank(a[1..], b);
      assert (a + " " + b)[1..] == a[1..] + " " + b && (a + "\t" + b)[1..] == a[1..] + "\t" + b;
      assert a == [a[0]] + a[1..];
    }
  }

  /** The branch that is merged is named after the last component of the worktree's path. */
  lemma {:induction false} BranchOfPath(dir: string, name: string)
    requires '/' !in name
    ensures BranchFor(dir + "/" + name) == "worktree-" + name && BranchFor(name) == "worktree-" + name
  {
    BasenameOf(dir, name);
    assert name == "" || Basename(name) == name;
  }

  lemma {:induction false} BasenameOf(dir: string, name: string)
    requires '/' !in name
    ensures Basename(dir + "/" + name) == name
  {
    var path := dir + "/" + name;
    assert path[|dir|] == '/';
    if dir == "" {
      assert path[1..] == name;
    } else {
      assert path[1..] == dir[1..] + "/" + name;
      BasenameOf(dir[1..], name);
    }
  }

  /**
    In every such run a clean-up for which git finds the repository but fails to list loses the session's work, even
    with the marker complete; when git fails altogether it refuses.
   */
  lemma {:induction false} ListFailureLosesWorktree(main: string, neighbour: string, path: string, marker: Marker,
    mergeOk: bool, rootOk: bool)
    ensures After(main, SessionRun(neighbour, path) + [Cleanup("s", marker, mergeOk, rootOk, false)]).lost
      == if rootOk then {BranchFor(path)} else {}
  {
    hide FirstField, BranchFor, Listed, After, WithoutOwner, Unmerged, Fields, NewPaths;
    SessionRunGives(main, neighbour, path);
    OneMore(main, SessionRun(neighbour, path), Cleanup("s", marker, mergeOk, rootOk, false));
    SessionIsUnmerged(main, neighbour, path);
    var w := SessionWorld(main, neighbour, path);
    NothingListed(w, SnapshotOf(w, "s", rootOk));
  }

  // ---- The script's functions ----

  /** The loop over the current worktrees in the kill ladder and the orphan sweep. */
  method HasNewWorktree(pre: seq<string>, cur: seq<string>) returns (hasNew: bool)
    ensures hasNew <==> NewPaths(pre, cur) != []
  {
    hide Seen;
    for k := 0 to |cur|
      invariant NewPaths(pre, cur[..k]) == []
    {
      assert cur[..k + 1][..k] == cur[..k];
      if cur[k] != "" && !Seen(pre, cur[k]) {
        NewPathsAre(pre, cur, cur[k]);
        return true;
      }
    }
    assert cur[..|cur|] == cur;
    hasNew := false;
  }

  /** The loop of agent_cleanup. */
  method FindNewWorktrees(pre: seq<string>, cur: seq<string>) returns (newWorktrees: seq<string>)
    ensures newWorktrees == NewPaths(pre, cur)
  {
    hide Seen;
    newWorktrees := [];
    for k := 0 to |cur|
      invariant newWorktrees == NewPaths(pre, cur[..k])
    {
      assert cur[..k + 1][..k] == cur[..k];
      if cur[k] == "" {
        continue;
      }
      if !Seen(pre, cur[k]) {
        newWorktrees := newWorktrees + [cur[k]];
      }
    }
    assert cur[..|cur|] == cur;
  }

  /** The repository, the snapshot directory, the sessions and the loop's MARKER. */
  class Host {
    var worktrees: seq<Worktree>
    var snapshots: map<string, seq<string>>
    var sessions: set<string>
    var merged: set<string>
    ghost var lost: set<string>
    var marker: Marker

    ghost function State(): World
      reads this
    {
      World(worktrees, snapshots, sessions, merged, lost)
    }

    /** git worktree list --porcelain | grep '^worktree ' | awk '{print $2}' || true */
    method ListWorktrees(listOk: bool) returns (cur: seq<string>)
      ensures cur == Listed(State(), listOk)
    {
      cur := if listOk then Fields(PathsOf(worktrees)) else [];
    }

    method ClaudeRm(handle: string)
      modifies this`worktrees, this`sessions, this`lost
      ensures State() == Removed(old(State()), handle)
    {
      lost := lost + Unmerged(State(), handle);
      sessions := sessions - {handle};
      worktrees := WithoutOwner(worktrees, handle);
    }

    method AgentDispatch(handle: string, written: bool, listOk: bool)
      modifies this
      ensures State() == Dispatched(old(State()), handle, written, listOk)
    {
      var preSnapshot := ListWorktrees(listOk);
      sessions := sessions + {handle};
      if written {
        snapshots := snapshots[handle := preSnapshot];
      }
    }

    method BgKillLadder(handle: string, terminal: bool, rootOk: bool, listOk: bool)
      modifies this
      ensures State() == Laddered(old(State()), handle, terminal, rootOk, listOk) && marker == old(marker)
    {
      if terminal {
        return;
      }
      var preWts, hasNewWt, snapFound := [], false, false;
      if rootOk && handle in snapshots {
        snapFound := true;
        preWts := snapshots[handle];
        var curWts := ListWorktrees(listOk);
        hasNewWt := HasNewWorktree(preWts, curWts);
      }
      if hasNewWt {
        return;
      } else if !snapFound {
        return;
      } else {
        ClaudeRm(handle);
        snapshots := snapshots - {handle};
      }
    }

    method CleanupOrphans(orphans: seq<Orphan>, active: string, rootOk: bool)
      modifies this
      ensures State() == Swept(old(State()), orphans, active, rootOk) && marker == old(marker)
    {
      for k := 0 to |orphans|
        invariant State() == Swept(old(State()), orphans[..k], active, rootOk) && marker == old(marker)
      {
        assert orphans[..k + 1][..k] == orphans[..k];
        SweepOne(orphans[k], active, rootOk);
      }
      assert orphans[..|orphans|] == orphans;
    }

    method SweepOne(orphan: Orphan, active: string, rootOk: bool)
      modifies this
      ensures State() == SweptOne(old(State()), orphan, active, rootOk) && marker == old(marker)
    {
      if !rootOk || orphan.handle !in snapshots || orphan.handle == active || orphan.terminal || !orphan.stale {
        return;
      }
      var curWts := ListWorktrees(orphan.listOk);
      var hasNewWt := HasNewWorktree(snapshots[orphan.handle], curWts);
      if !hasNewWt {
        ClaudeRm(orphan.handle);
        snapshots := snapshots - {orphan.handle};
      }
    }

    method AgentCleanup(handle: string, mergeOk: bool, rootOk: bool, listOk: bool)
      modifies this
      ensures (State(), marker) == CleanedUp(old(State()), handle, old(marker), mergeOk, rootOk, listOk)
    {
      var curWorktrees := ListWorktrees(listOk);
      var preWorktrees, snapFound := [], false;
      if rootOk && handle in snapshots {
        snapFound := true;
        preWorktrees := snapshots[handle];
      }
      var newWorktrees := FindNewWorktrees(preWorktrees, curWorktrees);
      if |newWorktrees| == 0 && !snapFound {
        marker := Human("harvest-unverifiable");
        return;
      } else if |newWorktrees| == 0 {
        ClaudeRm(handle);
        return;
      } else if |newWorktrees| > 1 {
        marker := Human("harvest-ambiguous");
        return;
      }
      var wtBranch := BranchFor(newWorktrees[0]);
      if marker != Complete {
        return;
      }
      if mergeOk {
        merged := merged + {wtBranch};
        if rootOk {
          snapshots := snapshots - {handle};
        }
        ClaudeRm(handle);
      } else {
        marker := Human("harvest-conflict");
      }
    }
  }
}
