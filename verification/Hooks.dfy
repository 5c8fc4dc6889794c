/** Reconciling the hooks of a settings file with a profile (setup/settings.go, setup/profile.go). */
module Hooks {
  import opened Text
  import opened HookCommands

  /** Values that are not shaped as expected are kept as they are. */
  datatype Hook = OtherHook(json: string) | Hook(command: string, rest: string)
  datatype Entry = OtherEntry(json: string) | Entry(rest: string, hooks: seq<Hook>)

  datatype Profile = Minimal | Workflow | Full

  function ProfileRank(p: Profile): nat { if p == Minimal then 0 else if p == Workflow then 1 else 2 }

  predicate ProfileIncludes(required: Profile, selected: Profile) { ProfileRank(selected) >= ProfileRank(required) }

  datatype HookType =
    SessionStart | PreCompact | UserPromptSubmit | PostToolUseFailure | PostToolUse | PreToolUse | Stop

  datatype Spec = Spec(hookType: HookType, matcher: string, markers: seq<string>, verb: string, profile: Profile)

  // ---- Filtering by markers ----

  predicate IsManaged(h: Hook, markers: seq<string>) { h.Hook? && HasAnyMarker(h.command, markers) }

  function KeptHooks(hooks: seq<Hook>, markers: seq<string>): seq<Hook> {
    if hooks == [] then []
    else
      var (front, last) := (KeptHooks(hooks[..|hooks| - 1], markers), hooks[|hooks| - 1]);
      if IsManaged(last, markers) then front else front + [last]
  }

  /** An entry that loses all its hooks goes; one that loses none stays as it is. */
  function KeptEntry(e: Entry, markers: seq<string>): seq<Entry> {
    if e.OtherEntry? || KeptHooks(e.hooks, markers) == e.hooks then [e]
    else if KeptHooks(e.hooks, markers) == [] then []
    else [Entry(e.rest, KeptHooks(e.hooks, markers))]
  }

  function Filtered(arr: seq<Entry>, markers: seq<string>): seq<Entry> {
    if arr == [] then [] else Filtered(arr[..|arr| - 1], markers) + KeptEntry(arr[|arr| - 1], markers)
  }

  /** All hooks of an array, in order. */
  function Flat(arr: seq<Entry>): seq<Hook> {
    if arr == [] then []
    else Flat(arr[..|arr| - 1]) + if arr[|arr| - 1].Entry? then arr[|arr| - 1].hooks else []
  }

  function Matching(hooks: seq<Hook>, markers: seq<string>): seq<Hook> {
    if hooks == [] then []
    else
      var (front, last) := (Matching(hooks[..|hooks| - 1], markers), hooks[|hooks| - 1]);
      if IsManaged(last, markers) then front + [last] else front
  }

  /** The first command found managed; "" when there is none. */
  function FirstCommand(hooks: seq<Hook>, markers: seq<string>): string {
    if hooks == [] then ""
    else
      var (before, last) := (FirstCommand(hooks[..|hooks| - 1], markers), hooks[|hooks| - 1]);
      if before == "" && IsManaged(last, markers) then CommandOf(last) else before
  }

  function CommandOf(h: Hook): string { if h.Hook? then h.command else "" }

  lemma {:induction false} KeptLength(hooks: seq<Hook>, markers: seq<string>)
    ensures |KeptHooks(hooks, markers)| + |Matching(hooks, markers)| == |hooks|
    ensures |KeptHooks(hooks, markers)| == |hooks| ==> KeptHooks(hooks, markers) == hooks
  {
    hide IsManaged;
    if hooks != [] {
      KeptLength(hooks[..|hooks| - 1], markers);
    }
  }

  lemma {:induction false} KeptConcat(a: seq<Hook>, b: seq<Hook>, markers: seq<string>)
    ensures KeptHooks(a + b, markers) == KeptHooks(a, markers) + KeptHooks(b, markers)
    ensures Matching(a + b, markers) == Matching(a, markers) + Matching(b, markers)
  {
    hide IsManaged;
    if b == [] {
      assert a + b == a;
    } else {
      assert (a + b)[..|a + b| - 1] == a + b[..|b| - 1];
      KeptConcat(a, b[..|b| - 1], markers);
    }
  }

  lemma {:induction false} FlatConcat(a: seq<Entry>, b: seq<Entry>)
    ensures Flat(a + b) == Flat(a) + Flat(b)
  {
    if b == [] {
      assert a + b == a;
    } else {
      assert (a + b)[..|a + b| - 1] == a + b[..|b| - 1];
      FlatConcat(a, b[..|b| - 1]);
    }
  }

  lemma {:induction false} FlatOne(e: Entry)
    ensures Flat([e]) == if e.Entry? then e.hooks else []
  {
    assert [e][..0] == [];
  }

  lemma {:induction false} FilteredConcat(a: seq<Entry>, b: seq<Entry>, markers: seq<string>)
    ensures Filtered(a + b, markers) == Filtered(a, markers) + Filtered(b, markers)
  {
    hide KeptEntry;
    if b == [] {
      assert a + b == a;
    } else {
      assert (a + b)[..|a + b| - 1] == a + b[..|b| - 1];
      FilteredConcat(a, b[..|b| - 1], markers);
    }
  }

  lemma {:induction false} FilteredOne(e: Entry, markers: seq<string>)
    ensures Filtered([e], markers) == KeptEntry(e, markers)
  {
    assert [e][..0] == [];
  }

  /** Filtering keeps exactly the unmanaged hooks, in order. */
  lemma {:induction false} FlatFiltered(arr: seq<Entry>, markers: seq<string>)
    ensures Flat(Filtered(arr, markers)) == KeptHooks(Flat(arr), markers)
  {
    hide IsManaged, KeptHooks;
    if arr == [] {
      NoneKept(markers);
    } else {
      var (front, last) := (arr[..|arr| - 1], arr[|arr| - 1]);
      FlatFiltered(front, markers);
      FlatConcat(Filtered(front, markers), KeptEntry(last, markers));
      FlatKeptEntry(last, markers);
      KeptConcat(Flat(front), if last.Entry? then last.hooks else [], markers);
    }
  }

  lemma {:induction false} NoneKept(markers: seq<string>)
    ensures KeptHooks([], markers) == [] && Matching([], markers) == []
  { }

  lemma {:induction false} FlatKeptEntry(e: Entry, markers: seq<string>)
    ensures Flat(KeptEntry(e, markers)) == KeptHooks(if e.Entry? then e.hooks else [], markers)
  {
    hide IsManaged, KeptHooks;
    NoneKept(markers);
    FlatOne(e);
    if e.Entry? {
      FlatOne(Entry(e.rest, KeptHooks(e.hooks, markers)));
    }
  }

  lemma {:induction false} EitherMarker(h: Hook, a: seq<string>, b: seq<string>)
    ensures IsManaged(h, a + b) <==> IsManaged(h, a) || IsManaged(h, b)
  {
    hide CommandHasMarker;
    if h.Hook? {
      if HasAnyMarker(h.command, a) {
        var k :| 0 <= k < |a| && CommandHasMarker(h.command, a[k]);
        assert (a + b)[k] == a[k];
      }
      if HasAnyMarker(h.command, b) {
        var k :| 0 <= k < |b| && CommandHasMarker(h.command, b[k]);
        assert (a + b)[|a| + k] == b[k];
      }
    }
  }

  lemma {:induction false} KeptTwice(hooks: seq<Hook>, a: seq<string>, b: seq<string>)
    ensures KeptHooks(KeptHooks(hooks, a), b) == KeptHooks(hooks, a + b)
  {
    hide IsManaged;
    if hooks != [] {
      var (front, last) := (hooks[..|hooks| - 1], hooks[|hooks| - 1]);
      KeptTwice(front, a, b);
      EitherMarker(last, a, b);
      KeptConcat(KeptHooks(front, a), [last], b);
      KeptOne(last, b);
    }
  }

  lemma {:induction false} KeptOne(h: Hook, markers: seq<string>)
    ensures KeptHooks([h], markers) == if IsManaged(h, markers) then [] else [h]
    ensures Matching([h], markers) == if IsManaged(h, markers) then [h] else []
  {
    assert [h][..0] == [];
  }

  lemma {:induction false} EntryTwice(e: Entry, a: seq<string>, b: seq<string>)
    ensures Filtered(KeptEntry(e, a), b) == KeptEntry(e, a + b)
  {
    hide IsManaged, KeptHooks;
    if e.Entry? {
      var (once, both) := (KeptHooks(e.hooks, a), KeptHooks(e.hooks, a + b));
      KeptTwice(e.hooks, a, b);
      KeptLength(e.hooks, a);
      KeptLength(once, b);
      KeptLength(e.hooks, a + b);
      NoneKept(b);
      FilteredOne(e, b);
      FilteredOne(Entry(e.rest, once), b);
    } else {
      FilteredOne(e, b);
    }
  }

  /** Filtering by two sets of markers is filtering by both at once. */
  lemma {:induction false} FilteredTwice(arr: seq<Entry>, a: seq<string>, b: seq<string>)
    ensures Filtered(Filtered(arr, a), b) == Filtered(arr, a + b)
  {
    hide KeptEntry;
    if arr != [] {
      var (front, last) := (arr[..|arr| - 1], arr[|arr| - 1]);
      FilteredTwice(front, a, b);
      FilteredConcat(Filtered(front, a), KeptEntry(last, a), b);
      EntryTwice(last, a, b);
    }
  }

  /** An entry that filtering leaves of e: e itself, or what remains of its hooks, with everything else it says. */
  ghost predicate Remains(e: Entry, after: Entry, markers: seq<string>) {
    || (after == e && (e.Entry? ==> Matching(e.hooks, markers) == []))
    || (e.Entry? && after.Entry? && after.rest == e.rest && after.hooks == KeptHooks(e.hooks, markers)
      && after.hooks != [] && Matching(e.hooks, markers) != [])
  }

  predicate Stays(e: Entry, markers: seq<string>) {
    e.OtherEntry? || Matching(e.hooks, markers) == [] || KeptHooks(e.hooks, markers) != []
  }

  /** Filtering leaves every entry that keeps a hook or had none managed, as it was but for those, and no other. */
  lemma {:induction false} EntriesRemain(arr: seq<Entry>, markers: seq<string>)
    ensures forall after :: after in Filtered(arr, markers) ==> exists e :: e in arr && Remains(e, after, markers)
    ensures forall e :: e in arr && Stays(e, markers) ==>
      exists after :: after in Filtered(arr, markers) && Remains(e, after, markers)
  {
    hide IsManaged, KeptHooks, Matching, Remains, Stays, KeptEntry;
    if arr != [] {
      var (front, last) := (arr[..|arr| - 1], arr[|arr| - 1]);
      EntriesRemain(front, markers);
      EntryRemains(last, markers);
      assert arr == front + [last];
      if Stays(last, markers) {
        var after := KeptEntry(last, markers)[0];
        assert after in Filtered(arr, markers) && Remains(last, after, markers);
      }
    }
  }

  lemma {:induction false} EntryRemains(e: Entry, markers: seq<string>)
    ensures forall after :: after in KeptEntry(e, markers) ==> Remains(e, after, markers)
    ensures KeptEntry(e, markers) != [] <==> Stays(e, markers)
  {
    hide IsManaged, KeptHooks, Matching;
    if e.Entry? {
      KeptLength(e.hooks, markers);
    }
  }

  // ---- filterHookEntries ----

  method FilterHooks(hooks: seq<Hook>, markers: seq<string>, ghost before: seq<Hook>, matchCount: nat,
    firstCommand: string)
    returns (kept: seq<Hook>, matchCount': nat, firstCommand': string)
    requires matchCount == |Matching(before, markers)| && firstCommand == FirstCommand(before, markers)
    ensures kept == KeptHooks(hooks, markers)
    ensures matchCount' == |Matching(before + hooks, markers)| && firstCommand' == FirstCommand(before + hooks, markers)
  {
    hide IsManaged;
    kept, matchCount', firstCommand' := [], matchCount, firstCommand;
    assert before + hooks[..0] == before;
    for i := 0 to |hooks|
      invariant kept == KeptHooks(hooks[..i], markers)
      invariant matchCount' == |Matching(before + hooks[..i], markers)|
        && firstCommand' == FirstCommand(before + hooks[..i], markers)
    {
      assert hooks[..i + 1][..i] == hooks[..i];
      var upTo := before + hooks[..i + 1];
      assert upTo[..|upTo| - 1] == before + hooks[..i];
      if IsManaged(hooks[i], markers) {
        if firstCommand' == "" {
          firstCommand' := CommandOf(hooks[i]);
        }
        matchCount' := matchCount' + 1;
      } else {
        kept := kept + [hooks[i]];
      }
    }
    assert hooks[..|hooks|] == hooks;
  }

  method FilterHookEntries(arr: seq<Entry>, markers: seq<string>) returns (filtered: seq<Entry>, matchCount: nat,
    firstCommand: string)
    ensures filtered == Filtered(arr, markers)
    ensures matchCount == |Matching(Flat(arr), markers)| && firstCommand == FirstCommand(Flat(arr), markers)
  {
    hide IsManaged, KeptHooks, Matching, FirstCommand;
    filtered, matchCount, firstCommand := [], 0, "";
    EmptyMatches(markers);
    for i := 0 to |arr|
      invariant filtered == Filtered(arr[..i], markers)
      invariant matchCount == |Matching(Flat(arr[..i]), markers)|
        && firstCommand == FirstCommand(Flat(arr[..i]), markers)
    {
      assert arr[..i + 1][..i] == arr[..i];
      assert Flat(arr[..i]) + [] == Flat(arr[..i]);
      if arr[i].OtherEntry? {
        filtered := filtered + [arr[i]];
      } else {
        var keptHooks;
        keptHooks, matchCount, firstCommand :=
          FilterHooks(arr[i].hooks, markers, Flat(arr[..i]), matchCount, firstCommand);
        if keptHooks == arr[i].hooks {
          filtered := filtered + [arr[i]];
        } else if |keptHooks| != 0 {
          filtered := filtered + [Entry(arr[i].rest, keptHooks)];
        }
      }
    }
    assert arr[..|arr|] == arr;
  }

  lemma {:induction false} EmptyMatches(markers: seq<string>)
    ensures Matching([], markers) == [] && FirstCommand([], markers) == ""
  { }

  // ---- One array of hooks ----

  /** buildCommand */
  function BuildCommand(spec: Spec, path: string): string {
    if path != "" then BinaryCommand(path, spec.verb) else NpxCommand(spec.verb)
  }

  function UpgradedHook(h: Hook, path: string): Hook {
    if h.Hook? && Contains(h.command, NPX) then h.(command := Upgraded(h.command, path)) else h
  }

  function UpgradedHooks(hooks: seq<Hook>, path: string): seq<Hook> {
    seq(|hooks|, i requires 0 <= i < |hooks| => UpgradedHook(hooks[i], path))
  }

  function UpgradedEntry(e: Entry, path: string): Entry {
    if e.OtherEntry? then e else Entry(e.rest, UpgradedHooks(e.hooks, path))
  }

  /** upgradeNpxHooks on one array. */
  function UpgradedArray(arr: seq<Entry>, path: string): seq<Entry> {
    if path == "" then arr else seq(|arr|, i requires 0 <= i < |arr| => UpgradedEntry(arr[i], path))
  }

  /** The command installed for a spec: without a binary, an old direct command is kept. */
  function InstalledCommand(arr: seq<Entry>, spec: Spec, path: string): string {
    var first := FirstCommand(Flat(arr), spec.markers);
    if path == "" && first != "" && !Contains(first, NPX) then first else BuildCommand(spec, path)
  }

  function HookEntry(matcher: string, command: string): Entry { Entry(matcher, [Hook(command, "command")]) }

  function InstalledOne(arr: seq<Entry>, spec: Spec, path: string): seq<Entry> {
    Filtered(arr, spec.markers) + [HookEntry(spec.matcher, InstalledCommand(arr, spec, path))]
  }

  function Installed(arr: seq<Entry>, specs: seq<Spec>, path: string): seq<Entry> {
    if specs == [] then arr
    else InstalledOne(Installed(arr, specs[..|specs| - 1], path), specs[|specs| - 1], path)
  }

  function Cleared(arr: seq<Entry>, specs: seq<Spec>): seq<Entry> {
    if specs == [] then arr else Filtered(Cleared(arr, specs[..|specs| - 1]), specs[|specs| - 1].markers)
  }

  /** What AddHooksForProfile makes of one array, given the specs of its type in and out of the profile. */
  function Reconciled(arr: seq<Entry>, ins: seq<Spec>, outs: seq<Spec>, path: string): seq<Entry> {
    Installed(Cleared(UpgradedArray(arr, path), outs), ins, path)
  }

  // ---- The fixpoint ----

  function AllMarkers(specs: seq<Spec>): seq<string> {
    if specs == [] then [] else AllMarkers(specs[..|specs| - 1]) + specs[|specs| - 1].markers
  }

  function NewEntries(specs: seq<Spec>, path: string): seq<Entry> {
    seq(|specs|, i requires 0 <= i < |specs| => HookEntry(specs[i].matcher, BuildCommand(specs[i], path)))
  }

  function NewHooks(specs: seq<Spec>, path: string): seq<Hook> {
    seq(|specs|, i requires 0 <= i < |specs| => Hook(BuildCommand(specs[i], path), "command"))
  }

  /**
    Each installed command carries its own spec's marker and no other spec's, in or out of the profile, and calls no
    npx.
   */
  ghost predicate Apart(ins: seq<Spec>, outs: seq<Spec>, path: string) {
    && (forall i :: 0 <= i < |ins| ==>
      HasAnyMarker(BuildCommand(ins[i], path), ins[i].markers) && !Contains(BuildCommand(ins[i], path), NPX))
    && (forall i, j :: 0 <= i < |ins| && 0 <= j < |ins| && i != j ==>
      !HasAnyMarker(BuildCommand(ins[i], path), ins[j].markers))
    && (forall i, j :: 0 <= i < |ins| && 0 <= j < |outs| ==> !HasAnyMarker(BuildCommand(ins[i], path), outs[j].markers))
  }

  lemma {:induction false} ClearedAtOnce(arr: seq<Entry>, specs: seq<Spec>)
    ensures Cleared(arr, specs) == Filtered(arr, AllMarkers(specs))
  {
    hide KeptEntry;
    if specs == [] {
      NoMarkers(arr);
    } else {
      ClearedAtOnce(arr, specs[..|specs| - 1]);
      FilteredTwice(arr, AllMarkers(specs[..|specs| - 1]), specs[|specs| - 1].markers);
    }
  }

  lemma {:induction false} NoMarkers(arr: seq<Entry>)
    ensures Filtered(arr, []) == arr
  {
    if arr != [] {
      NoMarkers(arr[..|arr| - 1]);
      if arr[|arr| - 1].Entry? {
        NoMarkersHooks(arr[|arr| - 1].hooks);
      }
    }
  }

  lemma {:induction false} NoMarkersHooks(hooks: seq<Hook>)
    ensures KeptHooks(hooks, []) == hooks
  {
    if hooks != [] {
      NoMarkersHooks(hooks[..|hooks| - 1]);
    }
  }

  lemma {:induction false} KeptHookEntry(matcher: string, command: string, markers: seq<string>)
    ensures KeptEntry(HookEntry(matcher, command), markers) ==
      if HasAnyMarker(command, markers) then [] else [HookEntry(matcher, command)]
  {
    hide HasAnyMarker;
    KeptOne(Hook(command, "command"), markers);
  }

  /**
    New entries pass through a filter whose markers none of them carries, and none through one whose markers each
    carries.
   */
  lemma {:induction false} NewEntriesFiltered(specs: seq<Spec>, path: string, markers: seq<string>, carried: bool)
    requires forall i :: 0 <= i < |specs| ==> (HasAnyMarker(BuildCommand(specs[i], path), markers) <==> carried)
    ensures Filtered(NewEntries(specs, path), markers) == if carried then [] else NewEntries(specs, path)
  {
    hide HasAnyMarker, BuildCommand, KeptEntry, HookEntry;
    if specs != [] {
      var n := |specs| - 1;
      NewEntriesFiltered(specs[..n], path, markers, carried);
      assert NewEntries(specs, path)[..n] == NewEntries(specs[..n], path);
      KeptHookEntry(specs[n].matcher, BuildCommand(specs[n], path), markers);
    }
  }

  lemma {:induction false} NewEntriesNone(path: string)
    ensures NewEntries([], path) == []
  { }

  lemma {:induction false} NewEntriesSnoc(specs: seq<Spec>, last: Spec, path: string)
    ensures NewEntries(specs + [last], path)
      == NewEntries(specs, path) + [HookEntry(last.matcher, BuildCommand(last, path))]
  { }

  lemma {:induction false} CommandWithBinary(arr: seq<Entry>, spec: Spec, path: string)
    requires path != ""
    ensures InstalledCommand(arr, spec, path) == BuildCommand(spec, path)
  { }

  /** Installing the specs is filtering by all their markers and appending one entry a spec. */
  lemma {:induction false} InstalledAtOnce(arr: seq<Entry>, specs: seq<Spec>, path: string)
    requires path != "" && Apart(specs, [], path)
    ensures Installed(arr, specs, path) == Filtered(arr, AllMarkers(specs)) + NewEntries(specs, path)
  {
    hide KeptEntry, HasAnyMarker, BuildCommand, Filtered, HookEntry, NewEntries, InstalledCommand;
    if specs == [] {
      NoMarkers(arr);
      NewEntriesNone(path);
    } else {
      var (front, last) := (specs[..|specs| - 1], specs[|specs| - 1]);
      InstalledAtOnce(arr, front, path);
      FilteredConcat(Filtered(arr, AllMarkers(front)), NewEntries(front, path), last.markers);
      FilteredTwice(arr, AllMarkers(front), last.markers);
      NewEntriesFiltered(front, path, last.markers, false);
      NewEntriesSnoc(front, last, path);
      assert specs == front + [last];
      CommandWithBinary(Installed(arr, front, path), last, path);
    }
  }

  lemma {:induction false} MarkersConcat(cmd: string, a: seq<string>, b: seq<string>)
    ensures HasAnyMarker(cmd, a + b) <==> HasAnyMarker(cmd, a) || HasAnyMarker(cmd, b)
  {
    EitherMarker(Hook(cmd, ""), a, b);
  }

  lemma {:induction false} OwnAmongAll(specs: seq<Spec>, cmd: string, i: nat)
    requires i < |specs| && HasAnyMarker(cmd, specs[i].markers)
    ensures HasAnyMarker(cmd, AllMarkers(specs))
  {
    hide HasAnyMarker;
    var n := |specs| - 1;
    MarkersConcat(cmd, AllMarkers(specs[..n]), specs[n].markers);
    if i < n {
      OwnAmongAll(specs[..n], cmd, i);
    }
  }

  /** The markers of a type: those cleared and those reinstalled. */
  function TypeMarkers(ins: seq<Spec>, outs: seq<Spec>): seq<string> { AllMarkers(outs) + AllMarkers(ins) }

  /** The whole result for one array: the unmanaged part of the upgraded array, then one entry a spec. */
  lemma {:induction false} ReconciledIs(arr: seq<Entry>, ins: seq<Spec>, outs: seq<Spec>, path: string)
    requires path != "" && Apart(ins, outs, path)
    ensures Reconciled(arr, ins, outs, path)
      == Filtered(UpgradedArray(arr, path), TypeMarkers(ins, outs)) + NewEntries(ins, path)
  {
    hide KeptEntry, HasAnyMarker, BuildCommand, Cleared, Installed, NewEntries;
    var up := UpgradedArray(arr, path);
    ClearedAtOnce(up, outs);
    InstalledAtOnce(Cleared(up, outs), ins, path);
    FilteredTwice(up, AllMarkers(outs), AllMarkers(ins));
  }

  lemma {:induction false} UpgradedConcat(a: seq<Entry>, b: seq<Entry>, path: string)
    ensures UpgradedArray(a + b, path) == UpgradedArray(a, path) + UpgradedArray(b, path)
  { }

  lemma {:induction false} NewEntriesStay(ins: seq<Spec>, outs: seq<Spec>, path: string)
    requires Apart(ins, outs, path)
    ensures UpgradedArray(NewEntries(ins, path), path) == NewEntries(ins, path)
  {
    hide HasAnyMarker, BuildCommand;
    var arr := NewEntries(ins, path);
    if path != "" {
      forall i | 0 <= i < |arr| ensures UpgradedEntry(arr[i], path) == arr[i] {
        var hooks := [Hook(BuildCommand(ins[i], path), "command")];
        assert UpgradedHooks(hooks, path) == hooks;
      }
    }
  }

  /** Reconciling again only touches what was kept. */
  lemma {:induction false} ReconciledAgain(arr: seq<Entry>, ins: seq<Spec>, outs: seq<Spec>, path: string)
    requires path != "" && Apart(ins, outs, path)
    ensures var base := Filtered(UpgradedArray(arr, path), TypeMarkers(ins, outs));
      Reconciled(Reconciled(arr, ins, outs, path), ins, outs, path)
        == Filtered(UpgradedArray(base, path), TypeMarkers(ins, outs)) + NewEntries(ins, path)
  {
    hide KeptEntry, HasAnyMarker, BuildCommand, Reconciled, NewEntries, UpgradedArray, AllMarkers;
    var (base, added) := (Filtered(UpgradedArray(arr, path), TypeMarkers(ins, outs)), NewEntries(ins, path));
    ReconciledIs(arr, ins, outs, path);
    ReconciledIs(base + added, ins, outs, path);
    UpgradedConcat(base, added, path);
    NewEntriesStay(ins, outs, path);
    FilteredConcat(UpgradedArray(base, path), added, TypeMarkers(ins, outs));
    forall i | 0 <= i < |ins| ensures HasAnyMarker(BuildCommand(ins[i], path), TypeMarkers(ins, outs)) {
      OwnAmongAll(ins, BuildCommand(ins[i], path), i);
      MarkersConcat(BuildCommand(ins[i], path), AllMarkers(outs), AllMarkers(ins));
    }
    NewEntriesFiltered(ins, path, TypeMarkers(ins, outs), true);
  }

  /** No hook calls npx. */
  ghost predicate NoNpx(hooks: seq<Hook>) {
    forall i :: 0 <= i < |hooks| && hooks[i].Hook? ==> !Contains(hooks[i].command, NPX)
  }

  lemma {:induction false} FlatUpgraded(arr: seq<Entry>, path: string)
    requires path != ""
    ensures Flat(UpgradedArray(arr, path)) == UpgradedHooks(Flat(arr), path)
  {
    hide UpgradedHook;
    if arr != [] {
      var (front, last) := (arr[..|arr| - 1], arr[|arr| - 1]);
      FlatUpgraded(front, path);
      assert UpgradedArray(arr, path)[..|arr| - 1] == UpgradedArray(front, path);
    }
  }

  lemma {:induction false} UpgradeFixes(hooks: seq<Hook>, path: string)
    ensures UpgradedHooks(hooks, path) == hooks <==> NoNpx(hooks)
  {
    hide Upgraded, Contains;
    forall i | 0 <= i < |hooks| ensures UpgradedHook(hooks[i], path) == hooks[i] <==>
      (hooks[i].Hook? ==> !Contains(hooks[i].command, NPX)) {
      if hooks[i].Hook? {
        UpgradeChanges(hooks[i].command, path);
      }
    }
    var up := UpgradedHooks(hooks, path);
    assert up == hooks <==> forall i :: 0 <= i < |hooks| ==> UpgradedHook(hooks[i], path) == hooks[i] by {
      assert forall i :: 0 <= i < |hooks| ==> up[i] == UpgradedHook(hooks[i], path);
    }
  }

  lemma {:induction false} SameMarkers(arr: seq<Entry>, a: seq<string>, b: seq<string>)
    requires forall h :: IsManaged(h, a) <==> IsManaged(h, b)
    ensures Filtered(arr, a) == Filtered(arr, b)
  {
    hide IsManaged;
    if arr != [] {
      SameMarkers(arr[..|arr| - 1], a, b);
      if arr[|arr| - 1].Entry? {
        SameMarkersHooks(arr[|arr| - 1].hooks, a, b);
      }
    }
  }

  lemma {:induction false} SameMarkersHooks(hooks: seq<Hook>, a: seq<string>, b: seq<string>)
    requires forall h :: IsManaged(h, a) <==> IsManaged(h, b)
    ensures KeptHooks(hooks, a) == KeptHooks(hooks, b)
  {
    hide IsManaged;
    if hooks != [] {
      SameMarkersHooks(hooks[..|hooks| - 1], a, b);
    }
  }

  lemma {:induction false} FilteredIsStable(arr: seq<Entry>, markers: seq<string>)
    ensures Filtered(Filtered(arr, markers), markers) == Filtered(arr, markers)
  {
    hide IsManaged, Filtered;
    FilteredTwice(arr, markers, markers);
    forall h ensures IsManaged(h, markers + markers) <==> IsManaged(h, markers) {
      EitherMarker(h, markers, markers);
    }
    SameMarkers(arr, markers + markers, markers);
  }

  lemma {:induction false} NoNpxNoUpgrade(arr: seq<Entry>, path: string)
    requires NoNpx(Flat(arr))
    ensures UpgradedArray(arr, path) == arr
  {
    hide Contains;
    if arr != [] && path != "" {
      var (front, last) := (arr[..|arr| - 1], arr[|arr| - 1]);
      var (f, l) := (Flat(front), if last.Entry? then last.hooks else []);
      assert Flat(arr) == f + l;
      assert forall i :: 0 <= i < |f| ==> f[i] == Flat(arr)[i];
      assert forall i :: 0 <= i < |l| ==> l[i] == Flat(arr)[|f| + i];
      NoNpxNoUpgrade(front, path);
      assert UpgradedArray(arr, path)[..|arr| - 1] == UpgradedArray(front, path);
      if last.Entry? {
        UpgradeFixes(last.hooks, path);
      }
    }
  }

  lemma {:induction false} KeptIsFixed(base: seq<Entry>, markers: seq<string>, path: string)
    requires path != "" && Filtered(base, markers) == base
    ensures Filtered(UpgradedArray(base, path), markers) == base <==> NoNpx(Flat(base))
  {
    hide NoNpx, UpgradedArray, UpgradedHooks, Filtered, KeptHooks, Matching;
    if NoNpx(Flat(base)) {
      NoNpxNoUpgrade(base, path);
    }
    if Filtered(UpgradedArray(base, path), markers) == base {
      FlatFiltered(UpgradedArray(base, path), markers);
      FlatUpgraded(base, path);
      UpgradeKeepsCount(Flat(base), path);
      KeptLength(UpgradedHooks(Flat(base), path), markers);
      UpgradeFixes(Flat(base), path);
    }
  }

  lemma {:induction false} UpgradeKeepsCount(hooks: seq<Hook>, path: string)
    ensures |UpgradedHooks(hooks, path)| == |hooks|
  { }

  /** The hooks of an array that the reconciler leaves to the user, as the upgrade leaves them. */
  function UserHooks(arr: seq<Entry>, ins: seq<Spec>, outs: seq<Spec>, path: string): seq<Hook> {
    KeptHooks(UpgradedHooks(Flat(arr), path), TypeMarkers(ins, outs))
  }

  /** Reconciling twice is reconciling once, exactly when no hook left to the user still calls npx after the upgrade. */
  lemma {:induction false} FixpointIff(arr: seq<Entry>, ins: seq<Spec>, outs: seq<Spec>, path: string)
    requires path != "" && Apart(ins, outs, path)
    ensures Reconciled(Reconciled(arr, ins, outs, path), ins, outs, path) == Reconciled(arr, ins, outs, path)
      <==> NoNpx(UserHooks(arr, ins, outs, path))
  {
    hide NoNpx, UpgradedArray, UpgradedHooks, Filtered, KeptHooks, Apart, AllMarkers, NewEntries, Reconciled;
    var (base, added) := (Filtered(UpgradedArray(arr, path), TypeMarkers(ins, outs)), NewEntries(ins, path));
    ReconciledIs(arr, ins, outs, path);
    ReconciledAgain(arr, ins, outs, path);
    FilteredIsStable(UpgradedArray(arr, path), TypeMarkers(ins, outs));
    KeptIsFixed(base, TypeMarkers(ins, outs), path);
    FlatFiltered(UpgradedArray(arr, path), TypeMarkers(ins, outs));
    FlatUpgraded(arr, path);
    var again := Filtered(UpgradedArray(base, path), TypeMarkers(ins, outs));
    assert again + added == base + added <==> again == base by {
      if again + added == base + added {
        assert |again| == |base|;
        assert again == (again + added)[..|again|] && base == (base + added)[..|base|];
      }
    }
  }

  /** After reconciling: the user's hooks unchanged and in order, then the installed ones. */
  lemma {:induction false} UserHooksKept(arr: seq<Entry>, ins: seq<Spec>, outs: seq<Spec>, path: string)
    requires path != "" && Apart(ins, outs, path)
    ensures Flat(Reconciled(arr, ins, outs, path)) == UserHooks(arr, ins, outs, path) + NewHooks(ins, path)
    ensures NoNpx(Flat(arr)) ==> UserHooks(arr, ins, outs, path) == KeptHooks(Flat(arr), TypeMarkers(ins, outs))
  {
    hide NoNpx, UpgradedArray, UpgradedHooks, Filtered, KeptHooks, Apart, AllMarkers, NewEntries, Reconciled, NewHooks;
    ReconciledIs(arr, ins, outs, path);
    var base := Filtered(UpgradedArray(arr, path), TypeMarkers(ins, outs));
    FlatConcat(base, NewEntries(ins, path));
    FlatFiltered(UpgradedArray(arr, path), TypeMarkers(ins, outs));
    FlatUpgraded(arr, path);
    FlatNewEntries(ins, path);
    UpgradeFixes(Flat(arr), path);
  }

  lemma {:induction false} FlatNewEntries(specs: seq<Spec>, path: string)
    ensures Flat(NewEntries(specs, path)) == NewHooks(specs, path)
  {
    hide BuildCommand;
    if specs != [] {
      var n := |specs| - 1;
      FlatNewEntries(specs[..n], path);
      assert NewEntries(specs, path)[..n] == NewEntries(specs[..n], path);
    }
  }

  lemma {:induction false} KeptAreUnmanaged(hooks: seq<Hook>, markers: seq<string>, some: seq<string>)
    requires forall h :: IsManaged(h, some) ==> IsManaged(h, markers)
    ensures Matching(KeptHooks(hooks, markers), some) == []
  {
    hide IsManaged;
    if hooks != [] {
      KeptAreUnmanaged(hooks[..|hooks| - 1], markers, some);
      var kept := KeptHooks(hooks[..|hooks| - 1], markers);
      KeptConcat(kept, [hooks[|hooks| - 1]], some);
      KeptOne(hooks[|hooks| - 1], some);
    }
  }

  lemma {:induction false} SomeAmongAll(specs: seq<Spec>, i: nat, h: Hook)
    requires i < |specs| && IsManaged(h, specs[i].markers)
    ensures IsManaged(h, AllMarkers(specs))
  {
    OwnAmongAll(specs, h.command, i);
  }

  /** Among the installed hooks, those with some markers are exactly the installed commands that carry them. */
  lemma {:induction false} NewHooksMatching(specs: seq<Spec>, path: string, markers: seq<string>, which: int)
    requires forall i :: 0 <= i < |specs| ==> (HasAnyMarker(BuildCommand(specs[i], path), markers) <==> i == which)
    ensures |Matching(NewHooks(specs, path), markers)| == if 0 <= which < |specs| then 1 else 0
  {
    hide BuildCommand, HasAnyMarker;
    if specs != [] {
      var n := |specs| - 1;
      NewHooksMatching(specs[..n], path, markers, which);
      assert NewHooks(specs, path)[..n] == NewHooks(specs[..n], path);
    }
  }

  /** Exactly one hook for each spec in the profile, and none for a spec outside it. */
  lemma {:induction false} OneHookEach(arr: seq<Entry>, ins: seq<Spec>, outs: seq<Spec>, path: string)
    requires path != "" && Apart(ins, outs, path)
    ensures forall i :: 0 <= i < |ins| ==> |Matching(Flat(Reconciled(arr, ins, outs, path)), ins[i].markers)| == 1
    ensures forall j :: 0 <= j < |outs| ==> |Matching(Flat(Reconciled(arr, ins, outs, path)), outs[j].markers)| == 0
  {
    hide BuildCommand, HasAnyMarker, Reconciled, Matching, KeptHooks, UpgradedHooks, NewHooks, AllMarkers, IsManaged;
    UserHooksKept(arr, ins, outs, path);
    var (user, all) := (UserHooks(arr, ins, outs, path), TypeMarkers(ins, outs));
    forall i | 0 <= i < |ins| ensures |Matching(Flat(Reconciled(arr, ins, outs, path)), ins[i].markers)| == 1 {
      forall h | IsManaged(h, ins[i].markers) ensures IsManaged(h, all) {
        SomeAmongAll(ins, i, h);
        EitherMarker(h, AllMarkers(outs), AllMarkers(ins));
      }
      KeptAreUnmanaged(UpgradedHooks(Flat(arr), path), all, ins[i].markers);
      KeptConcat(user, NewHooks(ins, path), ins[i].markers);
      NewHooksMatching(ins, path, ins[i].markers, i);
    }
    forall j | 0 <= j < |outs| ensures |Matching(Flat(Reconciled(arr, ins, outs, path)), outs[j].markers)| == 0 {
      forall h | IsManaged(h, outs[j].markers) ensures IsManaged(h, all) {
        SomeAmongAll(outs, j, h);
        EitherMarker(h, AllMarkers(outs), AllMarkers(ins));
      }
      KeptAreUnmanaged(UpgradedHooks(Flat(arr), path), all, outs[j].markers);
      KeptConcat(user, NewHooks(ins, path), outs[j].markers);
      NewHooksMatching(ins, path, outs[j].markers, -1);
    }
  }

  /** The hook calls npx at most once. */
  ghost predicate CallsOnce(h: Hook) { h.Hook? ==> !Contains(AfterFirstCall(h.command), NPX) }

  /** No hook that the reconciler leaves to the user calls npx again after its first call. */
  ghost predicate UsersCallOnce(hooks: seq<Hook>, markers: seq<string>, path: string) {
    forall i :: 0 <= i < |hooks| && !IsManaged(UpgradedHook(hooks[i], path), markers) ==> CallsOnce(hooks[i])
  }

  lemma {:induction false} UpgradedCalls(h: Hook, path: string)
    requires '\'' !in path && !Contains(path, NPX)
    ensures CallsOnce(h) <==> (UpgradedHook(h, path).Hook? ==> !Contains(UpgradedHook(h, path).command, NPX))
  {
    hide Contains, AfterFirstCall, Upgraded;
    if h.Hook? {
      UpgradedCallsIff(h.command, path);
      NoFirstCall(h.command);
    }
  }

  /** The condition of the fixpoint, on the hooks before the upgrade. */
  lemma {:induction false} NoNpxLeftIff(hooks: seq<Hook>, markers: seq<string>, path: string)
    requires '\'' !in path && !Contains(path, NPX)
    ensures NoNpx(KeptHooks(UpgradedHooks(hooks, path), markers)) <==> UsersCallOnce(hooks, markers, path)
  {
    hide IsManaged, Contains, CallsOnce, UpgradedHook;
    if hooks != [] {
      var (n, front) := (|hooks| - 1, hooks[..|hooks| - 1]);
      NoNpxLeftIff(front, markers, path);
      UpgradedCalls(hooks[n], path);
      assert UpgradedHooks(hooks, path)[..n] == UpgradedHooks(front, path);
      var (kept, last) := (KeptHooks(UpgradedHooks(front, path), markers), UpgradedHook(hooks[n], path));
      assert forall i :: 0 <= i < |kept| ==> (kept + [last])[i] == kept[i];
      assert NoNpx(kept + [last]) <==> NoNpx(kept) && (last.Hook? ==> !Contains(last.command, NPX)) by {
        assert (kept + [last])[|kept|] == last;
      }
      assert forall i :: 0 <= i < n ==> hooks[i] == front[i];
    }
  }
}
