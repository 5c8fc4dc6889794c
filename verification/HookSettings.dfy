/** The managed hooks of a whole settings file (setup/settings.go). */
module HookSettings {
  import opened Prelude
  import opened Text
  import opened HookCommands
  import opened Hooks

  // ---- The table of managed hooks ----

  /** The marker of a verb of the binary, and that of a hook of the former script. */
  function BinMarker(verb: string): string { "BIN " + verb }

  function RunnerMarker(name: string): string { "hook-runner.js\" " + name }

  const PRIME_AT_START := Spec(SessionStart, "", [BinMarker("prime")], "prime", Minimal)
  const PRIME_AT_COMPACT := Spec(PreCompact, "", [BinMarker("prime")], "prime", Minimal)
  const USER_PROMPT := Spec(UserPromptSubmit, "",
    [BinMarker("hooks run user-prompt"), RunnerMarker("user-prompt")], "hooks run user-prompt", Minimal)
  const TOOL_FAILURE := Spec(PostToolUseFailure, "Bash|Edit|Write",
    [BinMarker("hooks run post-tool-failure"), RunnerMarker("post-tool-failure")], "hooks run post-tool-failure",
      Workflow)
  const TOOL_SUCCESS := Spec(PostToolUse, "Bash|Edit|Write",
    [BinMarker("hooks run post-tool-success"), RunnerMarker("post-tool-success")], "hooks run post-tool-success",
      Workflow)
  const POST_READ := Spec(PostToolUse, "Read",
    [BinMarker("hooks run post-read"), BinMarker("hooks run read-tracker"), RunnerMarker("post-read")],
      "hooks run post-read", Workflow)
  const PHASE_GUARD := Spec(PreToolUse, "Edit|Write",
    [BinMarker("hooks run phase-guard"), RunnerMarker("phase-guard")], "hooks run phase-guard", Workflow)
  const PHASE_AUDIT := Spec(Stop, "",
    [BinMarker("hooks run phase-audit"), BinMarker("hooks run stop-audit"), RunnerMarker("phase-audit")],
      "hooks run phase-audit", Workflow)

  /** managedHookSpecs */
  function Table(): seq<Spec> {
    [PRIME_AT_START, PRIME_AT_COMPACT, USER_PROMPT, TOOL_FAILURE, TOOL_SUCCESS, POST_READ, PHASE_GUARD, PHASE_AUDIT]
  }

  const TABLE_SIZE := 8

  /** Among the first n specs, those of a type in (or out of) a profile, in order. */
  function Select(n: nat, t: HookType, p: Profile, included: bool): seq<Spec>
    requires n <= TABLE_SIZE
  {
    if n == 0 then []
    else
      var (before, spec) := (Select(n - 1, t, p, included), Table()[n - 1]);
      if spec.hookType == t && ProfileIncludes(spec.profile, p) == included then before + [spec] else before
  }

  function Ins(t: HookType, p: Profile): seq<Spec> { Select(TABLE_SIZE, t, p, true) }

  function Outs(t: HookType, p: Profile): seq<Spec> { Select(TABLE_SIZE, t, p, false) }

  // ---- The hooks map ----

  datatype Value = NotArray(json: string) | Arr(entries: seq<Entry>)

  type HookMap = map<HookType, Value>

  function Slot(hooks: HookMap, t: HookType): Option<Value> { if t in hooks then Some(hooks[t]) else None }

  function EntriesOf(slot: Option<Value>): seq<Entry> {
    if slot.Some? && slot.value.Arr? then slot.value.entries else [] }

  /** The four passes of AddHooksForProfile, on the slot of one type. */
  function UpgradedSlot(slot: Option<Value>, path: string): Option<Value> {
    if path == "" then slot else Some(Arr(UpgradedArray(EntriesOf(slot), path)))
  }

  function ClearedSlot(slot: Option<Value>, outs: seq<Spec>): Option<Value> {
    if slot.Some? && slot.value.Arr? then Some(Arr(Cleared(slot.value.entries, outs))) else slot
  }

  function InstalledSlot(slot: Option<Value>, ins: seq<Spec>, path: string): Option<Value> {
    if ins == [] then slot else Some(Arr(Installed(EntriesOf(slot), ins, path)))
  }

  function DroppedSlot(slot: Option<Value>): Option<Value> { if slot == Some(Arr([])) then None else slot }

  function FinalSlot(slot: Option<Value>, ins: seq<Spec>, outs: seq<Spec>, path: string): Option<Value> {
    DroppedSlot(InstalledSlot(ClearedSlot(UpgradedSlot(slot, path), outs), ins, path))
  }

  ghost predicate Reconciles(before: HookMap, after: HookMap, path: string, p: Profile) {
    forall t :: Slot(after, t) == FinalSlot(Slot(before, t), Ins(t, p), Outs(t, p), path)
  }

  const HOOK_TYPES: seq<HookType> :=
    [SessionStart, PreCompact, UserPromptSubmit, PostToolUseFailure, PostToolUse, PreToolUse, Stop]

  lemma {:induction false} EveryTypeListed(t: HookType)
    ensures t in HOOK_TYPES
  {
    assert HOOK_TYPES[0] == SessionStart && HOOK_TYPES[1] == PreCompact && HOOK_TYPES[2] == UserPromptSubmit
      && HOOK_TYPES[3] == PostToolUseFailure;
    assert HOOK_TYPES[4] == PostToolUse && HOOK_TYPES[5] == PreToolUse && HOOK_TYPES[6] == Stop;
  }

  class Settings {
    var hooks: HookMap

    method UpgradeNpxHooks(path: string)
      modifies this
      ensures forall t :: Slot(hooks, t) == UpgradedSlot(Slot(old(hooks), t), path)
    {
      hide UpgradedArray;
      if path == "" {
        return;
      }
      for i := 0 to |HOOK_TYPES|
        invariant forall t :: t !in HOOK_TYPES[..i] ==> Slot(hooks, t) == Slot(old(hooks), t)
        invariant forall t :: t in HOOK_TYPES[..i] ==> Slot(hooks, t) == UpgradedSlot(Slot(old(hooks), t), path)
      {
        var t := HOOK_TYPES[i];
        DistinctTypes(i);
        assert HOOK_TYPES[..i + 1] == HOOK_TYPES[..i] + [t];
        hooks := hooks[t := Arr(UpgradedArray(EntriesOf(Slot(hooks, t)), path))];
      }
      assert HOOK_TYPES[..|HOOK_TYPES|] == HOOK_TYPES;
      forall t ensures t in HOOK_TYPES {
        EveryTypeListed(t);
      }
    }

    method RemoveOutOfProfileHooks(p: Profile)
      modifies this
      ensures forall t :: Slot(hooks, t) == ClearedSlot(Slot(old(hooks), t), Outs(t, p))
    {
      hide Filtered, Table;
      for i := 0 to TABLE_SIZE
        invariant forall t :: Slot(hooks, t) == ClearedSlot(Slot(old(hooks), t), Select(i, t, p, false))
      {
        TableHasSize();
        var spec := Table()[i];
        if !ProfileIncludes(spec.profile, p) && spec.hookType in hooks && hooks[spec.hookType].Arr? {
          var filtered, _, _ := FilterHookEntries(hooks[spec.hookType].entries, spec.markers);
          hooks := hooks[spec.hookType := Arr(filtered)];
        }
      }
    }

    method InstallSpec(spec: Spec, path: string)
      modifies this
      ensures hooks == old(hooks)[spec.hookType := Arr(InstalledOne(EntriesOf(Slot(old(hooks), spec.hookType)), spec,
        path))]
    {
      hide Filtered, FirstCommand, BuildCommand;
      var arr := EntriesOf(Slot(hooks, spec.hookType));
      var filtered, _, firstCommand := FilterHookEntries(arr, spec.markers);
      var command := BuildCommand(spec, path);
      if path == "" && firstCommand != "" && !Contains(firstCommand, NPX) {
        command := firstCommand;
      }
      hooks := hooks[spec.hookType := Arr(filtered + [HookEntry(spec.matcher, command)])];
    }

    method InstallInProfileHooks(path: string, p: Profile)
      modifies this
      ensures forall t :: Slot(hooks, t) == InstalledSlot(Slot(old(hooks), t), Ins(t, p), path)
    {
      hide Table, InstalledSlot, InstalledOne;
      forall t ensures Slot(hooks, t) == InstalledSlot(Slot(hooks, t), Select(0, t, p, true), path) {
        NothingInstalled(Slot(hooks, t), path);
      }
      for i := 0 to TABLE_SIZE
        invariant forall t :: Slot(hooks, t) == InstalledSlot(Slot(old(hooks), t), Select(i, t, p, true), path)
      {
        TableHasSize();
        var spec := Table()[i];
        if ProfileIncludes(spec.profile, p) {
          SpecInstalled(Slot(old(hooks), spec.hookType), Select(i, spec.hookType, p, true), spec, path);
          InstallSpec(spec, path);
        }
      }
    }

    method DropEmptyHookArrays()
      modifies this
      ensures forall t :: Slot(hooks, t) == DroppedSlot(Slot(old(hooks), t))
    {
      for i := 0 to |HOOK_TYPES|
        invariant forall t :: t !in HOOK_TYPES[..i] ==> Slot(hooks, t) == Slot(old(hooks), t)
        invariant forall t :: t in HOOK_TYPES[..i] ==> Slot(hooks, t) == DroppedSlot(Slot(old(hooks), t))
      {
        var t := HOOK_TYPES[i];
        DistinctTypes(i);
        assert HOOK_TYPES[..i + 1] == HOOK_TYPES[..i] + [t];
        if t in hooks && hooks[t] == Arr([]) {
          hooks := hooks - {t};
        }
      }
      assert HOOK_TYPES[..|HOOK_TYPES|] == HOOK_TYPES;
      forall t ensures t in HOOK_TYPES {
        EveryTypeListed(t);
      }
    }

    method AddHooksForProfile(path: string, p: Profile)
      modifies this
      ensures Reconciles(old(hooks), hooks, path, p)
    {
      hide UpgradedSlot, ClearedSlot, InstalledSlot, DroppedSlot, Slot, Select;
      UpgradeNpxHooks(path);
      RemoveOutOfProfileHooks(p);
      InstallInProfileHooks(path, p);
      DropEmptyHookArrays();
    }
  }

  /** How many hooks of a type carry one of the markers. */
  function MatchCount(hooks: HookMap, t: HookType, markers: seq<string>): nat {
    |Matching(Flat(EntriesOf(Slot(hooks, t))), markers)|
  }

  /** hasHookMarker: some hook of the type carries one of the markers. */
  predicate Carries(hooks: HookMap, spec: Spec) { MatchCount(hooks, spec.hookType, spec.markers) > 0 }

  predicate HasAll(hooks: HookMap, p: Profile) {
    forall k :: 0 <= k < TABLE_SIZE && ProfileIncludes(Table()[k].profile, p) ==> Carries(hooks, Table()[k])
  }

  predicate HasOutOfProfile(hooks: HookMap, p: Profile) {
    exists k :: 0 <= k < TABLE_SIZE && !ProfileIncludes(Table()[k].profile, p) && Carries(hooks, Table()[k])
  }

  predicate IsDuplicated(hooks: HookMap, spec: Spec) { MatchCount(hooks, spec.hookType, spec.markers) > 1 }

  predicate NeedsDedupe(hooks: HookMap) {
    exists k :: 0 <= k < TABLE_SIZE && IsDuplicated(hooks, Table()[k])
  }

  /** The match count of one spec; a type without an array has none. */
  method CountMatches(hooks: HookMap, spec: Spec) returns (count: nat)
    ensures count == MatchCount(hooks, spec.hookType, spec.markers)
  {
    hide Matching, Flat;
    if spec.hookType !in hooks || hooks[spec.hookType].NotArray? {
      NothingMatches(spec.markers);
      return 0;
    }
    var _, matchCount, _ := FilterHookEntries(hooks[spec.hookType].entries, spec.markers);
    count := matchCount;
  }

  lemma {:induction false} NothingMatches(markers: seq<string>)
    ensures |Matching(Flat([]), markers)| == 0
  { }

  method HasAllHooksForProfile(hooks: HookMap, p: Profile) returns (all: bool)
    ensures all <==> HasAll(hooks, p)
  {
    hide Table, MatchCount;
    TableHasSize();
    for i := 0 to TABLE_SIZE
      invariant forall k :: 0 <= k < i && ProfileIncludes(Table()[k].profile, p) ==> Carries(hooks, Table()[k])
    {
      if ProfileIncludes(Table()[i].profile, p) {
        var count := CountMatches(hooks, Table()[i]);
        if count == 0 {
          return false;
        }
      }
    }
    all := true;
  }

  method HooksHaveOutOfProfileEntries(hooks: HookMap, p: Profile) returns (some: bool)
    ensures some <==> HasOutOfProfile(hooks, p)
  {
    hide Table, MatchCount;
    TableHasSize();
    for i := 0 to TABLE_SIZE
      invariant forall k :: 0 <= k < i && !ProfileIncludes(Table()[k].profile, p) ==> !Carries(hooks, Table()[k])
    {
      if !ProfileIncludes(Table()[i].profile, p) {
        var count := CountMatches(hooks, Table()[i]);
        if count > 0 {
          return true;
        }
      }
    }
    some := false;
  }

  method HooksNeedDedupe(hooks: HookMap) returns (needed: bool)
    ensures needed <==> NeedsDedupe(hooks)
  {
    hide Table, MatchCount;
    TableHasSize();
    for i := 0 to TABLE_SIZE
      invariant forall k :: 0 <= k < i ==> !IsDuplicated(hooks, Table()[k])
    {
      var count := CountMatches(hooks, Table()[i]);
      if count > 1 {
        return true;
      }
    }
    needed := false;
  }

  lemma {:induction false} NothingInstalled(slot: Option<Value>, path: string)
    ensures InstalledSlot(slot, [], path) == slot
  { }

  lemma {:induction false} SpecInstalled(slot: Option<Value>, specs: seq<Spec>, spec: Spec, path: string)
    ensures InstalledSlot(slot, specs + [spec], path)
      == Some(Arr(InstalledOne(EntriesOf(InstalledSlot(slot, specs, path)), spec, path)))
  {
    hide InstalledOne;
    assert (specs + [spec])[..|specs|] == specs;
  }

  lemma {:induction false} TableHasSize()
    ensures |Table()| == TABLE_SIZE
  { }

  lemma {:induction false} DistinctTypes(i: nat)
    requires i < |HOOK_TYPES|
    ensures HOOK_TYPES[i] !in HOOK_TYPES[..i]
  { }

  // ---- The table meets the conditions of the fixpoint ----

  /** A binary path free of single quotes, marker text and npx calls. */
  predicate PlainPath(path: string) {
    && path != "" && '\'' !in path && !Contains(path, NPX)
    && forall k, m :: 0 <= k < TABLE_SIZE && 0 <= m < |Table()[k].markers| ==> !Contains(path, Table()[k].markers[m])
  }

  /** The specs of one type, all of one profile. */
  function SpecsOf(t: HookType): seq<Spec> {
    match t
    case SessionStart => [PRIME_AT_START]
    case PreCompact => [PRIME_AT_COMPACT]
    case UserPromptSubmit => [USER_PROMPT]
    case PostToolUseFailure => [TOOL_FAILURE]
    case PostToolUse => [TOOL_SUCCESS, POST_READ]
    case PreToolUse => [PHASE_GUARD]
    case Stop => [PHASE_AUDIT]
  }

  function LeastProfile(t: HookType): Profile {
    if t in {SessionStart, PreCompact, UserPromptSubmit} then Minimal else Workflow
  }

  lemma {:induction false} SelectIs(t: HookType, p: Profile, included: bool)
    ensures Select(TABLE_SIZE, t, p, included) ==
      if ProfileIncludes(LeastProfile(t), p) == included then SpecsOf(t) else []
  {
    hide ProfileIncludes;
    var table := Table();
    assert table[0] == PRIME_AT_START && table[1] == PRIME_AT_COMPACT && table[2] == USER_PROMPT
      && table[3] == TOOL_FAILURE;
    assert table[4] == TOOL_SUCCESS && table[5] == POST_READ && table[6] == PHASE_GUARD && table[7] == PHASE_AUDIT;
    assert Select(0, t, p, included) == [];
    var s1, s2 := Select(1, t, p, included), Select(2, t, p, included);
    var s3, s4 := Select(3, t, p, included), Select(4, t, p, included);
    var s5, s6 := Select(5, t, p, included), Select(6, t, p, included);
    var s7 := Select(7, t, p, included);
  }

  /** A spec's first marker is that of its own verb. */
  predicate IsPlainSpec(spec: Spec) {
    spec.markers != [] && spec.markers[0] == BinMarker(spec.verb) && IsVerb(spec.verb)
  }

  lemma {:induction false} OwnCommand(spec: Spec, path: string)
    requires IsPlainSpec(spec) && path != "" && '\'' !in path && !Contains(path, NPX)
    ensures HasAnyMarker(BuildCommand(spec, path), spec.markers) && !Contains(BuildCommand(spec, path), NPX)
  {
    hide CommandHasMarker, BinaryCommand;
    OwnMarkerFound(path, spec.verb);
    InstalledCallsNoNpx(path, spec.verb);
    assert CommandHasMarker(BuildCommand(spec, path), spec.markers[0]);
  }

  lemma {:induction false} ForeignCommand(spec: Spec, other: Spec, path: string)
    requires IsPlainSpec(spec) && path != "" && '\'' !in path
    requires forall m :: 0 <= m < |other.markers| ==>
      IsForeign(spec.verb, other.markers[m]) && !Contains(path, other.markers[m])
    ensures !HasAnyMarker(BuildCommand(spec, path), other.markers)
  {
    hide CommandHasMarker, BinaryCommand, Contains;
    forall m | 0 <= m < |other.markers| ensures !CommandHasMarker(BuildCommand(spec, path), other.markers[m]) {
      NormalisedIsPlain(spec.verb, other.markers[m]);
      ForeignMarkerAbsent(path, spec.verb, other.markers[m]);
    }
  }

  predicate IsForeign(verb: string, marker: string) {
    marker != "" && '\'' !in marker && ('"' in marker || ("BIN " <= marker && !(marker <= "BIN " + verb + TAIL)))
  }

  lemma {:induction false} OtherVerb(verb: string, other: string, i: nat)
    requires IsVerb(other) && i < |verb| && i < |other| && other[i] != verb[i]
    ensures IsForeign(verb, BinMarker(other))
  {
    assert BinMarker(other)[i + 4] == other[i] && ("BIN " + verb + TAIL)[i + 4] == verb[i];
  }

  lemma {:induction false} RunnerIsForeign(verb: string, name: string)
    requires '\'' !in name
    ensures IsForeign(verb, RunnerMarker(name))
  {
    assert RunnerMarker(name)[14] == '"';
    assert '\'' !in "hook-runner.js\" ";
  }

  lemma {:induction false} ReadIsForeign()
    ensures forall m :: 0 <= m < |POST_READ.markers| ==> IsForeign(TOOL_SUCCESS.verb, POST_READ.markers[m])
  {
    hide IsForeign, BinMarker, RunnerMarker;
    PostVerbsArePlain();
    OtherVerb("hooks run post-tool-success", "hooks run post-read", 15);
    OtherVerb("hooks run post-tool-success", "hooks run read-tracker", 10);
    RunnerIsForeign("hooks run post-tool-success", "post-read");
  }

  lemma {:induction false} SuccessIsForeign()
    ensures forall m :: 0 <= m < |TOOL_SUCCESS.markers| ==> IsForeign(POST_READ.verb, TOOL_SUCCESS.markers[m])
  {
    hide IsForeign, BinMarker, RunnerMarker;
    PostVerbsArePlain();
    OtherVerb("hooks run post-read", "hooks run post-tool-success", 15);
    RunnerIsForeign("hooks run post-read", "post-tool-success");
  }

  lemma {:induction false} VerbsArePlain()
    ensures IsVerb("prime") && IsVerb("hooks run user-prompt") && IsVerb("hooks run post-tool-failure")
    ensures IsVerb("hooks run phase-guard") && IsVerb("hooks run phase-audit")
  { }

  lemma {:induction false} PostVerbsArePlain()
    ensures IsVerb("hooks run post-tool-success") && IsVerb("hooks run post-read") && IsVerb("hooks run read-tracker")
  { }

  lemma {:induction false} SpecsArePlain(t: HookType)
    ensures forall i :: 0 <= i < |SpecsOf(t)| ==> IsPlainSpec(SpecsOf(t)[i])
  {
    hide IsVerb, BinMarker, RunnerMarker;
    VerbsArePlain();
    PostVerbsArePlain();
  }

  lemma {:induction false} PathAvoidsMarkers(path: string)
    requires PlainPath(path)
    ensures forall m :: 0 <= m < |TOOL_SUCCESS.markers| ==> !Contains(path, TOOL_SUCCESS.markers[m])
    ensures forall m :: 0 <= m < |POST_READ.markers| ==> !Contains(path, POST_READ.markers[m])
  {
    hide Contains;
    assert Table()[4] == TOOL_SUCCESS && Table()[5] == POST_READ;
  }

  lemma {:induction false} TableIsApart(t: HookType, p: Profile, path: string)
    requires PlainPath(path)
    ensures Apart(Ins(t, p), Outs(t, p), path)
  {
    hide HasAnyMarker, BuildCommand, IsPlainSpec, Contains, Table, Select, IsForeign;
    SelectIs(t, p, true);
    SelectIs(t, p, false);
    SpecsArePlain(t);
    var specs := SpecsOf(t);
    forall i | 0 <= i < |specs| ensures HasAnyMarker(BuildCommand(specs[i], path), specs[i].markers)
      && !Contains(BuildCommand(specs[i], path), NPX) {
      OwnCommand(specs[i], path);
    }
    if t == PostToolUse {
      ReadIsForeign();
      SuccessIsForeign();
      PathAvoidsMarkers(path);
      assert specs[0] == TOOL_SUCCESS && specs[1] == POST_READ;
      ForeignCommand(TOOL_SUCCESS, POST_READ, path);
      ForeignCommand(POST_READ, TOOL_SUCCESS, path);
    }
  }

  // ---- What reconciling a settings file guarantees ----

  lemma {:induction false} FinalEntries(slot: Option<Value>, ins: seq<Spec>, outs: seq<Spec>, path: string)
    requires path != ""
    ensures var arr := Reconciled(EntriesOf(slot), ins, outs, path);
      EntriesOf(FinalSlot(slot, ins, outs, path)) == arr && FinalSlot(slot, ins, outs, path) ==
        if arr == [] then None else Some(Arr(arr))
  {
    hide Cleared, UpgradedArray, InstalledOne;
  }

  /** No hook of a type that is left to the user calls npx again after its first call. */
  ghost predicate TypeCallsOnce(hooks: HookMap, t: HookType, path: string, p: Profile) {
    UsersCallOnce(Flat(EntriesOf(Slot(hooks, t))), TypeMarkers(Ins(t, p), Outs(t, p)), path)
  }

  /** Reconciling the settings twice is reconciling once, exactly when no hook left to the user calls npx twice. */
  lemma {:induction false} SettingsFixpointIff(before: HookMap, once: HookMap, twice: HookMap, path: string, p: Profile)
    requires PlainPath(path) && Reconciles(before, once, path, p) && Reconciles(once, twice, path, p)
    ensures twice == once <==> forall t :: TypeCallsOnce(before, t, path, p)
  {
    hide FinalSlot, EntriesOf, Ins, Outs, Flat, UsersCallOnce, Apart, Reconciled, PlainPath;
    forall t ensures Slot(twice, t) == Slot(once, t) <==> TypeCallsOnce(before, t, path, p) {
      SlotFixpointIff(Slot(before, t), Slot(once, t), Slot(twice, t), t, path, p);
    }
    SameSlots(once, twice);
  }

  lemma {:induction false} SameSlots(a: HookMap, b: HookMap)
    ensures b == a <==> forall t :: Slot(b, t) == Slot(a, t)
  {
    if forall t :: Slot(b, t) == Slot(a, t) {
      forall t ensures (t in b <==> t in a) && (t in a ==> b[t] == a[t]) {
        assert Slot(b, t) == Slot(a, t);
      }
    }
  }

  lemma {:induction false} SlotFixpointIff(before: Option<Value>, once: Option<Value>, twice: Option<Value>,
    t: HookType, path: string, p: Profile)
    requires PlainPath(path)
    requires once == FinalSlot(before, Ins(t, p), Outs(t, p), path)
      && twice == FinalSlot(once, Ins(t, p), Outs(t, p), path)
    ensures var markers := TypeMarkers(Ins(t, p), Outs(t, p));
      twice == once <==> UsersCallOnce(Flat(EntriesOf(before)), markers, path)
  {
    hide FinalSlot, Ins, Outs, NoNpx, UsersCallOnce, Apart, Reconciled, Contains, Table, Flat, UpgradedHooks, KeptHooks;
    NoNpxLeftIff(Flat(EntriesOf(before)), TypeMarkers(Ins(t, p), Outs(t, p)), path);
    TableIsApart(t, p, path);
    FinalEntries(before, Ins(t, p), Outs(t, p), path);
    FinalEntries(once, Ins(t, p), Outs(t, p), path);
    FixpointIff(EntriesOf(before), Ins(t, p), Outs(t, p), path);
  }

  /** A user's stop hook that calls npx twice. */
  const TWO_CALLS := "learn; npx ca search"

  const TWO_CALLS_SETTINGS: HookMap := map[Stop := Arr([Entry("", [Hook(NpxCommand(TWO_CALLS), "")])])]

  /** Reconciling these settings again changes them again, whatever the path and the profile. */
  lemma {:induction false} TwoCallsMove(once: HookMap, twice: HookMap, path: string, p: Profile)
    requires PlainPath(path)
    requires Reconciles(TWO_CALLS_SETTINGS, once, path, p) && Reconciles(once, twice, path, p)
    ensures twice != once
  {
    hide Reconciles, PlainPath, Contains, AfterFirstCall, IsManaged, Ins, Outs, TypeMarkers;
    SettingsFixpointIff(TWO_CALLS_SETTINGS, once, twice, path, p);
    var (hook, markers) := (Hook(NpxCommand(TWO_CALLS), ""), TypeMarkers(Ins(Stop, p), Outs(Stop, p)));
    FlatOne(Entry("", [hook]));
    assert Flat(EntriesOf(Slot(TWO_CALLS_SETTINGS, Stop))) == [hook];
    TwoCallsAreTwo();
    TwoCallsAreLeft(path, p);
    assert [hook][0] == hook;
    assert !TypeCallsOnce(TWO_CALLS_SETTINGS, Stop, path, p);
  }

  lemma {:induction false} TwoCallsAreTwo()
    ensures Contains(NpxCommand(TWO_CALLS), NPX) && Contains(AfterFirstCall(NpxCommand(TWO_CALLS)), NPX)
  {
    hide Contains;
    var cmd := NpxCommand(TWO_CALLS);
    assert cmd == NPX + ("learn; " + (NPX + ("search" + TAIL)));
    ContainsItself(NPX, "learn; " + (NPX + ("search" + TAIL)));
    assert NPX <= cmd && cmd[|NPX|..] == "learn; " + (NPX + ("search" + TAIL));
    ContainsItself(NPX, "search" + TAIL);
    ContainsSuffix("learn; ", NPX + ("search" + TAIL), NPX);
  }

  lemma {:induction false} TwoCallsUpgraded(path: string)
    ensures Upgraded(NpxCommand(TWO_CALLS), path) == BinaryCommand(path, TWO_CALLS)
  {
    hide Contains, ReplaceFirst, ShellEscape;
    TwoCallsAreTwo();
    ReplacedAtHead(NPX, TWO_CALLS + TAIL, ShellEscape(path) + " ");
    assert NPX + (TWO_CALLS + TAIL) == NpxCommand(TWO_CALLS);
  }

  lemma {:induction false} TwoCallsCarryNothing(path: string)
    requires PlainPath(path)
    ensures !HasAnyMarker(BinaryCommand(path, TWO_CALLS), PHASE_AUDIT.markers)
  {
    hide Contains, CommandHasMarker, BinaryCommand, PlainPath, BinMarker, RunnerMarker;
    PathAvoidsAudit(path);
    AuditIsForeign();
    forall m | 0 <= m < |PHASE_AUDIT.markers|
      ensures !CommandHasMarker(BinaryCommand(path, TWO_CALLS), PHASE_AUDIT.markers[m])
    {
      NormalisedIsPlain(TWO_CALLS, PHASE_AUDIT.markers[m]);
      ForeignMarkerAbsent(path, TWO_CALLS, PHASE_AUDIT.markers[m]);
    }
  }

  lemma {:induction false} TwoCallsAreLeft(path: string, p: Profile)
    requires PlainPath(path)
    ensures !IsManaged(UpgradedHook(Hook(NpxCommand(TWO_CALLS), ""), path), TypeMarkers(Ins(Stop, p), Outs(Stop, p)))
  {
    hide Contains, CommandHasMarker, BinaryCommand, PlainPath, Upgraded, Select, NpxCommand, ProfileIncludes;
    TwoCallsAreTwo();
    TwoCallsUpgraded(path);
    TwoCallsCarryNothing(path);
    SelectIs(Stop, p, true);
    SelectIs(Stop, p, false);
    MarkersOfOne(PHASE_AUDIT);
  }

  lemma {:induction false} MarkersOfOne(spec: Spec)
    ensures TypeMarkers([spec], []) == spec.markers && TypeMarkers([], [spec]) == spec.markers
  {
    assert [spec][..0] == [];
    assert AllMarkers([spec]) == AllMarkers([]) + spec.markers;
  }

  lemma {:induction false} ReplacedAtHead(s: string, tail: string, to: string)
    ensures ReplaceFirst(s + tail, s, to) == to + tail
  {
    assert s <= s + tail && (s + tail)[|s|..] == tail;
  }

  lemma {:induction false} AuditIsForeign()
    ensures 'B' !in TWO_CALLS && '"' !in TWO_CALLS
    ensures forall m :: 0 <= m < |PHASE_AUDIT.markers| ==> IsForeign(TWO_CALLS, PHASE_AUDIT.markers[m])
  {
    hide IsForeign, BinMarker, RunnerMarker;
    AuditVerbs();
    OtherVerb(TWO_CALLS, "hooks run phase-audit", 0);
    OtherVerb(TWO_CALLS, "hooks run stop-audit", 0);
    RunnerIsForeign(TWO_CALLS, "phase-audit");
  }

  lemma {:induction false} PathAvoidsAudit(path: string)
    requires PlainPath(path)
    ensures path != "" && '\'' !in path
    ensures forall m :: 0 <= m < |PHASE_AUDIT.markers| ==> !Contains(path, PHASE_AUDIT.markers[m])
  {
    hide Contains;
    assert Table()[7] == PHASE_AUDIT;
  }

  lemma {:induction false} AuditVerbs()
    ensures IsVerb("hooks run phase-audit") && IsVerb("hooks run stop-audit")
  { }

  /** One hook for each spec in the profile, none for a spec outside it. */
  lemma {:induction false} ExactlyTheProfile(before: HookMap, after: HookMap, path: string, p: Profile, t: HookType)
    requires PlainPath(path) && Reconciles(before, after, path, p)
    ensures forall i :: 0 <= i < |Ins(t, p)| ==> MatchCount(after, t, Ins(t, p)[i].markers) == 1
    ensures forall j :: 0 <= j < |Outs(t, p)| ==> MatchCount(after, t, Outs(t, p)[j].markers) == 0
  {
    hide FinalSlot, Ins, Outs, Apart, Reconciled, Contains, Table, EntriesOf, Matching, Flat;
    TableIsApart(t, p, path);
    assert Slot(after, t) == FinalSlot(Slot(before, t), Ins(t, p), Outs(t, p), path);
    FinalEntries(Slot(before, t), Ins(t, p), Outs(t, p), path);
    OneHookEach(EntriesOf(Slot(before, t)), Ins(t, p), Outs(t, p), path);
  }

  lemma {:induction false} SelectHolds(k: nat, n: nat, t: HookType, p: Profile, included: bool)
    requires k < n <= TABLE_SIZE && |Table()| == TABLE_SIZE
    requires Table()[k].hookType == t && ProfileIncludes(Table()[k].profile, p) == included
    ensures Table()[k] in Select(n, t, p, included)
  {
    hide Table, ProfileIncludes;
    if k < n - 1 {
      SelectHolds(k, n - 1, t, p, included);
    }
  }

  /** After reconciling, has-all holds, and needs-dedupe and out-of-profile fail: nothing asks for another run. */
  lemma {:induction false} ReconciledIsSettled(before: HookMap, after: HookMap, path: string, p: Profile)
    requires PlainPath(path) && Reconciles(before, after, path, p)
    ensures HasAll(after, p) && !NeedsDedupe(after) && !HasOutOfProfile(after, p)
  {
    hide PlainPath, Reconciles, MatchCount, Table, Select, ProfileIncludes;
    TableHasSize();
    forall k | 0 <= k < TABLE_SIZE
      ensures MatchCount(after, Table()[k].hookType, Table()[k].markers) ==
        if ProfileIncludes(Table()[k].profile, p) then 1 else 0
    {
      var spec := Table()[k];
      ExactlyTheProfile(before, after, path, p, spec.hookType);
      SelectHolds(k, TABLE_SIZE, spec.hookType, p, ProfileIncludes(spec.profile, p));
      if ProfileIncludes(spec.profile, p) {
        var i :| 0 <= i < |Ins(spec.hookType, p)| && Ins(spec.hookType, p)[i] == spec;
      } else {
        var j :| 0 <= j < |Outs(spec.hookType, p)| && Outs(spec.hookType, p)[j] == spec;
      }
    }
  }

  /** The user's hooks that call no npx stay, unchanged and in order, before the installed ones. */
  lemma {:induction false} UserHooksUntouched(before: HookMap, after: HookMap, path: string, p: Profile, t: HookType)
    requires PlainPath(path) && Reconciles(before, after, path, p)
    requires NoNpx(Flat(EntriesOf(Slot(before, t))))
    ensures Flat(EntriesOf(Slot(after, t))) ==
      KeptHooks(Flat(EntriesOf(Slot(before, t))), TypeMarkers(Ins(t, p), Outs(t, p))) + NewHooks(Ins(t, p), path)
  {
    hide FinalSlot, Ins, Outs, Apart, Reconciled, Contains, Table, EntriesOf, Flat, NoNpx, KeptHooks, NewHooks,
      TypeMarkers, UserHooks;
    TableIsApart(t, p, path);
    assert Slot(after, t) == FinalSlot(Slot(before, t), Ins(t, p), Outs(t, p), path);
    FinalEntries(Slot(before, t), Ins(t, p), Outs(t, p), path);
    UserHooksKept(EntriesOf(Slot(before, t)), Ins(t, p), Outs(t, p), path);
  }
}
