/** What each profile leaves in a settings file, spelled out (setup/settings.go, setup/profile.go). */
module HookProfiles {
  import opened Prelude
  import opened Text
  import opened HookCommands
  import opened Hooks
  import opened HookSettings

  // ---- Which hooks a profile has ----

  /** The five hooks of the workflow are missing from the minimal profile; every other hook is in every profile. */
  lemma {:induction false} MatchesByProfile(before: HookMap, after: HookMap, path: string, p: Profile)
    requires PlainPath(path) && Reconciles(before, after, path, p)
    ensures MatchCount(after, SessionStart, ["BIN prime"]) == 1 && MatchCount(after, PreCompact, ["BIN prime"]) == 1
    ensures MatchCount(after, UserPromptSubmit, ["BIN hooks run user-prompt", "hook-runner.js\" user-prompt"]) == 1
    ensures var workflow := if p == Minimal then 0 else 1;
      && MatchCount(after, PostToolUseFailure,
        ["BIN hooks run post-tool-failure", "hook-runner.js\" post-tool-failure"]) == workflow
      && MatchCount(after, PostToolUse,
        ["BIN hooks run post-tool-success", "hook-runner.js\" post-tool-success"]) == workflow
      && MatchCount(after, PostToolUse,
        ["BIN hooks run post-read", "BIN hooks run read-tracker", "hook-runner.js\" post-read"]) == workflow
      && MatchCount(after, PreToolUse, ["BIN hooks run phase-guard", "hook-runner.js\" phase-guard"]) == workflow
      && MatchCount(after, Stop,
        ["BIN hooks run phase-audit", "BIN hooks run stop-audit", "hook-runner.js\" phase-audit"]) == workflow
  {
    hide PlainPath, Reconciles, MatchCount, Select;
    MarkerTexts();
    OneMatch(before, after, path, p, SessionStart, 0);
    OneMatch(before, after, path, p, PreCompact, 0);
    OneMatch(before, after, path, p, UserPromptSubmit, 0);
    OneMatch(before, after, path, p, PostToolUseFailure, 0);
    OneMatch(before, after, path, p, PostToolUse, 0);
    OneMatch(before, after, path, p, PostToolUse, 1);
    OneMatch(before, after, path, p, PreToolUse, 0);
    OneMatch(before, after, path, p, Stop, 0);
  }

  lemma {:induction false} OneMatch(before: HookMap, after: HookMap, path: string, p: Profile, t: HookType, i: nat)
    requires PlainPath(path) && Reconciles(before, after, path, p) && i < |SpecsOf(t)|
    ensures MatchCount(after, t, SpecsOf(t)[i].markers) == if p == Minimal && LeastProfile(t) == Workflow then 0 else 1
  {
    hide PlainPath, Reconciles, MatchCount, Select;
    SelectIs(t, p, true);
    SelectIs(t, p, false);
    ExactlyTheProfile(before, after, path, p, t);
    if ProfileIncludes(LeastProfile(t), p) {
      assert Ins(t, p)[i] == SpecsOf(t)[i];
    } else {
      assert Outs(t, p)[i] == SpecsOf(t)[i];
    }
  }

  lemma {:induction false} MarkerTexts()
    ensures PRIME_AT_START.markers == ["BIN prime"] && PRIME_AT_COMPACT.markers == ["BIN prime"]
    ensures USER_PROMPT.markers == ["BIN hooks run user-prompt", "hook-runner.js\" user-prompt"]
    ensures TOOL_FAILURE.markers == ["BIN hooks run post-tool-failure", "hook-runner.js\" post-tool-failure"]
    ensures TOOL_SUCCESS.markers == ["BIN hooks run post-tool-success", "hook-runner.js\" post-tool-success"]
    ensures POST_READ.markers ==
      ["BIN hooks run post-read", "BIN hooks run read-tracker", "hook-runner.js\" post-read"]
    ensures PHASE_GUARD.markers == ["BIN hooks run phase-guard", "hook-runner.js\" phase-guard"]
    ensures PHASE_AUDIT.markers ==
      ["BIN hooks run phase-audit", "BIN hooks run stop-audit", "hook-runner.js\" phase-audit"]
  {
    hide BinMarker, RunnerMarker;
    PrimeMarker();
    UserPromptMarker();
    UserPromptRunnerMarker();
    FailureMarker();
    FailureRunnerMarker();
    SuccessMarker();
    SuccessRunnerMarker();
    ReadMarker();
    TrackerMarker();
    ReadRunnerMarker();
    GuardMarker();
    GuardRunnerMarker();
    AuditMarker();
    StopAuditMarker();
    AuditRunnerMarker();
  }

  lemma {:induction false} PrimeMarker()
    ensures BinMarker("prime") == "BIN prime"
  { }

  lemma {:induction false} UserPromptMarker()
    ensures BinMarker("hooks run user-prompt") == "BIN hooks run user-prompt"
  { }

  lemma {:induction false} UserPromptRunnerMarker()
    ensures RunnerMarker("user-prompt") == "hook-runner.js\" user-prompt"
  { }

  lemma {:induction false} FailureMarker()
    ensures BinMarker("hooks run post-tool-failure") == "BIN hooks run post-tool-failure"
  { }

  lemma {:induction false} FailureRunnerMarker()
    ensures RunnerMarker("post-tool-failure") == "hook-runner.js\" post-tool-failure"
  { }

  lemma {:induction false} SuccessMarker()
    ensures BinMarker("hooks run post-tool-success") == "BIN hooks run post-tool-success"
  { }

  lemma {:induction false} SuccessRunnerMarker()
    ensures RunnerMarker("post-tool-success") == "hook-runner.js\" post-tool-success"
  { }

  lemma {:induction false} ReadMarker()
    ensures BinMarker("hooks run post-read") == "BIN hooks run post-read"
  { }

  lemma {:induction false} TrackerMarker()
    ensures BinMarker("hooks run read-tracker") == "BIN hooks run read-tracker"
  { }

  lemma {:induction false} ReadRunnerMarker()
    ensures RunnerMarker("post-read") == "hook-runner.js\" post-read"
  { }

  lemma {:induction false} GuardMarker()
    ensures BinMarker("hooks run phase-guard") == "BIN hooks run phase-guard"
  { }

  lemma {:induction false} GuardRunnerMarker()
    ensures RunnerMarker("phase-guard") == "hook-runner.js\" phase-guard"
  { }

  lemma {:induction false} AuditMarker()
    ensures BinMarker("hooks run phase-audit") == "BIN hooks run phase-audit"
  { }

  lemma {:induction false} StopAuditMarker()
    ensures BinMarker("hooks run stop-audit") == "BIN hooks run stop-audit"
  { }

  lemma {:induction false} AuditRunnerMarker()
    ensures RunnerMarker("phase-audit") == "hook-runner.js\" phase-audit"
  { }

  // ---- What is written ----

  function Installs(matcher: string, path: string, verb: string): Entry {
    Entry(matcher, [Hook("'" + path + "' " + verb + " 2>/dev/null || true", "command")])
  }

  function MinimalEntries(t: HookType, path: string): seq<Entry> {
    match t
    case SessionStart => [Installs("", path, "prime")]
    case PreCompact => [Installs("", path, "prime")]
    case UserPromptSubmit => [Installs("", path, "hooks run user-prompt")]
    case _ => []
  }

  function FullEntries(t: HookType, path: string): seq<Entry> {
    match t
    case PostToolUseFailure => [Installs("Bash|Edit|Write", path, "hooks run post-tool-failure")]
    case PostToolUse =>
      [Installs("Bash|Edit|Write", path, "hooks run post-tool-success"), Installs("Read", path, "hooks run post-read")]
    case PreToolUse => [Installs("Edit|Write", path, "hooks run phase-guard")]
    case Stop => [Installs("", path, "hooks run phase-audit")]
    case _ => MinimalEntries(t, path)
  }

  /** The entries left to the user come first, then those of the profile; a type without entries has no array. */
  lemma {:induction false} WrittenByProfile(before: HookMap, after: HookMap, path: string, p: Profile, t: HookType)
    requires PlainPath(path) && Reconciles(before, after, path, p)
    ensures var users := Filtered(UpgradedArray(EntriesOf(Slot(before, t)), path), TypeMarkers(Ins(t, p), Outs(t, p)));
      var entries := users + if p == Minimal then MinimalEntries(t, path) else FullEntries(t, path);
      Slot(after, t) == if entries == [] then None else Some(Arr(entries))
  {
    hide Filtered, UpgradedArray, TypeMarkers, Reconciled, FinalSlot, EntriesOf, Select, Apart, Contains, Table;
    TableIsApart(t, p, path);
    assert Slot(after, t) == FinalSlot(Slot(before, t), Ins(t, p), Outs(t, p), path);
    FinalEntries(Slot(before, t), Ins(t, p), Outs(t, p), path);
    ReconciledIs(EntriesOf(Slot(before, t)), Ins(t, p), Outs(t, p), path);
    EntriesOfProfile(t, p, path);
  }

  lemma {:induction false} EntriesOfProfile(t: HookType, p: Profile, path: string)
    requires path != "" && '\'' !in path
    ensures NewEntries(Ins(t, p), path) == if p == Minimal then MinimalEntries(t, path) else FullEntries(t, path)
  {
    hide Select, BuildCommand;
    SelectIs(t, p, true);
    forall i | 0 <= i < |SpecsOf(t)|
      ensures HookEntry(SpecsOf(t)[i].matcher, BuildCommand(SpecsOf(t)[i], path)) ==
        Installs(SpecsOf(t)[i].matcher, path, SpecsOf(t)[i].verb)
    {
      CommandText(SpecsOf(t)[i], path);
    }
  }

  lemma {:induction false} CommandText(spec: Spec, path: string)
    requires path != "" && '\'' !in path
    ensures BuildCommand(spec, path) == "'" + path + "' " + spec.verb + " 2>/dev/null || true"
  {
    NothingToEscape(path);
    assert "'" + path + "'" + " " == "'" + path + "' ";
  }

  // ---- When there is nothing left to do ----

  /** The three tests together say that every hook is there once, or not at all outside the minimal profile. */
  lemma {:induction false} SettledIff(hooks: HookMap, p: Profile)
    ensures HasAll(hooks, p) && !HasOutOfProfile(hooks, p) && !NeedsDedupe(hooks) <==>
      forall k :: 0 <= k < TABLE_SIZE ==>
        MatchCount(hooks, Table()[k].hookType, Table()[k].markers) == if p == Minimal && k >= 3 then 0 else 1
  {
    hide MatchCount, Table;
    TableHasSize();
    ProfileOfSpecs();
    forall k | 0 <= k < TABLE_SIZE
      ensures ProfileIncludes(Table()[k].profile, p) <==> !(p == Minimal && k >= 3)
    {
      assert Table()[k].profile == if k < 3 then Minimal else Workflow;
    }
    assert forall k :: 0 <= k < TABLE_SIZE ==> (Carries(hooks, Table()[k]) && !IsDuplicated(hooks, Table()[k]) <==>
      MatchCount(hooks, Table()[k].hookType, Table()[k].markers) == 1);
  }

  lemma {:induction false} ProfileOfSpecs()
    ensures forall k :: 0 <= k < TABLE_SIZE ==> Table()[k].profile == if k < 3 then Minimal else Workflow
  { }
}
