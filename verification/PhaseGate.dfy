/** The cook-it phase file, its commands and its hooks (cli/commands_phase.go, hook/phase_state.go and its hooks). */
module PhaseGate {
  import opened Prelude
  import opened Text

  const MAX_AGE := 72 * 3600

  const PHASES: seq<string> := ["spec-dev", "plan", "work", "review", "compound"]

  predicate IsValidSkillPhase(phase: string) { phase in PHASES || phase == "architect" }

  predicate IsValidGate(gate: string) { gate in ["post-plan", "gate-3", "gate-4", "final"] }

  function PhaseIndexOf(phase: string): nat {
    if phase == "spec-dev" then 1 else if phase == "plan" then 2 else if phase == "work" then 3
    else if phase == "review" then 4 else if phase == "compound" then 5 else if phase == "architect" then 6 else 0
  }

  function ExpectedGateForPhase(index: int): string {
    if index == 2 then "post-plan"
    else if index == 3 then "gate-3"
    else if index == 4 then "gate-4"
    else if index == 5 then "final"
    else ""
  }

  function SkillPath(phase: string): string { ".claude/skills/compound/" + phase + "/SKILL.md" }

  datatype PhaseState = PhaseState(
    active: bool, epicId: string, currentPhase: string, phaseIndex: int, skillsRead: seq<string>,
      gatesPassed: seq<string>, startedAt: int)

  // ---- The skill named by a path ----

  function Slashed(path: string): string {
    seq(|path|, i requires 0 <= i < |path| => if path[i] == '\\' then '/' else path[i])
  }

  /** The directory before SKILL.md in a path that ends .claude/skills/compound/<name>/SKILL.md. */
  function SkillInPath(path: string): Option<string> {
    var parts := Split(Slashed(path), '/');
    var n := |parts|;
    if n >= 5 && parts[n - 5] == ".claude" && parts[n - 4] == "skills" && parts[n - 3] == "compound"
      && parts[n - 2] != "" && parts[n - 1] == "SKILL.md"
    then Some(parts[n - 2])
    else None
  }

  /** The path, with either kind of slash, is that of a phase's skill, in this directory or in any other. */
  ghost predicate EndsInSkill(path: string, name: string) {
    && name != "" && '/' !in name
    && var skill := ".claude/skills/compound/" + name + "/SKILL.md";
      Spells(path, skill) || exists dir :: Spells(path, dir + ['/'] + skill)
  }

  /** The path is the text, but for backslashes in place of slashes. */
  ghost predicate Spells(path: string, text: string) {
    && |path| == |text|
    && forall i :: 0 <= i < |path| ==> if path[i] == '\\' then text[i] == '/' else text[i] == path[i]
  }

  lemma {:induction false} SlashedSpells(path: string)
    ensures forall text :: Spells(path, text) <==> text == Slashed(path)
  { }

  lemma {:induction false} SkillParts(name: string)
    requires '/' !in name
    ensures Split(".claude/skills/compound/" + name + "/SKILL.md", '/') ==
      [".claude", "skills", "compound", name, "SKILL.md"]
  {
    var parts := [".claude", "skills", "compound", name, "SKILL.md"];
    SplitJoin(parts, '/');
    assert parts[1..] == ["skills", "compound", name, "SKILL.md"] && parts[1..][1..] == ["compound", name, "SKILL.md"];
    assert parts[1..][1..][1..] == [name, "SKILL.md"] && parts[1..][1..][1..][1..] == ["SKILL.md"];
    var file := name + "/SKILL.md";
    assert Join([name, "SKILL.md"], '/') == name + ['/'] + "SKILL.md" == file;
    assert Join(["compound", name, "SKILL.md"], '/') == "compound" + ['/'] + file == "compound/" + file;
    SkillText(file);
    assert ".claude/skills/compound/" + file == ".claude/skills/compound/" + name + "/SKILL.md";
  }

  lemma {:induction false} SkillText(file: string)
    ensures ".claude" + ['/'] + ("skills" + ['/'] + ("compound/" + file)) == ".claude/skills/compound/" + file
  { }

  /** Which reads count, and for which phase. */
  lemma {:induction false} SkillInPathIff(path: string, name: string)
    ensures SkillInPath(path) == Some(name) <==> EndsInSkill(path, name)
  {
    hide Split, Slashed, Spells;
    var (s, skill) := (Slashed(path), ".claude/skills/compound/" + name + "/SKILL.md");
    var parts := Split(s, '/');
    var n := |parts|;
    SlashedSpells(path);
    if SkillInPath(path) == Some(name) {
      SplitIsFree(s, '/');
      JoinSplit(s, '/');
      assert '/' !in name by { assert parts[n - 2] == name; }
      SkillParts(name);
      JoinSplit(skill, '/');
      var (dir, five) := (parts[..n - 5], parts[n - 5..]);
      assert five == [".claude", "skills", "compound", name, "SKILL.md"] && parts == dir + five;
      if dir == [] {
        assert parts == five;
      } else {
        JoinConcat(dir, five, '/');
      }
    }
    if EndsInSkill(path, name) {
      SkillParts(name);
      if dir :| Spells(path, dir + ['/'] + skill) {
        SplitConcat(dir, skill, '/');
      }
    }
  }

  // ---- The file ----

  predicate IsStale(s: PhaseState, now: int) { now - s.startedAt > MAX_AGE }

  /** validatePhaseState accepts the state. */
  predicate IsAccepted(s: PhaseState, now: int) { 1 <= s.phaseIndex <= 6 && !IsStale(s, now) }

  /** GetPhaseState: a stale file is removed, an invalid one is ignored. */
  function Loaded(file: Option<PhaseState>, now: int): Option<PhaseState> {
    if file.Some? && IsAccepted(file.value, now) then file else None
  }

  function Kept(file: Option<PhaseState>, now: int): Option<PhaseState> {
    if file.Some? && 1 <= file.value.phaseIndex <= 6 && IsStale(file.value, now) then None else file
  }

  /** The file-changing tools that the guard watches. */
  predicate IsGuardedTool(name: string) {
    name in ["Edit", "Write", "str_replace", "create_file", "text_editor", "developer__text_editor",
      "str_replace_editor", "write", "edit"]
  }

  datatype Event =
    | Init(epicId: string, force: bool, phase: string)
    | Start(phase: string)
    | Gate(gate: string)
    | Tool(name: string, path: Option<string>)
    | StopHook(active: bool)
    | CleanIfFinal
    | Clean

  function InitState(epicId: string, phase: string, now: int): PhaseState {
    PhaseState(true, epicId, phase, PhaseIndexOf(phase), [], [], now)
  }

  /** What an event leaves of the file; hooks and commands that only read may still remove a stale file. */
  function Next(file: Option<PhaseState>, e: Event, now: int): Option<PhaseState> {
    var state, kept := Loaded(file, now), Kept(file, now);
    match e
    case Init(epicId, force, phase) =>
      if !IsValidSkillPhase(phase) then file
      else if !force && state.Some? then kept
      else Some(InitState(epicId, phase, now))
    case Start(phase) =>
      if !IsValidSkillPhase(phase) then file
      else if state.None? then kept
      else Some(state.value.(currentPhase := phase, phaseIndex := PhaseIndexOf(phase), gatesPassed := [],
        skillsRead := []))
    case Gate(gate) =>
      if !IsValidGate(gate) then file
      else if state.None? then kept
      else if gate == "final" then None
      else if gate in state.value.gatesPassed then file
      else Some(state.value.(gatesPassed := state.value.gatesPassed + [gate]))
    case Tool(name, path) =>
      if IsGuardedTool(name) then kept
      else if name != "Read" then file
      else if state.None? || !state.value.active || path.None? || SkillInPath(path.value).None? then kept
      else
        var skill := SkillPath(SkillInPath(path.value).value);
        if skill in state.value.skillsRead then file
        else Some(state.value.(skillsRead := state.value.skillsRead + [skill]))
    case StopHook(active) => if active then file else kept
    case CleanIfFinal =>
      if state.Some? && state.value.active && "final" in state.value.gatesPassed then None else kept
    case Clean => None
  }

  /** A run: events with the times they happen at. */
  type Run = seq<(Event, int)>

  /** The phase file after a run in a repository that had none. */
  function After(events: Run): Option<PhaseState> {
    if events == [] then None
    else Next(After(events[..|events| - 1]), events[|events| - 1].0, events[|events| - 1].1)
  }

  // ---- What every run keeps ----

  ghost predicate NoDuplicates(s: seq<string>) {
    forall i, j :: 0 <= i < j < |s| ==> s[i] != s[j]
  }

  ghost predicate IsSound(s: PhaseState) {
    && s.active && IsValidSkillPhase(s.currentPhase) && s.phaseIndex == PhaseIndexOf(s.currentPhase)
    && NoDuplicates(s.skillsRead) && NoDuplicates(s.gatesPassed)
    && forall g :: g in s.gatesPassed ==> IsValidGate(g) && g != "final"
  }

  ghost predicate Good(file: Option<PhaseState>) { file.Some? ==> IsSound(file.value) }

  lemma {:induction false} SnocKeepsDistinct(s: seq<string>, x: string)
    requires NoDuplicates(s) && x !in s
    ensures NoDuplicates(s + [x])
  { }

  lemma {:induction false} StepIsGood(file: Option<PhaseState>, e: Event, now: int)
    requires Good(file)
    ensures Good(Next(file, e, now))
  {
    hide SkillInPath, SkillPath, IsStale, NoDuplicates, IsGuardedTool;
    EmptyIsDistinct();
    var state := Loaded(file, now);
    match e
    case Gate(gate) =>
      if state.Some? && gate !in state.value.gatesPassed {
        SnocKeepsDistinct(state.value.gatesPassed, gate);
      }
    case Tool(name, path) =>
      if state.Some? && path.Some? && SkillInPath(path.value).Some? {
        var skill := SkillPath(SkillInPath(path.value).value);
        if skill !in state.value.skillsRead {
          SnocKeepsDistinct(state.value.skillsRead, skill);
        }
      }
    case _ =>
  }

  lemma {:induction false} EmptyIsDistinct()
    ensures NoDuplicates([])
  { }

  /** In every reachable state the index matches the phase, nothing is recorded twice, and "final" is never stored. */
  lemma {:induction false} RunIsGood(events: Run)
    ensures Good(After(events))
  {
    hide Next, IsSound;
    if events != [] {
      RunIsGood(events[..|events| - 1]);
      StepIsGood(After(events[..|events| - 1]), events[|events| - 1].0, events[|events| - 1].1);
    }
  }

  // ---- The guard and the stop audit ----

  /** ProcessPhaseGuard warns. */
  predicate Warns(file: Option<PhaseState>, tool: string, now: int) {
    var state := Loaded(file, now);
    IsGuardedTool(tool) && state.Some? && state.value.active
      && SkillPath(state.value.currentPhase) !in state.value.skillsRead
  }

  predicate HasTransitionEvidence(s: PhaseState) {
    s.phaseIndex == |PHASES| || (1 <= s.phaseIndex < |PHASES| && SkillPath(PHASES[s.phaseIndex]) in s.skillsRead)
  }

  /** ProcessStopAudit refuses the stop. */
  predicate Refuses(file: Option<PhaseState>, stopHookActive: bool, now: int) {
    var state := Loaded(file, now);
    && !stopHookActive && state.Some? && state.value.active
    && ExpectedGateForPhase(state.value.phaseIndex) != ""
      && ExpectedGateForPhase(state.value.phaseIndex) !in state.value.gatesPassed
    && HasTransitionEvidence(state.value)
  }

  /** The clean-up that waits for a stored "final" gate never removes a live state. */
  lemma {:induction false} CleanIfFinalNeverFires(events: Run, now: int)
    ensures Next(After(events), CleanIfFinal, now) == Kept(After(events), now)
  {
    hide After;
    RunIsGood(events);
  }

  // ---- The handlers ----

  method IsIn(x: string, s: seq<string>) returns (found: bool)
    ensures found <==> x in s
  {
    for i := 0 to |s|
      invariant x !in s[..i]
    {
      if s[i] == x {
        return true;
      }
    }
    found := false;
  }

  /** The repository's phase file; commands report an error by returning false. */
  class Repo {
    var file: Option<PhaseState>

    constructor ()
      ensures file == After([])
    {
      file := None;
    }

    method GetPhaseState(now: int) returns (state: Option<PhaseState>)
      modifies this
      ensures state == Loaded(old(file), now) && file == Kept(old(file), now)
    {
      if file.None? || file.value.phaseIndex < 1 || file.value.phaseIndex > 6 {
        return None;
      }
      if now - file.value.startedAt > MAX_AGE {
        file := None;
        return None;
      }
      state := file;
    }

    method HandlePhaseInit(epicId: string, force: bool, phase: string, now: int) returns (ok: bool)
      modifies this
      ensures file == Next(old(file), Init(epicId, force, phase), now)
      ensures ok <==> IsValidSkillPhase(phase) && (force || Loaded(old(file), now).None?)
    {
      if !IsValidSkillPhase(phase) {
        return false;
      }
      if !force {
        var existing := GetPhaseState(now);
        if existing.Some? {
          return false;
        }
      }
      file := Some(PhaseState(true, epicId, phase, PhaseIndexOf(phase), [], [], now));
      ok := true;
    }

    method HandlePhaseStart(phase: string, now: int) returns (ok: bool)
      modifies this
      ensures file == Next(old(file), Start(phase), now)
      ensures ok <==> IsValidSkillPhase(phase) && Loaded(old(file), now).Some?
    {
      if !IsValidSkillPhase(phase) {
        return false;
      }
      var state := GetPhaseState(now);
      if state.None? {
        return false;
      }
      file := Some(state.value.(currentPhase := phase, phaseIndex := PhaseIndexOf(phase), gatesPassed := [],
        skillsRead := []));
      ok := true;
    }

    method HandlePhaseGate(gate: string, now: int) returns (ok: bool)
      modifies this
      ensures file == Next(old(file), Gate(gate), now)
      ensures ok <==> IsValidGate(gate) && Loaded(old(file), now).Some?
    {
      if !IsValidGate(gate) {
        return false;
      }
      var state := GetPhaseState(now);
      if state.None? {
        return false;
      }
      var gates := state.value.gatesPassed;
      var found := IsIn(gate, gates);
      if !found {
        gates := gates + [gate];
      }
      if gate == "final" {
        file := None;
        return true;
      }
      file := Some(state.value.(gatesPassed := gates));
      ok := true;
    }

    method ProcessReadTracker(toolName: string, path: Option<string>, now: int)
      modifies this
      ensures file == if toolName == "Read" then Next(old(file), Tool(toolName, path), now) else old(file)
    {
      hide SkillInPath, SkillPath;
      if toolName != "Read" {
        return;
      }
      var state := GetPhaseState(now);
      if state.None? || !state.value.active || path.None? || SkillInPath(path.value).None? {
        return;
      }
      var canonicalPath := SkillPath(SkillInPath(path.value).value);
      var found := IsIn(canonicalPath, state.value.skillsRead);
      if found {
        return;
      }
      var again := GetPhaseState(now);
      if again.Some? {
        file := Some(again.value.(skillsRead := state.value.skillsRead + [canonicalPath]));
      }
    }

    method ProcessPhaseGuard(toolName: string, now: int) returns (warns: bool)
      modifies this
      ensures warns <==> Warns(old(file), toolName, now)
      ensures file == if toolName == "Read" then old(file) else Next(old(file), Tool(toolName, None), now)
    {
      hide SkillPath;
      if !IsGuardedTool(toolName) {
        return false;
      }
      var state := GetPhaseState(now);
      if state.None? || !state.value.active {
        return false;
      }
      var read := IsIn(SkillPath(state.value.currentPhase), state.value.skillsRead);
      warns := !read;
    }

    method ProcessStopAudit(stopHookActive: bool, now: int) returns (refuses: bool)
      modifies this
      ensures refuses <==> Refuses(old(file), stopHookActive, now)
      ensures file == Next(old(file), StopHook(stopHookActive), now)
    {
      hide SkillPath;
      if stopHookActive {
        return false;
      }
      var state := GetPhaseState(now);
      if state.None? || !state.value.active {
        return false;
      }
      var expectedGate := ExpectedGateForPhase(state.value.phaseIndex);
      if expectedGate == "" {
        return false;
      }
      var passed := IsIn(expectedGate, state.value.gatesPassed);
      if passed {
        return false;
      }
      refuses := HasTransitionEvidence(state.value);
    }
  }
}
