/** What runs of the phase commands and hooks guarantee, said in terms of the events that happened. */
module PhaseRuns {
  import opened Prelude
  import opened PhaseGate

  // ---- Names, spelled out ----

  predicate IsPhase(name: string) { name in {"spec-dev", "plan", "work", "review", "compound", "architect"} }

  predicate IsGate(name: string) { name in {"post-plan", "gate-3", "gate-4", "final"} }

  /** The tools that change files. */
  predicate Edits(tool: string) {
    tool in {"Edit", "Write", "str_replace", "create_file", "text_editor", "developer__text_editor",
      "str_replace_editor", "write", "edit"}
  }

  /** Three days. */
  const LIFETIME := 259_200

  function SkillFile(phase: string): string { ".claude/skills/compound/" + phase + "/SKILL.md" }

  lemma {:induction false} SameNames()
    ensures forall name :: IsPhase(name) <==> IsValidSkillPhase(name)
    ensures forall name :: IsGate(name) <==> IsValidGate(name)
    ensures forall tool :: Edits(tool) <==> IsGuardedTool(tool)
    ensures forall phase :: SkillFile(phase) == SkillPath(phase)
    ensures LIFETIME == MAX_AGE
  { }

  // ---- Inits, starts, reads and gates of a run ----

  /** The event is an init that writes a new state. */
  predicate Initialises(file: Option<PhaseState>, e: Event, now: int) {
    e.Init? && IsPhase(e.phase) && (e.force || Loaded(file, now).None?)
  }

  /** The event is an init or start that took effect. */
  predicate Restarts(file: Option<PhaseState>, e: Event, now: int) {
    Initialises(file, e, now) || (e.Start? && IsPhase(e.phase) && Loaded(file, now).Some?)
  }

  /** The event reads the skill file of some phase, here or in any directory, with either kind of slash. */
  ghost predicate Reads(e: Event, skill: string) {
    && e.Tool? && e.name == "Read" && e.path.Some?
    && exists name :: skill == SkillFile(name) && EndsInSkill(e.path.value, name)
  }

  /** The event passes the gate. */
  predicate Passes(e: Event, gate: string) { e == Gate(gate) && IsGate(gate) }

  /** The event removes a state of an init at time `init`: a clean, the final gate, or a look at it once it is stale. */
  predicate Ends(e: Event, now: int, init: int) {
    var stale := now - init > LIFETIME;
    match e
    case Init(_, _, _) => false
    case Start(phase) => IsPhase(phase) && stale
    case Gate(gate) => IsGate(gate) && (gate == "final" || stale)
    case Tool(name, _) => (Edits(name) || name == "Read") && stale
    case StopHook(active) => !active && stale
    case CleanIfFinal => stale
    case Clean => true
  }

  predicate InitAt(events: Run, k: nat) {
    k < |events| && Initialises(After(events[..k]), events[k].0, events[k].1)
  }

  predicate RestartAt(events: Run, k: nat) {
    k < |events| && Restarts(After(events[..k]), events[k].0, events[k].1)
  }

  ghost predicate IsLastInit(events: Run, k: nat) {
    InitAt(events, k) && forall j: nat :: k < j < |events| ==> !InitAt(events, j)
  }

  ghost predicate NoRestartAfter(events: Run, k: nat) {
    forall j: nat :: k < j < |events| ==> !RestartAt(events, j)
  }

  /** The state of the init at k was not removed since. */
  ghost predicate Undisturbed(events: Run, k: nat)
    requires k < |events|
  {
    forall j: nat :: k < j < |events| ==> !Ends(events[j].0, events[j].1, events[k].1)
  }

  /** The skill was read, and nothing was initialised or started since. */
  ghost predicate ReadSince(events: Run, skill: string) {
    exists k: nat :: k < |events| && Reads(events[k].0, skill) && NoRestartAfter(events, k)
  }

  ghost predicate PassedSince(events: Run, gate: string) {
    exists k: nat :: k < |events| && Passes(events[k].0, gate) && NoRestartAfter(events, k)
  }

  /** The last init or start that took effect named this phase. */
  ghost predicate InPhase(events: Run, phase: string) {
    exists k: nat :: NamesAt(events, k, phase)
  }

  ghost predicate NamesAt(events: Run, k: nat, phase: string) {
    RestartAt(events, k) && NoRestartAfter(events, k) && PhaseOf(events[k].0) == phase
  }

  function EpicOf(e: Event): string { if e.Init? then e.epicId else "" }

  function PhaseOf(e: Event): string { if e.Init? || e.Start? then e.phase else "" }

  /** The last effective init is no more than LIFETIME old, and its state was not removed since. */
  ghost predicate Lives(events: Run, now: int) {
    exists k: nat :: IsLastInit(events, k) && Undisturbed(events, k) && now - events[k].1 <= LIFETIME
  }

  // ---- One event ----

  lemma {:induction false} OneInit(file: Option<PhaseState>, e: Event, now: int)
    requires Good(file)
    ensures Initialises(file, e, now) ==>
      && Next(file, e, now).Some?
      && Next(file, e, now).value.startedAt == now && Next(file, e, now).value.epicId == EpicOf(e)
    ensures !Initialises(file, e, now) && file.None? ==> Next(file, e, now).None?
    ensures !Initialises(file, e, now) && file.Some? ==>
      (Next(file, e, now).None? <==> Ends(e, now, file.value.startedAt))
    ensures !Initialises(file, e, now) && Next(file, e, now).Some? ==>
      Next(file, e, now).value.startedAt == file.value.startedAt && Next(file, e, now).value.epicId == file.value.epicId
  {
    hide SkillInPath, SkillPath, NoDuplicates;
  }

  lemma {:induction false} OneRestart(file: Option<PhaseState>, e: Event, now: int)
    requires Good(file) && Restarts(file, e, now)
    ensures Next(file, e, now).Some?
    ensures var s := Next(file, e, now).value; s.skillsRead == [] && s.gatesPassed == [] && s.currentPhase == PhaseOf(e)
  {
    hide SkillInPath, SkillPath, NoDuplicates;
  }

  lemma {:induction false} OneRecord(file: Option<PhaseState>, e: Event, now: int)
    requires Good(file) && !Restarts(file, e, now) && Next(file, e, now).Some?
    ensures file.Some?
    ensures var (s, s') := (file.value, Next(file, e, now).value);
      && s'.currentPhase == s.currentPhase
      && (forall skill :: skill in s'.skillsRead <==> skill in s.skillsRead || Reads(e, skill))
      && (forall gate :: gate in s'.gatesPassed <==> gate in s.gatesPassed || Passes(e, gate))
  {
    hide SkillInPath, SkillPath, SkillFile, NoDuplicates, EndsInSkill;
    SameNames();
    if e.Tool? && e.path.Some? {
      forall name ensures SkillInPath(e.path.value) == Some(name) <==> EndsInSkill(e.path.value, name) {
        SkillInPathIff(e.path.value, name);
      }
    }
  }

  // ---- One event more ----

  lemma {:induction false} SameBefore(events: Run, k: nat)
    requires events != [] && k < |events| - 1
    ensures InitAt(events, k) <==> InitAt(events[..|events| - 1], k)
    ensures RestartAt(events, k) <==> RestartAt(events[..|events| - 1], k)
  {
    assert events[..|events| - 1][..k] == events[..k];
  }

  lemma {:induction false} LastsBefore(events: Run, k: nat)
    requires events != [] && k < |events| - 1
    ensures var (front, n) := (events[..|events| - 1], |events| - 1);
      && (IsLastInit(events, k) <==> IsLastInit(front, k) && !InitAt(events, n))
      && (NoRestartAfter(events, k) <==> NoRestartAfter(front, k) && !RestartAt(events, n))
      && (Undisturbed(events, k) <==> Undisturbed(front, k) && !Ends(events[n].0, events[n].1, events[k].1))
  {
    hide InitAt, RestartAt, Ends;
    var front := events[..|events| - 1];
    forall j: nat | j < |front|
      ensures (InitAt(events, j) <==> InitAt(front, j)) && (RestartAt(events, j) <==> RestartAt(front, j))
        && events[j] == front[j]
    {
      SameBefore(events, j);
    }
  }

  // ---- What the phase file holds ----

  /** The file exists exactly when the last init's state was not removed, and carries that init's time. */
  ghost predicate LifeRecorded(events: Run) {
    var file := After(events);
    && (file.Some? ==> exists k: nat :: IsLastInit(events, k))
    && (forall k: nat :: IsLastInit(events, k) ==>
      && (file.Some? <==> Undisturbed(events, k))
      && (file.Some? ==> file.value.startedAt == events[k].1 && file.value.epicId == EpicOf(events[k].0)))
  }

  lemma {:induction false} LifeIsRecorded(events: Run)
    ensures LifeRecorded(events)
  {
    hide Initialises, Ends, After, Next;
    if events == [] {
      EmptyRun();
    } else {
      var (front, n) := (events[..|events| - 1], |events| - 1);
      LifeIsRecorded(front);
      RunIsGood(front);
      Snoc(events);
      OneInit(After(front), events[n].0, events[n].1);
      forall k: nat | k < n
        ensures IsLastInit(events, k) <==> IsLastInit(front, k) && !InitAt(events, n)
        ensures Undisturbed(events, k) <==> Undisturbed(front, k) && !Ends(events[n].0, events[n].1, events[k].1)
      {
        LastsBefore(events, k);
      }
      if InitAt(events, n) {
        assert IsLastInit(events, n);
      }
    }
  }

  lemma {:induction false} EmptyRun()
    ensures After([]) == None
  { }

  lemma {:induction false} Snoc(events: Run)
    requires events != []
    ensures var (front, n) := (events[..|events| - 1], |events| - 1);
      After(events) == Next(After(front), events[n].0, events[n].1)
  { }

  /** The file records exactly what was read and passed since the last init or start, and the phase that one named. */
  ghost predicate WorkRecorded(events: Run) {
    var file := After(events);
    file.Some? ==>
      && (forall phase :: InPhase(events, phase) <==> phase == file.value.currentPhase)
      && (forall skill :: skill in file.value.skillsRead <==> ReadSince(events, skill))
      && (forall gate :: gate in file.value.gatesPassed <==> PassedSince(events, gate))
  }

  lemma {:induction false} ReadOnce(events: Run, skill: string)
    requires events != []
    ensures var (front, n) := (events[..|events| - 1], |events| - 1);
      ReadSince(events, skill) <==> Reads(events[n].0, skill) || (ReadSince(front, skill) && !RestartAt(events, n))
  {
    hide Reads, RestartAt;
    var (front, n) := (events[..|events| - 1], |events| - 1);
    forall k: nat | k < n ensures NoRestartAfter(events, k) <==> NoRestartAfter(front, k) && !RestartAt(events, n) {
      LastsBefore(events, k);
    }
    assert NoRestartAfter(events, n);
    assert forall k: nat :: k < n ==> front[k] == events[k];
    if k: nat :| k < n && Reads(front[k].0, skill) && NoRestartAfter(front, k) && !RestartAt(events, n) {
      assert Reads(events[k].0, skill) && NoRestartAfter(events, k);
    }
  }

  lemma {:induction false} PassedOnce(events: Run, gate: string)
    requires events != []
    ensures var (front, n) := (events[..|events| - 1], |events| - 1);
      PassedSince(events, gate) <==> Passes(events[n].0, gate) || (PassedSince(front, gate) && !RestartAt(events, n))
  {
    hide Passes, RestartAt;
    var (front, n) := (events[..|events| - 1], |events| - 1);
    forall k: nat | k < n ensures NoRestartAfter(events, k) <==> NoRestartAfter(front, k) && !RestartAt(events, n) {
      LastsBefore(events, k);
    }
    assert NoRestartAfter(events, n);
    assert forall k: nat :: k < n ==> front[k] == events[k];
    if k: nat :| k < n && Passes(front[k].0, gate) && NoRestartAfter(front, k) && !RestartAt(events, n) {
      assert Passes(events[k].0, gate) && NoRestartAfter(events, k);
    }
  }

  lemma {:induction false} NamesBefore(events: Run, k: nat, phase: string)
    requires events != []
    ensures var (front, n) := (events[..|events| - 1], |events| - 1);
      NamesAt(events, k, phase) <==>
        if RestartAt(events, n) then k == n && phase == PhaseOf(events[n].0) else NamesAt(front, k, phase)
  {
    hide Restarts, PhaseOf;
    if k < |events| - 1 {
      LastsBefore(events, k);
      SameBefore(events, k);
      assert events[..|events| - 1][k] == events[k];
    }
  }

  lemma {:induction false} PhaseOnce(events: Run, phase: string)
    requires events != []
    ensures var (front, n) := (events[..|events| - 1], |events| - 1);
      InPhase(events, phase) <==> if RestartAt(events, n) then phase == PhaseOf(events[n].0) else InPhase(front, phase)
  {
    hide RestartAt, PhaseOf, NamesAt;
    var (front, n) := (events[..|events| - 1], |events| - 1);
    NamesBefore(events, n, phase);
    if k: nat :| NamesAt(events, k, phase) {
      NamesBefore(events, k, phase);
    }
    if k: nat :| NamesAt(front, k, phase) {
      NamesBefore(events, k, phase);
    }
  }

  lemma {:induction false} RestartIsRead(e: Event, file: Option<PhaseState>, now: int, skill: string)
    ensures Restarts(file, e, now) ==> !Reads(e, skill) && forall gate :: !Passes(e, gate)
  { }

  lemma {:induction false} WorkIsRecorded(events: Run)
    ensures WorkRecorded(events)
  {
    hide Restarts, Reads, Passes, PhaseOf, After, Next, ReadSince, PassedSince, InPhase;
    if events == [] {
      EmptyRun();
    } else {
      var (front, n) := (events[..|events| - 1], |events| - 1);
      var (e, now) := (events[n].0, events[n].1);
      WorkIsRecorded(front);
      RunIsGood(front);
      Snoc(events);
      forall phase
        ensures InPhase(events, phase) <==> if RestartAt(events, n) then phase == PhaseOf(e) else InPhase(front, phase)
      {
        PhaseOnce(events, phase);
      }
      forall skill
        ensures ReadSince(events, skill) <==> Reads(e, skill) || (ReadSince(front, skill) && !RestartAt(events, n))
        ensures RestartAt(events, n) ==> !Reads(e, skill)
      {
        ReadOnce(events, skill);
        RestartIsRead(e, After(front), now, skill);
      }
      forall gate
        ensures PassedSince(events, gate) <==> Passes(e, gate) || (PassedSince(front, gate) && !RestartAt(events, n))
      {
        PassedOnce(events, gate);
      }
      if Restarts(After(front), e, now) {
        OneRestart(After(front), e, now);
        RestartIsRead(e, After(front), now, "");
      } else if After(events).Some? {
        OneRecord(After(front), e, now);
      }
    }
  }

  // ---- The hooks, for every run ----

  /** A stored state names one of the six phases, with its index. */
  lemma {:induction false} IndexIsPosition(events: Run)
    requires After(events).Some?
    ensures (After(events).value.phaseIndex, After(events).value.currentPhase) in
      {(1, "spec-dev"), (2, "plan"), (3, "work"), (4, "review"), (5, "compound"), (6, "architect")}
  {
    hide After, NoDuplicates;
    RunIsGood(events);
    SameNames();
  }

  /** No start, gate or read prolongs a state: it lives from its init until something ends it, LIFETIME at most. */
  lemma {:induction false} LifeIsFromInit(events: Run, now: int)
    ensures Loaded(After(events), now).Some? <==> Lives(events, now)
  {
    hide After, IsLastInit, Undisturbed;
    RunIsGood(events);
    LifeIsRecorded(events);
    LastInitIsInside(events);
  }

  lemma {:induction false} LastInitIsInside(events: Run)
    ensures forall k: nat :: IsLastInit(events, k) ==> k < |events|
  { }

  /**
    A guarded edit is warned of exactly when a state lives and the skill of its phase was not read since the last
    init or start.
   */
  lemma {:induction false} GuardIsExact(events: Run, tool: string, now: int)
    ensures Warns(After(events), tool, now) <==>
      Edits(tool) && Lives(events, now) &&
        exists phase :: InPhase(events, phase) && !ReadSince(events, SkillFile(phase))
  {
    hide After, Lives, InPhase, ReadSince, PassedSince, SkillPath, SkillFile, IsGuardedTool, Edits;
    SameNames();
    RunIsGood(events);
    LifeIsFromInit(events, now);
    WorkIsRecorded(events);
    if Loaded(After(events), now).Some? {
      assert InPhase(events, After(events).value.currentPhase);
    }
  }

  /**
    A stop is refused exactly while a state lives, and either the phase is compound, or it is plan, work or review,
    its gate was not passed and the next phase's skill was read, both since the last init or start.
   */
  lemma {:induction false} StopIsRefusedIff(events: Run, now: int)
    ensures Refuses(After(events), false, now) <==>
      Lives(events, now) && (InPhase(events, "compound") || MovesOn(events))
  {
    hide After, Lives, InPhase, ReadSince, PassedSince, SkillPath, SkillFile, NoDuplicates;
    SameNames();
    RunIsGood(events);
    LifeIsFromInit(events, now);
    WorkIsRecorded(events);
    assert PHASES[0] == "spec-dev" && PHASES[1] == "plan" && PHASES[2] == "work" && PHASES[3] == "review"
      && PHASES[4] == "compound";
    if Loaded(After(events), now).Some? {
      var s := After(events).value;
      assert InPhase(events, s.currentPhase);
      assert forall i :: 1 <= i < 4 ==> (s.phaseIndex == i + 1 <==> s.currentPhase == PHASES[i]);
    }
  }

  /** The next phase's skill was read before the gate of this one was passed. */
  ghost predicate MovesOn(events: Run) {
    || (InPhase(events, "plan") && !PassedSince(events, "post-plan") && ReadSince(events, SkillFile("work")))
    || (InPhase(events, "work") && !PassedSince(events, "gate-3") && ReadSince(events, SkillFile("review")))
    || (InPhase(events, "review") && !PassedSince(events, "gate-4") && ReadSince(events, SkillFile("compound")))
  }

  /** In the compound phase a stop is always refused while the state lives, unless the stop hook is already active. */
  lemma {:induction false} CompoundStopIsRefused(events: Run, now: int)
    requires Lives(events, now) && InPhase(events, "compound")
    ensures Refuses(After(events), false, now) && !Refuses(After(events), true, now)
  {
    StopIsRefusedIff(events, now);
  }
}
