/** Reconciling a settings file when no binary is found: commands go through npx, and old direct ones are kept. */
module HookFallback {
  import opened Prelude
  import opened Text
  import opened HookCommands
  import opened Hooks
  import opened HookSettings

  // ---- First commands ----

  lemma {:induction false} FirstConcat(a: seq<Hook>, b: seq<Hook>, markers: seq<string>)
    ensures FirstCommand(a + b, markers) ==
      if FirstCommand(a, markers) != "" then FirstCommand(a, markers) else FirstCommand(b, markers)
  {
    hide IsManaged;
    if b == [] {
      assert a + b == a;
    } else {
      assert (a + b)[..|a + b| - 1] == a + b[..|b| - 1];
      FirstConcat(a, b[..|b| - 1], markers);
    }
  }

  lemma {:induction false} FirstOfOne(h: Hook, markers: seq<string>)
    ensures FirstCommand([h], markers) == if IsManaged(h, markers) then CommandOf(h) else ""
  {
    assert [h][..0] == [];
  }

  /** There is a first managed command exactly when something is managed; it is one of the managed commands. */
  lemma {:induction false} FirstIsManaged(hooks: seq<Hook>, markers: seq<string>)
    requires !HasAnyMarker("", markers)
    ensures FirstCommand(hooks, markers) == "" <==> Matching(hooks, markers) == []
    ensures FirstCommand(hooks, markers) != "" ==> HasAnyMarker(FirstCommand(hooks, markers), markers)
  {
    hide HasAnyMarker;
    if hooks != [] {
      FirstIsManaged(hooks[..|hooks| - 1], markers);
    }
  }

  lemma {:induction false} FirstAvoids(hooks: seq<Hook>, markers: seq<string>, other: seq<string>)
    requires Matching(hooks, other) == []
    ensures FirstCommand(hooks, markers) != "" ==> !HasAnyMarker(FirstCommand(hooks, markers), other)
  {
    hide HasAnyMarker;
    if hooks != [] {
      FirstAvoids(hooks[..|hooks| - 1], markers, other);
    }
  }

  lemma {:induction false} NothingToKeepOut(hooks: seq<Hook>, markers: seq<string>)
    ensures Matching(KeptHooks(hooks, markers), markers) == []
    ensures Matching(hooks, markers) == [] ==> KeptHooks(hooks, markers) == hooks
  {
    KeptAreUnmanaged(hooks, markers, markers);
    KeptLength(hooks, markers);
  }

  lemma {:induction false} StillUnmanaged(hooks: seq<Hook>, a: seq<string>, b: seq<string>)
    requires Matching(hooks, a) == []
    ensures Matching(KeptHooks(hooks, b), a) == []
  {
    hide IsManaged;
    if hooks != [] {
      var (front, last) := (hooks[..|hooks| - 1], hooks[|hooks| - 1]);
      StillUnmanaged(front, a, b);
      KeptConcat(KeptHooks(front, b), [last], a);
      KeptOne(last, a);
    }
  }

  // ---- The command that is installed ----

  /** The first managed command, if it is a direct one. */
  function Chosen(first: string, spec: Spec): string {
    if first != "" && !Contains(first, NPX) then first else NpxCommand(spec.verb)
  }

  /** The npx command of the spec is recognised. */
  ghost predicate IsRecognised(spec: Spec) {
    HasAnyMarker(NpxCommand(spec.verb), spec.markers) && !HasAnyMarker("", spec.markers)
  }

  lemma {:induction false} NpxCallsNpx(verb: string)
    ensures NpxCommand(verb) != "" && Contains(NpxCommand(verb), NPX)
  {
    ContainsItself(NPX, verb + TAIL);
    assert NpxCommand(verb) == NPX + (verb + TAIL);
  }

  lemma {:induction false} ChosenIsStable(first: string, spec: Spec)
    requires IsRecognised(spec) && (first == "" || HasAnyMarker(first, spec.markers))
    ensures var c := Chosen(first, spec);
      c != "" && HasAnyMarker(c, spec.markers) && Chosen(c, spec) == c
  {
    hide Contains, HasAnyMarker, NpxCommand;
    NpxCallsNpx(spec.verb);
  }

  lemma {:induction false} InstalledIsChosen(arr: seq<Entry>, spec: Spec)
    ensures InstalledOne(arr, spec, "") ==
      Filtered(arr, spec.markers) + [HookEntry(spec.matcher, Chosen(FirstCommand(Flat(arr), spec.markers), spec))]
  { }

  lemma {:induction false} FlatHookEntry(matcher: string, command: string)
    ensures Flat([HookEntry(matcher, command)]) == [Hook(command, "command")]
  {
    FlatOne(HookEntry(matcher, command));
  }

  // ---- One spec ----

  lemma {:induction false} OneSpecIsStable(arr: seq<Entry>, spec: Spec)
    requires IsRecognised(spec)
    ensures InstalledOne(InstalledOne(arr, spec, ""), spec, "") == InstalledOne(arr, spec, "")
  {
    hide InstalledOne, Filtered, Flat, FirstCommand, KeptHooks, Chosen, HasAnyMarker, Matching, HookEntry, KeptEntry;
    var (m, hooks) := (spec.markers, Flat(arr));
    var c := Chosen(FirstCommand(hooks, m), spec);
    var e := HookEntry(spec.matcher, c);
    InstalledIsChosen(arr, spec);
    FirstIsManaged(hooks, m);
    ChosenIsStable(FirstCommand(hooks, m), spec);
    // the command found the second time
    FlatConcat(Filtered(arr, m), [e]);
    FlatFiltered(arr, m);
    FlatHookEntry(spec.matcher, c);
    FirstConcat(KeptHooks(hooks, m), [Hook(c, "command")], m);
    NothingToKeepOut(hooks, m);
    FirstIsManaged(KeptHooks(hooks, m), m);
    FirstOfOne(Hook(c, "command"), m);
    InstalledIsChosen(InstalledOne(arr, spec, ""), spec);
    // the entries kept the second time
    FilteredConcat(Filtered(arr, m), [e], m);
    FilteredIsStable(arr, m);
    FilteredOne(e, m);
    KeptHookEntry(spec.matcher, c, m);
  }

  // ---- Two specs ----

  /** Both are recognised, and neither is taken for the other. */
  ghost predicate AreApart(a: Spec, b: Spec) {
    && IsRecognised(a) && IsRecognised(b)
    && !HasAnyMarker(NpxCommand(a.verb), b.markers) && !HasAnyMarker(NpxCommand(b.verb), a.markers)
  }

  function CommandA(hooks: seq<Hook>, a: Spec): string { Chosen(FirstCommand(hooks, a.markers), a) }

  function CommandB(hooks: seq<Hook>, a: Spec, b: Spec): string {
    Chosen(FirstCommand(KeptHooks(hooks, a.markers) + [Hook(CommandA(hooks, a), "command")], b.markers), b)
  }

  /** The installed entries: that of a goes again when its command is also recognised as b's. */
  function Tail(a: Spec, b: Spec, cA: string, cB: string): seq<Entry> {
    (if HasAnyMarker(cA, b.markers) then [] else [HookEntry(a.matcher, cA)]) + [HookEntry(b.matcher, cB)]
  }

  function TailHooks(b: Spec, cA: string, cB: string): seq<Hook> {
    (if HasAnyMarker(cA, b.markers) then [] else [Hook(cA, "command")]) + [Hook(cB, "command")]
  }

  function Both(arr: seq<Entry>, a: Spec, b: Spec): seq<Entry> { InstalledOne(InstalledOne(arr, a, ""), b, "") }

  lemma {:induction false} BothIs(arr: seq<Entry>, a: Spec, b: Spec)
    ensures Both(arr, a, b) == Filtered(arr, a.markers + b.markers)
      + Tail(a, b, CommandA(Flat(arr), a), CommandB(Flat(arr), a, b))
  {
    hide InstalledOne, Filtered, Flat, FirstCommand, KeptHooks, Chosen, HasAnyMarker, HookEntry, KeptEntry;
    var cA := CommandA(Flat(arr), a);
    var e := HookEntry(a.matcher, cA);
    InstalledIsChosen(arr, a);
    InstalledIsChosen(InstalledOne(arr, a, ""), b);
    FlatConcat(Filtered(arr, a.markers), [e]);
    FlatFiltered(arr, a.markers);
    FlatHookEntry(a.matcher, cA);
    FilteredConcat(Filtered(arr, a.markers), [e], b.markers);
    FilteredTwice(arr, a.markers, b.markers);
    FilteredOne(e, b.markers);
    KeptHookEntry(a.matcher, cA, b.markers);
  }

  lemma {:induction false} FlatTail(a: Spec, b: Spec, cA: string, cB: string)
    ensures Flat(Tail(a, b, cA, cB)) == TailHooks(b, cA, cB)
  {
    hide Flat, HookEntry, HasAnyMarker;
    FlatHookEntry(a.matcher, cA);
    FlatHookEntry(b.matcher, cB);
    FlatConcat([HookEntry(a.matcher, cA)], [HookEntry(b.matcher, cB)]);
    assert [] + [HookEntry(b.matcher, cB)] == [HookEntry(b.matcher, cB)];
  }

  lemma {:induction false} TailGoes(a: Spec, b: Spec, cA: string, cB: string)
    requires HasAnyMarker(cA, a.markers) && HasAnyMarker(cB, b.markers)
    ensures Filtered(Tail(a, b, cA, cB), a.markers + b.markers) == []
  {
    hide Filtered, HookEntry, HasAnyMarker, KeptEntry;
    var (eA, eB, m) := (HookEntry(a.matcher, cA), HookEntry(b.matcher, cB), a.markers + b.markers);
    MarkersConcat(cA, a.markers, b.markers);
    MarkersConcat(cB, a.markers, b.markers);
    FilteredOne(eA, m);
    FilteredOne(eB, m);
    KeptHookEntry(a.matcher, cA, m);
    KeptHookEntry(b.matcher, cB, m);
    FilteredConcat([eA], [eB], m);
    assert [] + [eB] == [eB];
  }

  lemma {:induction false} CommandsAreOwn(hooks: seq<Hook>, a: Spec, b: Spec)
    requires AreApart(a, b)
    ensures var (cA, cB) := (CommandA(hooks, a), CommandB(hooks, a, b));
      && cA != "" && HasAnyMarker(cA, a.markers) && Chosen(cA, a) == cA
      && cB != "" && HasAnyMarker(cB, b.markers) && Chosen(cB, b) == cB
  {
    hide FirstCommand, KeptHooks, Chosen, HasAnyMarker, Matching, NpxCommand;
    var second := KeptHooks(hooks, a.markers) + [Hook(CommandA(hooks, a), "command")];
    FirstIsManaged(hooks, a.markers);
    FirstIsManaged(second, b.markers);
    ChosenIsStable(FirstCommand(hooks, a.markers), a);
    ChosenIsStable(FirstCommand(second, b.markers), b);
  }

  /** A second run keeps the other entries, and chooses again among the commands that the first installed. */
  lemma {:induction false} BothAgain(arr: seq<Entry>, a: Spec, b: Spec)
    requires AreApart(a, b)
    ensures var (hooks, m) := (Flat(arr), a.markers + b.markers);
      var (cA, cB) := (CommandA(hooks, a), CommandB(hooks, a, b));
      var again := KeptHooks(hooks, m) + TailHooks(b, cA, cB);
      && Both(arr, a, b) == Filtered(arr, m) + Tail(a, b, cA, cB)
      && Both(Both(arr, a, b), a, b) == Filtered(arr, m) + Tail(a, b, CommandA(again, a), CommandB(again, a, b))
  {
    hide Filtered, Flat, KeptHooks, HasAnyMarker, Both, CommandA, CommandB, Tail, TailHooks, AreApart;
    var (hooks, m) := (Flat(arr), a.markers + b.markers);
    var (cA, cB) := (CommandA(hooks, a), CommandB(hooks, a, b));
    CommandsAreOwn(hooks, a, b);
    BothIs(arr, a, b);
    BothIs(Both(arr, a, b), a, b);
    FlatConcat(Filtered(arr, m), Tail(a, b, cA, cB));
    FlatFiltered(arr, m);
    FlatTail(a, b, cA, cB);
    FilteredConcat(Filtered(arr, m), Tail(a, b, cA, cB), m);
    FilteredIsStable(arr, m);
    TailGoes(a, b, cA, cB);
  }

  /**
    The first hook recognised as a's is a direct command that is recognised as b's too, and so is a hook that is not
    a's.
   */
  ghost predicate Entangled(hooks: seq<Hook>, a: Spec, b: Spec) {
    var first := FirstCommand(hooks, a.markers);
    && first != "" && !Contains(first, NPX) && HasAnyMarker(first, b.markers)
    && Matching(KeptHooks(hooks, a.markers), b.markers) != []
  }

  /** Which commands are installed, by what the other spec recognises. */
  lemma {:induction false} CommandsOf(hooks: seq<Hook>, a: Spec, b: Spec)
    requires AreApart(a, b)
    ensures var (cA, cB) := (CommandA(hooks, a), CommandB(hooks, a, b));
      && (Entangled(hooks, a, b) <==> HasAnyMarker(cA, b.markers) && !HasAnyMarker(cB, a.markers))
      && (HasAnyMarker(cB, a.markers) ==> HasAnyMarker(cA, b.markers) && cB == cA && !Contains(cA, NPX))
  {
    hide FirstCommand, KeptHooks, HasAnyMarker, Matching, NpxCommand, Contains;
    var (ma, mb) := (a.markers, b.markers);
    var (first, kept, cA) := (FirstCommand(hooks, ma), KeptHooks(hooks, ma), CommandA(hooks, a));
    FirstIsManaged(hooks, ma);
    NothingToKeepOut(hooks, ma);
    FirstAvoids(kept, mb, ma);
    FirstIsManaged(kept, mb);
    FirstConcat(kept, [Hook(cA, "command")], mb);
    FirstOfOne(Hook(cA, "command"), mb);
    assert HasAnyMarker(cA, mb) ==> cA == first;
  }

  lemma {:induction false} KeptOfTail(b: Spec, cA: string, cB: string, markers: seq<string>)
    ensures var (hA, hB) := (Hook(cA, "command"), Hook(cB, "command"));
      && (!HasAnyMarker(cA, b.markers) && HasAnyMarker(cA, markers) && !HasAnyMarker(cB, markers) ==>
        KeptHooks(TailHooks(b, cA, cB), markers) == [hB] && FirstCommand(TailHooks(b, cA, cB), markers) == cA)
      && (HasAnyMarker(cA, b.markers) ==> TailHooks(b, cA, cB) == [hB])
  {
    hide HasAnyMarker, KeptHooks, FirstCommand;
    var (hA, hB) := (Hook(cA, "command"), Hook(cB, "command"));
    KeptConcat([hA], [hB], markers);
    KeptOne(hA, markers);
    KeptOne(hB, markers);
    FirstConcat([hA], [hB], markers);
    FirstOfOne(hA, markers);
    FirstOfOne(hB, markers);
    assert [] + [hB] == [hB];
  }

  /** The commands of the second run: the same, except that a's is lost when they are entangled. */
  lemma {:induction false} CommandsAgain(hooks: seq<Hook>, a: Spec, b: Spec)
    requires AreApart(a, b)
    ensures var (cA, cB) := (CommandA(hooks, a), CommandB(hooks, a, b));
      var again := KeptHooks(hooks, a.markers + b.markers) + TailHooks(b, cA, cB);
      if Entangled(hooks, a, b) then CommandA(again, a) == NpxCommand(a.verb)
      else CommandA(again, a) == cA && CommandB(again, a, b) == cB
  {
    hide FirstCommand, KeptHooks, HasAnyMarker, Matching, NpxCommand, Contains, Entangled, TailHooks;
    var (ma, mb) := (a.markers, b.markers);
    var (cA, cB) := (CommandA(hooks, a), CommandB(hooks, a, b));
    var (rest, tail) := (KeptHooks(hooks, ma + mb), TailHooks(b, cA, cB));
    CommandsAreOwn(hooks, a, b);
    CommandsOf(hooks, a, b);
    RestIsUnmanaged(hooks, a, b);
    FirstConcat(rest, tail, ma);
    KeptConcat(rest, tail, ma);
    KeptOfTail(b, cA, cB, ma);
    KeptOne(Hook(cB, "command"), ma);
    FirstOfOne(Hook(cB, "command"), ma);
    FirstOfOne(Hook(cB, "command"), mb);
    FirstOfOne(Hook(cA, "command"), mb);
    var (hA, hB) := (Hook(cA, "command"), Hook(cB, "command"));
    FirstConcat(rest, [hB], mb);
    FirstConcat(rest, [hA], mb);
    FirstConcat(rest + [hB], [hA], mb);
    assert rest + [] == rest;
  }

  lemma {:induction false} RestIsUnmanaged(hooks: seq<Hook>, a: Spec, b: Spec)
    requires AreApart(a, b)
    ensures var rest := KeptHooks(hooks, a.markers + b.markers);
      KeptHooks(rest, a.markers) == rest && FirstCommand(rest, a.markers) == "" && FirstCommand(rest, b.markers) == ""
  {
    hide FirstCommand, KeptHooks, HasAnyMarker, Matching, NpxCommand;
    var (ma, mb) := (a.markers, b.markers);
    KeptTwice(hooks, ma, mb);
    NothingToKeepOut(hooks, ma);
    NothingToKeepOut(KeptHooks(hooks, ma), mb);
    StillUnmanaged(KeptHooks(hooks, ma), ma, mb);
    NothingToKeepOut(KeptHooks(hooks, ma + mb), ma);
    FirstIsManaged(KeptHooks(hooks, ma + mb), ma);
    FirstIsManaged(KeptHooks(hooks, ma + mb), mb);
  }

  /** Two specs are settled after one run exactly when they are not entangled. */
  lemma {:induction false} BothFixpointIff(arr: seq<Entry>, a: Spec, b: Spec)
    requires AreApart(a, b)
    ensures Both(Both(arr, a, b), a, b) == Both(arr, a, b) <==> !Entangled(Flat(arr), a, b)
  {
    hide Filtered, Flat, KeptHooks, HasAnyMarker, Both, CommandA, CommandB, TailHooks, AreApart, Entangled, NpxCommand;
    var (hooks, m) := (Flat(arr), a.markers + b.markers);
    var (cA, cB) := (CommandA(hooks, a), CommandB(hooks, a, b));
    var again := KeptHooks(hooks, m) + TailHooks(b, cA, cB);
    BothAgain(arr, a, b);
    CommandsAgain(hooks, a, b);
    if Entangled(hooks, a, b) {
      LostCommand(hooks, a, b);
      assert |Tail(a, b, CommandA(again, a), CommandB(again, a, b))| == 2 && |Tail(a, b, cA, cB)| == 1;
    }
  }

  lemma {:induction false} LostCommand(hooks: seq<Hook>, a: Spec, b: Spec)
    requires AreApart(a, b) && Entangled(hooks, a, b)
    ensures HasAnyMarker(CommandA(hooks, a), b.markers) && !HasAnyMarker(NpxCommand(a.verb), b.markers)
  {
    hide HasAnyMarker, NpxCommand, CommandA, CommandB, Entangled;
    CommandsOf(hooks, a, b);
  }

  // ---- The table ----

  lemma {:induction false} NpxIsPlain(verb: string, marker: string)
    requires IsVerb(verb) && IsForeign(verb, marker)
    ensures !CommandHasMarker(NpxCommand(verb), marker)
  {
    hide NormalizeManagedCommand, Contains;
    NormalizeUndoesNpx(verb);
    NormalisedIsPlain(verb, marker);
    NpxHasPlainChars(verb);
    if '"' in marker {
      ContainsNeedsChars(NpxCommand(verb), marker, '"');
    } else {
      assert marker[0] == 'B';
      ContainsNeedsChars(NpxCommand(verb), marker, 'B');
    }
  }

  lemma {:induction false} NpxHasPlainChars(verb: string)
    requires IsVerb(verb)
    ensures '"' !in NpxCommand(verb) && 'B' !in NpxCommand(verb)
  { }

  lemma {:induction false} NothingHasNoMarker(markers: seq<string>)
    requires forall m :: 0 <= m < |markers| ==> markers[m] != ""
    ensures !HasAnyMarker("", markers)
  { }

  lemma {:induction false} PlainIsRecognised(spec: Spec)
    requires IsPlainSpec(spec) && forall m :: 0 <= m < |spec.markers| ==> spec.markers[m] != ""
    ensures IsRecognised(spec)
  {
    hide NormalizeManagedCommand, Contains;
    NormalizeUndoesNpx(spec.verb);
    assert BinMarker(spec.verb) + TAIL == "BIN " + spec.verb + TAIL;
    ContainsItself(BinMarker(spec.verb), TAIL);
    assert CommandHasMarker(NpxCommand(spec.verb), spec.markers[0]);
    NothingHasNoMarker(spec.markers);
  }

  lemma {:induction false} MarkersAreTexts(t: HookType)
    ensures forall i, m :: 0 <= i < |SpecsOf(t)| && 0 <= m < |SpecsOf(t)[i].markers| ==> SpecsOf(t)[i].markers[m] != ""
  { }

  lemma {:induction false} TypeIsRecognised(t: HookType)
    ensures forall i :: 0 <= i < |SpecsOf(t)| ==> IsRecognised(SpecsOf(t)[i])
  {
    hide IsRecognised, IsPlainSpec;
    SpecsArePlain(t);
    MarkersAreTexts(t);
    forall i | 0 <= i < |SpecsOf(t)| ensures IsRecognised(SpecsOf(t)[i]) {
      PlainIsRecognised(SpecsOf(t)[i]);
    }
  }

  lemma {:induction false} PostSpecsAreApart()
    ensures AreApart(TOOL_SUCCESS, POST_READ)
  {
    hide IsRecognised, CommandHasMarker, IsForeign, NpxCommand;
    TypeIsRecognised(PostToolUse);
    assert SpecsOf(PostToolUse)[0] == TOOL_SUCCESS && SpecsOf(PostToolUse)[1] == POST_READ;
    PostVerbsArePlain();
    ReadIsForeign();
    SuccessIsForeign();
    forall m | 0 <= m < |POST_READ.markers|
      ensures !CommandHasMarker(NpxCommand(TOOL_SUCCESS.verb), POST_READ.markers[m])
    {
      NpxIsPlain(TOOL_SUCCESS.verb, POST_READ.markers[m]);
    }
    forall m | 0 <= m < |TOOL_SUCCESS.markers|
      ensures !CommandHasMarker(NpxCommand(POST_READ.verb), TOOL_SUCCESS.markers[m])
    {
      NpxIsPlain(POST_READ.verb, TOOL_SUCCESS.markers[m]);
    }
  }

  // ---- Whole settings ----

  /** PostToolUse is the one type with two specs, both of the workflow profile. */
  ghost predicate IsTangled(slot: Option<Value>, t: HookType, p: Profile) {
    t == PostToolUse && ProfileIncludes(Workflow, p) && Entangled(Flat(EntriesOf(slot)), TOOL_SUCCESS, POST_READ)
  }

  lemma {:induction false} ClearingIsStable(slot: Option<Value>, outs: seq<Spec>)
    ensures var once := FinalSlot(slot, [], outs, ""); FinalSlot(once, [], outs, "") == once
  {
    hide Filtered;
    if slot.Some? && slot.value.Arr? {
      var arr := slot.value.entries;
      ClearedAtOnce(arr, outs);
      ClearedAtOnce(Cleared(arr, outs), outs);
      FilteredIsStable(arr, AllMarkers(outs));
    }
  }

  lemma {:induction false} InstallingIs(slot: Option<Value>, ins: seq<Spec>)
    requires ins != []
    ensures FinalSlot(slot, ins, [], "") == Some(Arr(Installed(EntriesOf(slot), ins, "")))
  {
    hide InstalledOne;
    assert InstalledOne(Installed(EntriesOf(slot), ins[..|ins| - 1], ""), ins[|ins| - 1], "") != [] by {
      InstalledIsChosen(Installed(EntriesOf(slot), ins[..|ins| - 1], ""), ins[|ins| - 1]);
    }
  }

  lemma {:induction false} InstalledOneOrTwo(arr: seq<Entry>, a: Spec, b: Spec)
    ensures Installed(arr, [a], "") == InstalledOne(arr, a, "")
    ensures Installed(arr, [a, b], "") == Both(arr, a, b)
  {
    hide InstalledOne;
    assert [a][..0] == [] && [a, b][..1] == [a];
  }

  lemma {:induction false} FallbackSlot(before: Option<Value>, t: HookType, p: Profile)
    ensures var once := FinalSlot(before, Ins(t, p), Outs(t, p), "");
      FinalSlot(once, Ins(t, p), Outs(t, p), "") == once <==> !IsTangled(before, t, p)
  {
    hide FinalSlot, Select, Installed, InstalledOne, Both, Flat, Entangled, IsRecognised;
    SelectIs(t, p, true);
    SelectIs(t, p, false);
    var arr := EntriesOf(before);
    if !ProfileIncludes(LeastProfile(t), p) {
      ClearingIsStable(before, Outs(t, p));
    } else {
      InstallingIs(before, Ins(t, p));
      InstallingIs(FinalSlot(before, Ins(t, p), Outs(t, p), ""), Ins(t, p));
      if t == PostToolUse {
        PostSpecsAreApart();
        BothFixpointIff(arr, TOOL_SUCCESS, POST_READ);
        InstalledOneOrTwo(arr, TOOL_SUCCESS, POST_READ);
        InstalledOneOrTwo(Both(arr, TOOL_SUCCESS, POST_READ), TOOL_SUCCESS, POST_READ);
      } else {
        var spec := SpecsOf(t)[0];
        TypeIsRecognised(t);
        OneSpecIsStable(arr, spec);
        InstalledOneOrTwo(arr, spec, spec);
        InstalledOneOrTwo(InstalledOne(arr, spec, ""), spec, spec);
      }
    }
  }

  /** Without a binary, reconciling twice is reconciling once exactly when the PostToolUse specs are not entangled. */
  lemma {:induction false} FallbackFixpointIff(before: HookMap, once: HookMap, twice: HookMap, p: Profile)
    requires Reconciles(before, once, "", p) && Reconciles(once, twice, "", p)
    ensures twice == once <==> !IsTangled(Slot(before, PostToolUse), PostToolUse, p)
  {
    hide FinalSlot, EntriesOf, Ins, Outs, Flat, Entangled;
    forall t ensures Slot(twice, t) == Slot(once, t) <==> !IsTangled(Slot(before, t), t, p) {
      FallbackSlot(Slot(before, t), t, p);
    }
    SameSlots(once, twice);
  }

  // ---- Settings on which it fails ----

  const READ_HOOK := "\"" + RunnerMarker("post-read")

  const BOTH_HOOK := "\"" + RunnerMarker("post-tool-success") + "; " + READ_HOOK

  const TANGLED_SETTINGS: HookMap :=
    map[PostToolUse := Arr([Entry("", [Hook(READ_HOOK, ""), Hook(BOTH_HOOK, "")])])]

  lemma {:induction false} CarriesSecond(cmd: string, spec: Spec)
    requires |spec.markers| > 1 && Contains(cmd, spec.markers[|spec.markers| - 1])
    ensures HasAnyMarker(cmd, spec.markers)
  {
    hide Contains;
    assert CommandHasMarker(cmd, spec.markers[|spec.markers| - 1]);
  }

  lemma {:induction false} BothCarriesBoth()
    ensures HasAnyMarker(BOTH_HOOK, TOOL_SUCCESS.markers) && HasAnyMarker(BOTH_HOOK, POST_READ.markers)
    ensures HasAnyMarker(READ_HOOK, POST_READ.markers) && !Contains(BOTH_HOOK, NPX)
  {
    hide Contains, RunnerMarker, HasAnyMarker;
    var (success, read) := (RunnerMarker("post-tool-success"), RunnerMarker("post-read"));
    assert read + "" == read;
    ContainsItself(read, "");
    ContainsSuffix("\"", read, read);
    CarriesSecond(READ_HOOK, POST_READ);
    ContainsSuffix("\"" + success + "; ", READ_HOOK, read);
    CarriesSecond(BOTH_HOOK, POST_READ);
    ContainsItself(success, "; " + READ_HOOK);
    ContainsSuffix("\"", success + ("; " + READ_HOOK), success);
    assert BOTH_HOOK == "\"" + (success + ("; " + READ_HOOK));
    CarriesSecond(BOTH_HOOK, TOOL_SUCCESS);
    RunnerHasNoX("post-tool-success");
    RunnerHasNoX("post-read");
    assert NPX[2] == 'x' && 'x' !in BOTH_HOOK;
    ContainsNeedsChars(BOTH_HOOK, NPX, 'x');
  }

  lemma {:induction false} RunnerHasNoX(name: string)
    requires 'x' !in name
    ensures 'x' !in RunnerMarker(name)
  { }

  lemma {:induction false} TrimIsShort(s: string)
    ensures |TrimSpace(s)| <= |s|
  {
    if s != "" {
      if IsSpace(s[0]) {
        TrimIsShort(s[1..]);
      } else if IsSpace(s[|s| - 1]) {
        TrimIsShort(s[..|s| - 1]);
      }
    }
  }

  lemma {:induction false} NormalizeIsShort(cmd: string)
    ensures |NormalizeManagedCommand(cmd)| <= |cmd| + 3
  {
    hide TrimSpace, IndexOf, EndsWith;
    TrimIsShort(cmd);
  }

  /** A marker longer than the command, and its normal form, is not in it. */
  lemma {:induction false} LongMarkerAbsent(cmd: string, marker: string)
    requires |marker| > |cmd| + 3
    ensures !CommandHasMarker(cmd, marker)
  {
    hide Contains, NormalizeManagedCommand;
    NormalizeIsShort(cmd);
    if Contains(cmd, marker) {
      ContainsIsShorter(cmd, marker);
    }
    if Contains(NormalizeManagedCommand(cmd), marker) {
      ContainsIsShorter(NormalizeManagedCommand(cmd), marker);
    }
  }

  lemma {:induction false} ReadIsNoSuccess()
    ensures !HasAnyMarker(READ_HOOK, TOOL_SUCCESS.markers)
  {
    hide CommandHasMarker;
    assert |READ_HOOK| == 26;
    forall m | 0 <= m < |TOOL_SUCCESS.markers| ensures !CommandHasMarker(READ_HOOK, TOOL_SUCCESS.markers[m]) {
      LongMarkerAbsent(READ_HOOK, TOOL_SUCCESS.markers[m]);
    }
  }

  /** Reconciling these settings again changes them again. */
  lemma {:induction false} TangledHooksMove(once: HookMap, twice: HookMap, p: Profile)
    requires ProfileIncludes(Workflow, p)
    requires Reconciles(TANGLED_SETTINGS, once, "", p) && Reconciles(once, twice, "", p)
    ensures twice != once
  {
    hide Reconciles, Contains, HasAnyMarker;
    var (hooks, ma) := ([Hook(READ_HOOK, ""), Hook(BOTH_HOOK, "")], TOOL_SUCCESS.markers);
    FlatOne(Entry("", hooks));
    BothCarriesBoth();
    ReadIsNoSuccess();
    assert hooks == [hooks[0]] + [hooks[1]];
    FirstConcat([hooks[0]], [hooks[1]], ma);
    FirstOfOne(hooks[0], ma);
    FirstOfOne(hooks[1], ma);
    KeptConcat([hooks[0]], [hooks[1]], ma);
    KeptOne(hooks[0], ma);
    KeptOne(hooks[1], ma);
    KeptOne(hooks[0], POST_READ.markers);
    assert [hooks[0]] + [] == [hooks[0]];
    FallbackFixpointIff(TANGLED_SETTINGS, once, twice, p);
  }
}
