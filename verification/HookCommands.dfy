/** Hook commands and how they are recognised (setup/settings.go, util/shellescape.go). */
module HookCommands {
  import opened Prelude
  import opened Text

  // ---- Shell quoting ----

  function EscapeQuotes(s: string): string {
    if s == "" then "" else (if s[0] == '\'' then "'\\''" else [s[0]]) + EscapeQuotes(s[1..])
  }

  function ShellEscape(s: string): string { "'" + EscapeQuotes(s) + "'" }

  /**
    The value of a shell word made of single-quoted stretches and backslashed characters (POSIX.1-2017, section 2.2).
   */
  function ShellWord(s: string, quoted: bool): Option<string> {
    if s == "" then (if quoted then None else Some(""))
    else if s[0] == '\'' then ShellWord(s[1..], !quoted)
    else if quoted then Prepend(s[0], ShellWord(s[1..], true))
    else if s[0] == '\\' && |s| > 1 then Prepend(s[1], ShellWord(s[2..], false))
    else None
  }

  function Prepend(c: char, word: Option<string>): Option<string> {
    if word.None? then None else Some([c] + word.value)
  }

  lemma {:induction false} QuotedWord(s: string)
    ensures ShellWord(EscapeQuotes(s) + "'", true) == Some(s)
  {
    hide ShellWord;
    if s == "" {
      ClosingQuote();
    } else {
      QuotedWord(s[1..]);
      var rest := EscapeQuotes(s[1..]) + "'";
      assert s == [s[0]] + s[1..];
      if s[0] == '\'' {
        EscapedQuote(rest);
        assert EscapeQuotes(s) + "'" == "'\\''" + rest;
      } else {
        QuotedChar(s[0], rest);
        assert EscapeQuotes(s) + "'" == [s[0]] + rest;
      }
    }
  }

  lemma {:induction false} ClosingQuote()
    ensures ShellWord(EscapeQuotes("") + "'", true) == Some("")
  {
    assert EscapeQuotes("") + "'" == "'" && "'"[1..] == "";
  }

  lemma {:induction false} QuotedChar(c: char, rest: string)
    requires c != '\''
    ensures ShellWord([c] + rest, true) == Prepend(c, ShellWord(rest, true))
  {
    assert ([c] + rest)[1..] == rest;
  }

  lemma {:induction false} EscapedQuote(rest: string)
    ensures ShellWord("'\\''" + rest, true) == Prepend('\'', ShellWord(rest, true))
  {
    var text := "'\\''" + rest;
    var bare := text[1..];
    assert bare == "\\''" + rest && bare[0] == '\\' && bare[1] == '\'';
    var again := bare[2..];
    assert again == "'" + rest && again[0] == '\'' && again[1..] == rest;
    assert ShellWord(again, false) == ShellWord(rest, true);
    assert ShellWord(bare, false) == Prepend('\'', ShellWord(again, false));
  }

  /** The shell reads an escaped string back as that one string, whatever is in it. */
  lemma {:induction false} ShellEscapeRoundTrip(s: string)
    ensures ShellWord(ShellEscape(s), false) == Some(s)
  {
    QuotedWord(s);
    assert ShellEscape(s)[1..] == EscapeQuotes(s) + "'";
  }

  lemma {:induction false} NothingToEscape(s: string)
    requires '\'' !in s
    ensures EscapeQuotes(s) == s
  {
    if s != "" {
      NothingToEscape(s[1..]);
      assert s == [s[0]] + s[1..];
    }
  }

  // ---- Recognising commands ----

  function IndexOf(s: string, c: char): (at: Option<nat>)
    ensures at.Some? ==> at.value < |s| && s[at.value] == c
  {
    if s == "" then None
    else if s[0] == c then Some(0)
    else var at := IndexOf(s[1..], c); if at.None? then None else Some(at.value + 1)
  }

  lemma {:induction false} IndexOfFirst(a: string, c: char, b: string)
    requires c !in a
    ensures IndexOf(a + [c] + b, c) == Some(|a|)
  {
    var s := a + [c] + b;
    if a != "" {
      assert s[1..] == a[1..] + [c] + b;
      IndexOfFirst(a[1..], c, b);
    }
  }

  predicate EndsWith(s: string, suffix: string) { |suffix| <= |s| && s[|s| - |suffix|..] == suffix }

  function NormalizeManagedCommand(cmd: string): string {
    var trimmed := TrimSpace(cmd);
    if "npx ca " <= trimmed then "BIN " + trimmed[7..]
    else if trimmed != "" && trimmed[0] == '\'' && IndexOf(trimmed[1..], '\'').Some? then
      "BIN" + trimmed[IndexOf(trimmed[1..], '\'').value + 2..]
    else
      var space := IndexOf(trimmed, ' ');
      if space.Some? && (trimmed[..space.value] == "ca" || EndsWith(trimmed[..space.value], "/ca"))
        then "BIN" + trimmed[space.value..]
      else trimmed
  }

  predicate CommandHasMarker(cmd: string, marker: string) {
    Contains(cmd, marker) || ("BIN " <= marker && Contains(NormalizeManagedCommand(cmd), marker))
  }

  predicate HasAnyMarker(cmd: string, markers: seq<string>) {
    exists k :: 0 <= k < |markers| && CommandHasMarker(cmd, markers[k])
  }

  // ---- The commands that are installed ----

  const NPX := "npx ca "

  const TAIL := " 2>/dev/null || true"

  /** makePrimeCommand and makeHookCommand, for a binary path. */
  function BinaryCommand(path: string, verb: string): string { ShellEscape(path) + " " + verb + TAIL }

  /** The same without a binary. */
  function NpxCommand(verb: string): string { "npx ca " + verb + TAIL }

  /** A verb of the program: letters before x, blanks and dashes. It can hold neither a marker nor an npx call. */
  predicate IsVerb(verb: string) {
    forall i :: 0 <= i < |verb| ==> verb[i] == ' ' || verb[i] == '-' || 'a' <= verb[i] <= 'w'
  }

  lemma {:induction false} TrimmedAlready(s: string)
    requires s != "" && !IsSpace(s[0]) && !IsSpace(s[|s| - 1])
    ensures TrimSpace(s) == s
  { }

  lemma {:induction false} NormalizeAt(cmd: string, at: nat)
    requires TrimSpace(cmd) == cmd && cmd != "" && cmd[0] == '\'' && IndexOf(cmd[1..], '\'') == Some(at)
    ensures NormalizeManagedCommand(cmd) == "BIN" + cmd[at + 2..]
  {
    hide TrimSpace, IndexOf, EndsWith;
    assert !("npx ca " <= cmd);
  }

  /** Normalisation cuts a quoted word at its first inner quote. */
  lemma {:induction false} NormalizeQuoted(word: string, tail: string)
    requires '\'' !in word && tail != "" && !IsSpace(tail[|tail| - 1])
    ensures NormalizeManagedCommand("'" + word + "'" + tail) == "BIN" + tail
  {
    hide TrimSpace, IndexOf, NormalizeManagedCommand;
    var cmd := "'" + word + "'" + tail;
    assert cmd[0] == '\'' && cmd[|cmd| - 1] == tail[|tail| - 1];
    TrimmedAlready(cmd);
    assert cmd[1..] == word + ['\''] + tail;
    IndexOfFirst(word, '\'', tail);
    NormalizeAt(cmd, |word|);
    assert cmd[|word| + 2..] == tail;
  }

  lemma {:induction false} TailEnds(text: string)
    ensures text + TAIL != "" && !IsSpace((text + TAIL)[|text + TAIL| - 1])
  {
    assert (text + TAIL)[|text + TAIL| - 1] == TAIL[|TAIL| - 1] == 'e';
  }

  /** A path without quotes is undone by normalisation: only the verb is left. */
  lemma {:induction false} NormalizeUndoesEscape(path: string, verb: string)
    requires '\'' !in path
    ensures NormalizeManagedCommand(BinaryCommand(path, verb)) == "BIN " + verb + TAIL
  {
    hide EscapeQuotes, NormalizeManagedCommand, IsSpace;
    NothingToEscape(path);
    var tail := " " + verb + TAIL;
    TailEnds(" " + verb);
    NormalizeQuoted(path, tail);
    assert BinaryCommand(path, verb) == "'" + path + "'" + tail;
    assert "BIN" + tail == "BIN " + verb + TAIL;
  }

  lemma {:induction false} NormalizeUndoesNpx(verb: string)
    ensures NormalizeManagedCommand(NpxCommand(verb)) == "BIN " + verb + TAIL
  {
    var cmd := NpxCommand(verb);
    assert cmd[|cmd| - 1] == 'e' by { assert cmd[|cmd| - 1] == TAIL[|TAIL| - 1]; }
    assert cmd[0] == 'n';
    TrimmedAlready(cmd);
    assert cmd[7..] == verb + TAIL;
    assert "npx ca " <= cmd;
  }

  lemma {:induction false} ContainsSuffix(a: string, b: string, part: string)
    requires Contains(b, part)
    ensures Contains(a + b, part)
  {
    if a == "" {
      assert a + b == b;
    } else {
      assert (a + b)[1..] == a[1..] + b;
      ContainsSuffix(a[1..], b, part);
    }
  }

  lemma {:induction false} ContainsItself(part: string, after: string)
    ensures Contains(part + after, part)
  { }

  /** A command of the binary carries the marker of its own verb. */
  lemma {:induction false} OwnMarkerFound(path: string, verb: string)
    requires '\'' !in path
    ensures CommandHasMarker(BinaryCommand(path, verb), "BIN " + verb)
  {
    NormalizeUndoesEscape(path, verb);
    ContainsItself("BIN " + verb, TAIL);
    assert "BIN " <= "BIN " + verb;
  }

  /** It contains a text without quotes only if the path or the rest does. */
  lemma {:induction false} CommandContains(path: string, verb: string, part: string)
    requires '\'' !in path && '\'' !in part && part != ""
    ensures Contains(BinaryCommand(path, verb), part) <==> Contains(path, part) || Contains(" " + verb + TAIL, part)
  {
    NothingToEscape(path);
    var rest := " " + verb + TAIL;
    assert BinaryCommand(path, verb) == "" + ['\''] + (path + ['\''] + rest);
    ContainsAcross("", '\'', path + ['\''] + rest, part);
    ContainsAcross(path, '\'', rest, part);
  }

  /** It carries no marker that neither the path nor the normalised command contains. */
  lemma {:induction false} ForeignMarkerAbsent(path: string, verb: string, marker: string)
    requires '\'' !in path && '\'' !in marker && marker != "" && !Contains(path, marker)
      && !Contains("BIN " + verb + TAIL, marker)
    ensures !CommandHasMarker(BinaryCommand(path, verb), marker)
  {
    hide NormalizeManagedCommand, BinaryCommand;
    NormalizeUndoesEscape(path, verb);
    CommandContains(path, verb, marker);
    assert "BIN" + (" " + verb + TAIL) == "BIN " + verb + TAIL;
    if Contains(" " + verb + TAIL, marker) {
      ContainsSuffix("BIN", " " + verb + TAIL, marker);
    }
  }

  /** Markers "BIN w" for another verb, and markers with a double quote, are not in a normalised command. */
  lemma {:induction false} NormalisedIsPlain(verb: string, marker: string)
    requires 'B' !in verb && '"' !in verb && (('"' in marker)
      || ("BIN " <= marker && !(marker <= "BIN " + verb + TAIL)))
    ensures !Contains("BIN " + verb + TAIL, marker)
  {
    var normal := "BIN " + verb + TAIL;
    if '"' in marker {
      ContainsNeedsChars(normal, marker, '"');
    } else {
      assert marker[0] == 'B';
      assert forall i :: 0 <= i < |normal[1..]| ==> normal[1..][i] == normal[i + 1];
      assert 'B' !in TAIL && 'B' !in verb;
      ContainsAtHead(normal, marker);
    }
  }

  /** An installed command calls no npx unless its path does. */
  lemma {:induction false} InstalledCallsNoNpx(path: string, verb: string)
    requires '\'' !in path && IsVerb(verb) && !Contains(path, NPX)
    ensures !Contains(BinaryCommand(path, verb), NPX)
  {
    hide EscapeQuotes;
    CommandContains(path, verb, NPX);
    assert 'x' !in TAIL && 'x' !in " " + verb + TAIL && NPX[2] == 'x';
    ContainsNeedsChars(" " + verb + TAIL, NPX, 'x');
  }

  // ---- Paths with quotes ----

  lemma {:induction false} ContainsPrefix(a: string, b: string, part: string)
    requires Contains(a, part)
    ensures Contains(a + b, part)
  {
    if part <= a {
      assert part <= a + b by { assert (a + b)[..|part|] == a[..|part|]; }
    } else {
      assert (a + b)[1..] == a[1..] + b;
      ContainsPrefix(a[1..], b, part);
    }
  }

  lemma {:induction false} ContainsIsShorter(text: string, part: string)
    requires Contains(text, part)
    ensures |part| <= |text|
  {
    if !(part <= text) {
      ContainsIsShorter(text[1..], part);
    }
  }

  lemma {:induction false} EscapeAtQuote(a: string, b: string)
    requires '\'' !in a
    ensures EscapeQuotes(a + "'" + b) == a + "'\\''" + EscapeQuotes(b)
  {
    var s := a + "'" + b;
    if a == "" {
      assert s[1..] == b;
    } else {
      assert s[1..] == a[1..] + "'" + b;
      EscapeAtQuote(a[1..], b);
      assert a == [a[0]] + a[1..];
    }
  }

  /** What follows an escaped quote, `\''`, adds nothing to a text without quotes and backslashes. */
  lemma {:induction false} AcrossEscapedQuote(text: string, part: string)
    requires '\'' !in part && '\\' !in part && part != ""
    ensures Contains("\\''" + text, part) ==> Contains(text, part)
  {
    assert "\\''" + text == "" + ['\\'] + ("" + ['\''] + ("" + ['\''] + text));
    ContainsAcross("", '\\', "" + ['\''] + ("" + ['\''] + text), part);
    ContainsAcross("", '\'', "" + ['\''] + text, part);
    ContainsAcross("", '\'', text, part);
  }

  lemma {:induction false} EscapedContains(path: string, rest: string, part: string)
    requires '\'' !in part && '\\' !in part && part != "" && !Contains(path, part) && !Contains(rest, part)
    ensures !Contains(EscapeQuotes(path) + "'" + rest, part)
    decreases |path|
  {
    if '\'' !in path {
      NothingToEscape(path);
      assert path + "'" + rest == path + ['\''] + rest;
      ContainsAcross(path, '\'', rest, part);
    } else {
      var a, b := SplitAtQuote(path);
      EscapeAtQuote(a, b);
      assert path == (a + "'") + b && path == a + ("'" + b);
      if Contains(b, part) {
        ContainsSuffix(a + "'", b, part);
      }
      if Contains(a, part) {
        ContainsPrefix(a, "'" + b, part);
      }
      EscapedContains(b, rest, part);
      var tail := EscapeQuotes(b) + "'" + rest;
      assert EscapeQuotes(path) + "'" + rest == a + ['\''] + ("\\''" + tail);
      ContainsAcross(a, '\'', "\\''" + tail, part);
      AcrossEscapedQuote(tail, part);
    }
  }

  lemma {:induction false} SplitAtQuote(path: string) returns (a: string, b: string)
    requires '\'' in path
    ensures path == a + "'" + b && '\'' !in a
  {
    if path[0] == '\'' {
      a, b := "", path[1..];
    } else {
      a, b := SplitAtQuote(path[1..]);
      a := [path[0]] + a;
      assert path == [path[0]] + path[1..];
    }
  }

  /** Normalisation stops at a quote inside the path. */
  lemma {:induction false} NormalizeStopsAtQuote(path: string, verb: string, a: string, b: string)
    requires path == a + "'" + b && '\'' !in a
    ensures NormalizeManagedCommand(BinaryCommand(path, verb))
      == "BIN" + ("\\''" + (EscapeQuotes(b) + "'" + (" " + verb + TAIL)))
  {
    hide EscapeQuotes, NormalizeManagedCommand, IsSpace;
    EscapeAtQuote(a, b);
    var tail := "\\''" + (EscapeQuotes(b) + "'" + (" " + verb + TAIL));
    var head := "\\''" + EscapeQuotes(b) + "'" + " " + verb;
    assert tail == head + TAIL;
    TailEnds(head);
    NormalizeQuoted(a, tail);
    assert BinaryCommand(path, verb) == "'" + a + "'" + tail;
  }

  lemma {:induction false} QuotedIsUnrecognised(path: string, verb: string, marker: string)
    requires '\'' in path && !Contains(path, marker) && !Contains(" " + verb + TAIL, marker)
    requires |marker| > 3 && '\'' !in marker && '\\' !in marker
    ensures !CommandHasMarker(BinaryCommand(path, verb), marker)
  {
    hide NormalizeManagedCommand, EscapeQuotes, Contains;
    var rest := " " + verb + TAIL;
    var a, b := SplitAtQuote(path);
    assert path == (a + "'") + b;
    if Contains(b, marker) {
      ContainsSuffix(a + "'", b, marker);
    }
    EscapedContains(path, rest, marker);
    assert BinaryCommand(path, verb) == "" + ['\''] + (EscapeQuotes(path) + "'" + rest);
    ContainsAcross("", '\'', EscapeQuotes(path) + "'" + rest, marker);
    if Contains("", marker) {
      ContainsIsShorter("", marker);
    }
    NormalizeStopsAtQuote(path, verb, a, b);
    QuotedNormalForm(EscapeQuotes(b) + "'" + rest, marker);
    EscapedContains(b, rest, marker);
  }

  /** An installed command is recognised again exactly when its path has no single quote. */
  lemma {:induction false} RecognisedIffUnquoted(path: string, verb: string)
    requires IsVerb(verb) && !Contains(path, "BIN " + verb)
    ensures CommandHasMarker(BinaryCommand(path, verb), "BIN " + verb) <==> '\'' !in path
  {
    hide CommandHasMarker, BinaryCommand, Contains;
    if '\'' !in path {
      OwnMarkerFound(path, verb);
    } else {
      var (marker, rest) := ("BIN " + verb, " " + verb + TAIL);
      assert marker[0] == 'B' && 'B' !in TAIL && 'B' !in verb && 'B' !in rest;
      ContainsNeedsChars(rest, marker, 'B');
      QuotedIsUnrecognised(path, verb, marker);
    }
  }

  lemma {:induction false} QuotedNormalForm(tail: string, marker: string)
    requires |marker| > 3 && '\'' !in marker && '\\' !in marker
    ensures Contains("BIN" + ("\\''" + tail), marker) ==> Contains(tail, marker)
  {
    assert "BIN" + ("\\''" + tail) == "BIN" + ['\\'] + ("''" + tail);
    ContainsAcross("BIN", '\\', "''" + tail, marker);
    if Contains("BIN", marker) {
      ContainsIsShorter("BIN", marker);
    }
    assert "\\''" + tail == "" + ['\\'] + ("''" + tail);
    ContainsAcross("", '\\', "''" + tail, marker);
    AcrossEscapedQuote(tail, marker);
  }

  // ---- Upgrading npx commands ----

  /** strings.Replace(s, from, to, 1) */
  function ReplaceFirst(s: string, from: string, to: string): string {
    if from <= s then to + s[|from|..]
    else if s == "" then ""
    else [s[0]] + ReplaceFirst(s[1..], from, to)
  }

  function Upgraded(cmd: string, path: string): string {
    if Contains(cmd, NPX) then ReplaceFirst(cmd, NPX, ShellEscape(path) + " ") else cmd
  }

  /** An upgrade shows: no command with an npx call is its own upgrade. */
  lemma {:induction false} UpgradeChanges(cmd: string, path: string)
    ensures Upgraded(cmd, path) == cmd <==> !Contains(cmd, NPX)
  {
    hide EscapeQuotes;
    if Contains(cmd, NPX) {
      ReplacementShows(cmd, ShellEscape(path) + " ");
    }
  }

  lemma {:induction false} ReplacementShows(cmd: string, to: string)
    requires Contains(cmd, NPX) && to != "" && to[0] != 'n'
    ensures ReplaceFirst(cmd, NPX, to) != cmd
  {
    if NPX <= cmd {
      assert (to + cmd[|NPX|..])[0] == to[0] && cmd[0] == NPX[0];
    } else {
      ReplacementShows(cmd[1..], to);
      assert cmd == [cmd[0]] + cmd[1..];
    }
  }

  /** What follows the first npx call; "" when there is none. */
  function AfterFirstCall(cmd: string): string {
    if NPX <= cmd then cmd[|NPX|..] else if cmd == "" then "" else AfterFirstCall(cmd[1..])
  }

  lemma {:induction false} NoFirstCall(cmd: string)
    ensures !Contains(cmd, NPX) ==> !Contains(AfterFirstCall(cmd), NPX)
  {
    if cmd != "" && !(NPX <= cmd) {
      NoFirstCall(cmd[1..]);
    }
  }

  lemma {:induction false} QuoteBlocks(cmd: string, to: string, part: string)
    requires Contains(cmd, NPX) && to != "" && to[0] == '\'' && '\'' !in part
    ensures part <= ReplaceFirst(cmd, NPX, to) ==> part <= cmd
  {
    if NPX <= cmd {
      assert (to + cmd[|NPX|..])[0] == '\'';
    } else if part != "" {
      QuoteBlocks(cmd[1..], to, part[1..]);
      assert cmd == [cmd[0]] + cmd[1..] && part == [part[0]] + part[1..];
    }
  }

  lemma {:induction false} BlankBefore(text: string)
    ensures Contains(" " + text, NPX) <==> Contains(text, NPX)
  {
    assert (" " + text)[1..] == text && (" " + text)[0] == ' ';
  }

  lemma {:induction false} NoCallInNothing()
    ensures !Contains("", NPX)
  { }

  lemma {:induction false} ReplacedCalls(cmd: string, path: string)
    requires Contains(cmd, NPX) && '\'' !in path && !Contains(path, NPX)
    ensures Contains(ReplaceFirst(cmd, NPX, "'" + path + "' "), NPX) <==> Contains(AfterFirstCall(cmd), NPX)
  {
    var to := "'" + path + "' ";
    QuoteBlocks(cmd, to, NPX);
    if NPX <= cmd {
      var after := cmd[|NPX|..];
      assert to + after == "" + ['\''] + (path + ['\''] + (" " + after));
      ContainsAcross("", '\'', path + ['\''] + (" " + after), NPX);
      ContainsAcross(path, '\'', " " + after, NPX);
      BlankBefore(after);
      NoCallInNothing();
    } else {
      ReplacedCalls(cmd[1..], path);
      var replaced := ReplaceFirst(cmd, NPX, to);
      assert replaced[1..] == ReplaceFirst(cmd[1..], NPX, to);
    }
  }

  /** An upgraded command still calls npx exactly when there was a call after the first. */
  lemma {:induction false} UpgradedCallsIff(cmd: string, path: string)
    requires '\'' !in path && !Contains(path, NPX)
    ensures Contains(Upgraded(cmd, path), NPX) <==> Contains(cmd, NPX) && Contains(AfterFirstCall(cmd), NPX)
  {
    hide EscapeQuotes, ReplaceFirst, Contains, AfterFirstCall;
    if Contains(cmd, NPX) {
      NothingToEscape(path);
      assert ShellEscape(path) + " " == "'" + path + "' ";
      ReplacedCalls(cmd, path);
    }
  }

  /** An upgrade puts the quoted path in place of the first npx call, and touches nothing else. */
  lemma {:induction false} UpgradedIs(cmd: string, path: string) returns (a: string, b: string)
    ensures Contains(cmd, "npx ca ") ==>
      cmd == a + "npx ca " + b && Upgraded(cmd, path) == a + ShellEscape(path) + " " + b
    ensures Contains(cmd, "npx ca ") ==> !Contains(a + "npx ca", "npx ca ")
    ensures !Contains(cmd, "npx ca ") ==> Upgraded(cmd, path) == cmd
  {
    a, b := "", "";
    if Contains(cmd, NPX) {
      a, b := FirstCall(cmd, ShellEscape(path) + " ");
      assert a + (ShellEscape(path) + " ") + b == a + ShellEscape(path) + " " + b;
    }
  }

  lemma {:induction false} FirstCall(cmd: string, to: string) returns (a: string, b: string)
    requires Contains(cmd, NPX)
    ensures cmd == a + NPX + b && ReplaceFirst(cmd, NPX, to) == a + to + b && !Contains(a + "npx ca", NPX)
  {
    hide Contains, ReplaceFirst;
    ContainsStep(cmd);
    ReplaceStep(cmd, to);
    if NPX <= cmd {
      a, b := "", cmd[|NPX|..];
      ShortHasNoCall("npx ca");
      assert "" + "npx ca" == "npx ca" && cmd == NPX + b;
    } else {
      var c, d := FirstCall(cmd[1..], to);
      a, b := [cmd[0]] + c, d;
      assert cmd == [cmd[0]] + cmd[1..];
      assert [cmd[0]] + (c + to + d) == a + to + b;
      EarlierIsNoCall(cmd, c, d);
    }
  }

  lemma {:induction false} EarlierIsNoCall(cmd: string, c: string, d: string)
    requires cmd != "" && cmd[1..] == c + NPX + d && !(NPX <= cmd) && !Contains(c + "npx ca", NPX)
    ensures !Contains([cmd[0]] + c + "npx ca", NPX)
  {
    hide Contains;
    var text := [cmd[0]] + c + "npx ca";
    assert text[1..] == c + "npx ca";
    assert NPX == "npx ca" + " ";
    assert cmd == text + " " + d;
    assert NPX <= text ==> NPX <= cmd;
    ContainsStep(text);
  }

  lemma {:induction false} ContainsStep(text: string)
    ensures Contains(text, NPX) <==> NPX <= text || (text != "" && Contains(text[1..], NPX))
  { }

  lemma {:induction false} ReplaceStep(s: string, to: string)
    ensures ReplaceFirst(s, NPX, to) ==
      if NPX <= s then to + s[|NPX|..] else if s == "" then "" else [s[0]] + ReplaceFirst(s[1..], NPX, to)
  { }

  lemma {:induction false} ShortHasNoCall(s: string)
    requires |s| < |NPX|
    ensures !Contains(s, NPX)
  {
    if Contains(s, NPX) {
      ContainsIsShorter(s, NPX);
    }
  }

  /** A direct command of the program, by its name or by a path, normalises to its verb as well. */
  lemma {:induction false} NormalizeUndoesDirect(dir: string, verb: string)
    requires dir == "" || (dir[|dir| - 1] == '/' && dir[0] != '\'' && !IsSpace(dir[0]) && ' ' !in dir)
    ensures NormalizeManagedCommand(dir + "ca" + (" " + verb + TAIL)) == "BIN " + verb + TAIL
  {
    hide IsSpace, IndexOf, EndsWith, TrimSpace;
    var (word, tail) := (dir + "ca", " " + verb + TAIL);
    var cmd := word + tail;
    TailEnds(" " + verb);
    assert cmd[|cmd| - 1] == tail[|tail| - 1] && cmd[0] == word[0];
    LettersAreNoSpace();
    TrimmedAlready(cmd);
    WordIsNoNpx(word, tail);
    assert cmd == word + [' '] + tail[1..];
    IndexOfFirst(word, ' ', tail[1..]);
    assert cmd[..|word|] == word && cmd[|word|..] == tail;
    DirectWord(dir);
    assert "BIN" + tail == "BIN " + verb + TAIL;
  }

  lemma {:induction false} LettersAreNoSpace()
    ensures !IsSpace('c')
  { }

  lemma {:induction false} WordIsNoNpx(word: string, tail: string)
    requires ' ' !in word && |word| >= 2 && word[|word| - 1] == 'a' && tail != "" && tail[0] == ' '
    ensures !("npx ca " <= word + tail)
  {
    var cmd := word + tail;
    assert cmd[|word|] == ' ';
    assert forall i :: 0 <= i < |word| ==> cmd[i] == word[i] != ' ';
    NpxChars(cmd);
  }

  lemma {:induction false} NpxChars(cmd: string)
    ensures "npx ca " <= cmd ==> |cmd| > 3 && cmd[0] == 'n' && cmd[1] == 'p' && cmd[2] == 'x' && cmd[3] == ' '
  { }

  lemma {:induction false} DirectWord(dir: string)
    requires dir == "" || dir[|dir| - 1] == '/'
    ensures dir + "ca" == "ca" || EndsWith(dir + "ca", "/ca")
  {
    var word := dir + "ca";
    if dir != "" {
      assert word[|word| - 3..] == "/ca";
    } else {
      assert word == "ca";
    }
  }
}
