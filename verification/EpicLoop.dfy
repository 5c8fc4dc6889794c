/** The main loop of the generated infinity-loop script (cli/commands_scripts.go). */
module EpicLoop {
  import opened Prelude
  import opened Text
  import Harvest

  // ---- The list of processed epics ----

  /** PROCESSED="$PROCESSED $EPIC_ID", once an epic. */
  function Words(ids: seq<string>): string {
    if ids == [] then "" else Words(ids[..|ids| - 1]) + [' '] + ids[|ids| - 1]
  }

  /** case " $PROCESSED " in (*" $epic_id "*) */
  predicate Mentions(processed: string, id: string) {
    Contains([' '] + processed + [' '], [' '] + id + [' '])
  }

  predicate PlainId(id: string) { id != "" && ' ' !in id }

  lemma {:induction false} FirstPart(s: string, id: string, sep: char)
    requires sep !in id
    ensures Split(s, sep)[0] == id && |Split(s, sep)| >= 2 <==> id + [sep] <= s
  {
    if s == "" {
    } else if s[0] == sep {
      assert (id + [sep])[0] == sep <==> id == "";
      assert s == [sep] + s[1..];
    } else {
      var rest := Split(s[1..], sep);
      if id != "" {
        FirstPart(s[1..], id[1..], sep);
        assert id == [id[0]] + id[1..] && s == [s[0]] + s[1..];
        assert id + [sep] == [id[0]] + (id[1..] + [sep]);
      } else {
        assert Split(s, sep)[0] != [];
      }
    }
  }

  /** A blank-delimited word occurs in a text exactly when it is one of its inner parts. */
  lemma {:induction false} WordIsInnerPart(s: string, id: string, sep: char)
    requires sep !in id
    ensures Contains(s, [sep] + id + [sep]) <==> exists k :: 0 < k < |Split(s, sep)| - 1 && Split(s, sep)[k] == id
  {
    var word := [sep] + id + [sep];
    if s != "" {
      var (parts, rest) := (Split(s, sep), Split(s[1..], sep));
      WordIsInnerPart(s[1..], id, sep);
      assert s == [s[0]] + s[1..];
      if s[0] == sep {
        FirstPart(s[1..], id, sep);
        assert word <= s <==> id + [sep] <= s[1..] by { assert word == [sep] + (id + [sep]); }
        assert forall k :: 0 < k < |parts| ==> parts[k] == rest[k - 1];
        if word <= s {
          assert parts[1] == id;
        }
        if k :| 0 < k < |rest| - 1 && rest[k] == id {
          assert parts[k + 1] == id;
        }
        if k :| 0 < k < |parts| - 1 && parts[k] == id {
          assert rest[k - 1] == id;
        }
      } else {
        assert !(word <= s) by { assert word[0] == sep; }
        assert |parts| == |rest| && forall k :: 0 < k < |parts| ==> parts[k] == rest[k];
      }
    }
  }

  lemma {:induction false} WordsAreJoined(ids: seq<string>)
    ensures Join(["", ""] + ids, ' ') == [' '] + Words(ids)
  {
    if ids == [] {
      assert ["", ""] + ids == ["", ""] && ["", ""][1..] == [""];
    } else {
      var (front, last) := (ids[..|ids| - 1], ids[|ids| - 1]);
      WordsAreJoined(front);
      assert ["", ""] + ids == (["", ""] + front) + [last];
      JoinSnoc(["", ""] + front, last, ' ');
    }
  }

  /** The textual test on PROCESSED is membership, for IDs without blanks. */
  lemma {:induction false} MentionsIsMembership(ids: seq<string>, id: string)
    requires PlainId(id) && forall i :: 0 <= i < |ids| ==> PlainId(ids[i])
    ensures Mentions(Words(ids), id) <==> id in ids
  {
    hide Split, Join, Words;
    var parts := ["", ""] + ids + [""];
    var text := [' '] + Words(ids) + [' '];
    WordsAreJoined(ids);
    JoinSnoc(["", ""] + ids, "", ' ');
    assert text == Join(parts, ' ');
    SplitJoin(parts, ' ');
    WordIsInnerPart(text, id, ' ');
    if id in ids {
      var k :| 0 <= k < |ids| && ids[k] == id;
      assert parts[k + 2] == id;
    }
    if k :| 0 < k < |parts| - 1 && parts[k] == id {
      assert k >= 2 && parts[k] == ids[k - 2];
    }
  }

  // ---- One epic ----

  /** How an attempt ends: the dispatch fails and the script exits, or the marker after cleanup. */
  datatype Ending = Fatal | Marked(marker: Harvest.Marker)

  /** What becomes of an epic, and after how many dispatches; a dry run only previews it. */
  datatype Verdict =
    | Completed(attempts: nat)
    | NeedsHuman(attempts: nat)
    | GaveUp(attempts: nat)
    | Aborted(attempts: nat)
    | Previewed(attempts: nat)

  predicate IsDecisive(e: Ending) { e.Fatal? || e.marker.Complete? || e.marker.Human? }

  /** The verdict when attempts before `attempt` settled nothing; attempts count from 1. */
  function Attempts(ends: nat -> Ending, attempt: nat, maxRetries: int): Verdict
    decreases maxRetries + 1 - attempt
  {
    if attempt > maxRetries + 1 then GaveUp(if attempt > 0 then attempt - 1 else 0)
    else match ends(attempt)
      case Fatal => Aborted(attempt)
      case Marked(Complete) => Completed(attempt)
      case Marked(Human(_)) => NeedsHuman(attempt)
      case _ => Attempts(ends, attempt + 1, maxRetries)
  }

  /** The verdict of an epic: a dry run breaks out of its first attempt before dispatching. */
  function Settled(dryRun: bool, ends: nat -> Ending, maxRetries: int): Verdict {
    if dryRun && maxRetries >= 0 then Previewed(0) else Attempts(ends, 1, maxRetries)
  }

  /** while [ $ATTEMPT -le $MAX_RETRIES ] */
  method ProcessEpic(dryRun: bool, ends: nat -> Ending, maxRetries: int) returns (verdict: Verdict)
    ensures verdict == Settled(dryRun, ends, maxRetries)
  {
    var attempt := 0;
    while attempt <= maxRetries
      invariant attempt == 0 || (attempt <= maxRetries + 1 && !dryRun)
      invariant Attempts(ends, attempt + 1, maxRetries) == Attempts(ends, 1, maxRetries)
    {
      attempt := attempt + 1;
      if dryRun {
        return Previewed(0);
      }
      match ends(attempt)
      case Fatal => return Aborted(attempt);
      case Marked(marker) =>
        match marker
        case Complete => return Completed(attempt);
        case Human(_) => return NeedsHuman(attempt);
        case Failed =>
        case NoMarker =>
    }
    verdict := GaveUp(attempt);
  }

  /**
    An epic gets at most MAX_RETRIES + 1 dispatches; it is settled by the first decisive attempt, and given up
    exactly when no attempt was decisive.
   */
  lemma {:induction false} FirstDecisiveAttempt(ends: nat -> Ending, attempt: nat, maxRetries: int)
    requires attempt >= 1
    ensures var v := Attempts(ends, attempt, maxRetries);
      && (attempt <= v.attempts <= maxRetries + 1 || v.attempts == attempt - 1)
      && (forall a: nat :: attempt <= a < v.attempts ==> !IsDecisive(ends(a)))
      && (v.GaveUp? <==> forall a: nat :: attempt <= a <= maxRetries + 1 ==> !IsDecisive(ends(a)))
      && (v.Completed? ==> attempt <= v.attempts && ends(v.attempts) == Marked(Harvest.Complete))
      && (v.NeedsHuman? ==> attempt <= v.attempts && ends(v.attempts).Marked? && ends(v.attempts).marker.Human?)
      && (v.Aborted? ==> attempt <= v.attempts && ends(v.attempts) == Fatal)
      && !v.Previewed?
    decreases maxRetries + 1 - attempt
  {
    if attempt <= maxRetries + 1 && !IsDecisive(ends(attempt)) {
      FirstDecisiveAttempt(ends, attempt + 1, maxRetries);
    }
  }

  // ---- Choosing the next epic ----

  datatype Epic = Epic(id: string, open: bool, depsClosed: bool)

  /** Epics named by the user must be open; ready epics are so already. */
  predicate Eligible(targeted: bool, e: Epic, processed: string) {
    !Mentions(processed, e.id) && (targeted ==> e.open) && e.depsClosed
  }

  const READY_LIMIT := 10

  /** The epics get_next_epic looks at: all those named, or the first ten that are ready. */
  function Looked(targeted: bool, epics: seq<Epic>): seq<Epic> {
    if targeted || |epics| <= READY_LIMIT then epics else epics[..READY_LIMIT]
  }

  function FirstEligible(targeted: bool, epics: seq<Epic>, processed: string): Option<string> {
    if epics == [] then None
    else if Eligible(targeted, epics[0], processed) then Some(epics[0].id)
    else FirstEligible(targeted, epics[1..], processed)
  }

  function NextEpic(targeted: bool, epics: seq<Epic>, processed: string): Option<string> {
    FirstEligible(targeted, Looked(targeted, epics), processed)
  }

  method GetNextEpic(targeted: bool, epics: seq<Epic>, processed: string) returns (next: Option<string>)
    ensures next == NextEpic(targeted, epics, processed)
  {
    hide Mentions;
    var looked := if targeted || |epics| <= READY_LIMIT then epics else epics[..READY_LIMIT];
    for k := 0 to |looked|
      invariant FirstEligible(targeted, looked[k..], processed) == NextEpic(targeted, epics, processed)
    {
      if Mentions(processed, looked[k].id) {
        continue;
      }
      if targeted && !looked[k].open {
        continue;
      }
      if !looked[k].depsClosed {
        continue;
      }
      return Some(looked[k].id);
    }
    next := None;
  }

  lemma {:induction false} ChosenIsListed(targeted: bool, epics: seq<Epic>, processed: string)
    ensures var next := FirstEligible(targeted, epics, processed);
      match next
      case Some(id) => exists k :: 0 <= k < |epics| && epics[k].id == id && Eligible(targeted, epics[k], processed)
      case None => forall k :: 0 <= k < |epics| ==> !Eligible(targeted, epics[k], processed)
  {
    hide Mentions;
    if epics != [] && !Eligible(targeted, epics[0], processed) {
      ChosenIsListed(targeted, epics[1..], processed);
      assert forall k :: 0 < k < |epics| ==> epics[k] == epics[1..][k - 1];
      if k :| 0 <= k < |epics[1..]| && Some(epics[1..][k].id) == FirstEligible(targeted, epics[1..], processed) {
        assert epics[k + 1] == epics[1..][k];
      }
    }
  }

  // ---- Whole runs ----

  /** LOOP_DRY_RUN, the epics named or not, and --review-every when there are reviewers. */
  datatype Options = Options(targeted: bool, maxRetries: int, dryRun: bool, reviewEvery: Option<int>)

  /**
    What the loop meets, turn by turn: memory, the epics listed, how each attempt of the turn ends, and whether a
    review after so many turns ends the script.
   */
  datatype Env = Env(memoryOk: nat -> bool, epics: nat -> seq<Epic>, ends: nat -> (nat -> Ending), blocks: nat -> bool)

  /** A line of the execution log. */
  datatype Entry = Entry(id: string, verdict: Verdict)

  datatype Stop = LowMemory | NoneLeft | EpicFailed | DispatchFailed | ReviewBlocked

  function Ids(log: seq<Entry>): seq<string> { seq(|log|, i requires 0 <= i < |log| => log[i].id) }

  /** What log_result records; nothing for a preview. */
  datatype Outcome = Complete | Skipped | Failed | Unrecorded

  function OutcomeOf(v: Verdict): Outcome {
    match v
    case Completed(_) => Complete
    case NeedsHuman(_) => Skipped
    case Previewed(_) => Unrecorded
    case _ => Failed
  }

  function Count(log: seq<Entry>, o: Outcome): nat {
    if log == [] then 0 else Count(log[..|log| - 1], o) + if OutcomeOf(log[|log| - 1].verdict) == o then 1 else 0
  }

  /** The exit code at the end of the script. */
  function ExitCode(completed: nat, failed: nat): int {
    if completed == 0 && failed == 0 then 2 else if failed == 0 then 0 else 1
  }

  /** Every ID the loop may ever be shown is one of finitely many, without blanks. */
  ghost predicate FiniteEpics(env: Env, universe: set<string>) {
    forall turn: nat, k: nat :: k < |env.epics(turn)| ==>
      env.epics(turn)[k].id in universe && PlainId(env.epics(turn)[k].id)
  }

  /** Turn k took the first eligible epic, whose verdict is the one its attempts give. */
  ghost predicate TurnOf(env: Env, opts: Options, log: seq<Entry>, k: nat)
    requires k < |log|
  {
    && env.memoryOk(k)
    && NextEpic(opts.targeted, env.epics(k), Words(Ids(log[..k]))) == Some(log[k].id)
    && log[k].verdict == Settled(opts.dryRun, env.ends(k), opts.maxRetries)
  }

  /** A failed epic is the last one, and the run stopped for the given reason. */
  ghost predicate IsRun(env: Env, opts: Options, log: seq<Entry>, stop: Stop) {
    && (forall k :: 0 <= k < |log| ==> TurnOf(env, opts, log, k) && !log[k].verdict.Aborted?)
    && (forall k :: 0 <= k < |log| ==> (log[k].verdict.GaveUp? ==> k == |log| - 1 && stop == EpicFailed))
    && Stopped(env, opts, log, stop)
  }

  /** Every turn so far lets the loop go on. */
  ghost predicate GoesOn(env: Env, opts: Options, log: seq<Entry>) {
    forall k :: 0 <= k < |log| ==> TurnOf(env, opts, log, k) && !log[k].verdict.Aborted? && !log[k].verdict.GaveUp?
  }

  ghost predicate Stopped(env: Env, opts: Options, log: seq<Entry>, stop: Stop) {
    var next := NextEpic(opts.targeted, env.epics(|log|), Words(Ids(log)));
    match stop
    case LowMemory => !env.memoryOk(|log|)
    case NoneLeft => env.memoryOk(|log|) && next == None
    case EpicFailed => log != [] && log[|log| - 1].verdict.GaveUp?
    case DispatchFailed =>
      env.memoryOk(|log|) && next.Some? && Settled(opts.dryRun, env.ends(|log|), opts.maxRetries).Aborted?
    case ReviewBlocked => log != [] && log[|log| - 1].verdict.Completed? && env.blocks(|log|)
  }

  // ---- Reviews ----

  /** A review of the commits of turns first..upto - 1: REVIEW_BASE_SHA..HEAD. */
  datatype Review = Review(first: nat, upto: nat)

  /** Epics completed in the first j turns. */
  ghost function Done(log: seq<Entry>, j: nat): nat {
    if j <= |log| then Count(log[..j], Complete) else 0
  }

  /** The turns reviewed so far. */
  function Base(reviews: seq<Review>): nat { if reviews == [] then 0 else reviews[|reviews| - 1].upto }

  /** Review i starts where the one before it ended, and has something to review. */
  ghost predicate Chained(log: seq<Entry>, reviews: seq<Review>, i: nat)
    requires i < |reviews|
  {
    && reviews[i].first == Base(reviews[..i]) < reviews[i].upto <= |log|
    && Done(log, reviews[i].first) < Done(log, reviews[i].upto)
  }

  /** A periodic review ends with the turn that completes the given number of epics since the one before it. */
  ghost predicate Periodic(log: seq<Entry>, every: int, reviews: seq<Review>, i: nat)
    requires i < |reviews|
  {
    && Chained(log, reviews, i)
    && Done(log, reviews[i].upto) == Done(log, reviews[i].first) + every
    && log[reviews[i].upto - 1].verdict.Completed?
  }

  ghost predicate AllPeriodic(log: seq<Entry>, every: int, reviews: seq<Review>) {
    forall i :: 0 <= i < |reviews| ==> Periodic(log, every, reviews, i)
  }

  /** The final review takes what is left, which is less than a period. */
  ghost predicate Final(log: seq<Entry>, every: int, reviews: seq<Review>, i: nat)
    requires i < |reviews|
  {
    && Chained(log, reviews, i) && i == |reviews| - 1 && reviews[i].upto == |log|
    && (every > 0 ==> Done(log, |log|) < Done(log, reviews[i].first) + every)
  }

  /** The script reaches the code after its loop. */
  predicate ReachesEnd(stop: Stop) { stop != DispatchFailed && stop != ReviewBlocked }

  /** Epics completed since the last review. */
  ghost function Pending(log: seq<Entry>, reviews: seq<Review>): int {
    Done(log, |log|) - Done(log, Base(reviews))
  }

  /** Between two turns: every review was periodic and let the script go on, and the next is not yet due. */
  ghost predicate OnTrack(env: Env, opts: Options, log: seq<Entry>, reviews: seq<Review>) {
    match opts.reviewEvery
    case None => reviews == []
    case Some(every) =>
      && (if every > 0 then AllPeriodic(log, every, reviews) && Pending(log, reviews) < every else reviews == [])
      && forall i :: 0 <= i < |reviews| ==> !env.blocks(reviews[i].upto)
  }

  predicate UsePeriodic(opts: Options) { opts.reviewEvery.Some? && opts.reviewEvery.value > 0 }

  /** The turn just taken completed a period. */
  ghost predicate IsDue(env: Env, opts: Options, log: seq<Entry>, reviews: seq<Review>) {
    && UsePeriodic(opts)
    && AllPeriodic(log, opts.reviewEvery.value, reviews) && Pending(log, reviews) == opts.reviewEvery.value
    && (forall i :: 0 <= i < |reviews| ==> !env.blocks(reviews[i].upto))
    && log != [] && log[|log| - 1].verdict.Completed?
  }

  /**
    All the reviews of a run: periodic ones, then a final one if anything is left and the script gets there; only the
    last can have ended the script.
   */
  ghost predicate Reviewed(env: Env, opts: Options, log: seq<Entry>, stop: Stop, reviews: seq<Review>) {
    match opts.reviewEvery
    case None => reviews == [] && stop != ReviewBlocked
    case Some(every) => ReviewedEvery(env, every, log, stop, reviews)
  }

  ghost predicate Kind(every: int, log: seq<Entry>, stop: Stop, reviews: seq<Review>, i: nat)
    requires i < |reviews|
  {
    (every > 0 && Periodic(log, every, reviews, i)) || (ReachesEnd(stop) && Final(log, every, reviews, i))
  }

  ghost predicate ReviewedEvery(env: Env, every: int, log: seq<Entry>, stop: Stop, reviews: seq<Review>) {
    && (forall i :: 0 <= i < |reviews| ==> Kind(every, log, stop, reviews, i))
    && (forall i :: 0 <= i < |reviews| - 1 ==> !env.blocks(reviews[i].upto))
    && (every > 0 ==> Pending(log, reviews) < every)
    && (ReachesEnd(stop) ==> Pending(log, reviews) == 0)
    && (stop == ReviewBlocked ==> reviews != [] && Base(reviews) == |log|)
  }

  /** The last review ended the script. */
  ghost predicate Blocked(env: Env, reviews: seq<Review>) {
    reviews != [] && env.blocks(Base(reviews))
  }

  ghost predicate DistinctIn(ids: seq<string>, universe: set<string>) {
    && (forall i :: 0 <= i < |ids| ==> ids[i] in universe && PlainId(ids[i]))
    && forall i, j :: 0 <= i < j < |ids| ==> ids[i] != ids[j]
  }

  lemma {:induction false} DistinctAreFew(ids: seq<string>, universe: set<string>)
    requires DistinctIn(ids, universe)
    ensures |ids| <= |universe|
  {
    if ids != [] {
      var last := ids[|ids| - 1];
      DistinctAreFew(ids[..|ids| - 1], universe - {last});
    }
  }

  lemma {:induction false} NextIsFresh(env: Env, targeted: bool, universe: set<string>, ids: seq<string>, turn: nat)
    requires FiniteEpics(env, universe) && DistinctIn(ids, universe)
    ensures var next := NextEpic(targeted, env.epics(turn), Words(ids));
      next.Some? ==> DistinctIn(ids + [next.value], universe)
  {
    hide Words, Mentions;
    var epics := env.epics(turn);
    ChosenIsListed(targeted, Looked(targeted, epics), Words(ids));
    var next := NextEpic(targeted, epics, Words(ids));
    if next.Some? {
      var k :| 0 <= k < |Looked(targeted, epics)| && Looked(targeted, epics)[k].id == next.value;
      assert epics[k].id == next.value;
      MentionsIsMembership(ids, next.value);
    }
  }

  /** After a completed epic: one more since the last review, and a review when that fills a period. */
  method PeriodicTrigger(env: Env, opts: Options, log: seq<Entry>, reviews: seq<Review>, base: nat, sinceReview: nat)
    returns (newReviews: seq<Review>, newBase: nat, newSince: nat, blocked: bool)
    requires base == Base(reviews) && (UsePeriodic(opts) ==> sinceReview + 1 == Pending(log, reviews))
    requires if UsePeriodic(opts) && sinceReview + 1 >= opts.reviewEvery.value then IsDue(env, opts, log, reviews)
      else OnTrack(env, opts, log, reviews)
    ensures if blocked then Reviewed(env, opts, log, ReviewBlocked, newReviews) && env.blocks(|log|)
      else OnTrack(env, opts, log, newReviews) && (UsePeriodic(opts) ==> newSince == Pending(log, newReviews))
    ensures newBase == Base(newReviews) && (blocked ==> Blocked(env, newReviews))
  {
    hide Pending, OnTrack, IsDue, Reviewed;
    newReviews, newBase, newSince, blocked := reviews, base, sinceReview, false;
    if UsePeriodic(opts) {
      newSince := newSince + 1;
      if newSince >= opts.reviewEvery.value {
        PeriodEnds(env, opts, log, reviews);
        newReviews := newReviews + [Review(base, |log|)];
        newSince, newBase, blocked := 0, |log|, env.blocks(|log|);
      }
    }
  }

  /** After the loop: a last review of what the periodic ones left. */
  method FinalTrigger(env: Env, opts: Options, log: seq<Entry>, reviews: seq<Review>, base: nat, sinceReview: nat,
    completed: nat, ghost stop: Stop) returns (newReviews: seq<Review>, blocked: bool)
    requires OnTrack(env, opts, log, reviews) && base == Base(reviews) && ReachesEnd(stop)
    requires completed == Count(log, Complete) && (UsePeriodic(opts) ==> sinceReview == Pending(log, reviews))
    ensures Reviewed(env, opts, log, stop, newReviews) && (blocked <==> Blocked(env, newReviews))
  {
    hide Pending, OnTrack, Reviewed, Count;
    LeavesTrack(env, opts, log, reviews, stop);
    newReviews, blocked := reviews, false;
    if opts.reviewEvery.Some? && (if UsePeriodic(opts) then sinceReview > 0 else completed > 0) {
      newReviews, blocked := newReviews + [Review(base, |log|)], env.blocks(|log|);
    }
  }

  /** The script from the counters' initialisation to its exit. */
  method RunLoop(env: Env, opts: Options, ghost universe: set<string>)
    returns (completed: nat, failedCount: nat, skipped: nat, processed: string, log: seq<Entry>, stop: Stop,
      reviews: seq<Review>, exitCode: int)
    requires FiniteEpics(env, universe)
    ensures IsRun(env, opts, log, stop) && Reviewed(env, opts, log, stop, reviews)
    ensures completed == Count(log, Complete) && skipped == Count(log, Skipped)
    ensures failedCount == Count(log, Failed) + if stop == LowMemory then 1 else 0
    ensures processed == Words(Ids(if stop == ReviewBlocked then log[..|log| - 1] else log))
    ensures DistinctIn(Ids(log), universe)
    ensures exitCode == if stop == DispatchFailed || Blocked(env, reviews) then 1 else ExitCode(completed, failedCount)
  {
    hide Words, NextEpic, Settled, FiniteEpics, PlainId, Count, OnTrack, IsDue, Reviewed, Pending,
      GoesOn, IsRun, Base, DistinctIn, ExitCode;
    completed, failedCount, skipped, processed, log, stop := 0, 0, 0, "", [], NoneLeft;
    reviews := [];
    var (sinceReview, base) := (0, 0);
    EmptyRun(env, opts, universe);
    while true
      invariant GoesOn(env, opts, log)
      invariant completed == Count(log, Complete) && skipped == Count(log, Skipped)
      invariant failedCount == Count(log, Failed) == 0
      invariant processed == Words(Ids(log)) && DistinctIn(Ids(log), universe)
      invariant OnTrack(env, opts, log, reviews) && base == Base(reviews)
      invariant UsePeriodic(opts) ==> sinceReview == Pending(log, reviews)
      decreases |universe| - |log|
    {
      DistinctAreFew(Ids(log), universe);
      if !env.memoryOk(|log|) {
        failedCount, stop := failedCount + 1, LowMemory;
        RunEnds(env, opts, log, stop);
        break;
      }
      var next := GetNextEpic(opts.targeted, env.epics(|log|), processed);
      if next.None? {
        stop := NoneLeft;
        RunEnds(env, opts, log, stop);
        break;
      }
      NextIsFresh(env, opts.targeted, universe, Ids(log), |log|);
      var verdict := ProcessEpic(opts.dryRun, env.ends(|log|), opts.maxRetries);
      if verdict.Aborted? {
        stop, exitCode := DispatchFailed, 1;
        RunEnds(env, opts, log, stop);
        LeavesTrack(env, opts, log, reviews, stop);
        return;
      }
      ghost var before := log;
      log := log + [Entry(next.value, verdict)];
      LogGrows(env, opts, before, next.value, verdict);
      DistinctAreFew(Ids(log), universe);
      PeriodGrows(env, opts, before, log, reviews);
      if verdict.Completed? {
        completed := completed + 1;
        var blocked;
        reviews, base, sinceReview, blocked := PeriodicTrigger(env, opts, log, reviews, base, sinceReview);
        if blocked {
          stop, exitCode := ReviewBlocked, 1;
          RunEnds(env, opts, log, stop);
          return;
        }
      } else if verdict.NeedsHuman? {
        skipped := skipped + 1;
      } else if !verdict.Previewed? {
        failedCount, stop := failedCount + 1, EpicFailed;
        processed := processed + [' '] + next.value;
        break;
      }
      processed := processed + [' '] + next.value;
    }
    var blocked;
    reviews, blocked := FinalTrigger(env, opts, log, reviews, base, sinceReview, completed, stop);
    if blocked {
      exitCode := 1;
      return;
    }
    exitCode := ExitCode(completed, failedCount);
  }

  lemma {:induction false} EmptyRun(env: Env, opts: Options, universe: set<string>)
    ensures Words(Ids([])) == "" && Count([], Complete) == Count([], Skipped) == Count([], Failed) == 0
    ensures OnTrack(env, opts, [], []) && Pending([], []) == Base([]) == 0 && DistinctIn(Ids([]), universe)
    ensures GoesOn(env, opts, [])
  { }

  lemma {:induction false} RunEnds(env: Env, opts: Options, log: seq<Entry>, stop: Stop)
    requires GoesOn(env, opts, log) && Stopped(env, opts, log, stop)
    ensures IsRun(env, opts, log, stop)
  {
    hide TurnOf, Stopped;
  }

  /** Appending an entry keeps the turns before it, and extends IDs, text and counts. */
  lemma {:induction false} LogGrows(env: Env, opts: Options, log: seq<Entry>, id: string, verdict: Verdict)
    requires GoesOn(env, opts, log)
    requires env.memoryOk(|log|) && NextEpic(opts.targeted, env.epics(|log|), Words(Ids(log))) == Some(id)
    requires verdict == Settled(opts.dryRun, env.ends(|log|), opts.maxRetries)
    ensures var grown := log + [Entry(id, verdict)];
      && (!verdict.Aborted? && !verdict.GaveUp? ==> GoesOn(env, opts, grown))
      && (verdict.GaveUp? ==> IsRun(env, opts, grown, EpicFailed)) && grown[..|log|] == log
      && Ids(grown) == Ids(log) + [id] && Words(Ids(grown)) == Words(Ids(log)) + [' '] + id
      && (forall o :: Count(grown, o) == Count(log, o) + if OutcomeOf(verdict) == o then 1 else 0)
  {
    hide NextEpic, Settled, TurnOf, Count, Words;
    var grown := log + [Entry(id, verdict)];
    NewEntry(log, id, verdict);
    forall k | 0 <= k < |log| ensures TurnOf(env, opts, grown, k) && grown[k] == log[k] {
      TurnIsKept(env, opts, log, grown, k);
    }
    NewTurn(env, opts, log, grown);
  }

  lemma {:induction false} NewEntry(log: seq<Entry>, id: string, verdict: Verdict)
    ensures var grown := log + [Entry(id, verdict)];
      && Ids(grown) == Ids(log) + [id] && Words(Ids(grown)) == Words(Ids(log)) + [' '] + id && grown[..|log|] == log
      && (forall o :: Count(grown, o) == Count(log, o) + if OutcomeOf(verdict) == o then 1 else 0)
  {
    var grown := log + [Entry(id, verdict)];
    assert Ids(grown) == Ids(log) + [id];
    assert (Ids(log) + [id])[..|log|] == Ids(log);
    assert grown[..|log|] == log;
  }

  lemma {:induction false} NewTurn(env: Env, opts: Options, log: seq<Entry>, grown: seq<Entry>)
    requires |grown| == |log| + 1 && grown[..|log|] == log
    requires env.memoryOk(|log|) && NextEpic(opts.targeted, env.epics(|log|), Words(Ids(log))) == Some(grown[|log|].id)
    requires grown[|log|].verdict == Settled(opts.dryRun, env.ends(|log|), opts.maxRetries)
    ensures TurnOf(env, opts, grown, |log|)
  {
    hide NextEpic, Settled, Words;
  }

  lemma {:induction false} TurnIsKept(env: Env, opts: Options, log: seq<Entry>, grown: seq<Entry>, k: nat)
    requires k < |log| && TurnOf(env, opts, log, k) && log <= grown
    ensures TurnOf(env, opts, grown, k) && grown[k] == log[k]
  {
    hide NextEpic, Settled, Words;
    assert grown[..k] == log[..k];
  }

  lemma {:induction false} DoneGrows(before: seq<Entry>, log: seq<Entry>, j: nat)
    requires |log| == |before| + 1 && log[..|before|] == before
    ensures j <= |before| ==> Done(log, j) == Done(before, j)
    ensures j == |log| ==> Done(log, j) == Done(before, |before|) + if log[|before|].verdict.Completed? then 1 else 0
  {
    if j <= |before| {
      assert log[..j] == before[..j];
    } else if j == |log| {
      assert log[..j] == log && before[..|before|] == before;
    }
  }

  /** A further turn leaves the reviews periodic, and adds what it completed. */
  lemma {:induction false} PeriodGrows(env: Env, opts: Options, before: seq<Entry>, log: seq<Entry>,
    reviews: seq<Review>)
    requires OnTrack(env, opts, before, reviews) && |log| == |before| + 1 && log[..|before|] == before
    ensures Pending(log, reviews) == Pending(before, reviews) + if log[|before|].verdict.Completed? then 1 else 0
    ensures if UsePeriodic(opts) && log[|before|].verdict.Completed? && Pending(log, reviews) >= opts.reviewEvery.value
      then IsDue(env, opts, log, reviews) else OnTrack(env, opts, log, reviews)
  {
    hide Done;
    if reviews != [] {
      assert Periodic(before, opts.reviewEvery.value, reviews, |reviews| - 1);
    }
    DoneGrows(before, log, |log|);
    DoneGrows(before, log, Base(reviews));
    if UsePeriodic(opts) {
      forall i | 0 <= i < |reviews| ensures Periodic(log, opts.reviewEvery.value, reviews, i) {
        assert Periodic(before, opts.reviewEvery.value, reviews, i);
        DoneGrows(before, log, reviews[i].first);
        DoneGrows(before, log, reviews[i].upto);
      }
    }
  }

  /** One more review from where the last one ended. */
  lemma {:induction false} OneMoreReview(log: seq<Entry>, every: int, reviews: seq<Review>, r: Review)
    requires r == Review(Base(reviews), |log|) && Base(reviews) < |log| && Pending(log, reviews) > 0
    ensures var more := reviews + [r];
      && Base(more) == |log| && Pending(log, more) == 0
      && (every > 0 && AllPeriodic(log, every, reviews) ==>
            forall i :: 0 <= i < |reviews| ==> Periodic(log, every, more, i))
      && (Pending(log, reviews) == every && log[|log| - 1].verdict.Completed? ==>
            Periodic(log, every, more, |reviews|))
      && (Pending(log, reviews) < every || every <= 0 ==> Final(log, every, more, |reviews|))
  {
    hide Done;
    var more := reviews + [r];
    assert more[..|reviews|] == reviews;
    if every > 0 && AllPeriodic(log, every, reviews) {
      forall i | 0 <= i < |reviews| ensures Periodic(log, every, more, i) {
        assert Periodic(log, every, reviews, i);
        assert more[..i] == reviews[..i];
      }
    }
  }

  lemma {:induction false} BaseIsBehind(env: Env, opts: Options, log: seq<Entry>, reviews: seq<Review>)
    requires UsePeriodic(opts) ==> AllPeriodic(log, opts.reviewEvery.value, reviews)
    requires UsePeriodic(opts) || reviews == []
    ensures Pending(log, reviews) > 0 ==> Base(reviews) < |log|
  {
    if reviews != [] {
      assert Periodic(log, opts.reviewEvery.value, reviews, |reviews| - 1);
    }
  }

  /** A due review is periodic, and either ends the script or leaves the run on track. */
  lemma {:induction false} PeriodEnds(env: Env, opts: Options, log: seq<Entry>, reviews: seq<Review>)
    requires IsDue(env, opts, log, reviews)
    ensures var more := reviews + [Review(Base(reviews), |log|)];
      && Base(more) == |log| && Pending(log, more) == 0
      && (if env.blocks(|log|) then Reviewed(env, opts, log, ReviewBlocked, more) else OnTrack(env, opts, log, more))
  {
    hide Done, Periodic, Pending;
    BaseIsBehind(env, opts, log, reviews);
    OneMoreReview(log, opts.reviewEvery.value, reviews, Review(Base(reviews), |log|));
  }

  lemma {:induction false} DoneIsMonotone(log: seq<Entry>, i: nat, j: nat)
    requires i <= j <= |log|
    ensures Done(log, i) <= Done(log, j)
    decreases j
  {
    if i < j {
      DoneIsMonotone(log, i, j - 1);
      assert log[..j][..j - 1] == log[..j - 1];
    }
  }

  lemma {:induction false} PendingIsNat(log: seq<Entry>, reviews: seq<Review>, every: int)
    requires reviews == [] || AllPeriodic(log, every, reviews)
    ensures Pending(log, reviews) >= 0
  {
    if reviews != [] {
      assert Periodic(log, every, reviews, |reviews| - 1);
    }
    DoneIsMonotone(log, Base(reviews), |log|);
  }

  /** Where the loop is left: the reviews of the whole run, with the final one if the script gets there. */
  lemma {:induction false} LeavesTrack(env: Env, opts: Options, log: seq<Entry>, reviews: seq<Review>, stop: Stop)
    requires OnTrack(env, opts, log, reviews) && stop != ReviewBlocked
    ensures var more := reviews + [Review(Base(reviews), |log|)];
      && (opts.reviewEvery.None? || Pending(log, reviews) == 0 || stop == DispatchFailed ==>
            Reviewed(env, opts, log, stop, reviews))
      && (opts.reviewEvery.Some? && Pending(log, reviews) > 0 && stop != DispatchFailed ==>
            Reviewed(env, opts, log, stop, more))
      && Pending(log, reviews) >= 0 && !Blocked(env, reviews) && Base(more) == |log|
      && (opts.reviewEvery.Some? && opts.reviewEvery.value <= 0 ==> Pending(log, reviews) == Count(log, Complete))
  {
    hide Periodic;
    assert log[..|log|] == log && Done(log, |log|) == Count(log, Complete) && Done(log, 0) == 0;
    PendingIsNat(log, reviews, if opts.reviewEvery.Some? then opts.reviewEvery.value else 0);
    if opts.reviewEvery.Some? && Pending(log, reviews) > 0 && stop != DispatchFailed {
      BaseIsBehind(env, opts, log, reviews);
      OneMoreReview(log, opts.reviewEvery.value, reviews, Review(Base(reviews), |log|));
    }
  }

  // ---- What every run guarantees ----

  /** Completed, skipped, failed and previewed add up to the processed epics. */
  lemma {:induction false} EveryEpicCounted(log: seq<Entry>)
    ensures Count(log, Complete) + Count(log, Skipped) + Count(log, Failed) + Count(log, Unrecorded) == |log|
  {
    if log != [] {
      EveryEpicCounted(log[..|log| - 1]);
    }
  }

  lemma {:induction false} FailuresCounted(log: seq<Entry>)
    requires forall k :: 0 <= k < |log| ==> (OutcomeOf(log[k].verdict) == Failed ==> k == |log| - 1)
    ensures Count(log, Failed) == if log != [] && OutcomeOf(log[|log| - 1].verdict) == Failed then 1 else 0
  {
    if log != [] {
      var front := log[..|log| - 1];
      forall k | 0 <= k < |front| ensures OutcomeOf(front[k].verdict) != Failed {
        assert front[k] == log[k];
      }
      FailuresCounted(front);
    }
  }

  /** The exit code tells: 1 a failure of any kind, 2 nothing done, 0 work done and none failed. */
  lemma {:induction false} ExitCodeTells(env: Env, opts: Options, log: seq<Entry>, stop: Stop, reviews: seq<Review>)
    requires IsRun(env, opts, log, stop) && Reviewed(env, opts, log, stop, reviews)
    ensures var failed := Count(log, Failed) + if stop == LowMemory then 1 else 0;
      var code := if stop == DispatchFailed || Blocked(env, reviews) then 1 else ExitCode(Count(log, Complete), failed);
      && (code == 1 <==> stop != NoneLeft || Blocked(env, reviews))
      && (code == 2 <==> stop == NoneLeft && !SomeCompleted(log))
      && (code == 0 <==> stop == NoneLeft && !Blocked(env, reviews) && SomeCompleted(log))
  {
    hide TurnOf, NextEpic, Settled;
    FailuresCounted(log);
    NoneCompleted(log);
    NoReviewWithoutWork(env, opts, log, stop, reviews);
  }

  lemma {:induction false} NoReviewWithoutWork(env: Env, opts: Options, log: seq<Entry>, stop: Stop,
    reviews: seq<Review>)
    requires Reviewed(env, opts, log, stop, reviews)
    ensures reviews != [] ==> Count(log, Complete) > 0
  {
    if reviews != [] {
      ReviewedIsChained(env, opts, log, stop, reviews);
      assert Chained(log, reviews, 0);
      DoneIsMonotone(log, reviews[0].upto, |log|);
      assert log[..|log|] == log;
    }
  }

  ghost predicate SomeCompleted(log: seq<Entry>) {
    exists k :: 0 <= k < |log| && log[k].verdict.Completed?
  }

  lemma {:induction false} NoneCompleted(log: seq<Entry>)
    ensures Count(log, Complete) == 0 <==> !SomeCompleted(log)
  {
    if log != [] {
      NoneCompleted(log[..|log| - 1]);
    }
  }

  /** The epic can be taken: not processed yet, its dependencies closed and, if named by the user, open. */
  predicate CanTake(targeted: bool, e: Epic, processed: seq<string>) {
    e.id !in processed && e.depsClosed && (!targeted || e.open)
  }

  /** Each turn takes the first epic listed that can be taken, among the first ten unless they are named. */
  lemma {:induction false} TurnTakesFirst(env: Env, opts: Options, universe: set<string>, log: seq<Entry>, k: nat)
    requires FiniteEpics(env, universe) && k < |log| && TurnOf(env, opts, log, k) && DistinctIn(Ids(log), universe)
    ensures var (epics, before) := (env.epics(k), Ids(log)[..k]);
      exists j: nat :: j < |epics| && epics[j].id == log[k].id && CanTake(opts.targeted, epics[j], before)
        && (opts.targeted || j < 10) && forall i :: 0 <= i < j ==> !CanTake(opts.targeted, epics[i], before)
  {
    hide Words, Mentions, Settled;
    var (epics, before) := (env.epics(k), Ids(log)[..k]);
    assert Ids(log[..k]) == before;
    forall i | 0 <= i < |epics|
      ensures CanTake(opts.targeted, epics[i], before) <==> Eligible(opts.targeted, epics[i], Words(before))
    {
      MentionsIsMembership(before, epics[i].id);
    }
    var j := FirstEligibleAt(opts.targeted, Looked(opts.targeted, epics), Words(before));
    assert forall i :: 0 <= i <= j ==> Looked(opts.targeted, epics)[i] == epics[i];
  }

  lemma {:induction false} FirstEligibleAt(targeted: bool, epics: seq<Epic>, processed: string) returns (j: nat)
    requires FirstEligible(targeted, epics, processed).Some?
    ensures j < |epics| && FirstEligible(targeted, epics, processed) == Some(epics[j].id)
    ensures Eligible(targeted, epics[j], processed)
    ensures forall i :: 0 <= i < j ==> !Eligible(targeted, epics[i], processed)
  {
    hide Eligible;
    if Eligible(targeted, epics[0], processed) {
      j := 0;
    } else {
      var n := FirstEligibleAt(targeted, epics[1..], processed);
      j := n + 1;
      assert forall i :: 1 <= i < j ==> epics[i] == epics[1..][i - 1];
    }
  }

  /** The counters are the numbers of turns that ended each way. */
  lemma {:induction false} CountersTell(log: seq<Entry>)
    ensures Count(log, Complete) == |set k | 0 <= k < |log| && log[k].verdict.Completed?|
    ensures Count(log, Skipped) == |set k | 0 <= k < |log| && log[k].verdict.NeedsHuman?|
    ensures Count(log, Failed) == |set k | 0 <= k < |log| && (log[k].verdict.GaveUp? || log[k].verdict.Aborted?)|
  {
    CountIsSize(log, Complete);
    CountIsSize(log, Skipped);
    CountIsSize(log, Failed);
    assert (set k | 0 <= k < |log| && log[k].verdict.Completed?) == WithOutcome(log, Complete);
    assert (set k | 0 <= k < |log| && log[k].verdict.NeedsHuman?) == WithOutcome(log, Skipped);
    assert (set k | 0 <= k < |log| && (log[k].verdict.GaveUp? || log[k].verdict.Aborted?)) == WithOutcome(log, Failed);
  }

  ghost function WithOutcome(log: seq<Entry>, o: Outcome): set<nat> {
    set k: nat | k < |log| && OutcomeOf(log[k].verdict) == o
  }

  lemma {:induction false} CountIsSize(log: seq<Entry>, o: Outcome)
    ensures Count(log, o) == |WithOutcome(log, o)|
  {
    hide OutcomeOf;
    if log != [] {
      var (front, n) := (log[..|log| - 1], |log| - 1);
      CountIsSize(front, o);
      assert WithOutcome(log, o) == WithOutcome(front, o) + if OutcomeOf(log[n].verdict) == o then {n} else {};
    }
  }

  // ---- What the reviews cover ----

  /** Review i covers the commits of turn k. */
  ghost predicate Covers(reviews: seq<Review>, i: nat, k: nat) {
    i < |reviews| && reviews[i].first <= k < reviews[i].upto
  }

  ghost predicate IsCovered(reviews: seq<Review>, k: nat) { exists i: nat :: Covers(reviews, i, k) }

  ghost predicate AllChained(log: seq<Entry>, reviews: seq<Review>) {
    forall i :: 0 <= i < |reviews| ==> Chained(log, reviews, i)
  }

  lemma {:induction false} ReviewsRise(log: seq<Entry>, reviews: seq<Review>, i: nat, j: nat)
    requires AllChained(log, reviews) && i < j < |reviews|
    ensures reviews[i].upto <= reviews[j].first
    decreases j
  {
    assert Chained(log, reviews, j) && Chained(log, reviews, j - 1);
    if i < j - 1 {
      ReviewsRise(log, reviews, i, j - 1);
    }
  }

  /** The reviews tile the turns up to the last of them: each lies in exactly one. */
  lemma {:induction false} ReviewsTile(log: seq<Entry>, reviews: seq<Review>, k: nat)
    requires AllChained(log, reviews)
    ensures IsCovered(reviews, k) <==> k < Base(reviews)
    ensures forall i: nat, j: nat :: Covers(reviews, i, k) && Covers(reviews, j, k) ==> i == j
  {
    hide Done;
    forall i: nat, j: nat | i < j && j < |reviews| ensures reviews[i].upto <= reviews[j].first {
      ReviewsRise(log, reviews, i, j);
    }
    if reviews != [] {
      var n := |reviews| - 1;
      assert Chained(log, reviews, n);
      var front := reviews[..n];
      forall i | 0 <= i < n ensures Chained(log, front, i) {
        assert Chained(log, reviews, i) && front[..i] == reviews[..i];
      }
      ReviewsTile(log, front, k);
      assert forall i: nat :: Covers(front, i, k) <==> i < n && Covers(reviews, i, k);
      assert Covers(reviews, n, k) <==> Base(front) <= k < Base(reviews);
    }
  }

  lemma {:induction false} ReviewedIsChained(env: Env, opts: Options, log: seq<Entry>, stop: Stop, reviews: seq<Review>)
    requires Reviewed(env, opts, log, stop, reviews)
    ensures AllChained(log, reviews) && Base(reviews) <= |log|
  {
    hide Done;
    if opts.reviewEvery.Some? {
      forall i | 0 <= i < |reviews| ensures Chained(log, reviews, i) {
        assert Kind(opts.reviewEvery.value, log, stop, reviews, i);
      }
      if reviews != [] {
        assert Chained(log, reviews, |reviews| - 1);
      }
    }
  }

  lemma {:induction false} CompletedSince(log: seq<Entry>, j: nat)
    requires j <= |log|
    ensures Done(log, j) < Done(log, |log|) <==> exists k :: j <= k < |log| && log[k].verdict.Completed?
    ensures Done(log, j) <= Done(log, |log|) == Count(log, Complete)
    decreases |log| - j
  {
    assert log[..|log|] == log;
    if j < |log| {
      CompletedSince(log, j + 1);
      assert log[..j + 1][..j] == log[..j];
    }
  }

  /** All reviews but the last are one period long, so n of them end after n periods. */
  lemma {:induction false} PeriodsAddUp(log: seq<Entry>, every: int, reviews: seq<Review>, n: nat)
    requires n <= |reviews| && AllChained(log, reviews)
    requires forall i :: 0 <= i < n ==> Periodic(log, every, reviews, i)
    ensures Done(log, Base(reviews[..n])) == n * every
  {
    if n > 0 {
      PeriodsAddUp(log, every, reviews, n - 1);
      assert Periodic(log, every, reviews, n - 1);
      NextMultiple(n, every);
    } else {
      assert log[..0] == [];
    }
  }

  lemma {:induction false} NextMultiple(n: nat, every: int)
    ensures (n - 1) * every + every == n * every
  { }

  /**
    Every completed epic is in exactly one review, except those completed since the last periodic one when a failing
    dispatch ends the script; a run with every > 0 has one review a period, the last perhaps shorter.
   */
  lemma {:induction false} CompletedAreReviewedIff(env: Env, opts: Options, log: seq<Entry>, stop: Stop,
    reviews: seq<Review>, every: int)
    requires Reviewed(env, opts, log, stop, reviews) && opts.reviewEvery == Some(every)
    ensures (forall k :: 0 <= k < |log| && log[k].verdict.Completed? ==> IsCovered(reviews, k)) <==>
      stop != DispatchFailed || Count(log, Complete) == 0 || (every > 0 && Count(log, Complete) % every == 0)
    ensures forall i: nat, j: nat, k: nat :: Covers(reviews, i, k) && Covers(reviews, j, k) ==> i == j
    ensures every > 0 && stop != DispatchFailed ==>
      |reviews| * every - every < Count(log, Complete) <= |reviews| * every
  {
    hide Done, Kind, Chained;
    ReviewedIsChained(env, opts, log, stop, reviews);
    CompletedSince(log, Base(reviews));
    forall k: nat ensures IsCovered(reviews, k) <==> k < Base(reviews) {
      ReviewsTile(log, reviews, k);
    }
    forall i: nat, j: nat, k: nat | Covers(reviews, i, k) && Covers(reviews, j, k) ensures i == j {
      ReviewsTile(log, reviews, k);
    }
    assert Pending(log, reviews) == 0 <==>
      forall k :: 0 <= k < |log| && log[k].verdict.Completed? ==> IsCovered(reviews, k);
    if stop == DispatchFailed {
      PendingIsRemainder(env, opts, log, reviews, every);
    } else if every > 0 {
      ReviewsAreCounted(env, opts, log, stop, reviews, every);
    }
  }

  lemma {:induction false} PendingIsRemainder(env: Env, opts: Options, log: seq<Entry>, reviews: seq<Review>,
    every: int)
    requires Reviewed(env, opts, log, DispatchFailed, reviews) && opts.reviewEvery == Some(every)
    ensures Pending(log, reviews) == if every > 0 then Count(log, Complete) % every else Count(log, Complete)
  {
    hide Done, Chained;
    ReviewedIsChained(env, opts, log, DispatchFailed, reviews);
    CompletedSince(log, Base(reviews));
    if every > 0 {
      forall i | 0 <= i < |reviews| ensures Periodic(log, every, reviews, i) {
        assert Kind(every, log, DispatchFailed, reviews, i);
      }
      PeriodsAddUp(log, every, reviews, |reviews|);
      assert reviews[..|reviews|] == reviews;
      Remainder(Count(log, Complete), |reviews|, every, Pending(log, reviews));
    } else {
      assert reviews != [] ==> Kind(every, log, DispatchFailed, reviews, 0);
      NothingDoneAtFirst(log);
    }
  }

  lemma {:induction false} NothingDoneAtFirst(log: seq<Entry>)
    ensures Done(log, 0) == 0
  { }

  lemma {:induction false} Remainder(count: int, n: nat, every: int, pending: int)
    requires count == n * every + pending && 0 <= pending < every
    ensures count % every == pending
  {
    var q := count / every - n;
    Distributes(count / every, n, every);
    if q >= 1 {
      Scaled(q, every);
    } else if q <= -1 {
      Scaled(-q, every);
    }
  }

  lemma {:induction false} Distributes(q: int, n: int, every: int)
    ensures (q - n) * every == q * every - n * every
  { }

  lemma {:induction false} Scaled(q: int, every: int)
    requires q >= 1 && every > 0
    ensures q * every >= every && -q * every <= -every
  { }

  lemma {:induction false} ReviewsAreCounted(env: Env, opts: Options, log: seq<Entry>, stop: Stop,
    reviews: seq<Review>, every: int)
    requires Reviewed(env, opts, log, stop, reviews) && opts.reviewEvery == Some(every)
    requires every > 0 && stop != DispatchFailed
    ensures |reviews| * every - every < Count(log, Complete) <= |reviews| * every
  {
    hide Done, Periodic;
    ReviewedIsChained(env, opts, log, stop, reviews);
    CompletedSince(log, Base(reviews));
    if reviews == [] {
      NothingDoneAtFirst(log);
    } else {
      var n := |reviews| - 1;
      assert Chained(log, reviews, n) && Kind(every, log, stop, reviews, n);
      forall i | 0 <= i < n ensures Periodic(log, every, reviews, i) {
        assert Kind(every, log, stop, reviews, i);
      }
      PeriodsAddUp(log, every, reviews, n);
      NextMultiple(n + 1, every);
      if Periodic(log, every, reviews, n) {
        PeriodIsLong(log, every, reviews, n);
      }
    }
  }

  lemma {:induction false} PeriodIsLong(log: seq<Entry>, every: int, reviews: seq<Review>, i: nat)
    requires i < |reviews| && Periodic(log, every, reviews, i)
    ensures Done(log, reviews[i].upto) == Done(log, reviews[i].first) + every
  { }

  const EPIC_A := Epic("a", true, true)
  const EPIC_B := Epic("b", true, true)

  /** The first epic completes at once, the second cannot be dispatched. */
  function FailingEnv(): Env {
    Env((turn: nat) => true, (turn: nat) => if turn == 0 then [EPIC_A, EPIC_B] else [EPIC_B],
      (turn: nat) => (attempt: nat) => if turn == 0 then Marked(Harvest.Complete) else Fatal, (turn: nat) => false)
  }

  /** There the completed epic is never reviewed, unless every epic is reviewed by itself. */
  lemma {:induction false} CompletedEpicIsUnreviewed(maxRetries: nat, every: int)
    requires every != 1
    ensures var opts := Options(false, maxRetries, false, Some(every));
      var log := [Entry("a", Completed(1))];
      && IsRun(FailingEnv(), opts, log, DispatchFailed)
      && Reviewed(FailingEnv(), opts, log, DispatchFailed, []) && !IsCovered([], 0)
  {
    hide Mentions, Words;
    var (env, opts) := (FailingEnv(), Options(false, maxRetries, false, Some(every)));
    var log := [Entry("a", Completed(1))];
    assert log[..0] == [] && log[..1] == log && Ids([]) == [] && Ids(log) == ["a"];
    MentionsIsMembership([], "a");
    MentionsIsMembership(["a"], "b");
    assert TurnOf(env, opts, log, 0) by {
      assert NextEpic(false, env.epics(0), Words([])) == Some("a");
    }
    assert Stopped(env, opts, log, DispatchFailed) by {
      assert NextEpic(false, env.epics(1), Words(["a"])) == Some("b");
    }
    assert Done(log, 1) == 1 && Done(log, 0) == 0;
  }

  /** No epic has more than MAX_RETRIES + 1 dispatches, the last one settling it; a dry run has none. */
  lemma {:induction false} DispatchesAreBounded(env: Env, opts: Options, log: seq<Entry>,
    stop: Stop, k: nat)
    requires IsRun(env, opts, log, stop) && k < |log| && opts.maxRetries >= 0
    ensures if opts.dryRun then log[k].verdict.attempts == 0 else 1 <= log[k].verdict.attempts <= opts.maxRetries + 1
    ensures log[k].verdict.GaveUp? ==> log[k].verdict.attempts == opts.maxRetries + 1 && k == |log| - 1
    ensures forall a: nat :: 1 <= a < log[k].verdict.attempts ==> !IsDecisive(env.ends(k)(a))
  {
    hide NextEpic;
    assert TurnOf(env, opts, log, k);
    assert log[k].verdict == Settled(opts.dryRun, env.ends(k), opts.maxRetries);
    FirstDecisiveAttempt(env.ends(k), 1, opts.maxRetries);
    GivesUpLate(env.ends(k), 1, opts.maxRetries);
  }

  lemma {:induction false} GivesUpLate(ends: nat -> Ending, attempt: nat, maxRetries: int)
    requires 1 <= attempt <= maxRetries + 2
    ensures Attempts(ends, attempt, maxRetries).GaveUp? ==>
      Attempts(ends, attempt, maxRetries).attempts == maxRetries + 1
    decreases maxRetries + 2 - attempt
  {
    if attempt <= maxRetries + 1 {
      GivesUpLate(ends, attempt + 1, maxRetries);
    }
  }

  /** The loop ends for want of an epic exactly when no epic it looks at is eligible. */
  lemma {:induction false} NoneLeftMeansNoneEligible(targeted: bool, epics: seq<Epic>, processed: string)
    ensures NextEpic(targeted, epics, processed) == None <==>
      forall k :: 0 <= k < |epics| && (targeted || k < READY_LIMIT) ==> !Eligible(targeted, epics[k], processed)
  {
    hide Eligible;
    var looked := Looked(targeted, epics);
    NoneEligible(targeted, looked, processed);
    assert forall k :: 0 <= k < |looked| ==> looked[k] == epics[k];
  }

  lemma {:induction false} NoneEligible(targeted: bool, epics: seq<Epic>, processed: string)
    ensures FirstEligible(targeted, epics, processed) == None <==> NothingEligible(targeted, epics, processed)
  {
    hide Eligible;
    if epics != [] {
      NoneEligible(targeted, epics[1..], processed);
      assert forall k :: 0 < k < |epics| ==> epics[k] == epics[1..][k - 1];
      assert forall k :: 0 <= k < |epics[1..]| ==> epics[1..][k] == epics[k + 1];
    }
  }

  ghost predicate NothingEligible(targeted: bool, epics: seq<Epic>, processed: string) {
    forall k :: 0 <= k < |epics| ==> !Eligible(targeted, epics[k], processed)
  }

  /** Among n epics, finding none means that there is none exactly when they were named or are at most ten. */
  lemma {:induction false} NoneFoundMeansNoneIff(targeted: bool, n: nat)
    ensures (forall epics: seq<Epic>, processed ::
        |epics| == n && NextEpic(targeted, epics, processed) == None ==> NothingEligible(targeted, epics, processed))
      <==> targeted || n <= 10
  {
    forall epics: seq<Epic>, processed |
        (targeted || n <= READY_LIMIT) && |epics| == n && NextEpic(targeted, epics, processed) == None
      ensures NothingEligible(targeted, epics, processed)
    {
      NoneEligible(targeted, epics, processed);
    }
    if !targeted && n > READY_LIMIT {
      var (blocked, ready) := (Epic("a", true, false), Epic("b", true, true));
      EligibleEpicIsMissed(blocked, ready, n);
    }
  }

  /** Ten ready epics with open dependencies hide an eligible epic listed after them. */
  lemma {:induction false} EligibleEpicIsMissed(blocked: Epic, ready: Epic, n: nat)
    requires !blocked.depsClosed && ready.depsClosed && PlainId(ready.id) && n > READY_LIMIT
    ensures var epics := seq(READY_LIMIT, i => blocked) + seq(n - READY_LIMIT, i => ready);
      NextEpic(false, epics, "") == None && |epics| == n && Eligible(false, epics[READY_LIMIT], "")
  {
    var epics := seq(READY_LIMIT, i => blocked) + seq(n - READY_LIMIT, i => ready);
    NoneLeftMeansNoneEligible(false, epics, "");
    MentionsIsMembership([], ready.id);
  }

  /** Eligible, but for having been processed. */
  predicate Workable(targeted: bool, e: Epic) { (targeted ==> e.open) && e.depsClosed }

  ghost predicate IsPreviewed(opts: Options, epics: seq<Epic>, id: string) {
    exists k :: 0 <= k < |Looked(opts.targeted, epics)| && epics[k].id == id && Workable(opts.targeted, epics[k])
  }

  lemma {:induction false} PreviewIsWorkable(env: Env, opts: Options, epics: seq<Epic>, log: seq<Entry>, i: nat)
    requires i < |log| && TurnOf(env, opts, log, i) && env.epics(i) == epics
    ensures IsPreviewed(opts, epics, Ids(log)[i])
  {
    hide Words, Mentions;
    ChosenIsListed(opts.targeted, Looked(opts.targeted, epics), Words(Ids(log[..i])));
  }

  /**
    A dry run dispatches and reviews nothing, and exits 2 unless memory runs out; if the epics stay as they are, it
    previews exactly those that the loop looks at and could take.
   */
  lemma {:induction false} DryRunPreviews(env: Env, opts: Options, epics: seq<Epic>, log: seq<Entry>, stop: Stop,
    reviews: seq<Review>, id: string)
    requires IsRun(env, opts, log, stop) && Reviewed(env, opts, log, stop, reviews)
    requires opts.dryRun && opts.maxRetries >= 0
    requires forall turn: nat :: env.epics(turn) == epics
    requires forall k :: 0 <= k < |epics| ==> PlainId(epics[k].id)
    ensures forall k :: 0 <= k < |log| ==> log[k].verdict == Previewed(0)
    ensures stop in {LowMemory, NoneLeft} && reviews == []
    ensures ExitCode(Count(log, Complete), Count(log, Failed) + if stop == LowMemory then 1 else 0)
      == if stop == LowMemory then 1 else 2
    ensures stop == NoneLeft ==> (id in Ids(log) <==> IsPreviewed(opts, epics, id))
  {
    hide Words, Mentions;
    forall k | 0 <= k < |log| ensures log[k].verdict == Previewed(0) {
      assert TurnOf(env, opts, log, k);
    }
    FailuresCounted(log);
    NoneCompleted(log);
    NoReviewWithoutWork(env, opts, log, stop, reviews);
    forall i | 0 <= i < |log|
      ensures PlainId(Ids(log)[i])
      ensures IsPreviewed(opts, epics, Ids(log)[i])
    {
      PreviewIsWorkable(env, opts, epics, log, i);
    }
    if stop == NoneLeft {
      NoneEligible(opts.targeted, Looked(opts.targeted, epics), Words(Ids(log)));
      forall k | 0 <= k < |Looked(opts.targeted, epics)| && Workable(opts.targeted, epics[k])
        ensures epics[k].id in Ids(log)
      {
        assert Looked(opts.targeted, epics)[k] == epics[k];
        MentionsIsMembership(Ids(log), epics[k].id);
      }
    }
  }
}
