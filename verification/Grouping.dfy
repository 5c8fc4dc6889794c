/** The greedy accumulator of buildChunks (knowledge/chunking.go), on section sizes alone. */
module Grouping {

  function Sum(sizes: seq<nat>, a: nat, b: nat): nat
    requires a <= b <= |sizes|
  {
    if a == b then 0 else Sum(sizes, a, b - 1) + sizes[b - 1]
  }

  /** Section i does not fit behind the accumulated sections from..i. */
  predicate Flushes(sizes: seq<nat>, target: int, from: nat, i: nat)
    requires from <= i < |sizes|
  {
    Sum(sizes, from, i) > 0 && Sum(sizes, from, i) + sizes[i] > target
  }

  /** Where the groups still to come end, as section indices, when from..i is accumulated. */
  function Ends(sizes: seq<nat>, target: int, from: nat, i: nat): seq<nat>
    requires from <= i <= |sizes|
    decreases |sizes| - i, i - from
  {
    if i == |sizes| then (if from < i then [i] else [])
    else if Flushes(sizes, target, from, i) then [i] + Ends(sizes, target, i, i)
    else if Sum(sizes, from, i + 1) > target then [i + 1] + Ends(sizes, target, i + 1, i + 1)
    else Ends(sizes, target, from, i + 1)
  }

  /** Sections a..b exceed the target only because the last does, alone; and b is no earlier than it must be. */
  ghost predicate IsGreedyGroup(sizes: seq<nat>, target: int, a: nat, b: nat) {
    && a < b <= |sizes|
    && (Sum(sizes, a, b) > target ==> sizes[b - 1] > target && Sum(sizes, a, b - 1) == 0)
    && (b < |sizes| ==> Sum(sizes, a, b) > target || Sum(sizes, a, b) + sizes[b] > target)
  }

  /** The ends cut the sections after `from` into greedy groups. */
  ghost predicate CutsGreedily(sizes: seq<nat>, target: int, from: nat, ends: seq<nat>)
    decreases |ends|
  {
    if ends == [] then from == |sizes|
    else IsGreedyGroup(sizes, target, from, ends[0]) && CutsGreedily(sizes, target, ends[0], ends[1..])
  }

  lemma {:induction false} CutsCons(sizes: seq<nat>, target: int, from: nat, e: nat, rest: seq<nat>)
    requires IsGreedyGroup(sizes, target, from, e) && CutsGreedily(sizes, target, e, rest)
    ensures CutsGreedily(sizes, target, from, [e] + rest)
  {
    assert ([e] + rest)[1..] == rest;
  }

  lemma {:induction false} EndsCutGreedily(sizes: seq<nat>, target: int, from: nat, i: nat)
    requires from <= i <= |sizes| && 0 <= target && Sum(sizes, from, i) <= target
    ensures CutsGreedily(sizes, target, from, Ends(sizes, target, from, i))
    decreases |sizes| - i, i - from
  {
    if i == |sizes| {
      if from < i {
        CutsCons(sizes, target, from, i, []);
        assert [i] + [] == [i];
      }
    } else if Flushes(sizes, target, from, i) {
      EndsCutGreedily(sizes, target, i, i);
      CutsCons(sizes, target, from, i, Ends(sizes, target, i, i));
    } else if Sum(sizes, from, i + 1) > target {
      EndsCutGreedily(sizes, target, i + 1, i + 1);
      CutsCons(sizes, target, from, i + 1, Ends(sizes, target, i + 1, i + 1));
    } else {
      EndsCutGreedily(sizes, target, from, i + 1);
    }
  }

  function EndBefore(ends: seq<nat>, k: nat): nat
    requires k <= |ends|
  {
    if k == 0 then 0 else ends[k - 1]
  }

  /** The ends found so far and those to come add up, through the two tests of the loop. */
  lemma {:induction false} EndsStep(sizes: seq<nat>, target: int, ends: seq<nat>, i: nat)
    requires EndBefore(ends, |ends|) <= i < |sizes|
    ensures var from := EndBefore(ends, |ends|);
      var flushed := if Flushes(sizes, target, from, i) then ends + [i] else ends;
      var start := EndBefore(flushed, |flushed|);
      var ends' := if Sum(sizes, start, i + 1) > target then flushed + [i + 1] else flushed;
      ends + Ends(sizes, target, from, i) == ends' + Ends(sizes, target, EndBefore(ends', |ends'|), i + 1)
  {
    var from := EndBefore(ends, |ends|);
    if Flushes(sizes, target, from, i) {
      assert ends + Ends(sizes, target, from, i) == (ends + [i]) + Ends(sizes, target, i, i);
    }
  }

  lemma {:induction false} GreedyAt(sizes: seq<nat>, target: int, from: nat, ends: seq<nat>, k: nat)
    requires CutsGreedily(sizes, target, from, ends) && k < |ends|
    ensures IsGreedyGroup(sizes, target, if k == 0 then from else ends[k - 1], ends[k])
    decreases k
  {
    if k > 0 {
      GreedyAt(sizes, target, ends[0], ends[1..], k - 1);
    }
  }

  lemma {:induction false} CutsReachEnd(sizes: seq<nat>, target: int, from: nat, ends: seq<nat>)
    requires CutsGreedily(sizes, target, from, ends)
    ensures (if ends == [] then from else ends[|ends| - 1]) == |sizes|
    decreases |ends|
  {
    if ends != [] {
      CutsReachEnd(sizes, target, ends[0], ends[1..]);
    }
  }

  /** Every section lies in one group. */
  lemma {:induction false} GroupOf(sizes: seq<nat>, target: int, from: nat, ends: seq<nat>, i: nat) returns (k: nat)
    requires CutsGreedily(sizes, target, from, ends) && from <= i < |sizes|
    ensures k < |ends| && (if k == 0 then from else ends[k - 1]) <= i < ends[k]
    decreases |ends|
  {
    if i < ends[0] {
      k := 0;
    } else {
      k := GroupOf(sizes, target, ends[0], ends[1..], i);
      k := k + 1;
    }
  }
}
