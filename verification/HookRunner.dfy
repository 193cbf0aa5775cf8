/**
 One worker of the hook-sync script, from taking the lock to releasing it: retries, targets, markers
 and cycles as the loops the script runs. The results of the import command and the markers that
 requests publish meanwhile come from outside.
 */
module HookRunner {
  import opened Wrappers
  import opened HookSync

  datatype Outcome = Exited(code: int) | TimedOut

  predicate Succeeded(o: Outcome) {
    o == Exited(0)
  }

  /** The calls one target takes when its first call is call `from`, and whether it succeeds. */
  function TargetRun(outcome: nat -> Outcome, from: nat): (r: (bool, nat))
    ensures 1 <= r.1 <= 3
    ensures !r.0 ==> r.1 == 3
  {
    if Succeeded(outcome(from)) then (true, 1)
    else if Succeeded(outcome(from + 1)) then (true, 2)
    else (Succeeded(outcome(from + 2)), 3)
  }

  /** The same for the targets of a source, which stop at the first target that fails. */
  function ImportRun(outcome: nat -> Outcome, from: nat, targets: nat): (r: (bool, nat))
    ensures r.1 <= 3 * targets
    decreases targets
  {
    if targets == 0 then (true, 0)
    else
      var target := TargetRun(outcome, from);
      if !target.0 then target
      else
        var rest := ImportRun(outcome, from + target.1, targets - 1);
        (rest.0, target.1 + rest.1)
  }

  /** With `spent` calls made and `left` targets to go, the whole run comes to `goal`. */
  predicate Leads(goal: (bool, nat), outcome: nat -> Outcome, spent: nat, from: nat, left: nat) {
    goal == (ImportRun(outcome, from, left).0, spent + ImportRun(outcome, from, left).1)
  }

  lemma {:induction false} ImportStep(goal: (bool, nat), outcome: nat -> Outcome, spent: nat, from: nat, left: nat,
                                      ok: bool, used: nat)
    requires left > 0 && TargetRun(outcome, from) == (ok, used) && Leads(goal, outcome, spent, from, left)
    ensures !ok ==> goal == (false, spent + used)
    ensures ok ==> Leads(goal, outcome, spent + used, from + used, left - 1)
  {
  }

  /** The directories of a source that exist: one of its own, and a second one for Claude. */
  function TargetsOf(present: (Source, nat) -> bool, source: Source): (ts: seq<nat>)
    ensures |ts| <= if source == Claude then 2 else 1
    ensures forall t :: t in ts <==> present(source, t) && (t == 0 || (t == 1 && source == Claude))
  {
    (if present(source, 0) then [0] else []) + (if source == Claude && present(source, 1) then [1] else [])
  }

  function Load(present: (Source, nat) -> bool, todo: seq<Source>): nat {
    if todo == [] then 0 else |TargetsOf(present, todo[0])| + Load(present, todo[1..])
  }

  lemma {:induction false} LoadOfListing(present: (Source, nat) -> bool, found: set<Source>)
    ensures Load(present, Sorted(found)) <= 4
  {
    var a := if Claude in found then [Claude] else [];
    var b := if Codex in found then [Codex] else [];
    var c := if QwenCode in found then [QwenCode] else [];
    LoadAppend(present, a + b, c);
    LoadAppend(present, a, b);
    assert [Claude][1..] == [] && [Codex][1..] == [] && [QwenCode][1..] == [];
  }

  lemma {:induction false} LoadAppend(present: (Source, nat) -> bool, a: seq<Source>, b: seq<Source>)
    ensures Load(present, a + b) == Load(present, a) + Load(present, b)
  {
    if a == [] {
      assert a + b == b;
    } else {
      assert (a + b)[1..] == a[1..] + b;
      LoadAppend(present, a[1..], b);
    }
  }

  // ---------------------------------------------------------------- which calls were made for what

  /** The calls made for one target: from call `from` up to, and not with, call `end`. */
  datatype Run = Run(target: nat, from: nat, end: nat)

  /** The calls of one import, target by target. */
  datatype Import = Import(from: nat, end: nat, runs: seq<Run>)

  /** Some call of the run exited with 0. */
  predicate Works(outcome: nat -> Outcome, run: Run) {
    exists i :: run.from <= i < run.end && Succeeded(outcome(i))
  }

  /** Up to three calls: no more after one that succeeds, and no fewer without one. */
  predicate RunFits(outcome: nat -> Outcome, run: Run) {
    && run.from < run.end <= run.from + 3
    && (forall i :: run.from <= i < run.end - 1 ==> !Succeeded(outcome(i)))
    && (!Works(outcome, run) ==> run.end == run.from + 3)
  }

  /** Run `i` of an import is that of its `i`-th target, and begins where the one before it ended. */
  predicate RunInPlace(outcome: nat -> Outcome, targets: seq<nat>, from: nat, runs: seq<Run>, i: nat)
    requires i < |runs| <= |targets|
  {
    runs[i].target == targets[i] && runs[i].from == EndOf(from, runs[..i]) && RunFits(outcome, runs[i])
  }

  function EndOf(from: nat, runs: seq<Run>): nat {
    if runs == [] then from else runs[|runs| - 1].end
  }

  /** The runs of the targets in order, from call `from` up to call `end`. */
  ghost predicate InOrder(outcome: nat -> Outcome, targets: seq<nat>, imp: Import) {
    && |imp.runs| <= |targets| && imp.end == EndOf(imp.from, imp.runs)
    && forall i :: 0 <= i < |imp.runs| ==> RunInPlace(outcome, targets, imp.from, imp.runs, i)
  }

  ghost predicate AllWork(outcome: nat -> Outcome, runs: seq<Run>) {
    forall i :: 0 <= i < |runs| ==> WorksAt(outcome, runs, i)
  }

  predicate WorksAt(outcome: nat -> Outcome, runs: seq<Run>, i: nat)
    requires i < |runs|
  {
    Works(outcome, runs[i])
  }

  /** All targets were run and worked, or all up to one that did not. */
  ghost predicate ImportFits(outcome: nat -> Outcome, targets: seq<nat>, ok: bool, imp: Import) {
    && InOrder(outcome, targets, imp)
    && if ok then |imp.runs| == |targets| && AllWork(outcome, imp.runs)
       else imp.runs != [] && AllWork(outcome, imp.runs[..|imp.runs| - 1]) && !Works(outcome, imp.runs[|imp.runs| - 1])
  }

  /** The target had a run with a call that exited with 0. */
  ghost predicate Served(outcome: nat -> Outcome, imp: Import, target: nat) {
    exists i :: 0 <= i < |imp.runs| && imp.runs[i].target == target && Works(outcome, imp.runs[i])
  }

  /** Three calls were made for the target, and all failed. */
  ghost predicate GivenUp(outcome: nat -> Outcome, imp: Import, target: nat) {
    exists i :: 0 <= i < |imp.runs| && imp.runs[i].target == target && !Works(outcome, imp.runs[i])
                && imp.runs[i].end == imp.runs[i].from + 3
  }

  /** An import succeeds iff every target had a call that exited with 0; otherwise one was given up. */
  lemma {:induction false} SucceedsIffAllServed(outcome: nat -> Outcome, present: (Source, nat) -> bool, source: Source,
                                                ok: bool, imp: Import)
    requires ImportFits(outcome, TargetsOf(present, source), ok, imp)
    ensures ok <==> forall t :: t in TargetsOf(present, source) ==> Served(outcome, imp, t)
    ensures !ok ==> exists t :: t in TargetsOf(present, source) && GivenUp(outcome, imp, t)
  {
    var targets, runs := TargetsOf(present, source), imp.runs;
    forall i | 0 <= i < |runs|
      ensures runs[i].target == targets[i] && RunFits(outcome, runs[i])
    {
      assert RunInPlace(outcome, targets, imp.from, runs, i);
    }
    if ok {
      forall t | t in targets
        ensures Served(outcome, imp, t)
      {
        var i :| 0 <= i < |targets| && targets[i] == t;
        assert WorksAt(outcome, runs, i);
      }
    } else {
      var last := |runs| - 1;
      assert GivenUp(outcome, imp, targets[last]);
      TargetsDiffer(present, source);
      assert !Served(outcome, imp, targets[last]);
    }
  }

  lemma {:induction false} TargetsDiffer(present: (Source, nat) -> bool, source: Source)
    ensures forall i, j :: 0 <= i < j < |TargetsOf(present, source)| ==>
      TargetsOf(present, source)[i] != TargetsOf(present, source)[j]
  {
  }

  /** One more run in its place. */
  lemma {:induction false} OneMoreRun(outcome: nat -> Outcome, targets: seq<nat>, imp: Import, run: Run)
    requires InOrder(outcome, targets, imp) && AllWork(outcome, imp.runs) && |imp.runs| < |targets|
    requires run.target == targets[|imp.runs|] && run.from == imp.end && RunFits(outcome, run)
    ensures
      var longer := Import(imp.from, run.end, imp.runs + [run]);
      && InOrder(outcome, targets, longer)
      && (Works(outcome, run) ==> AllWork(outcome, longer.runs))
      && (!Works(outcome, run) ==> ImportFits(outcome, targets, false, longer))
  {
    var runs := imp.runs + [run];
    forall i | 0 <= i < |runs|
      ensures RunInPlace(outcome, targets, imp.from, runs, i)
    {
      if i < |imp.runs| {
        assert RunInPlace(outcome, targets, imp.from, imp.runs, i);
        assert runs[..i] == imp.runs[..i];
      } else {
        assert runs[..i] == imp.runs;
      }
    }
    assert runs[..|runs| - 1] == imp.runs;
    assert forall i :: 0 <= i < |imp.runs| ==> WorksAt(outcome, imp.runs, i) ==> WorksAt(outcome, runs, i);
  }

  /** The runs so far all worked, and with those of the targets left the import comes to `goal`. */
  ghost predicate Halfway(outcome: nat -> Outcome, targets: seq<nat>, imp: Import, goal: (bool, nat)) {
    && |imp.runs| <= |targets| && imp.from <= imp.end
    && InOrder(outcome, targets, imp) && AllWork(outcome, imp.runs)
    && Leads(goal, outcome, imp.end - imp.from, imp.end, |targets| - |imp.runs|)
  }

  lemma {:induction false} NoRunsYet(outcome: nat -> Outcome, targets: seq<nat>, from: nat)
    ensures Halfway(outcome, targets, Import(from, from, []), ImportRun(outcome, from, |targets|))
  {
  }

  lemma {:induction false} AllRun(outcome: nat -> Outcome, targets: seq<nat>, imp: Import, goal: (bool, nat))
    requires Halfway(outcome, targets, imp, goal) && |imp.runs| == |targets|
    ensures goal == (true, imp.end - imp.from) && ImportFits(outcome, targets, true, imp)
  {
  }

  /** Entry `k` of the log is what import `k` came to, which began where the one before it ended. */
  ghost predicate EntryIsTrue(outcome: nat -> Outcome, present: (Source, nat) -> bool, base: nat,
                              log: seq<(Source, bool)>, history: seq<Import>, k: nat)
    requires k < |log| == |history|
  {
    && history[k].from == LastEnd(base, history[..k])
    && ImportFits(outcome, TargetsOf(present, log[k].0), log[k].1, history[k])
  }

  function LastEnd(base: nat, history: seq<Import>): nat {
    if history == [] then base else history[|history| - 1].end
  }

  /** The log is the truth about the calls from `base` up to `calls`. */
  ghost predicate LogIsTrue(outcome: nat -> Outcome, present: (Source, nat) -> bool, base: nat, calls: nat,
                            log: seq<(Source, bool)>, history: seq<Import>)
  {
    && |log| == |history| && calls == LastEnd(base, history)
    && forall k :: 0 <= k < |log| ==> EntryIsTrue(outcome, present, base, log, history, k)
  }

  lemma {:induction false} EntryAdded(outcome: nat -> Outcome, present: (Source, nat) -> bool, base: nat, calls: nat,
                                      log: seq<(Source, bool)>, history: seq<Import>, source: Source, ok: bool, imp: Import)
    requires LogIsTrue(outcome, present, base, calls, log, history)
    requires imp.from == calls && ImportFits(outcome, TargetsOf(present, source), ok, imp)
    ensures LogIsTrue(outcome, present, base, imp.end, log + [(source, ok)], history + [imp])
  {
    forall k | 0 <= k < |log| + 1
      ensures EntryIsTrue(outcome, present, base, log + [(source, ok)], history + [imp], k)
    {
      if k < |log| {
        assert EntryIsTrue(outcome, present, base, log, history, k);
        assert (history + [imp])[..k] == history[..k];
      } else {
        assert (history + [imp])[..k] == history;
      }
    }
  }

  /** The log from entry `n` on goes through the listing in its order, as far as both reach. */
  predicate Follows(log: seq<(Source, bool)>, n: nat, listing: seq<Source>) {
    forall i :: 0 <= i < |listing| && n + i < |log| ==> SameAt(log, n, listing, i)
  }

  predicate SameAt(log: seq<(Source, bool)>, n: nat, listing: seq<Source>, i: nat)
    requires i < |listing| && n + i < |log|
  {
    log[n + i].0 == listing[i]
  }

  /** The imports from entry `from` on, before entry `until`, succeeded. */
  predicate AllSucceed(log: seq<(Source, bool)>, from: nat, until: int) {
    forall i :: from <= i < until && i < |log| ==> SucceedsAt(log, i)
  }

  predicate LastSucceeded(log: seq<(Source, bool)>) {
    log == [] || log[|log| - 1].1
  }

  predicate SucceedsAt(log: seq<(Source, bool)>, i: nat)
    requires i < |log|
  {
    log[i].1
  }

  lemma {:induction false} SucceedFurther(before: seq<(Source, bool)>, after: seq<(Source, bool)>, from: nat)
    requires from <= |before| <= |after| && after[..|before|] == before
    requires AllSucceed(before, from, |before|) && AllSucceed(after, |before|, |after| - 1)
    ensures AllSucceed(after, from, |after| - 1)
    ensures |after| == |before| || LastSucceeded(after) ==> AllSucceed(after, from, |after|)
  {
    forall i | from <= i < |after| && (i < |after| - 1 || i < |before|)
      ensures SucceedsAt(after, i)
    {
      if i < |before| {
        assert SucceedsAt(before, i);
        assert after[i] == after[..|before|][i];
      } else {
        assert SucceedsAt(after, i);
      }
    }
  }

  lemma {:induction false} FollowsOneMore(log: seq<(Source, bool)>, n: nat, listing: seq<Source>, entry: (Source, bool))
    requires Follows(log, n, listing) && n <= |log| < n + |listing| && entry.0 == listing[|log| - n]
    ensures Follows(log + [entry], n, listing)
  {
    forall i | 0 <= i < |listing| && n + i < |log| + 1
      ensures SameAt(log + [entry], n, listing, i)
    {
      if n + i < |log| {
        assert SameAt(log, n, listing, i);
      }
    }
  }

  /** What comes after the whole listing does not matter. */
  lemma {:induction false} FollowsStill(before: seq<(Source, bool)>, after: seq<(Source, bool)>, listing: seq<Source>)
    requires |before| <= |after| && after[..|before|] == before
    requires Follows(before, 0, listing) && |listing| <= |before|
    ensures Follows(after, 0, listing)
  {
    forall i | 0 <= i < |listing| && 0 + i < |after|
      ensures SameAt(after, 0, listing, i)
    {
      assert SameAt(before, 0, listing, i);
      assert after[i] == after[..|before|][i];
    }
  }

  // ---------------------------------------------------------------- what a worker leaves behind

  /** The `entry`-th import was one of source `s`, and each of its targets had a call that exited with 0. */
  ghost predicate ImportedBy(outcome: nat -> Outcome, present: (Source, nat) -> bool, log: seq<(Source, bool)>,
                             history: seq<Import>, s: Source, k: nat)
  {
    k < |log| == |history| && log[k].0 == s
    && forall t :: t in TargetsOf(present, s) ==> Served(outcome, history[k], t)
  }

  /** An entry of the log says `true` iff each target of its source had a call that exited with 0. */
  lemma {:induction false} EntryMeans(outcome: nat -> Outcome, present: (Source, nat) -> bool, base: nat, calls: nat,
                                      log: seq<(Source, bool)>, history: seq<Import>, k: nat)
    requires LogIsTrue(outcome, present, base, calls, log, history) && k < |log|
    ensures log[k].1 <==> ImportedBy(outcome, present, log, history, log[k].0, k)
    ensures !log[k].1 ==> exists t :: t in TargetsOf(present, log[k].0) && GivenUp(outcome, history[k], t)
  {
    assert EntryIsTrue(outcome, present, base, log, history, k);
    SucceedsIffAllServed(outcome, present, log[k].0, log[k].1, history[k]);
  }

  predicate NoneSucceeds(outcome: nat -> Outcome, from: nat, until: nat) {
    forall i :: from <= i < until ==> !Succeeded(outcome(i))
  }

  /** The calls of an import lie where the log says. */
  lemma {:induction false} RunsWithin(outcome: nat -> Outcome, targets: seq<nat>, imp: Import, n: nat)
    requires InOrder(outcome, targets, imp) && n <= |imp.runs|
    ensures imp.from <= EndOf(imp.from, imp.runs[..n])
    ensures forall i :: 0 <= i < n ==> imp.from <= imp.runs[i].from && imp.runs[i].end <= EndOf(imp.from, imp.runs[..n])
  {
    if n > 0 {
      RunsWithin(outcome, targets, imp, n - 1);
      assert RunInPlace(outcome, targets, imp.from, imp.runs, n - 1);
      assert imp.runs[..n][n - 1] == imp.runs[n - 1];
    }
  }

  lemma {:induction false} ImportsWithin(outcome: nat -> Outcome, present: (Source, nat) -> bool, base: nat, calls: nat,
                                         log: seq<(Source, bool)>, history: seq<Import>, n: nat)
    requires LogIsTrue(outcome, present, base, calls, log, history) && n <= |log|
    ensures base <= LastEnd(base, history[..n])
    ensures forall k :: 0 <= k < n ==> base <= history[k].from && history[k].end <= LastEnd(base, history[..n])
  {
    if n > 0 {
      ImportsWithin(outcome, present, base, calls, log, history, n - 1);
      assert EntryIsTrue(outcome, present, base, log, history, n - 1);
      var imp := history[n - 1];
      RunsWithin(outcome, TargetsOf(present, log[n - 1].0), imp, |imp.runs|);
      assert imp.runs[..|imp.runs|] == imp.runs;
      assert history[..n][n - 1] == imp;
    }
  }

  /** If no call succeeds, an import succeeds only for want of targets. */
  lemma {:induction false} NothingServed(outcome: nat -> Outcome, present: (Source, nat) -> bool, base: nat, calls: nat,
                                         log: seq<(Source, bool)>, history: seq<Import>, k: nat)
    requires LogIsTrue(outcome, present, base, calls, log, history) && k < |log|
    requires NoneSucceeds(outcome, base, calls)
    ensures log[k].1 <==> TargetsOf(present, log[k].0) == []
  {
    var imp, targets := history[k], TargetsOf(present, log[k].0);
    assert EntryIsTrue(outcome, present, base, log, history, k);
    ImportsWithin(outcome, present, base, calls, log, history, |log|);
    assert history[..|log|] == history;
    RunsWithin(outcome, targets, imp, |imp.runs|);
    assert imp.runs[..|imp.runs|] == imp.runs;
    assert imp.runs != [] ==> !WorksAt(outcome, imp.runs, 0);
  }

  /** The first source of a listing that has a target. */
  function FirstWithTarget(present: (Source, nat) -> bool, listing: seq<Source>): (f: Option<Source>)
    ensures f.None? <==> forall s :: s in listing ==> TargetsOf(present, s) == []
    ensures f.Some? ==> f.value in listing && TargetsOf(present, f.value) != []
  {
    if listing == [] then None
    else if TargetsOf(present, listing[0]) != [] then Some(listing[0])
    else
      assert listing == [listing[0]] + listing[1..];
      FirstWithTarget(present, listing[1..])
  }

  lemma {:induction false} FirstIs(present: (Source, nat) -> bool, listing: seq<Source>, n: nat)
    requires n < |listing| && TargetsOf(present, listing[n]) != []
    requires forall i :: 0 <= i < n ==> TargetsOf(present, listing[i]) == []
    ensures FirstWithTarget(present, listing) == Some(listing[n])
  {
    if n > 0 {
      FirstIs(present, listing[1..], n - 1);
    }
  }

  /**
   When no call succeeds: a log whose entries but the last succeeded ends with the first source that
   has a target, if there is one.
   */
  lemma {:induction false} EndsAtFirstTarget(outcome: nat -> Outcome, present: (Source, nat) -> bool, base: nat,
                                             calls: nat, log: seq<(Source, bool)>, history: seq<Import>,
                                             listing: seq<Source>)
    requires LogIsTrue(outcome, present, base, calls, log, history) && NoneSucceeds(outcome, base, calls)
    requires Follows(log, 0, listing) && AllSucceed(log, 0, |log| - 1)
    requires LastSucceeded(log) ==> |listing| <= |log|
    requires FirstWithTarget(present, listing).Some?
    ensures !LastSucceeded(log) && FirstWithTarget(present, listing) == Some(log[|log| - 1].0)
    ensures TargetsOf(present, log[|log| - 1].0) != []
  {
    var n := |log| - 1;
    forall i | 0 <= i < |listing| && i < |log|
      ensures log[i].0 == listing[i]
      ensures (i < n || LastSucceeded(log)) ==> TargetsOf(present, listing[i]) == []
    {
      assert SameAt(log, 0, listing, i);
      NothingServed(outcome, present, base, calls, log, history, i);
      assert i < n ==> SucceedsAt(log, i);
    }
    var f := FirstWithTarget(present, listing).value;
    var at :| 0 <= at < |listing| && listing[at] == f;
    if !LastSucceeded(log) {
      NothingServed(outcome, present, base, calls, log, history, n);
      assert |log| <= |listing|;
      FirstIs(present, listing, n);
    }
  }

  /** What the worker's log, its calls and the markers say of each other. */
  ghost predicate WorkerEnded(outcome: nat -> Outcome, present: (Source, nat) -> bool, base: nat, calls: nat,
                              log: seq<(Source, bool)>, history: seq<Import>, pending0: set<Source>,
                              failed0: set<Source>, pending: set<Source>, failed: set<Source>)
  {
    && LogIsTrue(outcome, present, base, calls, log, history) && MarkersTell(failed, failed0, log)
    && Follows(log, 0, Sorted(pending0)) && AllSucceed(log, 0, |log| - 1)
    && (LastSucceeded(log) ==> |Sorted(pending0)| <= |log| && forall s :: s in pending0 ==> (s, true) in log)
    && (forall s :: s in pending0 ==> s in pending || (s, true) in log || (s, false) in log)
  }

  /** The only entry that says `false` is the last one, and its source is marked. */
  lemma {:induction false} FailureIsMarked(log: seq<(Source, bool)>, start: set<Source>, failed: set<Source>, s: Source)
    requires MarkersTell(failed, start, log) && AllSucceed(log, 0, |log| - 1) && (s, false) in log
    ensures s in failed && !LastSucceeded(log) && log[|log| - 1].0 == s
  {
    var k :| 0 <= k < |log| && log[k] == (s, false);
    assert k < |log| - 1 ==> SucceedsAt(log, k);
    assert MarkerTells(failed, start, log, s);
  }

  lemma {:induction false} WorkerMeans(outcome: nat -> Outcome, present: (Source, nat) -> bool, base: nat, calls: nat,
                                       log: seq<(Source, bool)>, history: seq<Import>, pending0: set<Source>,
                                       failed0: set<Source>, pending: set<Source>, failed: set<Source>)
    requires WorkerEnded(outcome, present, base, calls, log, history, pending0, failed0, pending, failed)
    ensures forall k :: 0 <= k < |log| ==> (log[k].1 <==> ImportedBy(outcome, present, log, history, log[k].0, k))
    ensures forall s :: s in pending0 ==>
      s in pending || s in failed || exists k :: ImportedBy(outcome, present, log, history, s, k)
    ensures LastSucceeded(log) ==>
      forall s :: s in pending0 ==> exists k :: ImportedBy(outcome, present, log, history, s, k)
  {
    forall k | 0 <= k < |log|
      ensures log[k].1 <==> ImportedBy(outcome, present, log, history, log[k].0, k)
    {
      EntryMeans(outcome, present, base, calls, log, history, k);
    }
    forall s | s in pending0
      ensures s in pending || s in failed || exists k :: ImportedBy(outcome, present, log, history, s, k)
      ensures LastSucceeded(log) ==> exists k :: ImportedBy(outcome, present, log, history, s, k)
    {
      if (s, true) in log {
        var k :| 0 <= k < |log| && log[k] == (s, true);
        assert ImportedBy(outcome, present, log, history, s, k);
      } else if (s, false) in log {
        FailureIsMarked(log, failed0, failed, s);
      }
    }
  }

  lemma {:induction false} NothingLost(outcome: nat -> Outcome, present: (Source, nat) -> bool, base: nat, calls: nat,
                                       log: seq<(Source, bool)>, history: seq<Import>, pending0: set<Source>,
                                       failed0: set<Source>, pending: set<Source>, failed: set<Source>)
    requires WorkerEnded(outcome, present, base, calls, log, history, pending0, failed0, pending, failed)
    requires NoneSucceeds(outcome, base, calls) && FirstWithTarget(present, Sorted(pending0)).Some?
    ensures !LastSucceeded(log) && FirstWithTarget(present, Sorted(pending0)).value in failed
    ensures forall s :: s in pending0 && TargetsOf(present, s) != [] ==> s in pending || s in failed
  {
    EndsAtFirstTarget(outcome, present, base, calls, log, history, Sorted(pending0));
    var n := |log| - 1;
    assert log[n] == (log[n].0, false) && log[n] in log;
    FailureIsMarked(log, failed0, failed, log[n].0);
    forall s | s in pending0 && TargetsOf(present, s) != []
      ensures s in pending || s in failed
    {
      if (s, true) in log {
        var k :| 0 <= k < |log| && log[k] == (s, true);
        NothingServed(outcome, present, base, calls, log, history, k);
      } else if (s, false) in log {
        FailureIsMarked(log, failed0, failed, s);
      }
    }
  }

  // ---------------------------------------------------------------- requests made meanwhile

  /** A marker published while import `k` ran is still there, or its source had an import after that one. */
  predicate ArrivalKept(pending: set<Source>, log: seq<(Source, bool)>, k: nat, s: Source) {
    s in pending || exists later :: k < later < |log| && log[later].0 == s
  }

  ghost predicate ArrivalsKept(arriving: nat -> set<Source>, pending: set<Source>, log: seq<(Source, bool)>) {
    forall k, s :: 0 <= k < |log| && s in arriving(k) ==> ArrivalKept(pending, log, k, s)
  }

  lemma {:induction false} ArrivalsStillKept(arriving: nat -> set<Source>, before: set<Source>, log: seq<(Source, bool)>,
                                             source: Source, ok: bool, after: set<Source>)
    requires ArrivalsKept(arriving, before, log)
    requires after == before - {source} + arriving(|log|)
    ensures ArrivalsKept(arriving, after, log + [(source, ok)])
  {
    var longer := log + [(source, ok)];
    forall k, s | 0 <= k < |longer| && s in arriving(k)
      ensures ArrivalKept(after, longer, k, s)
    {
      if k < |log| {
        assert ArrivalKept(before, log, k, s);
        if later :| k < later < |log| && log[later].0 == s {
          assert longer[later].0 == s;
        } else if s == source {
          assert longer[|log|].0 == s;
        }
      }
    }
  }

  /** How a cycle of the worker ends. */
  datatype CycleEnd = NothingPending | Stopped | Through

  class Runner {
    const outcome: nat -> Outcome            // result of each call of the import command
    const arriving: nat -> set<Source>       // markers published while the n-th import runs
    const present: (Source, nat) -> bool     // which target directories exist
    var calls: nat
    var pending: set<Source>
    var failed: set<Source>
    var log: seq<(Source, bool)>             // completed imports, oldest first
    ghost var history: seq<Import>           // the calls behind each entry of the log

    constructor (outcome: nat -> Outcome, arriving: nat -> set<Source>, present: (Source, nat) -> bool,
                 pending: set<Source>, failed: set<Source>)
      ensures this.outcome == outcome && this.arriving == arriving && this.present == present
      ensures this.pending == pending && this.failed == failed && calls == 0 && log == [] && history == []
    {
      this.outcome, this.arriving, this.present := outcome, arriving, present;
      this.pending, this.failed, calls, log, history := pending, failed, 0, [], [];
    }

    method RunTarget() returns (ok: bool, attempts: nat)
      modifies this`calls
      ensures TargetRun(outcome, old(calls)) == (ok, attempts)
      ensures calls == old(calls) + attempts
      ensures old(calls) < calls <= old(calls) + 3
      ensures ok <==> exists i :: old(calls) <= i < calls && Succeeded(outcome(i))
      ensures !ok ==> calls == old(calls) + 3
      ensures forall i :: old(calls) <= i < calls - 1 ==> !Succeeded(outcome(i))
    {
      for attempt := 1 to 4
        invariant calls == old(calls) + attempt - 1
        invariant forall i :: old(calls) <= i < calls ==> !Succeeded(outcome(i))
      {
        var result := outcome(calls);
        calls := calls + 1;
        if Succeeded(result) {
          return true, attempt;
        }
      }
      return false, 3;
    }

    /** The next target of a source. */
    method RunNextTarget(targets: seq<nat>, ghost imp0: Import, ghost goal: (bool, nat))
      returns (ok: bool, ghost imp: Import)
      requires Halfway(outcome, targets, imp0, goal) && |imp0.runs| < |targets| && imp0.end == calls
      modifies this`calls
      ensures imp.end == calls && imp.from == imp0.from <= calls && |imp.runs| == |imp0.runs| + 1
      ensures !ok ==> goal == (false, calls - imp.from) && ImportFits(outcome, targets, false, imp)
      ensures ok ==> Halfway(outcome, targets, imp, goal)
    {
      var attempts;
      ok, attempts := RunTarget();
      ghost var run := Run(targets[|imp0.runs|], imp0.end, calls);
      imp := Import(imp0.from, calls, imp0.runs + [run]);
      ImportStep(goal, outcome, imp0.end - imp0.from, imp0.end, |targets| - |imp0.runs|, ok, attempts);
      OneMoreRun(outcome, targets, imp0, run);
    }

    /** The targets in order, until one fails. */
    method RunTargets(targets: seq<nat>) returns (ok: bool, ghost imp: Import)
      modifies this`calls
      ensures calls >= old(calls) && (ok, calls - old(calls)) == ImportRun(outcome, old(calls), |targets|)
      ensures imp.from == old(calls) && imp.end == calls && ImportFits(outcome, targets, ok, imp)
    {
      ghost var goal := ImportRun(outcome, calls, |targets|);
      imp := Import(calls, calls, []);
      NoRunsYet(outcome, targets, calls);
      for index := 0 to |targets|
        invariant imp.from == old(calls) <= calls == imp.end && |imp.runs| == index
        invariant Halfway(outcome, targets, imp, goal)
      {
        var succeeded;
        succeeded, imp := RunNextTarget(targets, imp, goal);
        if !succeeded {
          return false, imp;
        }
      }
      AllRun(outcome, targets, imp, goal);
      return true, imp;
    }

    /** An import succeeds iff each target that exists had a call that exited with 0. */
    method RunImport(source: Source) returns (ok: bool, ghost imp: Import)
      modifies this`calls, this`failed
      ensures calls >= old(calls) && (ok, calls - old(calls)) == ImportRun(outcome, old(calls), |TargetsOf(present, source)|)
      ensures failed == if ok then old(failed) - {source} else old(failed)
      ensures imp.from == old(calls) && imp.end == calls && ImportFits(outcome, TargetsOf(present, source), ok, imp)
      ensures ok <==> forall t :: t in TargetsOf(present, source) ==> Served(outcome, imp, t)
      ensures !ok ==> exists t :: t in TargetsOf(present, source) && GivenUp(outcome, imp, t)
    {
      var targets := TargetsOf(present, source);
      if targets == [] {
        failed := failed - {source};
        return true, Import(calls, calls, []);
      }
      ok, imp := RunTargets(targets);
      SucceedsIffAllServed(outcome, present, source, ok, imp);
      if ok {
        failed := failed - {source};
      }
    }

    /** The failure markers tell how the last import of each source in the log ended. */
    ghost predicate MarkersFit(start: set<Source>)
      reads this`failed, this`log
    {
      MarkersTell(failed, start, log)
    }

    /** The log is the truth about the calls made since call `base`. */
    ghost predicate HistoryFits(base: nat)
      reads this`calls, this`log, this`history
    {
      LogIsTrue(outcome, present, base, calls, log, history)
    }

    /** No request made while an import ran is lost. */
    ghost predicate RequestsKept()
      reads this`pending, this`log
    {
      ArrivalsKept(arriving, pending, log)
    }

    /** One marker: claimed, imported, and kept as failed if the import fails. */
    method RunMarker(source: Source, ghost start: set<Source>, ghost base: nat) returns (ok: bool)
      requires MarkersFit(start) && HistoryFits(base) && RequestsKept()
      modifies this`calls, this`pending, this`failed, this`log, this`history
      ensures MarkersFit(start) && HistoryFits(base) && RequestsKept()
      ensures log == old(log) + [(source, ok)]
      ensures pending == old(pending) - {source} + arriving(|old(log)|)
      ensures old(calls) <= calls <= old(calls) + 3 * |TargetsOf(present, source)|
    {
      pending := pending - {source};
      ghost var imp;
      ok, imp := RunImport(source);
      pending := pending + arriving(|log|);
      ArrivalsStillKept(arriving, old(pending), log, source, ok, pending);
      EntryAdded(outcome, present, base, old(calls), log, history, source, ok, imp);
      if !ok {
        failed := failed + {source};
      }
      MarkersSnoc(old(failed), failed, start, log, source, ok);
      log, history := log + [(source, ok)], history + [imp];
    }

    /** The markers listed in one cycle, claimed and imported in order until one fails. */
    method RunMarkers(markers: seq<Source>, ghost start: set<Source>, ghost base: nat) returns (ok: bool)
      requires forall i :: 0 <= i < |markers| ==> markers[i] in pending
      requires forall i, j :: 0 <= i < j < |markers| ==> markers[i] != markers[j]
      requires MarkersFit(start) && HistoryFits(base) && RequestsKept()
      modifies this`calls, this`pending, this`failed, this`log, this`history
      ensures MarkersFit(start) && HistoryFits(base) && RequestsKept()
      ensures old(calls) <= calls <= old(calls) + 3 * Load(present, markers)
      ensures |old(log)| <= |log| <= |old(log)| + |markers| && log[..|old(log)|] == old(log)
      ensures Follows(log, |old(log)|, markers) && (ok ==> |log| == |old(log)| + |markers|)
      ensures AllSucceed(log, |old(log)|, |log| - 1)
      ensures ok ==> AllSucceed(log, |old(log)|, |log|)
      ensures ok ==> forall i :: 0 <= i < |markers| ==> (markers[i], true) in log
      ensures ok <==> |log| == |old(log)| || LastSucceeded(log)
      ensures forall s :: s in old(pending) ==> s in pending || (s, true) in log || (s, false) in log
    {
      for k := 0 to |markers|
        invariant MarkersFit(start) && HistoryFits(base) && RequestsKept()
        invariant old(calls) <= calls
        invariant calls + 3 * Load(present, markers[k..]) <= old(calls) + 3 * Load(present, markers)
        invariant |log| == |old(log)| + k && log[..|old(log)|] == old(log)
        invariant Follows(log, |old(log)|, markers) && (k > 0 ==> LastSucceeded(log))
        invariant AllSucceed(log, |old(log)|, |log|)
        invariant forall i :: 0 <= i < k ==> (markers[i], true) in log
        invariant forall i :: k <= i < |markers| ==> markers[i] in pending
        invariant forall s :: s in old(pending) ==> s in pending || (s, true) in log || (s, false) in log
      {
        assert markers[k..][1..] == markers[k + 1..];
        ghost var before := log;
        var succeeded := RunMarker(markers[k], start, base);
        FollowsOneMore(before, |old(log)|, markers, (markers[k], succeeded));
        SucceedFurther(before, log, |old(log)|);
        if !succeeded {
          return false;
        }
      }
      return true;
    }

    /** One cycle: the markers found pending, if there are any. */
    method RunCycle(ghost start: set<Source>, ghost base: nat) returns (end: CycleEnd)
      requires MarkersFit(start) && HistoryFits(base) && RequestsKept()
      modifies this`calls, this`pending, this`failed, this`log, this`history
      ensures MarkersFit(start) && HistoryFits(base) && RequestsKept()
      ensures old(calls) <= calls <= old(calls) + 12
      ensures |old(log)| <= |log| <= |old(log)| + 3 && log[..|old(log)|] == old(log)
      ensures Follows(log, |old(log)|, Sorted(old(pending)))
      ensures end.Through? ==> |log| == |old(log)| + |Sorted(old(pending))|
      ensures AllSucceed(log, |old(log)|, |log| - 1)
      ensures end.Stopped? <==> |log| > |old(log)| && !LastSucceeded(log)
      ensures old(LastSucceeded(log)) ==> (end.Stopped? <==> !LastSucceeded(log))
      ensures end.NothingPending? ==> log == old(log) && old(pending) == {}
      ensures end.Through? ==> forall s :: s in old(pending) ==> (s, true) in log
      ensures forall s :: s in old(pending) ==> s in pending || (s, true) in log || (s, false) in log
    {
      var markers := Sorted(pending);
      LoadOfListing(present, pending);
      if markers == [] {
        return NothingPending;
      }
      var ok := RunMarkers(markers, start, base);
      return if ok then Through else Stopped;
    }

    /**
     The cycles of a worker: exit code 1 iff some import failed, and then it stopped there. Never more
     than 24 calls of the import command; with exit code 0 every marker that was pending at the start
     has an import in the log, and no marker ever leaves the directory without one.
     */
    method RunCycles() returns (code: nat)
      modifies this`calls, this`pending, this`failed, this`log, this`history
      ensures calls <= old(calls) + 24
      ensures MarkersFit(old(failed)) && HistoryFits(old(calls)) && RequestsKept()
      ensures |log| <= 6
      ensures Follows(log, 0, Sorted(old(pending)))
      ensures AllSucceed(log, 0, |log| - 1)
      ensures code == if LastSucceeded(log) then 0 else 1
      ensures code == 0 ==> forall s :: s in old(pending) ==> (s, true) in log
      ensures code == 0 ==> |Sorted(old(pending))| <= |log|
      ensures forall s :: s in old(pending) ==> s in pending || (s, true) in log || (s, false) in log
    {
      log, history := [], [];
      ghost var listing := Sorted(pending);
      for cycle := 0 to 2
        invariant calls <= old(calls) + 12 * cycle
        invariant MarkersFit(old(failed)) && HistoryFits(old(calls)) && RequestsKept()
        invariant |log| <= cycle * 3 && LastSucceeded(log)
        invariant AllSucceed(log, 0, |log|)
        invariant cycle == 0 ==> pending == old(pending)
        invariant cycle > 0 ==> forall s :: s in old(pending) ==> (s, true) in log
        invariant cycle > 0 ==> Follows(log, 0, listing) && |listing| <= |log|
      {
        ghost var before := log;
        var end := RunCycle(old(failed), old(calls));
        SucceedFurther(before, log, 0);
        if cycle > 0 {
          FollowsStill(before, log, listing);
        }
        match end {
          case NothingPending => return 0;
          case Stopped => return 1;
          case Through =>
        }
      }
      return 0;
    }

    /**
     The worker under the lock. An import in the log succeeded iff each target of its source had a call
     that exited with 0; a marker that was pending is pending still, or was so imported, or is marked as
     failed; and with exit code 0 it was so imported. A request made during an import is pending still, or
     had an import after that one. When no call exits with 0, the worker fails at the first source that has
     a target, and no source that has one is lost.
     */
    method Worker() returns (code: nat)
      modifies this`calls, this`pending, this`failed, this`log, this`history
      ensures calls <= old(calls) + 24
      ensures MarkersFit(old(failed)) && HistoryFits(old(calls)) && RequestsKept()
      ensures |log| <= 6 && |log| == |history|
      ensures Follows(log, 0, Sorted(old(pending)))
      ensures AllSucceed(log, 0, |log| - 1)
      ensures code == if LastSucceeded(log) then 0 else 1
      ensures code == 0 ==> forall s :: s in old(pending) ==> (s, true) in log
      ensures forall s :: s in old(pending) ==> s in pending || (s, true) in log || (s, false) in log
      ensures forall k :: 0 <= k < |log| ==> (log[k].1 <==> ImportedBy(outcome, present, log, history, log[k].0, k))
      ensures forall s :: s in old(pending) ==>
        s in pending || s in failed || exists k :: ImportedBy(outcome, present, log, history, s, k)
      ensures code == 0 ==>
        forall s :: s in old(pending) ==> exists k :: ImportedBy(outcome, present, log, history, s, k)
      ensures
        var first := FirstWithTarget(present, Sorted(old(pending)));
        NoneSucceeds(outcome, old(calls), calls) && first.Some? ==>
          && code == 1 && first.value in failed
          && forall s :: s in old(pending) && TargetsOf(present, s) != [] ==> s in pending || s in failed
    {
      code := RunCycles();
      WorkerMeans(outcome, present, old(calls), calls, log, history, old(pending), old(failed), pending, failed);
      if NoneSucceeds(outcome, old(calls), calls) && FirstWithTarget(present, Sorted(old(pending))).Some? {
        NothingLost(outcome, present, old(calls), calls, log, history, old(pending), old(failed), pending, failed);
      }
    }
  }

  /** The failure marker of `s` after the imports of `entries`: decided by the last one of that source. */
  predicate FailedAfter(failed: set<Source>, entries: seq<(Source, bool)>, s: Source) {
    if entries == [] then s in failed
    else
      var last := entries[|entries| - 1];
      if last.0 == s then !last.1 else FailedAfter(failed, entries[..|entries| - 1], s)
  }

  predicate MarkerTells(failed: set<Source>, start: set<Source>, entries: seq<(Source, bool)>, s: Source) {
    s in failed <==> FailedAfter(start, entries, s)
  }

  ghost predicate MarkersTell(failed: set<Source>, start: set<Source>, entries: seq<(Source, bool)>) {
    forall s :: MarkerTells(failed, start, entries, s)
  }

  lemma {:induction false} MarkersSnoc(before: set<Source>, after: set<Source>, start: set<Source>,
                                       entries: seq<(Source, bool)>, source: Source, ok: bool)
    requires MarkersTell(before, start, entries)
    requires after == if ok then before - {source} else before + {source}
    ensures MarkersTell(after, start, entries + [(source, ok)])
  {
    var longer := entries + [(source, ok)];
    forall s
      ensures MarkerTells(after, start, longer, s)
    {
      assert MarkerTells(before, start, entries, s);
    }
  }
}
