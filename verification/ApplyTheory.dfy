/** What every apply run satisfies, whatever the primitives answer. */
module ApplyTheory {
  import opened Text
  import opened Digraph
  import opened Registry
  import opened Orchestrator

  /** Every resource comes once, after everything it refers to. */
  ghost predicate Sorted(s: Setup) {
    && NoRepeats(s.order)
    && forall i :: 0 <= i < |s.order| ==> s.order[i] in s.view && Precedes(s, i)
  }

  ghost predicate Precedes(s: Setup, i: nat)
    requires i < |s.order| && s.order[i] in s.view
  {
    forall x :: RefersTo(s.view[s.order[i]], x) ==> x in s.order[..i]
  }

  /** The order that `apply` works with is sorted. */
  lemma SortedByRegistry(rs: seq<Resource>, s: Setup)
    requires DistinctIds(rs) && IsView(rs, s.view) && IsTopological(GraphOf(rs), s.order)
    ensures Sorted(s)
  {
    hide RefersTo, GraphOf, Respects;
    GraphOfIs(rs);
    forall i | 0 <= i < |s.order|
      ensures s.order[i] in s.view && Precedes(s, i)
    {
      assert s.order[i] in s.order;
      assert Known(rs, s.order[i]);
      var k :| 0 <= k < |rs| && rs[k].id == s.order[i];
      forall x | RefersTo(rs[k], x)
        ensures x in s.order[..i]
      {
        OrderByFields(rs, s.order, i, k, x);
      }
    }
  }

  /** The only position of an id that some resource refers to lies before that resource. */
  lemma SourcePosition(s: Setup, i: nat, x: string) returns (j: nat)
    requires Sorted(s) && i < |s.order| && RefersTo(s.view[s.order[i]], x)
    ensures j < i && s.order[j] == x
    ensures forall k :: 0 <= k < |s.order| && s.order[k] == x ==> k == j
  {
    hide RefersTo;
    assert Precedes(s, i);
    j :| 0 <= j < i && s.order[..i][j] == x;
  }

  // ---------------------------------------------------------------- transitive skip

  ghost predicate HardEdge(s: Setup, u: string, v: string) {
    v in s.view && u in s.view[v].dependsOn
  }

  /** A chain of hard dependencies, from the dependency to the dependent. */
  ghost predicate DependsWalk(s: Setup, p: seq<string>) {
    |p| >= 1 && forall k :: 0 <= k < |p| - 1 ==> HardEdge(s, p[k], p[k + 1])
  }

  lemma BadIdsAt(s: Setup, outs: seq<Outcome>, i: nat, j: nat)
    requires NoRepeats(s.order) && |outs| <= |s.order| && j < i <= |outs|
    ensures s.order[j] in BadIds(s, outs[..i]) <==> Bad(outs[j])
  {
    assert outs[..i][j] == outs[j];
    if s.order[j] in BadIds(s, outs[..i]) {
      var k :| 0 <= k < i && Bad(outs[..i][k]) && s.order[k] == s.order[j];
      assert k == j;
    }
  }

  /** Only a resource that reached its primitive ends well. */
  lemma GoodMeansPlanned(s: Setup, outs: seq<Outcome>, j: nat)
    requires Follows(s, outs) && j < |outs| && !Bad(outs[j])
    ensures GetsPlanned(s, outs[..j])
  {
    hide GetsPlanned, AbortedBy, SleepCancelled, DependsOnBad, Verdict;
    assert outs[j] == Expected(s, outs[..j]);
  }

  /**
   In every run a resource that is planned has no dependency, direct or through others, that ended
   Failed, Interrupted or Skipped.
   */
  lemma {:induction false} PlannedHasSoundAncestors(s: Setup, outs: seq<Outcome>, i: nat, p: seq<string>)
    returns (j: nat)
    requires Sorted(s) && Follows(s, outs) && i < |outs| && GetsPlanned(s, outs[..i])
    requires DependsWalk(s, p) && |p| >= 2 && p[|p| - 1] == s.order[i]
    ensures j < i && s.order[j] == p[0] && !Bad(outs[j])
    decreases |p|
  {
    hide Expected, BadIds, AbortedBy, SleepCancelled;
    var dep := p[|p| - 2];
    assert HardEdge(s, p[|p| - 2], p[|p| - 2 + 1]);
    j := SourcePosition(s, i, dep);
    BadIdsAt(s, outs, i, j);
    if |p| > 2 {
      GoodMeansPlanned(s, outs, j);
      j := PlannedHasSoundAncestors(s, outs, j, p[..|p| - 1]);
    }
  }

  ghost predicate NoInterruption(outs: seq<Outcome>) {
    forall i :: 0 <= i < |outs| ==> !outs[i].Interrupted?
  }

  /** With continue-on-error and no interruption nothing aborts the run. */
  lemma NothingAborts(s: Setup, outs: seq<Outcome>, i: nat)
    requires Follows(s, outs) && i < |outs| && s.opts.continueOnError && NoInterruption(outs)
    ensures !AbortedBy(s, outs[..i]) && !SleepCancelled(s, outs[..i])
  {
    hide GetsPlanned, DependsOnBad, Verdict;
    assert outs[i] == Expected(s, outs[..i]);
  }

  ghost predicate HasFailedAncestor(s: Setup, outs: seq<Outcome>, i: nat)
    requires i < |s.order| && |outs| == |s.order|
  {
    exists p, j: nat :: FailedWalk(s, outs, i, p, j)
  }

  /** `p` leads from the failed resource at `j` to the resource at `i`. */
  ghost predicate FailedWalk(s: Setup, outs: seq<Outcome>, i: nat, p: seq<string>, j: nat)
    requires i < |s.order| && |outs| == |s.order|
  {
    && DependsWalk(s, p) && |p| >= 2 && p[|p| - 1] == s.order[i]
    && j < |s.order| && p[0] == s.order[j] && outs[j].Failed?
  }

  /** Everything that a chain of hard dependencies links to a failure is skipped. */
  lemma {:induction false} FailureSkipsDependents(s: Setup, outs: seq<Outcome>, i: nat, p: seq<string>, j: nat)
    requires Sorted(s) && Follows(s, outs) && |outs| == |s.order| && i < |outs|
    requires s.opts.continueOnError && NoInterruption(outs)
    requires FailedWalk(s, outs, i, p, j)
    ensures outs[i].Skipped?
    decreases |p|
  {
    hide BadIds, AbortedBy, SleepCancelled, Verdict;
    var dep := p[|p| - 2];
    assert HardEdge(s, p[|p| - 2], p[|p| - 2 + 1]);
    var k := SourcePosition(s, i, dep);
    if |p| > 2 {
      FailureSkipsDependents(s, outs, k, p[..|p| - 1], j);
    } else {
      assert k == j;
    }
    BadIdsAt(s, outs, i, k);
    NothingAborts(s, outs, i);
    assert outs[i] == Expected(s, outs[..i]);
  }

  lemma {:induction false} SkippedHasFailedAncestor(s: Setup, outs: seq<Outcome>, i: nat)
    requires Sorted(s) && Follows(s, outs) && |outs| == |s.order| && i < |outs|
    requires s.opts.continueOnError && NoInterruption(outs) && outs[i].Skipped?
    ensures HasFailedAncestor(s, outs, i)
    decreases i
  {
    hide AbortedBy, SleepCancelled;
    NothingAborts(s, outs, i);
    assert outs[i] == Expected(s, outs[..i]);
    VerdictIsNotSkipped(s.world(i));
    var r := s.view[s.order[i]];
    var dep :| dep in r.dependsOn && dep in BadIds(s, outs[..i]);
    var j :| 0 <= j < i && Bad(outs[..i][j]) && s.order[j] == dep;
    if outs[j].Failed? {
      assert FailedWalk(s, outs, i, [dep, s.order[i]], j);
    } else {
      SkippedHasFailedAncestor(s, outs, j);
      var p, k: nat :| FailedWalk(s, outs, j, p, k);
      ExtendWalk(s, p, s.order[i]);
      assert FailedWalk(s, outs, i, p + [s.order[i]], k);
    }
  }

  lemma VerdictIsNotSkipped(t: Turn)
    ensures !Verdict(t).Skipped?
  {
  }

  lemma ExtendWalk(s: Setup, p: seq<string>, id: string)
    requires DependsWalk(s, p) && HardEdge(s, p[|p| - 1], id)
    ensures DependsWalk(s, p + [id])
  {
    var q := p + [id];
    forall k | 0 <= k < |q| - 1
      ensures HardEdge(s, q[k], q[k + 1])
    {
      if k < |p| - 1 { assert q[k] == p[k] && q[k + 1] == p[k + 1]; }
    }
  }

  /**
   Transitive skip is exact: with continue-on-error and no interruption a resource is skipped if and
   only if a chain of `depends_on` leads to it from a failed one; notify edges never propagate.
   */
  lemma SkippedIffFailedAncestor(s: Setup, outs: seq<Outcome>, i: nat)
    requires Sorted(s) && Follows(s, outs) && |outs| == |s.order| && i < |outs|
    requires s.opts.continueOnError && NoInterruption(outs)
    ensures outs[i].Skipped? <==> HasFailedAncestor(s, outs, i)
  {
    hide Sorted, Follows, FailedWalk, NoInterruption;
    if outs[i].Skipped? {
      SkippedHasFailedAncestor(s, outs, i);
    }
    if HasFailedAncestor(s, outs, i) {
      var p, j: nat :| FailedWalk(s, outs, i, p, j);
      FailureSkipsDependents(s, outs, i, p, j);
    }
  }

  // ---------------------------------------------------------------- notify

  /** At position `k` the id `x` was recorded as changed, by the loop or by the primitive itself. */
  ghost predicate RecordsAt(s: Setup, outs: seq<Outcome>, k: nat, x: string)
    requires k < |outs| <= |s.order|
  {
    (outs[k].Changed? && s.order[k] == x) || (GetsApplied(s, outs[..k]) && x in s.world(k).records)
  }

  lemma {:induction false} RecordedIff(s: Setup, outs: seq<Outcome>, i: nat, x: string)
    requires i <= |outs| <= |s.order|
    ensures x in Recorded(s, outs[..i]) <==> exists k :: 0 <= k < i && RecordsAt(s, outs, k, x)
  {
    hide GetsApplied;
    if i > 0 {
      RecordedIff(s, outs, i - 1, x);
      assert outs[..i][..i - 1] == outs[..i - 1];
      assert x in RecordedAt(s, outs[..i - 1], outs[i - 1]) <==> RecordsAt(s, outs, i - 1, x);
    }
  }

  /** Primitives record at most their own resource, and then report a change. */
  ghost predicate RecordsOwnChange(s: Setup, outs: seq<Outcome>)
    requires |outs| <= |s.order|
  {
    forall k, x :: 0 <= k < |outs| && GetsApplied(s, outs[..k]) && x in s.world(k).records ==>
      x == s.order[k] && outs[k].Changed?
  }

  /**
   Notify answers are final: an apply call sees a resource it refers to as changed if and only if that
   resource ends the run as changed or some earlier primitive recorded it. While primitives record only
   their own changes, what it sees is how the resource ends.
   */
  lemma {:induction false} NotifyAnswersAreFinal(s: Setup, outs: seq<Outcome>, initial: set<string>, i: nat,
                                                 x: string, j: nat)
    requires Sorted(s) && Follows(s, outs) && |outs| == |s.order| && i < |outs|
    requires GetsApplied(s, outs[..i])
    requires var r := s.view[s.order[i]]; x in r.reloadOn || x in r.restartOn || x in r.dependsOn
    requires j < |outs| && s.order[j] == x
    ensures ApplyCall(s.order[i], s.view[s.order[i]].kind, initial + Recorded(s, outs[..i])) in LogOf(s, outs, initial)
    ensures x in Recorded(s, outs[..i]) <==>
            outs[j].Changed? || exists k :: 0 <= k < i && GetsApplied(s, outs[..k]) && x in s.world(k).records
    ensures RecordsOwnChange(s, outs) ==> (x in initial + Recorded(s, outs[..i]) <==> x in initial || outs[j].Changed?)
  {
    hide GetsApplied, Follows, LogOf, Recorded, Sorted;
    var p := SourcePosition(s, i, x);
    assert p == j;
    RecordedIff(s, outs, i, x);
    if outs[j].Changed? { assert RecordsAt(s, outs, j, x); }
    if x in Recorded(s, outs[..i]) {
      var k :| 0 <= k < i && RecordsAt(s, outs, k, x);
      assert outs[k].Changed? && s.order[k] == x ==> k == j;
    }
    if k :| 0 <= k < i && GetsApplied(s, outs[..k]) && x in s.world(k).records { assert RecordsAt(s, outs, k, x); }
    LogContains(s, outs, initial, i);
  }

  /** Every applied position has its apply call in the log. */
  lemma {:induction false} LogContains(s: Setup, outs: seq<Outcome>, initial: set<string>, i: nat)
    requires |outs| <= |s.order| && i < |outs| && GetsApplied(s, outs[..i])
    ensures ApplyCall(s.order[i], s.view[s.order[i]].kind, initial + Recorded(s, outs[..i])) in LogOf(s, outs, initial)
    decreases |outs|
  {
    hide AbortedBy, SleepCancelled, DependsOnBad, Recorded;
    var front := outs[..|outs| - 1];
    if i < |front| {
      assert front[..i] == outs[..i];
      LogContains(s, front, initial, i);
    } else {
      assert front == outs[..i];
      var evs := EventsAt(s, front, initial);
      assert evs[2] == ApplyCall(s.order[i], s.view[s.order[i]].kind, initial + Recorded(s, outs[..i]));
      assert LogOf(s, outs, initial)[|LogOf(s, front, initial)| + 2] == evs[2];
    }
  }

  // ---------------------------------------------------------------- dirty before apply

  /** Every apply call comes right after the facts of its kind were marked dirty. */
  ghost predicate DirtyBeforeApply(log: seq<LogEvent>) {
    forall k :: 0 <= k < |log| && log[k].ApplyCall? ==> k >= 1 && log[k - 1] == MarkDirty(log[k].kind)
  }

  /** The loop keeps that discipline in every run, also for applies that fail. */
  lemma {:induction false} LogIsDirtyBeforeApply(s: Setup, outs: seq<Outcome>, initial: set<string>)
    requires |outs| <= |s.order|
    ensures DirtyBeforeApply(LogOf(s, outs, initial))
  {
    hide GetsPlanned, GetsApplied, Recorded;
    if outs != [] {
      var front := outs[..|outs| - 1];
      LogIsDirtyBeforeApply(s, front, initial);
      DirtyConcat(LogOf(s, front, initial), EventsAt(s, front, initial));
    }
  }

  lemma DirtyConcat(a: seq<LogEvent>, b: seq<LogEvent>)
    requires DirtyBeforeApply(a) && DirtyBeforeApply(b)
    ensures DirtyBeforeApply(a + b)
  {
    forall k | 0 <= k < |a + b| && (a + b)[k].ApplyCall?
      ensures k >= 1 && (a + b)[k - 1] == MarkDirty((a + b)[k].kind)
    {
      if k >= |a| { assert b[k - |a|].ApplyCall?; assert b[k - |a| - 1] == MarkDirty(b[k - |a|].kind); }
    }
  }

  // ---------------------------------------------------------------- shape and exit code

  /** Nothing is attempted after the run was ended. */
  lemma AfterAbortOnlySkips(s: Setup, outs: seq<Outcome>, i: nat, j: nat)
    requires Follows(s, outs) && i < j < |outs|
    requires outs[i].Interrupted? || (outs[i].Failed? && !s.opts.continueOnError)
    ensures outs[j].Skipped?
  {
    hide GetsPlanned, SleepCancelled, DependsOnBad, Verdict;
    assert outs[..j][i] == outs[i];
    assert AbortedBy(s, outs[..j]);
    assert outs[j] == Expected(s, outs[..j]);
  }

  /** At most one resource is interrupted, and only skips follow it. */
  lemma {:induction false} AtMostOneInterruption(s: Setup, outs: seq<Outcome>)
    requires Follows(s, outs)
    ensures forall i, j :: 0 <= i < j < |outs| && outs[i].Interrupted? ==> outs[j].Skipped?
  {
    hide Follows;
    forall i, j | 0 <= i < j < |outs| && outs[i].Interrupted?
      ensures outs[j].Skipped?
    {
      AfterAbortOnlySkips(s, outs, i, j);
    }
  }

  /** The first bad outcome is a failure or an interruption, not a skip. */
  lemma FirstBadIsNoSkip(s: Setup, outs: seq<Outcome>, m: nat)
    requires Follows(s, outs) && m < |outs| && Bad(outs[m])
    requires forall j :: 0 <= j < m ==> !Bad(outs[j])
    ensures !outs[m].Skipped?
  {
    hide GetsPlanned, SleepCancelled, Verdict;
    VerdictIsNotSkipped(s.world(m));
    assert outs[m] == Expected(s, outs[..m]);
    assert forall j :: 0 <= j < m ==> outs[..m][j] == outs[j];
    assert BadIds(s, outs[..m]) == {};
    assert !AbortedBy(s, outs[..m]);
  }

  lemma {:induction false} FirstBad(outs: seq<Outcome>, i: nat) returns (m: nat)
    requires i < |outs| && Bad(outs[i])
    ensures m <= i && Bad(outs[m]) && forall j :: 0 <= j < m ==> !Bad(outs[j])
    decreases i
  {
    if j :| 0 <= j < i && Bad(outs[j]) {
      m := FirstBad(outs, j);
    } else {
      m := i;
    }
  }

  /** Stopping on errors, a run is good outcomes, then at most one failure or interruption, then skips. */
  lemma RunShape(s: Setup, outs: seq<Outcome>) returns (m: nat)
    requires Follows(s, outs) && !s.opts.continueOnError
    ensures m <= |outs| && forall j :: 0 <= j < m ==> !Bad(outs[j])
    ensures m < |outs| ==> outs[m].Failed? || outs[m].Interrupted?
    ensures forall j :: m < j < |outs| ==> outs[j].Skipped?
  {
    hide Follows;
    if i :| 0 <= i < |outs| && Bad(outs[i]) {
      m := FirstBad(outs, i);
      FirstBadIsNoSkip(s, outs, m);
      forall j | m < j < |outs|
        ensures outs[j].Skipped?
      {
        AfterAbortOnlySkips(s, outs, m, j);
      }
    } else {
      m := |outs|;
    }
  }

  const EXIT_SUCCESS := 0
  const EXIT_PARTIAL_FAILURE := 1
  const EXIT_INTERRUPTED := 130

  /** The exit code chosen from the summary; interruption outranks failure. */
  function ExitCode(summary: ApplySummary): nat {
    if summary.interrupted > 0 then EXIT_INTERRUPTED
    else if summary.failed > 0 then EXIT_PARTIAL_FAILURE
    else EXIT_SUCCESS
  }

  lemma {:induction false} CountIsZero(outs: seq<Outcome>, o: Outcome)
    ensures Count(outs, o) == 0 <==> o !in outs
  {
    if outs != [] {
      CountIsZero(outs[..|outs| - 1], o);
      assert outs == outs[..|outs| - 1] + [outs[|outs| - 1]];
    }
  }

  lemma {:induction false} CountsAddUp(outs: seq<Outcome>)
    ensures var s := SummaryOf(outs);
            s.changed + s.noChange + s.failed + s.skipped + s.deferred + s.interrupted == |outs|
  {
    if outs != [] { CountsAddUp(outs[..|outs| - 1]); }
  }

  /**
   The process exits with success exactly when every resource ended NoChange, Changed or Deferred,
   with 130 exactly when one was interrupted, and with 1 otherwise.
   */
  lemma ExitCodeTellsTheRun(s: Setup, outs: seq<Outcome>)
    requires Follows(s, outs)
    ensures ExitCode(SummaryOf(outs)) == 0 <==>
              forall i :: 0 <= i < |outs| ==> outs[i].NoChange? || outs[i].Changed? || outs[i].Deferred?
    ensures ExitCode(SummaryOf(outs)) == 130 <==> Interrupted in outs
    ensures ExitCode(SummaryOf(outs)) == 1 <==> Failed in outs && Interrupted !in outs
  {
    hide Follows, Count;
    CountIsZero(outs, Interrupted);
    CountIsZero(outs, Failed);
    if i :| 0 <= i < |outs| && Bad(outs[i]) {
      var m := FirstBad(outs, i);
      FirstBadIsNoSkip(s, outs, m);
      assert outs[m] in outs;
    }
  }
}
