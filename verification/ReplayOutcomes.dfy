/**
 What a replay does, told from the answers alone: which records it counts, promotes, removes or leaves, in
 which order it asks, and what its report says.
 */
module ReplayOutcomes {
  import opened Text
  import opened DeferFormat
  import opened Directory
  import opened Journal
  import opened ReplayTheory

  // ---------------------------------------------------------------- what is asked

  /** What is asked about one entry and nothing else. */
  lemma VisitAsks(e: DeferEntry, a: Answer, f: DeferEntry)
    ensures forall r :: Dispatched(f, r) in VisitEvents(e, a) <==> f == e && r == a.dispatch
    ensures forall h :: Checked(f, h) in VisitEvents(e, a) <==>
                        f == e && a.dispatch.DispatchOk? && e.healthCheck.Some? && h == a.health
  {
    hide Reaction;
    ReactionDispatchesNothing(e, a);
    var asked, reaction := Asked(e, a), Reaction(e, a);
    assert forall ev :: ev in VisitEvents(e, a) <==> ev in asked || ev in reaction;
    assert forall ev :: ev in reaction ==> ev.FileEvent?;
  }

  /** The trace of a replay tells which entries were reached and what was answered about them. */
  lemma {:induction false} VisitsAsk(p: Visible, entries: seq<DeferEntry>, answers: seq<Answer>, i: nat, j: nat)
    requires i <= |entries| && i <= |answers| && Snapshot(p, entries) && j < |entries|
    ensures var evs := VisitsEvents(entries, answers, i);
            && (forall r :: Dispatched(entries[j], r) in evs <==> j < i && r == answers[j].dispatch)
            && (forall h :: Checked(entries[j], h) in evs <==>
                            && j < i && answers[j].dispatch.DispatchOk?
                            && entries[j].healthCheck.Some? && h == answers[j].health)
  {
    hide Filename, VisitEvents;
    if i > 0 {
      VisitsAsk(p, entries, answers, i - 1, j);
      VisitAsks(entries[i - 1], answers[i - 1], entries[j]);
      if j != i - 1 { assert entries[j] != entries[i - 1] by { DistinctEntries(p, entries, j, i - 1); } }
      var before, now := VisitsEvents(entries, answers, i - 1), VisitEvents(entries[i - 1], answers[i - 1]);
      assert forall ev :: ev in before + now <==> ev in before || ev in now;
    }
  }

  lemma DistinctEntries(p: Visible, entries: seq<DeferEntry>, i: nat, j: nat)
    requires Snapshot(p, entries) && i < |entries| && j < |entries| && i != j
    ensures entries[i] != entries[j]
  {
    hide Filename;
    assert Filename(entries[i]) != Filename(entries[j]);
  }

  // ---------------------------------------------------------------- promoted records stay

  predicate Mentions(ev: Event, m: string) {
    ev.FileEvent? &&
    match ev.op
    case Unlink(n) => n == m
    case Create(n) => n == m
    case Fill(n, _) => n == m
    case Rename(src, dst) => src == m || dst == m
    case SyncDir => false
  }

  lemma {:induction false} UnmentionedStays(d: Dir, evs: seq<Event>, m: string)
    requires m in d && forall k :: 0 <= k < |evs| ==> !Mentions(evs[k], m)
    ensures m in Effects(d, evs) && Effects(d, evs)[m] == d[m]
  {
    if evs != [] { UnmentionedStays(d, evs[..|evs| - 1], m); }
  }

  /** A visit touches no promoted record but its own. */
  lemma VisitLeavesPromoted(e: DeferEntry, a: Answer, m: string)
    requires IsManualClear(m) && m != ManualClearFilename(e)
    ensures forall k :: 0 <= k < |VisitEvents(e, a)| ==> !Mentions(VisitEvents(e, a)[k], m)
  {
    hide Filename, TmpName, ManualClearFilename, Exhausted, Extension, FateOf, Decimal;
    BumpedNames(e);
    FilenameExtensions(e, 0);
    FilenameExtensions(Bumped(e), a.nanos);
    DecimalIsNoWord(a.nanos);
    assert m != Filename(e) && m != TmpName(Bumped(e), a.nanos);
  }

  /** A visit that promotes leaves the counted record under its promoted name. */
  lemma {:induction false} VisitPromotes(d: Dir, e: DeferEntry, a: Answer)
    requires FateOf(e, a).Promoted?
    ensures var d' := Effects(d, VisitEvents(e, a));
            ManualClearFilename(e) in d' && d'[ManualClearFilename(e)] == Record(Bumped(e))
  {
    hide Filename, ManualClearFilename, Pending, Torn, Exhausted, Bumped, AtomicWriteEvents, Extension, Effects;
    var evs, fails := VisitEvents(e, a), FailEvents(e, a.nanos);
    VisitRun(d, e, a, |evs|);
    TakeAll(evs, |evs|);
    TakeAll(fails, |fails|);
    FailLength(e, a.nanos);
    PromotedWhenExhausted(e, a);
    FailAtEveryPoint(d, e, a.nanos, 4);
    AtomicWriteLength(Bumped(e), a.nanos, ByReplay(e));
    EffectsStep(d, fails, 4);
    EffectsStep(d, fails, 5);
    assert fails[..6] == fails;
    assert fails[4] == PromoteEvents(e)[0] && fails[5] == PromoteEvents(e)[1];
    FilenameExtensions(e, 0);
    RetireEffect(Effects(d, fails[..4]), Filename(e), ManualClearFilename(e));
  }

  lemma {:induction false} PromotedStays(d: Dir, entries: seq<DeferEntry>, answers: seq<Answer>, i: nat, j: nat)
    requires i <= |entries| && i <= |answers| && j < i && FateOf(entries[j], answers[j]).Promoted?
    requires Snapshot(Pending(d), entries) && forall k :: 0 <= k < i ==> WellFormed(entries[k])
    ensures var d' := Effects(d, VisitsEvents(entries, answers, i));
            ManualClearFilename(entries[j]) in d' && d'[ManualClearFilename(entries[j])] == Record(Bumped(entries[j]))
  {
    hide Filename, ManualClearFilename, Pending, VisitEvents, FateOf, WellFormed, Effects, Bumped, Extension;
    var before, now := VisitsEvents(entries, answers, i - 1), VisitEvents(entries[i - 1], answers[i - 1]);
    EffectsConcat(d, before, now);
    if j == i - 1 {
      VisitPromotes(Effects(d, before), entries[j], answers[j]);
    } else {
      PromotedStays(d, entries, answers, i - 1, j);
      FilenameExtensions(entries[j], 0);
      FilenameIsId(entries[j], entries[i - 1]);
      ManualNameIsId(entries[j], entries[i - 1]);
      VisitLeavesPromoted(entries[i - 1], answers[i - 1], ManualClearFilename(entries[j]));
      UnmentionedStays(Effects(d, before), now, ManualClearFilename(entries[j]));
    }
  }

  // ---------------------------------------------------------------- what becomes of a record

  /** The record after one more failed attempt. */
  function OneMoreFailure(e: DeferEntry): DeferEntry {
    if e.attemptCount < U32_MAX then e.(attemptCount := e.attemptCount + 1) else e
  }

  /** The fates, by the answers. */
  lemma FateTells(e: DeferEntry, a: Answer)
    ensures var next := OneMoreFailure(e).attemptCount;
            var checked := a.dispatch.DispatchOk? && e.healthCheck.Some?;
            && (FateOf(e, a).Executed? <==> a.dispatch.DispatchOk? && (e.healthCheck.None? || a.health.HealthOk?))
            && (FateOf(e, a).SkippedUnavailable? <==> a.dispatch.ClientUnavailable?)
            && (FateOf(e, a).KeptByCancel? <==> checked && a.health.HealthCancelled?)
            && (FateOf(e, a).Failed? <==> a.dispatch.ActionFailed? && next < e.maxAttempts)
            && (FateOf(e, a).HealthCheckFailed? <==> checked && a.health.HealthFailed? && next < e.maxAttempts)
            && (FateOf(e, a).Promoted? <==>
                  (a.dispatch.ActionFailed? || (checked && a.health.HealthFailed?)) && next >= e.maxAttempts)
            && Bumped(e) == OneMoreFailure(e)
  {
  }

  /**
   A complete replay, told from the trace. A record whose dispatch failed, or whose health check failed, has
   its attempt counted and is pending below its limit; at the limit it is promoted with that count. A record
   whose dispatch succeeded and whose check, if any, passed is gone. A record is pending unchanged if and only
   if its init system was not available, its check was cancelled, or its turn did not come.
   */
  lemma {:induction false} ReplayOutcome(d: Dir, answers: seq<Answer>, n: string)
    requires Good(d) && n in Pending(d)
    ensures var e := Pending(d)[n];
            var evs := ReplayEvents(d, answers);
            var q := Effects(d, evs);
            var counted := OneMoreFailure(e);
            var failed := Dispatched(e, ActionFailed) in evs || Checked(e, HealthFailed) in evs;
            && (failed && counted.attemptCount < e.maxAttempts ==> n in Pending(q) && Pending(q)[n] == counted)
            && (failed && counted.attemptCount >= e.maxAttempts ==>
                  && n !in Pending(q)
                  && ManualClearFilename(e) in q && q[ManualClearFilename(e)] == Record(counted))
            && (Dispatched(e, DispatchOk) in evs && (e.healthCheck.None? || Checked(e, HealthOk) in evs) ==>
                  n !in Pending(q))
            && (n in Pending(q) && Pending(q)[n] == e <==>
                  || Dispatched(e, ClientUnavailable) in evs
                  || Checked(e, HealthCancelled) in evs
                  || forall r :: Dispatched(e, r) !in evs)
  {
    hide Filename, ManualClearFilename, Pending, Listing, VisitsEvents, FateOf, WellFormed, LexLeq, Effects, Reached,
         Exhausted, Antichain, Snapshot;
    var l, evs := Listing(d), ReplayEvents(d, answers);
    var i := Reached(|l|, answers);
    ListingIsSnapshot(d);
    ListingIsPending(d);
    var j :| 0 <= j < |l| && l[j] == Pending(d)[n];
    assert Filename(l[j]) == n;
    VisitsAsk(Pending(d), l, answers, i, j);
    VisitsInTotal(d, l, answers, i);
    if j < i {
      assert EndedAs(Pending(Effects(d, evs)), l[j], FateOf(l[j], answers[j]));
      assert Dispatched(l[j], answers[j].dispatch) in evs;
      FateTells(l[j], answers[j]);
      if FateOf(l[j], answers[j]).Promoted? { PromotedStays(d, l, answers, i, j); }
    } else {
      NotVisited(Pending(d), l, i, j);
    }
  }

  lemma NotVisited(p: Visible, l: seq<DeferEntry>, i: nat, j: nat)
    requires Snapshot(p, l) && i <= j < |l|
    ensures !VisitedBefore(l, i, Filename(l[j]))
  {
    hide Filename;
  }

  // ---------------------------------------------------------------- the order

  /**
   Replays ask first about restarts, starts and stops, then about reload-or-restarts, then reloads, then
   commands, and last about daemon reloads.
   */
  lemma {:induction false} ReplayDispatchesByAction(d: Dir, answers: seq<Answer>, i: nat, j: nat)
    requires Good(d) && i < j < |DispatchedIn(ReplayEvents(d, answers))|
    ensures var done := DispatchedIn(ReplayEvents(d, answers));
            var a, b := done[i].action, done[j].action;
            && (b.Restart? || b.Start? || b.Stop? ==> a.Restart? || a.Start? || a.Stop?)
            && (b.ReloadOrRestart? ==> a.Restart? || a.Start? || a.Stop? || a.ReloadOrRestart?)
            && (b.Reload? ==> !a.Command? && !a.DaemonReload?)
            && (b.Command? ==> !a.DaemonReload?)
  {
    hide Pending, Filename, WellFormed, ReplayEvents, DispatchedIn, Listing, Good, Reached;
    ReplayDispatchesByPriority(d, answers);
    var done := DispatchedIn(ReplayEvents(d, answers));
    VisibleHasDefaultPriority(d, Filename(done[i]));
    VisibleHasDefaultPriority(d, Filename(done[j]));
  }

  lemma VisibleHasDefaultPriority(d: Dir, n: string)
    requires Good(d) && n in Pending(d)
    ensures Pending(d)[n].priority == DefaultPriority(Pending(d)[n].action)
  {
    hide Pending, Filename;
  }

  // ---------------------------------------------------------------- the report

  /** The entries among the first `n` that met fate `f`. */
  ghost function WithFate(entries: seq<DeferEntry>, answers: seq<Answer>, n: nat, f: Fate): set<nat>
    requires n <= |entries|
  {
    set i: nat | i < n && FateAt(entries, answers, i) == f
  }

  lemma {:induction false} CountIsNumber(entries: seq<DeferEntry>, answers: seq<Answer>, n: nat, f: Fate)
    requires n <= |entries|
    ensures CountFate(entries, answers, n, f) == |WithFate(entries, answers, n, f)|
  {
    hide FateAt;
    if n > 0 {
      CountIsNumber(entries, answers, n - 1, f);
      var before := WithFate(entries, answers, n - 1, f);
      if FateAt(entries, answers, n - 1) == f {
        assert WithFate(entries, answers, n, f) == before + {n - 1};
      } else {
        assert WithFate(entries, answers, n, f) == before;
      }
    }
  }

  function AtMost(n: nat, limit: nat): nat {
    if n <= limit then n else limit
  }

  /** The dispatch succeeded, and so did the check if there is one. */
  predicate Succeeded(e: DeferEntry, a: Answer) {
    a.dispatch.DispatchOk? && (e.healthCheck.None? || a.health.HealthOk?)
  }

  /** The dispatch succeeded and the check failed. */
  predicate Unhealthy(e: DeferEntry, a: Answer) {
    a.dispatch.DispatchOk? && e.healthCheck.Some? && a.health.HealthFailed?
  }

  /** One more failed attempt stays below the limit. */
  predicate BelowLimit(e: DeferEntry) {
    e.attemptCount < U32_MAX && e.attemptCount + 1 < e.maxAttempts
  }

  /** Each counter of the report is the number of the answers it stands for, up to its largest value. */
  lemma {:induction false} ReportTells(entries: seq<DeferEntry>, answers: seq<Answer>)
    ensures var r, c := ReportUpTo(entries, answers, |entries|), Reached(|entries|, answers);
            && r.executed == AtMost(|set i: nat | i < c && Succeeded(entries[i], answers[i])|, U32_MAX)
            && r.skippedUnavailable == AtMost(|set i: nat | i < c && answers[i].dispatch.ClientUnavailable?|, U32_MAX)
            && r.failed ==
               AtMost(|set i: nat | i < c && answers[i].dispatch.ActionFailed? && BelowLimit(entries[i])|, U32_MAX)
            && r.healthCheckFailed ==
               AtMost(|set i: nat | i < c && Unhealthy(entries[i], answers[i]) && BelowLimit(entries[i])|, U32_MAX)
            && r.promotedToManualClear ==
               AtMost(|set i: nat | i < c && (answers[i].dispatch.ActionFailed? || Unhealthy(entries[i], answers[i]))
                                          && !BelowLimit(entries[i])|, U32_MAX)
  {
    hide FateOf, Reached, CountFate;
    var c := Reached(|entries|, answers);
    forall f
      ensures CountFate(entries, answers, |entries|, f) == |WithFate(entries, answers, |entries|, f)|
    {
      CountIsNumber(entries, answers, |entries|, f);
    }
    forall i: nat | i < c
      ensures FateAt(entries, answers, i) == FateOf(entries[i], answers[i])
    {
      FateTells(entries[i], answers[i]);
    }
    SetsOfFates(entries, answers);
  }

  lemma {:induction false} SetsOfFates(entries: seq<DeferEntry>, answers: seq<Answer>)
    ensures var n, c := |entries|, Reached(|entries|, answers);
            && WithFate(entries, answers, n, Executed) == (set i: nat | i < c && Succeeded(entries[i], answers[i]))
            && WithFate(entries, answers, n, SkippedUnavailable) ==
               (set i: nat | i < c && answers[i].dispatch.ClientUnavailable?)
            && WithFate(entries, answers, n, Failed) ==
               (set i: nat | i < c && answers[i].dispatch.ActionFailed? && BelowLimit(entries[i]))
            && WithFate(entries, answers, n, HealthCheckFailed) ==
               (set i: nat | i < c && Unhealthy(entries[i], answers[i]) && BelowLimit(entries[i]))
            && WithFate(entries, answers, n, Promoted) ==
               (set i: nat | i < c && (answers[i].dispatch.ActionFailed? || Unhealthy(entries[i], answers[i]))
                                   && !BelowLimit(entries[i]))
  {
    hide FateOf, Reached;
    forall i: nat | i < Reached(|entries|, answers)
      ensures var f := FateOf(entries[i], answers[i]);
              && (f.Executed? <==> Succeeded(entries[i], answers[i]))
              && (f.SkippedUnavailable? <==> answers[i].dispatch.ClientUnavailable?)
              && (f.Failed? <==> answers[i].dispatch.ActionFailed? && BelowLimit(entries[i]))
              && (f.HealthCheckFailed? <==> Unhealthy(entries[i], answers[i]) && BelowLimit(entries[i]))
              && (f.Promoted? <==> (answers[i].dispatch.ActionFailed? || Unhealthy(entries[i], answers[i]))
                                   && !BelowLimit(entries[i]))
    {
      FateTells(entries[i], answers[i]);
    }
  }
}
