/** What an apply run reports, told from the resources and the answers of the world. */
module ApplyOutcomes {
  import opened Text
  import opened Orchestrator
  import opened ApplyTheory

  /** An earlier interruption, or an earlier failure of a run that stops on errors. */
  ghost predicate Stopped(s: Setup, outs: seq<Outcome>, i: nat)
    requires i <= |outs|
  {
    exists j :: 0 <= j < i && (outs[j] == Interrupted || (outs[j] == Failed && !s.opts.continueOnError))
  }

  /** The sleep before the resource was cancelled; there is none before the first. */
  predicate Woken(s: Setup, i: nat) {
    i > 0 && s.opts.pacerEnabled && !s.world(i).slept
  }

  /** Something the resource depends on ended Failed, Interrupted or Skipped. */
  ghost predicate Blocked(s: Setup, outs: seq<Outcome>, i: nat)
    requires i < |outs| <= |s.order|
  {
    s.order[i] in s.view &&
    exists j :: 0 <= j < i && s.order[j] in s.view[s.order[i]].dependsOn
                && (outs[j] == Failed || outs[j] == Interrupted || outs[j] == Skipped)
  }

  /** There is a primitive for the resource. */
  predicate Served(s: Setup, i: nat)
    requires i < |s.order|
  {
    s.order[i] in s.view && s.view[s.order[i]].kind in s.primitives
  }

  lemma {:induction false} StoppedIsAborted(s: Setup, outs: seq<Outcome>, i: nat)
    requires i <= |outs|
    ensures Stopped(s, outs, i) <==> AbortedBy(s, outs[..i])
  {
    assert forall j :: 0 <= j < i ==> outs[..i][j] == outs[j];
    if Stopped(s, outs, i) {
      var j :| 0 <= j < i && (outs[j] == Interrupted || (outs[j] == Failed && !s.opts.continueOnError));
      assert outs[..i][j].Interrupted? || (outs[..i][j].Failed? && !s.opts.continueOnError);
    }
  }

  lemma {:induction false} BlockedIsDependsOnBad(s: Setup, outs: seq<Outcome>, i: nat)
    requires i < |outs| <= |s.order|
    ensures Blocked(s, outs, i) <==> s.order[i] in s.view && DependsOnBad(s, outs[..i], s.view[s.order[i]])
  {
    assert forall j :: 0 <= j < i ==> outs[..i][j] == outs[j];
    if s.order[i] in s.view {
      if DependsOnBad(s, outs[..i], s.view[s.order[i]]) {
        var dep :| dep in s.view[s.order[i]].dependsOn && dep in BadIds(s, outs[..i]);
        var j :| 0 <= j < i && Bad(outs[..i][j]) && s.order[j] == dep;
      }
      if Blocked(s, outs, i) {
        var j :| 0 <= j < i && s.order[j] in s.view[s.order[i]].dependsOn
                 && (outs[j] == Failed || outs[j] == Interrupted || outs[j] == Skipped);
        assert Bad(outs[..i][j]);
        assert s.order[j] in BadIds(s, outs[..i]);
      }
    }
  }

  lemma VerdictTells(t: Turn)
    ensures Verdict(t).Interrupted? <==> AnsweredCancel(t)
    ensures Verdict(t).Failed? <==> AnsweredError(t)
    ensures Verdict(t).Deferred? <==> AnsweredDeferral(t)
    ensures Verdict(t).Changed? <==> AnsweredChange(t)
    ensures !Verdict(t).Skipped?
  {
  }

  /**
   Every outcome of every run, from what came before, from the registry and from the answers of the pacer and
   the primitive.
   */
  lemma {:induction false} OutcomeTells(s: Setup, outs: seq<Outcome>, i: nat)
    requires Follows(s, outs) && i < |outs|
    ensures var stopped, woken, blocked, t := Stopped(s, outs, i), Woken(s, i), Blocked(s, outs, i), s.world(i);
            var planned := !stopped && !woken && !blocked && Served(s, i);
            && (GetsPlanned(s, outs[..i]) <==> planned)
            && (outs[i].Skipped? <==> stopped || (!woken && blocked))
            && (outs[i].Interrupted? <==> !stopped && (woken || (planned && AnsweredCancel(t))))
            && (outs[i].Failed? <==>
                  !stopped && !woken && !blocked && (!Served(s, i) || AnsweredError(t)))
            && (outs[i].Deferred? <==> planned && AnsweredDeferral(t))
            && (outs[i].Changed? <==> planned && AnsweredChange(t))
  {
    hide AbortedBy, DependsOnBad, Stopped, Blocked, Verdict, AnsweredCancel, AnsweredError, AnsweredDeferral,
         AnsweredChange, BadIds;
    StoppedIsAborted(s, outs, i);
    BlockedIsDependsOnBad(s, outs, i);
    VerdictTells(s.world(i));
    assert outs[i] == Expected(s, outs[..i]);
  }

  // ---------------------------------------------------------------- the summary and the exit code

  lemma {:induction false} CountIsNumber(outs: seq<Outcome>, o: Outcome)
    ensures Count(outs, o) == |set i | 0 <= i < |outs| && outs[i] == o|
  {
    var all := set i | 0 <= i < |outs| && outs[i] == o;
    if outs != [] {
      var front := outs[..|outs| - 1];
      CountIsNumber(front, o);
      var before := set i | 0 <= i < |front| && front[i] == o;
      if outs[|outs| - 1] == o {
        assert all == before + {|outs| - 1};
      } else {
        assert all == before;
      }
    }
  }

  /** Each counter is the number of resources with its outcome. */
  lemma {:induction false} SummaryTells(outs: seq<Outcome>)
    ensures var s := SummaryOf(outs);
            && s.changed == |set i | 0 <= i < |outs| && outs[i] == Changed|
            && s.noChange == |set i | 0 <= i < |outs| && outs[i] == NoChange|
            && s.failed == |set i | 0 <= i < |outs| && outs[i] == Failed|
            && s.skipped == |set i | 0 <= i < |outs| && outs[i] == Skipped|
            && s.deferred == |set i | 0 <= i < |outs| && outs[i] == Deferred|
            && s.interrupted == |set i | 0 <= i < |outs| && outs[i] == Interrupted|
  {
    hide Count;
    CountIsNumber(outs, Changed);
    CountIsNumber(outs, NoChange);
    CountIsNumber(outs, Failed);
    CountIsNumber(outs, Skipped);
    CountIsNumber(outs, Deferred);
    CountIsNumber(outs, Interrupted);
  }

  /** Nothing went wrong at this position. */
  ghost predicate Fine(s: Setup, i: nat)
    requires i < |s.order|
  {
    !Woken(s, i) && Served(s, i) && !AnsweredError(s.world(i)) && !AnsweredCancel(s.world(i))
  }

  /**
   The process exits with 0 if and only if no sleep was cancelled, every resource has a primitive, and no plan
   or apply answered a cancellation or an error other than something being unavailable for now.
   */
  lemma {:induction false} ExitZeroIff(s: Setup, outs: seq<Outcome>)
    requires Follows(s, outs) && |outs| == |s.order|
    ensures ExitCode(SummaryOf(outs)) == 0 <==> forall i :: 0 <= i < |outs| ==> Fine(s, i)
  {
    hide Follows, SummaryOf, Fine, ExitCode;
    ExitCodeTellsTheRun(s, outs);
    if forall i :: 0 <= i < |outs| ==> outs[i].NoChange? || outs[i].Changed? || outs[i].Deferred? {
      forall i | 0 <= i < |outs|
        ensures Fine(s, i)
      {
        GoodIsFine(s, outs, i);
      }
    } else {
      var i :| 0 <= i < |outs| && !(outs[i].NoChange? || outs[i].Changed? || outs[i].Deferred?);
      assert Bad(outs[i]);
      var m := FirstBad(outs, i);
      FirstBadIsNoSkip(s, outs, m);
      BadIsNotFine(s, outs, m);
    }
  }

  lemma {:induction false} GoodIsFine(s: Setup, outs: seq<Outcome>, i: nat)
    requires Follows(s, outs) && i < |outs| && !Bad(outs[i])
    ensures Fine(s, i)
  {
    hide Follows, AnsweredCancel, AnsweredError, AnsweredDeferral, AnsweredChange, Stopped, Blocked, GetsPlanned;
    OutcomeTells(s, outs, i);
  }

  lemma {:induction false} BadIsNotFine(s: Setup, outs: seq<Outcome>, m: nat)
    requires Follows(s, outs) && m < |outs| && (outs[m].Failed? || outs[m].Interrupted?)
    ensures !Fine(s, m)
  {
    hide Follows, AnsweredCancel, AnsweredError, AnsweredDeferral, AnsweredChange, Stopped, Blocked, GetsPlanned;
    OutcomeTells(s, outs, m);
  }

  // ---------------------------------------------------------------- the calls

  ghost predicate Applies(ev: LogEvent, id: string) {
    ev.ApplyCall? && ev.id == id
  }

  lemma EventsTell(s: Setup, outs: seq<Outcome>, initial: set<string>, id: string)
    requires |outs| < |s.order|
    ensures PlanCall(id) in EventsAt(s, outs, initial) <==> GetsPlanned(s, outs) && s.order[|outs|] == id
    ensures (exists k :: 0 <= k < |EventsAt(s, outs, initial)| && Applies(EventsAt(s, outs, initial)[k], id)) <==>
            GetsPlanned(s, outs) && s.order[|outs|] == id && HasDiff(s.world(|outs|))
  {
    hide GetsPlanned, Recorded;
    var evs := EventsAt(s, outs, initial);
    if GetsApplied(s, outs) { assert Applies(evs[2], s.order[|outs|]); }
  }

  ghost predicate Applied(log: seq<LogEvent>, id: string) {
    exists k :: 0 <= k < |log| && Applies(log[k], id)
  }

  lemma AppliedConcat(a: seq<LogEvent>, b: seq<LogEvent>, id: string)
    ensures Applied(a + b, id) <==> Applied(a, id) || Applied(b, id)
  {
    var all := a + b;
    if Applied(a, id) {
      var k :| 0 <= k < |a| && Applies(a[k], id);
      assert Applies(all[k], id);
    }
    if Applied(b, id) {
      var k :| 0 <= k < |b| && Applies(b[k], id);
      assert Applies(all[|a| + k], id);
    }
    if Applied(all, id) {
      var k :| 0 <= k < |all| && Applies(all[k], id);
      if k < |a| { assert Applies(a[k], id); } else { assert Applies(b[k - |a|], id); }
    }
  }

  lemma {:induction false} LogUpTo(s: Setup, outs: seq<Outcome>, initial: set<string>, i: nat)
    requires NoRepeats(s.order) && |outs| <= |s.order| && i < |s.order|
    ensures var log := LogOf(s, outs, initial);
            && (PlanCall(s.order[i]) in log <==> i < |outs| && GetsPlanned(s, outs[..i]))
            && (Applied(log, s.order[i]) <==> i < |outs| && GetsPlanned(s, outs[..i]) && HasDiff(s.world(i)))
  {
    hide GetsPlanned, EventsAt, Applied, HasDiff;
    if outs == [] {
      assert !Applied([], s.order[i]) by { NothingApplied(s.order[i]); }
    } else {
      var front := outs[..|outs| - 1];
      LogUpTo(s, front, initial, i);
      EventsTell(s, front, initial, s.order[i]);
      AppliedConcat(LogOf(s, front, initial), EventsAt(s, front, initial), s.order[i]);
      assert Applied(EventsAt(s, front, initial), s.order[i]) <==>
             GetsPlanned(s, front) && s.order[|front|] == s.order[i] && HasDiff(s.world(|front|)) by {
        AppliedIs(EventsAt(s, front, initial), s.order[i]);
      }
      if i < |front| { assert front[..i] == outs[..i]; } else if i == |front| { assert front == outs[..i]; }
    }
  }

  lemma NothingApplied(id: string)
    ensures !Applied([], id)
  {
  }

  lemma AppliedIs(log: seq<LogEvent>, id: string)
    ensures Applied(log, id) <==> exists k :: 0 <= k < |log| && Applies(log[k], id)
  {
  }

  /** A resource is planned exactly when its turn comes, and applied exactly when its plan then shows a difference. */
  lemma {:induction false} LogTells(s: Setup, outs: seq<Outcome>, initial: set<string>, i: nat)
    requires NoRepeats(s.order) && Follows(s, outs) && i < |outs|
    ensures var log := LogOf(s, outs, initial);
            var planned := !Stopped(s, outs, i) && !Woken(s, i) && !Blocked(s, outs, i) && Served(s, i);
            && (PlanCall(s.order[i]) in log <==> planned)
            && (Applied(log, s.order[i]) <==> planned && s.world(i).plan == PlanOk(false))
  {
    hide GetsPlanned, Applied, LogOf, Stopped, Blocked, AnsweredCancel, AnsweredError, AnsweredDeferral,
         AnsweredChange;
    LogUpTo(s, outs, initial, i);
    OutcomeTells(s, outs, i);
  }
}
