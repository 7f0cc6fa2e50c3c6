/** What one replay does to the visible records, at every stopping point and in total. */
module ReplayTheory {
  import opened Text
  import opened DeferFormat
  import opened Directory
  import opened Journal

  lemma FailLength(e: DeferEntry, nanos: nat)
    ensures |FailEvents(e, nanos)| == if Exhausted(e) then 6 else 4
  {
    hide AtomicWriteEvents, Exhausted, Bumped;
    AtomicWriteLength(Bumped(e), nanos, ByReplay(e));
  }

  /** A failed attempt: the record is whole at every point, first the old one, then the counted one. */
  lemma FailAtEveryPoint(d: Dir, e: DeferEntry, nanos: nat, k: nat)
    requires k <= |FailEvents(e, nanos)|
    ensures var p, d' := Pending(d), Effects(d, FailEvents(e, nanos)[..k]);
            && Pending(d') == (if k < 3 then p else if k < 5 then p[Filename(e) := Bumped(e)] else p - {Filename(e)})
            && Torn(d') <= Torn(d)
            && (3 <= k < 5 ==> Filename(e) in d' && d'[Filename(e)] == Record(Bumped(e)))
  {
    hide Filename, ManualClearFilename, AtomicWriteEvents, Bumped, Pending, Torn, Extension, Exhausted;
    var write := AtomicWriteEvents(Bumped(e), nanos, ByReplay(e));
    var evs := FailEvents(e, nanos);
    FailLength(e, nanos);
    AtomicWriteLength(Bumped(e), nanos, ByReplay(e));
    BumpedNames(e);
    if k <= 4 {
      assert evs[..k] == write[..k];
      AtomicWriteAtEveryPoint(d, Bumped(e), nanos, ByReplay(e), k);
    } else {
      FailAtEveryPoint(d, e, nanos, k - 1);
      EffectsStep(d, evs, k - 1);
      var before := Effects(d, evs[..k - 1]);
      if k == 5 {
        assert evs[4] == PromoteEvents(e)[0];
        FilenameExtensions(e, 0);
        RetireEffect(before, Filename(e), ManualClearFilename(e));
        assert Pending(d)[Filename(e) := Bumped(e)] - {Filename(e)} == Pending(d) - {Filename(e)};
      } else {
        assert evs[5] == PromoteEvents(e)[1];
      }
    }
  }

  lemma RemoveAtEveryPoint(d: Dir, e: DeferEntry, k: nat)
    requires k <= 2
    ensures var d' := Effects(d, RemoveEvents(e)[..k]);
            && Pending(d') == (if k == 0 then Pending(d) else Pending(d) - {Filename(e)})
            && Torn(d') <= Torn(d)
  {
    hide Filename, Pending, Torn;
    var evs := RemoveEvents(e);
    RunTwo(d, evs);
    UnlinkEffect(d, Filename(e));
    if k == 2 { assert evs[..2] == evs; }
  }

  /** What a fate leaves under the name of an entry. */
  ghost function Settled(p: Visible, e: DeferEntry, f: Fate): Visible {
    match f
    case Executed | Promoted => p - {Filename(e)}
    case Failed | HealthCheckFailed => p[Filename(e) := Bumped(e)]
    case SkippedUnavailable | KeptByCancel | Unreached => p
  }

  /** A visit touches only its own record, and ends as its fate says. */
  lemma VisitAtEveryPoint(d: Dir, e: DeferEntry, a: Answer, k: nat)
    requires k <= |VisitEvents(e, a)|
    ensures var p, p' := Pending(d), Pending(Effects(d, VisitEvents(e, a)[..k]));
            && (p' == p || p' == p[Filename(e) := Bumped(e)] || p' == p - {Filename(e)})
            && (k == |VisitEvents(e, a)| ==> p' == Settled(p, e, FateOf(e, a)))
    ensures Torn(Effects(d, VisitEvents(e, a)[..k])) <= Torn(d)
  {
    hide Filename, Bumped, Pending, Torn, Effects, FailEvents, RemoveEvents, Exhausted;
    VisitRun(d, e, a, k);
    var r := k - |Asked(e, a)|;
    if r >= 0 {
      match FateOf(e, a) {
        case Executed =>
          assert |Reaction(e, a)| == 2 by { RemoveLength(e); }
          RemoveAtEveryPoint(d, e, r);
        case Failed | HealthCheckFailed | Promoted =>
          FailLength(e, a.nanos);
          FailAtEveryPoint(d, e, a.nanos, r);
        case SkippedUnavailable | KeptByCancel | Unreached =>
      }
    }
  }

  lemma RemoveLength(e: DeferEntry)
    ensures |RemoveEvents(e)| == 2
  {
  }

  // ---------------------------------------------------------------- the whole pass

  /** The entries of a snapshot sit under distinct names in `p`. */
  ghost predicate Snapshot(p: Visible, entries: seq<DeferEntry>) {
    && (forall i :: 0 <= i < |entries| ==> Filename(entries[i]) in p && p[Filename(entries[i])] == entries[i])
    && (forall i, j :: 0 <= i < j < |entries| ==> Filename(entries[i]) != Filename(entries[j]))
  }

  /** `q` is `p` after the first `i` entries met their fates. */
  ghost predicate AfterVisits(p: Visible, q: Visible, entries: seq<DeferEntry>, answers: seq<Answer>, i: nat)
    requires i <= |entries| && i <= |answers|
  {
    && (forall n :: n in q ==> n in p)
    && (forall n :: n in p && !VisitedBefore(entries, i, n) ==> n in q && q[n] == p[n])
    && (forall j :: 0 <= j < i ==> EndedAs(q, entries[j], FateOf(entries[j], answers[j])))
  }

  /** Some entry among the first `i` has the name `n`. */
  ghost predicate VisitedBefore(entries: seq<DeferEntry>, i: nat, n: string)
    requires i <= |entries|
  {
    exists j :: 0 <= j < i && Filename(entries[j]) == n
  }

  /** What is visible of an entry after its fate. */
  ghost predicate EndedAs(q: Visible, e: DeferEntry, f: Fate) {
    match f
    case Executed | Promoted => Filename(e) !in q
    case Failed | HealthCheckFailed => Filename(e) in q && q[Filename(e)] == Bumped(e)
    case SkippedUnavailable | KeptByCancel | Unreached => Filename(e) in q && q[Filename(e)] == e
  }

  lemma AfterVisitsStep(p: Visible, q: Visible, entries: seq<DeferEntry>, answers: seq<Answer>, i: nat)
    requires i < |entries| && i < |answers| && Snapshot(p, entries)
    requires AfterVisits(p, q, entries, answers, i)
    ensures Filename(entries[i]) in q && q[Filename(entries[i])] == entries[i]
    ensures AfterVisits(p, Settled(q, entries[i], FateOf(entries[i], answers[i])), entries, answers, i + 1)
  {
    hide Filename, Bumped, FateOf, EndedAs, Settled;
    assert !VisitedBefore(entries, i, Filename(entries[i]));
    SettledElsewhere(q, entries[i], FateOf(entries[i], answers[i]));
    forall n
      ensures VisitedBefore(entries, i + 1, n) <==> VisitedBefore(entries, i, n) || n == Filename(entries[i])
    {
      if VisitedBefore(entries, i, n) {
        var j :| 0 <= j < i && Filename(entries[j]) == n;
        assert Filename(entries[j]) == n;
      }
    }
    var q' := Settled(q, entries[i], FateOf(entries[i], answers[i]));
    assert EndedAs(q', entries[i], FateOf(entries[i], answers[i])) by {
      SettledEnds(q, entries[i], FateOf(entries[i], answers[i]));
    }
    forall j | 0 <= j < i
      ensures EndedAs(q', entries[j], FateOf(entries[j], answers[j]))
    {
      OthersStay(q, entries[i], FateOf(entries[i], answers[i]), entries[j], FateOf(entries[j], answers[j]));
    }
  }

  lemma SettledElsewhere(q: Visible, e: DeferEntry, f: Fate)
    requires Filename(e) in q
    ensures forall n :: n in Settled(q, e, f) ==> n in q
    ensures forall n :: n in q && n != Filename(e) ==> n in Settled(q, e, f) && Settled(q, e, f)[n] == q[n]
  {
    hide Filename, Bumped;
  }

  lemma SettledEnds(q: Visible, e: DeferEntry, f: Fate)
    requires Filename(e) in q && q[Filename(e)] == e
    ensures EndedAs(Settled(q, e, f), e, f)
  {
  }

  /** Settling one entry does not disturb another. */
  lemma OthersStay(q: Visible, e: DeferEntry, f: Fate, other: DeferEntry, g: Fate)
    requires Filename(e) != Filename(other) && EndedAs(q, other, g)
    ensures EndedAs(Settled(q, e, f), other, g)
  {
    hide Filename, Bumped;
  }

  lemma AfterNoVisits(p: Visible, entries: seq<DeferEntry>, answers: seq<Answer>)
    ensures AfterVisits(p, p, entries, answers, 0)
  {
  }

  lemma {:induction false} VisitsInTotal(d: Dir, entries: seq<DeferEntry>, answers: seq<Answer>, i: nat)
    requires i <= |entries| && i <= |answers| && Snapshot(Pending(d), entries)
    ensures AfterVisits(Pending(d), Pending(Effects(d, VisitsEvents(entries, answers, i))), entries, answers, i)
    ensures Torn(Effects(d, VisitsEvents(entries, answers, i))) <= Torn(d)
  {
    hide Filename, Bumped, Pending, Torn, FateOf, VisitEvents, Snapshot, AfterVisits, Effects, Settled;
    if i == 0 {
      EmptyRun(d, entries, answers);
      AfterNoVisits(Pending(d), entries, answers);
    } else {
      VisitsInTotal(d, entries, answers, i - 1);
      var before := VisitsEvents(entries, answers, i - 1);
      var now := VisitEvents(entries[i - 1], answers[i - 1]);
      EffectsConcat(d, before, now);
      assert now[..|now|] == now;
      VisitAtEveryPoint(Effects(d, before), entries[i - 1], answers[i - 1], |now|);
      AfterVisitsStep(Pending(d), Pending(Effects(d, before)), entries, answers, i - 1);
    }
  }

  lemma AfterVisitsShrinks(p: Visible, q: Visible, entries: seq<DeferEntry>, answers: seq<Answer>, i: nat)
    requires i <= |entries| && i <= |answers| && Snapshot(p, entries)
    requires AfterVisits(p, q, entries, answers, i)
    ensures Shrinks(p, q)
  {
    hide Filename, FateOf;
    forall n | n in q
      ensures n in p && SameRequest(p[n], q[n])
    {
      if VisitedBefore(entries, i, n) {
        var j :| 0 <= j < i && Filename(entries[j]) == n;
        assert EndedAs(q, entries[j], FateOf(entries[j], answers[j]));
      }
    }
  }

  /** A visit that stops anywhere keeps the requests of the others and its own, or drops its own. */
  lemma VisitShrinks(p: Visible, d: Dir, e: DeferEntry, a: Answer, k: nat)
    requires k <= |VisitEvents(e, a)|
    requires Shrinks(p, Pending(d))
    requires Filename(e) in Pending(d) && Pending(d)[Filename(e)] == e
    ensures Shrinks(p, Pending(Effects(d, VisitEvents(e, a)[..k])))
  {
    hide Filename, Pending, VisitEvents;
    VisitAtEveryPoint(d, e, a, k);
  }

  lemma {:induction false} VisitsAtEveryPoint(d: Dir, entries: seq<DeferEntry>, answers: seq<Answer>, i: nat, k: nat)
    requires i <= |entries| && i <= |answers| && Snapshot(Pending(d), entries)
    requires k <= |VisitsEvents(entries, answers, i)|
    ensures Shrinks(Pending(d), Pending(Effects(d, VisitsEvents(entries, answers, i)[..k])))
    ensures Torn(Effects(d, VisitsEvents(entries, answers, i)[..k])) <= Torn(d)
  {
    hide Filename, Pending, Torn, VisitEvents, FateOf, AfterVisits, Shrinks, Effects, Snapshot;
    if i == 0 {
      EmptyRun(d, entries, answers);
      ShrinksReflexive(Pending(d));
    } else {
      var before := VisitsEvents(entries, answers, i - 1);
      var now := VisitEvents(entries[i - 1], answers[i - 1]);
      var all := VisitsEvents(entries, answers, i);
      assert all == before + now;
      if k <= |before| {
        VisitsAtEveryPoint(d, entries, answers, i - 1, k);
        assert all[..k] == before[..k];
      } else {
        assert all[..k] == before + now[..k - |before|];
        EffectsConcat(d, before, now[..k - |before|]);
        VisitsInTotal(d, entries, answers, i - 1);
        AfterVisitsShrinks(Pending(d), Pending(Effects(d, before)), entries, answers, i - 1);
        AfterVisitsStep(Pending(d), Pending(Effects(d, before)), entries, answers, i - 1);
        VisitShrinks(Pending(d), Effects(d, before), entries[i - 1], answers[i - 1], k - |before|);
        VisitAtEveryPoint(Effects(d, before), entries[i - 1], answers[i - 1], k - |before|);
      }
    }
  }

  lemma ShrinksReflexive(p: Visible)
    ensures Shrinks(p, p)
  {
  }

  lemma ListingIsSnapshot(d: Dir)
    requires Good(d)
    ensures Snapshot(Pending(d), Listing(d))
  {
    hide Filename, Pending, Listing, WellFormed, LexLeq;
    ListingIsPending(d);
  }

  /** Wherever a replay stops, it has only dropped requests or counted attempts. */
  lemma {:induction false} ReplayAtEveryPoint(d: Dir, answers: seq<Answer>, k: nat)
    requires Good(d) && k <= |ReplayEvents(d, answers)|
    ensures Shrinks(Pending(d), Pending(Effects(d, ReplayEvents(d, answers)[..k])))
    ensures Torn(Effects(d, ReplayEvents(d, answers)[..k])) <= Torn(d)
    ensures Good(Effects(d, ReplayEvents(d, answers)[..k]))
  {
    hide Filename, Pending, Torn, Listing, VisitsEvents, Shrinks;
    ListingIsSnapshot(d);
    VisitsAtEveryPoint(d, Listing(d), answers, Reached(|Listing(d)|, answers), k);
    ShrinksKeepsInvariants(Pending(d), Pending(Effects(d, ReplayEvents(d, answers)[..k])));
  }

  // ---------------------------------------------------------------- order and conservation

  /** The entries dispatched by a sequence of events, in order. */
  function DispatchedIn(evs: seq<Event>): seq<DeferEntry> {
    if evs == [] then []
    else
      var last := evs[|evs| - 1];
      DispatchedIn(evs[..|evs| - 1]) + (if last.Dispatched? then [last.entry] else [])
  }

  lemma {:induction false} DispatchedConcat(a: seq<Event>, b: seq<Event>)
    ensures DispatchedIn(a + b) == DispatchedIn(a) + DispatchedIn(b)
  {
    if b == [] {
      assert a + b == a;
    } else {
      DispatchedConcat(a, b[..|b| - 1]);
      assert (a + b)[..|a + b| - 1] == a + b[..|b| - 1];
    }
  }

  lemma {:induction false} NothingDispatched(evs: seq<Event>)
    requires forall i :: 0 <= i < |evs| ==> !evs[i].Dispatched?
    ensures DispatchedIn(evs) == []
  {
    if evs != [] { NothingDispatched(evs[..|evs| - 1]); }
  }

  lemma VisitDispatchesOnce(e: DeferEntry, a: Answer)
    ensures DispatchedIn(VisitEvents(e, a)) == [e]
  {
    hide Reaction;
    var tail := Asked(e, a)[1..];
    assert Asked(e, a) == [Dispatched(e, a.dispatch)] + tail;
    DispatchedConcat(Asked(e, a), Reaction(e, a));
    DispatchedConcat([Dispatched(e, a.dispatch)], tail);
    assert DispatchedIn([Dispatched(e, a.dispatch)]) == [e];
    NothingDispatched(tail);
    ReactionDispatchesNothing(e, a);
    NothingDispatched(Reaction(e, a));
  }

  lemma ReactionDispatchesNothing(e: DeferEntry, a: Answer)
    ensures forall i :: 0 <= i < |Reaction(e, a)| ==> Reaction(e, a)[i].FileEvent?
  {
    hide Filename, TmpName, ManualClearFilename, Bumped, Exhausted, FateOf;
  }

  lemma {:induction false} VisitsDispatchInOrder(entries: seq<DeferEntry>, answers: seq<Answer>, i: nat)
    requires i <= |entries| && i <= |answers|
    ensures DispatchedIn(VisitsEvents(entries, answers, i)) == entries[..i]
  {
    hide VisitEvents;
    if i > 0 {
      VisitsDispatchInOrder(entries, answers, i - 1);
      DispatchedConcat(VisitsEvents(entries, answers, i - 1), VisitEvents(entries[i - 1], answers[i - 1]));
      VisitDispatchesOnce(entries[i - 1], answers[i - 1]);
    }
  }

  /** A replay dispatches a prefix of the pending entries, each once, by non-decreasing priority rank. */
  lemma {:induction false} ReplayDispatchesByPriority(d: Dir, answers: seq<Answer>)
    requires Good(d)
    ensures var done := DispatchedIn(ReplayEvents(d, answers));
            && done == Listing(d)[..Reached(|Listing(d)|, answers)]
            && (forall i :: 0 <= i < |done| ==>
              Filename(done[i]) in Pending(d) && Pending(d)[Filename(done[i])] == done[i])
            && (forall i, j :: 0 <= i < j < |done| ==> done[i].id != done[j].id)
            && (forall i, j :: 0 <= i < j < |done| ==> Rank(done[i].priority) <= Rank(done[j].priority))
  {
    hide Filename, Pending, Listing, WellFormed, LexLeq, Rank;
    var l := Listing(d);
    VisitsDispatchInOrder(l, answers, Reached(|l|, answers));
    ListingIsPending(d);
    forall i, j | 0 <= i < j < |l|
      ensures l[i].id != l[j].id && Rank(l[i].priority) <= Rank(l[j].priority)
    {
      FilenameOrderIsRankOrder(l[i], l[j]);
      FilenameIsId(l[i], l[j]);
    }
  }

  /** Every entry of the snapshot meets exactly one fate. */
  lemma {:induction false} FatesAddUp(entries: seq<DeferEntry>, answers: seq<Answer>, n: nat)
    requires n <= |entries|
    ensures CountFate(entries, answers, n, Executed) + CountFate(entries, answers, n, SkippedUnavailable)
          + CountFate(entries, answers, n, Failed) + CountFate(entries, answers, n, HealthCheckFailed)
          + CountFate(entries, answers, n, Promoted) + CountFate(entries, answers, n, KeptByCancel)
          + CountFate(entries, answers, n, Unreached) == n
  {
    hide FateAt, FateOf, Reached;
    if n > 0 { FatesAddUp(entries, answers, n - 1); }
  }

  /**
   The report accounts for the snapshot: together with the entries kept by a cancelled check and those
   not reached its counters add up to the snapshot, exactly unless one of them is saturated.
   */
  lemma ReportConserves(entries: seq<DeferEntry>, answers: seq<Answer>)
    ensures var n := |entries|;
            var r := ReportUpTo(entries, answers, n);
            var total := r.executed + r.skippedUnavailable + r.failed + r.healthCheckFailed + r.promotedToManualClear
                       + CountFate(entries, answers, n, KeptByCancel) + CountFate(entries, answers, n, Unreached);
            && total <= n
            && (total == n <==>
                  && CountFate(entries, answers, n, Executed) <= U32_MAX
                  && CountFate(entries, answers, n, SkippedUnavailable) <= U32_MAX
                  && CountFate(entries, answers, n, Failed) <= U32_MAX
                  && CountFate(entries, answers, n, HealthCheckFailed) <= U32_MAX
                  && CountFate(entries, answers, n, Promoted) <= U32_MAX)
  {
    hide CountFate;
    FatesAddUp(entries, answers, |entries|);
  }

  // ---------------------------------------------------------------- cancelled health checks

  /**
   After a cancelled health check nothing more is dispatched exactly when the loop's own test finds a reason
   to stop.
   */
  lemma CancelledCheckEndsReplayIff(entries: seq<DeferEntry>, answers: seq<Answer>, i: nat)
    requires |answers| >= |entries| && i < Reached(|entries|, answers) && FateOf(entries[i], answers[i]).KeptByCancel?
    ensures DispatchedIn(VisitsEvents(entries, answers, Reached(|entries|, answers))) == entries[..i + 1]
            <==> i + 1 == |entries| || answers[i + 1].cancelled
  {
    hide FateOf, VisitsEvents, DispatchedIn;
    var r := Reached(|entries|, answers);
    VisitsDispatchInOrder(entries, answers, r);
    assert |entries[..r]| == r && |entries[..i + 1]| == i + 1;
  }

  /** By itself a cancelled health check does not end the loop. */
  lemma CancelledCheckNeedNotEndReplay(e: DeferEntry, f: DeferEntry)
    requires e.healthCheck.Some?
    ensures var answers := [Answer(false, DispatchOk, HealthCancelled, 0), Answer(false, DispatchOk, HealthOk, 0)];
            && FateAt([e, f], answers, 0) == KeptByCancel
            && DispatchedIn(VisitsEvents([e, f], answers, Reached(2, answers))) == [e, f]
  {
    hide VisitsEvents, DispatchedIn;
    var answers := [Answer(false, DispatchOk, HealthCancelled, 0), Answer(false, DispatchOk, HealthOk, 0)];
    assert answers[1..][1..] == [];
    assert Reached(1, answers[1..]) == 1;
    VisitsDispatchInOrder([e, f], answers, 2);
    assert [e, f][..2] == [e, f];
  }

  /** A cancellation token stays set: `token(t)` is its state at time `t`. */
  ghost predicate Monotone(token: nat -> bool) {
    forall t, t' :: t <= t' && token(t) ==> token(t')
  }

  /**
   The loop tests the token before entry `i` at time `2 * i`, and the health check of that entry, at time
   `2 * i + 1`, reports cancellation only when it finds the token set.
   */
  ghost predicate SeeToken(entries: seq<DeferEntry>, answers: seq<Answer>, token: nat -> bool) {
    && (forall i :: 0 <= i < |answers| ==> answers[i].cancelled == token(2 * i))
    && (forall i :: 0 <= i < |entries| && i < |answers| && FateOf(entries[i], answers[i]).KeptByCancel? ==>
          token(2 * i + 1))
  }

  lemma TokenStaysSet(entries: seq<DeferEntry>, answers: seq<Answer>, token: nat -> bool)
    requires Monotone(token) && SeeToken(entries, answers, token)
    ensures TokenIsSetByThen(entries, answers)
  {
    hide FateOf;
    forall i | 0 <= i < |entries| && i + 1 < |answers| && FateOf(entries[i], answers[i]).KeptByCancel?
      ensures answers[i + 1].cancelled
    {
      assert token(2 * i + 1) && 2 * i + 1 <= 2 * (i + 1);
      assert answers[i + 1].cancelled == token(2 * (i + 1));
    }
  }

  /** The test after a cancelled health check finds the token set. */
  ghost predicate TokenIsSetByThen(entries: seq<DeferEntry>, answers: seq<Answer>) {
    forall i :: 0 <= i < |entries| && i + 1 < |answers| && FateOf(entries[i], answers[i]).KeptByCancel? ==>
      answers[i + 1].cancelled
  }

  lemma KeptStops(entries: seq<DeferEntry>, answers: seq<Answer>, i: nat)
    requires TokenIsSetByThen(entries, answers) && i < |entries| && FateAt(entries, answers, i) == KeptByCancel
    ensures Reached(|entries|, answers) == i + 1
  {
    hide FateOf;
    var r := Reached(|entries|, answers);
    assert i < r && FateOf(entries[i], answers[i]).KeptByCancel?;
    assert i + 1 < |answers| ==> answers[i + 1].cancelled;
  }

  lemma {:induction false} KeptIsLast(entries: seq<DeferEntry>, answers: seq<Answer>, n: nat)
    requires n <= |entries| && TokenIsSetByThen(entries, answers)
    ensures CountFate(entries, answers, n, KeptByCancel) <= 1
    ensures CountFate(entries, answers, n, KeptByCancel) == 1 ==> Reached(|entries|, answers) <= n
  {
    hide FateOf;
    if n > 0 {
      KeptIsLast(entries, answers, n - 1);
      if FateAt(entries, answers, n - 1) == KeptByCancel { KeptStops(entries, answers, n - 1); }
    }
  }

  /** With such a token at most one entry is kept by a cancelled check, and it is the last one dispatched. */
  lemma CancelledCheckIsLast(entries: seq<DeferEntry>, answers: seq<Answer>, token: nat -> bool, i: nat)
    requires Monotone(token) && SeeToken(entries, answers, token)
    requires i < |entries| && FateAt(entries, answers, i) == KeptByCancel
    ensures CountFate(entries, answers, |entries|, KeptByCancel) <= 1
    ensures DispatchedIn(VisitsEvents(entries, answers, Reached(|entries|, answers))) == entries[..i + 1]
  {
    hide FateOf, VisitsEvents, DispatchedIn;
    TokenStaysSet(entries, answers, token);
    KeptIsLast(entries, answers, |entries|);
    VisitsDispatchInOrder(entries, answers, Reached(|entries|, answers));
    KeptStops(entries, answers, i);
  }

  // ---------------------------------------------------------------- attempts

  /** How often a record named `n` was rewritten: every rewrite ends in a rename onto it. */
  function Bumps(evs: seq<Event>, n: string): nat {
    if evs == [] then 0
    else
      var last := evs[|evs| - 1];
      Bumps(evs[..|evs| - 1], n) + (if last.FileEvent? && last.op.Rename? && last.op.dst == n then 1 else 0)
  }

  lemma {:induction false} BumpsConcat(a: seq<Event>, b: seq<Event>, n: string)
    ensures Bumps(a + b, n) == Bumps(a, n) + Bumps(b, n)
  {
    if b == [] {
      assert a + b == a;
    } else {
      BumpsConcat(a, b[..|b| - 1], n);
      assert (a + b)[..|a + b| - 1] == a + b[..|b| - 1];
    }
  }

  lemma {:induction false} NoBumps(evs: seq<Event>, n: string)
    requires forall i :: 0 <= i < |evs| ==> !(evs[i].FileEvent? && evs[i].op.Rename? && evs[i].op.dst == n)
    ensures Bumps(evs, n) == 0
  {
    if evs != [] { NoBumps(evs[..|evs| - 1], n); }
  }

  ghost predicate CountsAttempt(f: Fate) {
    f.Failed? || f.HealthCheckFailed? || f.Promoted?
  }

  lemma BumpsStep(evs: seq<Event>, k: nat, n: string)
    requires k < |evs|
    ensures Bumps(evs[..k + 1], n) ==
            Bumps(evs[..k], n) + (if evs[k].FileEvent? && evs[k].op.Rename? && evs[k].op.dst == n then 1 else 0)
  {
    assert evs[..k + 1][..k] == evs[..k];
  }

  lemma {:induction false} FailBumpsAt(e: DeferEntry, nanos: nat, k: nat, n: string)
    requires IsDeferred(n) && k <= |FailEvents(e, nanos)|
    ensures Bumps(FailEvents(e, nanos)[..k], n) == if Filename(e) == n && k >= 3 then 1 else 0
  {
    hide Filename, TmpName, ManualClearFilename, Extension, Exhausted;
    if k > 0 {
      FailBumpsAt(e, nanos, k - 1, n);
      BumpsStep(FailEvents(e, nanos), k - 1, n);
      BumpedNames(e);
      FilenameExtensions(e, nanos);
    }
  }

  lemma FailBumps(e: DeferEntry, nanos: nat, n: string)
    requires IsDeferred(n)
    ensures Bumps(FailEvents(e, nanos), n) == if Filename(e) == n then 1 else 0
  {
    hide Filename, FailEvents, Extension;
    var evs := FailEvents(e, nanos);
    assert evs[..|evs|] == evs;
    FailLength(e, nanos);
    FailBumpsAt(e, nanos, |evs|, n);
  }

  lemma VisitBumps(e: DeferEntry, a: Answer, n: string)
    requires IsDeferred(n)
    ensures Bumps(VisitEvents(e, a), n) == if Filename(e) == n && CountsAttempt(FateOf(e, a)) then 1 else 0
  {
    hide Filename, FailEvents, Extension, Exhausted;
    BumpsConcat(Asked(e, a), Reaction(e, a), n);
    NoBumps(Asked(e, a), n);
    if CountsAttempt(FateOf(e, a)) {
      FailBumps(e, a.nanos, n);
    } else {
      NoBumps(Reaction(e, a), n);
    }
  }

  lemma {:induction false} VisitsBumps(p: Visible, entries: seq<DeferEntry>, answers: seq<Answer>, i: nat, n: string)
    requires i <= |entries| && i <= |answers| && Snapshot(p, entries) && IsDeferred(n)
    ensures (forall j :: 0 <= j < i ==> Filename(entries[j]) != n) ==> Bumps(VisitsEvents(entries, answers, i), n) == 0
    ensures forall j :: 0 <= j < i && Filename(entries[j]) == n ==>
              Bumps(VisitsEvents(entries, answers, i), n) ==
                if CountsAttempt(FateOf(entries[j], answers[j])) then 1 else 0
  {
    hide Filename, VisitEvents, Extension, FateOf;
    if i > 0 {
      VisitsBumps(p, entries, answers, i - 1, n);
      BumpsConcat(VisitsEvents(entries, answers, i - 1), VisitEvents(entries[i - 1], answers[i - 1]), n);
      VisitBumps(entries[i - 1], answers[i - 1], n);
    }
  }

  /** What `b` counted attempts of one call have made of the record `n`: at most one, and it is written down. */
  ghost predicate Attempted(p: Visible, q: Visible, b: nat, n: string) {
    && (n !in p ==> b == 0 && n !in q)
    && (n in p ==>
          && b <= 1
          && (b == 0 && n in q ==> q[n] == p[n])
          && (b == 1 && n in q ==> q[n] == Bumped(p[n]))
          && (b == 1 && !Exhausted(p[n]) ==> n in q))
  }

  /** A visit that stops anywhere counts an attempt of its own record or of none. */
  lemma VisitAttempt(d: Dir, e: DeferEntry, a: Answer, k: nat, n: string)
    requires k <= |VisitEvents(e, a)| && IsDeferred(n)
    requires n == Filename(e) ==> n in Pending(d) && Pending(d)[n] == e
    ensures var p, q := Pending(d), Pending(Effects(d, VisitEvents(e, a)[..k]));
            var b := Bumps(VisitEvents(e, a)[..k], n);
            && Attempted(p, q, b, n)
            && (n != Filename(e) ==> b == 0 && (n in p <==> n in q) && (n in p ==> q[n] == p[n]))
  {
    hide Filename, Bumped, Pending, Effects, FailEvents, RemoveEvents, Exhausted, Extension;
    var evs, asked, reaction := VisitEvents(e, a), Asked(e, a), Reaction(e, a);
    VisitRun(d, e, a, k);
    if k <= |asked| {
      assert evs[..k] == asked[..k];
      NoBumps(asked[..k], n);
      EmptyRun(d, [], []);
      assert reaction[..0] == [];
    } else {
      var r := k - |asked|;
      assert evs[..k] == asked + reaction[..r];
      BumpsConcat(asked, reaction[..r], n);
      NoBumps(asked, n);
      match FateOf(e, a) {
        case Executed =>
          RemoveLength(e);
          RemoveAtEveryPoint(d, e, r);
          RemoveRenamesNothing(e);
          NoBumps(reaction[..r], n);
        case Failed | HealthCheckFailed | Promoted =>
          FailLength(e, a.nanos);
          FailAtEveryPoint(d, e, a.nanos, r);
          FailBumpsAt(e, a.nanos, r, n);
        case SkippedUnavailable | KeptByCancel | Unreached =>
      }
    }
  }

  lemma RemoveRenamesNothing(e: DeferEntry)
    ensures forall i :: 0 <= i < |RemoveEvents(e)| ==> RemoveEvents(e)[i].FileEvent? && !RemoveEvents(e)[i].op.Rename?
  {
    hide Filename;
  }

  lemma NotAttempted(p: Visible, n: string)
    ensures Attempted(p, p, 0, n)
  {
  }

  /** Attempts in two stretches of events, only one of which concerns the record. */
  lemma AttemptedOnce(p: Visible, m: Visible, q: Visible, b: nat, c: nat, n: string)
    requires Attempted(p, m, b, n) && Attempted(m, q, c, n)
    requires || (b == 0 && n in p && n in m && m[n] == p[n])
             || (c == 0 && (n in m <==> n in q) && (n in m ==> q[n] == m[n]))
    ensures Attempted(p, q, b + c, n)
  {
    hide Bumped, Exhausted;
  }

  /** When its turn comes an entry is still as in the snapshot. */
  lemma FirstVisit(d: Dir, entries: seq<DeferEntry>, answers: seq<Answer>, i: nat)
    requires i < |entries| && i < |answers| && Snapshot(Pending(d), entries)
    ensures var n, before := Filename(entries[i]), VisitsEvents(entries, answers, i);
            && n in Pending(d) && Pending(d)[n] == entries[i]
            && n in Pending(Effects(d, before)) && Pending(Effects(d, before))[n] == entries[i]
            && (IsDeferred(n) ==> Bumps(before, n) == 0)
  {
    hide Filename, Pending, VisitsEvents, FateOf, Effects, IsDeferred, AfterVisits;
    var n, before := Filename(entries[i]), VisitsEvents(entries, answers, i);
    VisitsInTotal(d, entries, answers, i);
    AfterVisitsStep(Pending(d), Pending(Effects(d, before)), entries, answers, i);
    if IsDeferred(n) { VisitsBumps(Pending(d), entries, answers, i, n); }
  }

  lemma {:induction false} VisitsAttempt(d: Dir, entries: seq<DeferEntry>, answers: seq<Answer>, i: nat, k: nat,
                                         n: string)
    requires i <= |entries| && i <= |answers| && Snapshot(Pending(d), entries) && IsDeferred(n)
    requires k <= |VisitsEvents(entries, answers, i)|
    ensures Attempted(Pending(d), Pending(Effects(d, VisitsEvents(entries, answers, i)[..k])),
                      Bumps(VisitsEvents(entries, answers, i)[..k], n), n)
  {
    hide Filename, Pending, VisitEvents, FateOf, AfterVisits, Effects, Extension, Attempted, Snapshot;
    if i == 0 {
      EmptyRun(d, entries, answers);
      NotAttempted(Pending(d), n);
    } else {
      var before := VisitsEvents(entries, answers, i - 1);
      var now := VisitEvents(entries[i - 1], answers[i - 1]);
      var all := VisitsEvents(entries, answers, i);
      assert all == before + now;
      if k <= |before| {
        VisitsAttempt(d, entries, answers, i - 1, k, n);
        assert all[..k] == before[..k];
      } else {
        var j := k - |before|;
        assert all[..k] == before + now[..j];
        assert before[..|before|] == before;
        EffectsConcat(d, before, now[..j]);
        BumpsConcat(before, now[..j], n);
        VisitsAttempt(d, entries, answers, i - 1, |before|, n);
        FirstVisit(d, entries, answers, i - 1);
        VisitAttempt(Effects(d, before), entries[i - 1], answers[i - 1], j, n);
        AttemptedOnce(Pending(d), Pending(Effects(d, before)), Pending(Effects(d, all[..k])),
                      Bumps(before, n), Bumps(now[..j], n), n);
      }
    }
  }

  /**
   Wherever a replay stops it has counted at most one attempt of a record, and a complete one leaves
   a counted record pending only below its limit.
   */
  lemma {:induction false} ReplayCountsOneAttempt(d: Dir, answers: seq<Answer>, k: nat, n: string)
    requires Good(d) && IsDeferred(n) && k <= |ReplayEvents(d, answers)|
    ensures var evs := ReplayEvents(d, answers);
            var p, q, b := Pending(d), Pending(Effects(d, evs[..k])), Bumps(evs[..k], n);
            && Attempted(p, q, b, n)
            && (k == |evs| && n in p && b == 1 ==> (n in q <==> !Exhausted(p[n])))
  {
    hide Filename, Pending, Listing, Extension, VisitsEvents, FateOf, WellFormed, LexLeq, Exhausted, Bumped, Effects,
         Good, Reached;
    var l := Listing(d);
    var i := Reached(|l|, answers);
    var evs := ReplayEvents(d, answers);
    ListingIsSnapshot(d);
    VisitsAttempt(d, l, answers, i, k, n);
    if k == |evs| {
      assert evs[..k] == evs;
      VisitsInTotal(d, l, answers, i);
      VisitsBumps(Pending(d), l, answers, i, n);
      if VisitedBefore(l, i, n) {
        var j :| 0 <= j < i && Filename(l[j]) == n;
        assert EndedAs(Pending(Effects(d, evs)), l[j], FateOf(l[j], answers[j]));
        PromotedWhenExhausted(l[j], answers[j]);
      }
    }
  }

  lemma PromotedWhenExhausted(e: DeferEntry, a: Answer)
    ensures FateOf(e, a).Promoted? ==> Exhausted(e)
    ensures FateOf(e, a).Failed? || FateOf(e, a).HealthCheckFailed? ==> !Exhausted(e)
  {
  }
}
