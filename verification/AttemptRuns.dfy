/**
 Attempts and clears over whole runs: how often a record can fail before it leaves the queue, and
 exactly when a record that an operator cleared comes back.
 */
module AttemptRuns {
  import opened Text
  import opened DeferFormat
  import opened Directory
  import opened Journal
  import opened EnqueueTheory
  import opened ReplayTheory
  import opened JournalRuns

  // ---------------------------------------------------------------- attempts

  /** The number of attempts a record may still fail before it leaves the queue. */
  function AttemptsLeft(e: DeferEntry): nat {
    if e.maxAttempts - e.attemptCount <= 1 then 1 else e.maxAttempts - e.attemptCount
  }

  /** The record after `b` more failed attempts. */
  function Counted(e: DeferEntry, b: nat): DeferEntry {
    e.(attemptCount := Saturated(e.attemptCount + b))
  }

  /** The call has counted the last attempt of `n` and not yet promoted it. */
  ghost predicate Limbo(a: Agent, n: string) {
    && a.Busy? && a.done <= |CallEvents(a.start, a.call)|
    && n in Pending(a.start) && Exhausted(Pending(a.start)[n])
    && Bumps(CallEvents(a.start, a.call)[..a.done], n) == 1 && n in Pending(Undisturbed(a))
  }

  /** The call ends there, by a crash or an error, and leaves the record pending. */
  ghost predicate CutInLimbo(s: State, m: Move, n: string) {
    s.agent.Busy? && Next(s, m).agent.Idle? && Limbo(s.agent, n) && n in Pending(s.files)
  }

  ghost function Cuts(s: State, ms: seq<Move>, n: string): nat {
    if ms == [] then 0
    else
      var front := ms[..|ms| - 1];
      Cuts(s, front, n) + (if CutInLimbo(After(s, front), ms[|ms| - 1], n) then 1 else 0)
  }

  /** A request of that name is enqueued only while it is pending, where the enqueue does nothing. */
  ghost predicate NotAnew(s: State, m: Move, n: string) {
    s.agent.Idle? && m.Begin? && m.call.EnqueueCall? && Filename(m.call.request) == n ==> n in Pending(s.files)
  }

  ghost predicate NeverAnew(s: State, ms: seq<Move>, n: string) {
    forall i :: 0 <= i < |ms| ==> NotAnew(After(s, ms[..i]), ms[i], n)
  }

  ghost predicate OtherCall(a: Agent, n: string) {
    a.Busy? && a.call.EnqueueCall? && Filename(a.call.request) == n ==> CallEvents(a.start, a.call) == []
  }

  lemma {:induction false} PendingIsNotAnew(d: Dir, e: DeferEntry, nanos: nat)
    requires Good(d) && WellFormed(e) && Filename(e) in Pending(d)
    ensures EnqueueEvents(d, e, nanos) == []
  {
    hide Good, WellFormed, Filename, Pending, Duplicate, Dominated;
    DuplicateIsVisible(d, e);
  }

  /** An enqueue of another record counts no attempt of this one. */
  lemma {:induction false} EnqueueAttempt(d: Dir, e: DeferEntry, nanos: nat, k: nat, n: string)
    requires k <= |EnqueueEvents(d, e, nanos)| && Filename(e) != n
    ensures Bumps(EnqueueEvents(d, e, nanos)[..k], n) == 0
    ensures Attempted(Pending(d), Pending(Effects(d, EnqueueEvents(d, e, nanos)[..k])), 0, n)
  {
    hide Filename, Pending, Effects, Bumped, Exhausted, VictimsIn, EnqueueEvents, Duplicate, Dominated, NamesOf,
         Prelude;
    var evs := EnqueueEvents(d, e, nanos);
    EnqueueAtEveryPoint(d, e, nanos, k);
    EnqueueRenames(d, e, nanos, n);
    NoBumps(evs[..k], n);
  }

  lemma EnqueueRenames(d: Dir, e: DeferEntry, nanos: nat, n: string)
    requires Filename(e) != n
    ensures forall i :: 0 <= i < |EnqueueEvents(d, e, nanos)| ==>
              var ev := EnqueueEvents(d, e, nanos)[i]; !(ev.FileEvent? && ev.op.Rename? && ev.op.dst == n)
  {
    hide Filename, TmpName, VictimsIn, Duplicate, Dominated, AnyThere;
  }

  /** Wherever a call stops it has counted at most one attempt of a record. */
  lemma {:induction false} CallAttempts(a: Agent, n: string)
    requires a.Busy? && a.done <= |CallEvents(a.start, a.call)| && Good(a.start) && IsDeferred(n) && OtherCall(a, n)
    ensures Attempted(Pending(a.start), Pending(Undisturbed(a)), Bumps(CallEvents(a.start, a.call)[..a.done], n), n)
  {
    hide Pending, Effects, Good, EnqueueEvents, ReplayEvents, Attempted, IsDeferred, Filename;
    match a.call {
      case EnqueueCall(e, nanos) =>
        if Filename(e) == n {
          assert CallEvents(a.start, a.call)[..a.done] == [];
          EmptyRun(a.start, [], []);
          NotAttempted(Pending(a.start), n);
        } else {
          EnqueueAttempt(a.start, e, nanos, a.done, n);
        }
      case ReplayCall(answers) => ReplayCountsOneAttempt(a.start, answers, a.done, n);
    }
  }

  /** With `b` attempts counted and `x` calls cut in limbo, the record is within its limit. */
  ghost predicate Within(p: Visible, n: string, e: DeferEntry, b: int, x: nat) {
    && 0 <= b <= AttemptsLeft(e) + x
    && (n in p ==> p[n] == Counted(e, b) && b < AttemptsLeft(e) + x)
  }

  /** Idle, the record is within its limit; in a call it was when the call began. */
  ghost predicate Tracked(s: State, n: string, e: DeferEntry, x: nat) {
    if s.agent.Idle? then Within(Pending(s.files), n, e, Bumps(s.trace, n), x)
    else
      && OtherCall(s.agent, n) && s.agent.done <= |CallEvents(s.agent.start, s.agent.call)|
      && Within(Pending(s.agent.start), n, e,
                Bumps(s.trace, n) - Bumps(CallEvents(s.agent.start, s.agent.call)[..s.agent.done], n), x)
  }

  /** What the counted attempt of one call does to the limit. */
  lemma WithinAfter(p: Visible, q: Visible, n: string, e: DeferEntry, b: int, c: nat, x: nat)
    requires Within(p, n, e, b, x) && Attempted(p, q, c, n)
    ensures b + c <= AttemptsLeft(e) + x
    ensures n in q ==> q[n] == Counted(e, b + c)
    ensures n in q && !(n in p && Exhausted(p[n]) && c == 1) ==> b + c < AttemptsLeft(e) + x
  {
    if n in q && n in p && c == 1 {
      assert p[n] == Counted(e, b);
      assert Bumped(p[n]) == Counted(e, b + 1);
    }
  }

  /** When a call ends, wherever and whatever was cleared, the record is within its limit, a cut in limbo counted. */
  lemma {:induction false} CallEndsWithin(d: Dir, s: State, n: string, e: DeferEntry, x: nat)
    requires Consistent(d, s) && s.agent.Busy? && IsDeferred(n) && Tracked(s, n, e, x)
    ensures Bumps(s.trace, n) <= AttemptsLeft(e) + x
    ensures n in Pending(s.files) ==> Pending(s.files)[n] == Counted(e, Bumps(s.trace, n))
    ensures Within(Pending(s.files), n, e, Bumps(s.trace, n),
                   if Limbo(s.agent, n) && n in Pending(s.files) then x + 1 else x)
  {
    hide Good, Torn, CallEvents, Pending, Effects, Bumps, Attempted, Exhausted, AttemptsLeft, Counted, IsDeferred,
         Filename, EndsWith, ByAgent, Part, Undisturbed;
    var a := s.agent;
    var c := Bumps(CallEvents(a.start, a.call)[..a.done], n);
    CallAttempts(a, n);
    WithinAfter(Pending(a.start), Pending(Undisturbed(a)), n, e, Bumps(s.trace, n) - c, c, x);
    PartVisible(s.files, Undisturbed(a));
  }

  /** A move keeps the record within its limit. */
  lemma {:induction false} MoveTracks(d: Dir, s: State, m: Move, n: string, e: DeferEntry, x: nat)
    requires Consistent(d, s) && WellFormedMove(m) && IsDeferred(n) && NotAnew(s, m, n) && Tracked(s, n, e, x)
    ensures Tracked(Next(s, m), n, e, if CutInLimbo(s, m, n) then x + 1 else x)
  {
    hide Good, Torn, CallEvents, Pending, Effects, Within, IsDeferred, Filename, EndsWith, ByAgent, Part, Undisturbed,
         Clearable, Effect, Fails, Limbo, WellFormed;
    match m {
      case Begin(c) =>
        assert CallEvents(s.files, c)[..0] == [];
        if s.agent.Idle? { BegunCall(s, c, n); }
      case Crash =>
        if s.agent.Busy? { CallEndsWithin(d, s, n, e, x); }
      case Advance =>
        if s.agent.Busy? {
          var evs := CallEvents(s.agent.start, s.agent.call);
          if s.agent.done >= |evs| || Fails(s.files, evs[s.agent.done]) {
            CallEndsWithin(d, s, n, e, x);
          } else {
            BumpsStep(evs, s.agent.done, n);
            assert (s.trace + [evs[s.agent.done]])[..|s.trace|] == s.trace;
          }
        }
      case Clear(c) =>
        if c in s.files && Clearable(c) {
          ClearTracks(s, c, n, e, x);
        }
    }
  }

  lemma BegunCall(s: State, c: Call, n: string)
    requires Good(s.files) && WellFormedCall(c) && s.agent.Idle? && NotAnew(s, Begin(c), n)
    ensures OtherCall(Next(s, Begin(c)).agent, n)
  {
    hide Good, WellFormed, Filename, Pending, EnqueueEvents;
    if c.EnqueueCall? && Filename(c.request) == n { PendingIsNotAnew(s.files, c.request, c.nanos); }
  }

  lemma ClearTracks(s: State, c: string, n: string, e: DeferEntry, x: nat)
    requires c in s.files && Clearable(c) && Tracked(s, n, e, x)
    ensures Tracked(Next(s, Clear(c)), n, e, x)
  {
    hide CallEvents, Pending, Clearable, AttemptsLeft, Counted, OtherCall;
    UnlinkEffect(s.files, c);
    var ev := FileEvent(Unlink(c), ByOperator);
    assert (s.trace + [ev])[..|s.trace|] == s.trace;
  }

  lemma TrackedAtStart(d: Dir, n: string)
    requires n in Pending(d)
    ensures Tracked(Initially(d), n, Pending(d)[n], 0)
  {
    hide Pending;
  }

  lemma {:induction false} AlwaysTracked(d: Dir, ms: seq<Move>, n: string)
    requires Good(d) && WellFormedMoves(ms) && n in Pending(d) && NeverAnew(Initially(d), ms, n)
    ensures Tracked(After(Initially(d), ms), n, Pending(d)[n], Cuts(Initially(d), ms, n))
  {
    hide Good, WellFormedMove, Tracked, CutInLimbo, Next, Pending, NotAnew;
    if ms == [] {
      TrackedAtStart(d, n);
    } else {
      var front := ms[..|ms| - 1];
      assert NeverAnew(Initially(d), front, n) by {
        assert forall i :: 0 <= i < |front| ==> front[..i] == ms[..i];
      }
      AlwaysTracked(d, front, n);
      AlwaysConsistent(d, front);
      PendingIsThere(d, n);
      MoveTracks(d, After(Initially(d), front), ms[|ms| - 1], n, Pending(d)[n], Cuts(Initially(d), front, n));
    }
  }

  /**
   In every run that does not enqueue it anew, whatever crashes and clears it contains, a record fails at
   most as often as it has attempts left, and once more for each call that was cut between counting its
   last attempt and promoting it. The counter on disk is exact, and between calls a record with no attempt
   left is gone.
   */
  lemma {:induction false} AttemptsAreBounded(d: Dir, ms: seq<Move>, n: string)
    requires Good(d) && WellFormedMoves(ms) && n in Pending(d) && NeverAnew(Initially(d), ms, n)
    ensures var e, s := Pending(d)[n], After(Initially(d), ms);
            var b, limit := Bumps(s.trace, n), AttemptsLeft(e) + Cuts(Initially(d), ms, n);
            && b <= limit
            && (n in Pending(s.files) ==> Pending(s.files)[n] == Counted(e, b))
            && (n in Pending(s.files) && s.agent.Idle? ==> b < limit)
  {
    hide Good, Consistent, Pending, AttemptsLeft, Counted, Cuts, After, Bumps, WellFormedMoves, NeverAnew, Limbo,
         OtherCall;
    var s := After(Initially(d), ms);
    AlwaysTracked(d, ms, n);
    AlwaysConsistent(d, ms);
    PendingIsThere(d, n);
    if s.agent.Busy? {
      CallEndsWithin(d, s, n, Pending(d)[n], Cuts(Initially(d), ms, n));
    }
  }

  // ---------------------------------------------------------------- cleared records

  /** The event makes the name `n` pending. */
  predicate RenamesOnto(ev: Event, n: string) {
    ev.FileEvent? && ev.op.Rename? && ev.op.dst == n
  }

  /** Only a rename onto its name makes a record pending. */
  lemma OnlyRenamesPublish(d: Dir, start: Dir, c: Call, k: nat, n: string)
    requires k < |CallEvents(start, c)| && n !in Pending(d) && !RenamesOnto(CallEvents(start, c)[k], n)
    ensures n !in Pending(Effect(d, CallEvents(start, c)[k]))
  {
    hide CallEvents, IsDeferred, IsManualClear;
    AgentCauses(start, c, k);
  }

  /** Since `b` of its renames onto `n` were made, the call has brought `n` back. */
  ghost predicate BackSince(s: State, b: nat, n: string)
    requires s.agent.Busy? && s.agent.done <= |CallEvents(s.agent.start, s.agent.call)|
  {
    n in Pending(s.files) <==>
      n in Pending(Undisturbed(s.agent)) && Bumps(CallEvents(s.agent.start, s.agent.call)[..s.agent.done], n) > b
  }

  lemma {:induction false} AdvanceBack(d: Dir, s: State, b: nat, n: string)
    requires Consistent(d, s) && s.agent.Busy? && BackSince(s, b, n) && Advanced(s).agent.Busy?
    requires b <= Bumps(CallEvents(s.agent.start, s.agent.call)[..s.agent.done], n)
    ensures Advanced(s).agent.done <= |CallEvents(s.agent.start, s.agent.call)| && BackSince(Advanced(s), b, n)
    ensures b <= Bumps(CallEvents(s.agent.start, s.agent.call)[..Advanced(s).agent.done], n)
  {
    hide Good, Torn, CallEvents, Pending, Effects, Effect, Bumps, EndsWith, ByAgent, Part;
    var a := s.agent;
    var evs := CallEvents(a.start, a.call);
    var ev, whole := evs[a.done], Undisturbed(a);
    EffectsStep(a.start, evs, a.done);
    BumpsStep(evs, a.done, n);
    PartStep(s.files, whole, ev);
    PartVisible(s.files, whole);
    PartVisible(Effect(s.files, ev), Effect(whole, ev));
    if !RenamesOnto(ev, n) {
      if n in Pending(s.files) {
        PendingIsThere(s.files, n);
        if n in Pending(Effect(whole, ev)) { PendingIsThere(Effect(whole, ev), n); }
      } else {
        OnlyRenamesPublish(s.files, a.start, a.call, a.done, n);
        if n !in Pending(whole) { OnlyRenamesPublish(whole, a.start, a.call, a.done, n); }
      }
    }
  }

  ghost predicate KeepsClear(m: Move, n: string) {
    !m.Begin? && m != Clear(n)
  }

  lemma {:induction false} MoveBack(d: Dir, s: State, m: Move, b: nat, n: string)
    requires Consistent(d, s) && s.agent.Busy? && BackSince(s, b, n) && KeepsClear(m, n)
    requires b <= Bumps(CallEvents(s.agent.start, s.agent.call)[..s.agent.done], n)
    requires Next(s, m).agent.Busy?
    ensures var a := Next(s, m).agent;
            && a.call == s.agent.call && a.start == s.agent.start && a.done <= |CallEvents(a.start, a.call)|
            && b <= Bumps(CallEvents(a.start, a.call)[..a.done], n) && BackSince(Next(s, m), b, n)
  {
    hide Good, Torn, CallEvents, Pending, Effects, Effect, Bumps, EndsWith, ByAgent, Part, Fails, Clearable;
    match m {
      case Advance => AdvanceBack(d, s, b, n);
      case Clear(c) => UnlinkEffect(s.files, c);
      case _ =>
    }
  }

  /** Without a new call a process that is busy has been in the same call all the time. */
  lemma BusyBefore(s: State, m: Move)
    requires !m.Begin? && Next(s, m).agent.Busy?
    ensures s.agent.Busy?
  {
    hide CallEvents;
  }

  /**
   What was not pending at some point of a call is pending later in the same call if and only if the call
   has since renamed a file onto its name and would by itself have it pending.
   */
  lemma {:induction false} BackIffRenamed(d: Dir, s: State, ms: seq<Move>, n: string)
    requires Consistent(d, s) && s.agent.Busy? && n !in Pending(s.files) && WellFormedMoves(ms)
    requires (forall i :: 0 <= i < |ms| ==> KeepsClear(ms[i], n)) && After(s, ms).agent.Busy?
    ensures Consistent(d, After(s, ms))
    ensures var t, evs := After(s, ms), CallEvents(s.agent.start, s.agent.call);
            && t.agent.call == s.agent.call && t.agent.start == s.agent.start && t.agent.done <= |evs|
            && Bumps(evs[..s.agent.done], n) <= Bumps(evs[..t.agent.done], n)
            && BackSince(t, Bumps(evs[..s.agent.done], n), n)
  {
    hide Good, Torn, CallEvents, Pending, Bumps, Part, Next, WellFormedMove, Undisturbed, EndsWith, ByAgent;
    if ms != [] {
      var front, m := ms[..|ms| - 1], ms[|ms| - 1];
      BusyBefore(After(s, front), m);
      BackIffRenamed(d, s, front, n);
      MoveIsConsistent(d, After(s, front), m);
      MoveBack(d, After(s, front), m, Bumps(CallEvents(s.agent.start, s.agent.call)[..s.agent.done], n), n);
    }
  }

  /** The replay visits `n` and the attempt fails below its limit. */
  ghost predicate FailsBelowLimit(d: Dir, answers: seq<Answer>, n: string) {
    var l := Listing(d);
    exists j :: 0 <= j < Reached(|l|, answers) && Filename(l[j]) == n
                && (FateOf(l[j], answers[j]).Failed? || FateOf(l[j], answers[j]).HealthCheckFailed?)
  }

  /** A complete replay of its own counts and keeps exactly the records that fail below their limit. */
  lemma {:induction false} CountedAndKeptIff(d: Dir, answers: seq<Answer>, n: string)
    requires Good(d) && IsDeferred(n)
    ensures var evs := ReplayEvents(d, answers);
            n in Pending(Effects(d, evs)) && Bumps(evs, n) > 0 <==> FailsBelowLimit(d, answers, n)
    ensures Bumps(ReplayEvents(d, answers), n) <= 1
  {
    hide Filename, Pending, Listing, IsDeferred, VisitsEvents, FateOf, Effects, Good, Reached, Bumps, Bumped,
         Snapshot;
    var l := Listing(d);
    var i := Reached(|l|, answers);
    ListingIsSnapshot(d);
    VisitsInTotal(d, l, answers, i);
    VisitsBumps(Pending(d), l, answers, i, n);
    if VisitedBefore(l, i, n) {
      var j :| 0 <= j < i && Filename(l[j]) == n;
      assert EndedAs(Pending(Effects(d, ReplayEvents(d, answers))), l[j], FateOf(l[j], answers[j]));
      OneVisit(Pending(d), l, answers, i, j, n);
    }
  }

  lemma OneVisit(p: Visible, l: seq<DeferEntry>, answers: seq<Answer>, i: nat, j: nat, n: string)
    requires Snapshot(p, l) && j < i <= |l| && i <= |answers| && Filename(l[j]) == n
    ensures forall k :: 0 <= k < i && Filename(l[k]) == n ==> k == j
  {
    hide Filename;
  }

  /**
   Exactly when a clear in the middle of a replay does not last: a record that is not pending at some
   point of a replay, and is not cleared again, is pending when the replay ends if and only if its attempt
   had not been counted yet and fails below its limit.
   */
  lemma {:induction false} ClearedRecordComesBackIff(d: Dir, earlier: seq<Move>, later: seq<Move>, n: string)
    requires Good(d) && WellFormedMoves(earlier) && WellFormedMoves(later) && IsDeferred(n)
    requires forall i :: 0 <= i < |later| ==> KeepsClear(later[i], n)
    requires var s := After(Initially(d), earlier);
             var t := After(s, later);
             && s.agent.Busy? && s.agent.call.ReplayCall? && n !in Pending(s.files)
             && t.agent.Busy? && t.agent.done == |CallEvents(s.agent.start, s.agent.call)|
    ensures var s := After(Initially(d), earlier);
            var evs := CallEvents(s.agent.start, s.agent.call);
            s.agent.done <= |evs|
            && (n in Pending(After(s, later).files) <==>
                  Bumps(evs[..s.agent.done], n) == 0 && FailsBelowLimit(s.agent.start, s.agent.call.answers, n))
  {
    hide Good, Torn, Pending, Bumps, Part, WellFormedMove, EndsWith, ByAgent, IsDeferred, FailsBelowLimit,
         ReplayEvents, KeepsClear, After;
    var s := After(Initially(d), earlier);
    AlwaysConsistent(d, earlier);
    BackIffRenamed(d, s, later, n);
    var evs := CallEvents(s.agent.start, s.agent.call);
    assert evs[..|evs|] == evs;
    CountedAndKeptIff(s.agent.start, s.agent.call.answers, n);
  }

  // ---------------------------------------------------------------- what a clear finds

  /** An id matches the pending and the promoted record of its request, and nothing else. */
  lemma {:induction false} ClearFinds(d: Dir, e: DeferEntry, n: string)
    requires Good(d) && PromotedNamed(d) && WellFormed(e) && e.id !in d
    ensures ClearMatches(d, e.id, n) <==> n in d && d[n].Record? && (n == Filename(e) || n == ManualClearFilename(e))
  {
    hide Filename, ManualClearFilename, WellFormed, Extension, Antichain;
    FilenameExtensions(e, 0);
    if n in d && d[n].Record? {
      var f := d[n].entry;
      FilenameExtensions(f, 0);
      if IsDeferred(n) {
        assert n in Pending(d);
        FilenameIsId(f, e);
      }
      if IsManualClear(n) {
        ManualNameIsId(f, e);
      }
    }
  }

  /** Whatever the directory order, a clear by id takes a pending record while there is one. */
  ghost predicate TakesPendingFirst(d: Dir, id: string) {
    forall m, n :: ClearMatches(d, id, m) && IsDeferred(m) && ClearMatches(d, id, n) ==> IsDeferred(n)
  }

  /** That holds exactly when the request is not both pending and promoted. */
  lemma {:induction false} TakesPendingFirstIff(d: Dir, e: DeferEntry)
    requires Good(d) && PromotedNamed(d) && WellFormed(e) && e.id !in d
    ensures TakesPendingFirst(d, e.id) <==>
            !(Filename(e) in Pending(d) && ManualClearFilename(e) in d && d[ManualClearFilename(e)].Record?)
  {
    hide Good, PromotedNamed, ClearMatches, Filename, ManualClearFilename, WellFormed, Extension;
    FilenameExtensions(e, 0);
    forall n
      ensures ClearMatches(d, e.id, n) <==> n in d && d[n].Record? && (n == Filename(e) || n == ManualClearFilename(e))
    {
      ClearFinds(d, e, n);
    }
    assert IsDeferred(Filename(e)) && !IsDeferred(ManualClearFilename(e));
    if Filename(e) in Pending(d) {
      assert ClearMatches(d, e.id, Filename(e));
    }
    if ManualClearFilename(e) in d && d[ManualClearFilename(e)].Record? {
      assert ClearMatches(d, e.id, ManualClearFilename(e));
    }
  }

  /** A request made again after its promotion: the clear may take either record. */
  lemma {:induction false} MayTakePromotedFirst(e: DeferEntry)
    requires WellFormed(e)
    ensures var d := map[Filename(e) := Record(e), ManualClearFilename(e) := Record(e)];
            Good(d) && PromotedNamed(d) && !TakesPendingFirst(d, e.id)
  {
    hide Filename, ManualClearFilename, WellFormed, Extension, ClearMatches, TakesPendingFirst;
    FilenameExtensions(e, 0);
    var d := map[Filename(e) := Record(e), ManualClearFilename(e) := Record(e)];
    assert IsDeferred(Filename(e)) && !IsDeferred(ManualClearFilename(e)) && !IsManualClear(Filename(e));
    assert Pending(d) == map[Filename(e) := e];
    NotAboveItself(e);
    NamesAreLonger(e);
    TakesPendingFirstIff(d, e);
  }
}
