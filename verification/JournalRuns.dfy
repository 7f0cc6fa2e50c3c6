/**
 Whole runs of the journal. One process holds the lock and works through enqueues and replays, one file
 operation at a time; it may die between any two of them. An operator, who takes no lock, may clear a
 record at any moment, also in the middle of a call.
 */
module JournalRuns {
  import opened Text
  import opened DeferFormat
  import opened Directory
  import opened Journal
  import opened EnqueueTheory
  import opened ReplayTheory

  datatype Call =
    | EnqueueCall(request: DeferEntry, nanos: nat)
    | ReplayCall(answers: seq<Answer>)

  /**
   The process with the lock: idle, or `done` events into a call that listed the directory `start` when
   `since` events had happened.
   */
  datatype Agent = Idle | Busy(call: Call, start: Dir, since: nat, done: nat)

  datatype Move =
    | Begin(call: Call)
    | Advance              // the next event of the call, or its return
    | Crash                // also an I/O error
    | Clear(name: string)  // the unlink of an operator's clear

  /** The directory, the process, and everything that happened so far. */
  datatype State = State(files: Dir, agent: Agent, trace: seq<Event>)

  /** What a call does, given the directory that it lists when it begins. */
  ghost function CallEvents(d: Dir, c: Call): seq<Event> {
    match c
    case EnqueueCall(e, nanos) => EnqueueEvents(d, e, nanos)
    case ReplayCall(answers) => ReplayEvents(d, answers)
  }

  /** The files an operator's clear may unlink. */
  predicate Clearable(n: string) {
    IsDeferred(n) || IsManualClear(n)
  }

  /** The event ends the call with an error: there is nothing to rename. */
  predicate Fails(d: Dir, ev: Event) {
    ev.FileEvent? && ev.op.Rename? && ev.op.src !in d
  }

  ghost function Advanced(s: State): State
    requires s.agent.Busy?
  {
    var evs := CallEvents(s.agent.start, s.agent.call);
    if s.agent.done >= |evs| || Fails(s.files, evs[s.agent.done]) then s.(agent := Idle)
    else
      var ev := evs[s.agent.done];
      State(Effect(s.files, ev), s.agent.(done := s.agent.done + 1), s.trace + [ev])
  }

  ghost function Next(s: State, m: Move): State {
    match m
    case Begin(c) => if s.agent.Idle? then s.(agent := Busy(c, s.files, |s.trace|, 0)) else s
    case Advance => if s.agent.Busy? then Advanced(s) else s
    case Crash => s.(agent := Idle)
    case Clear(n) =>
      if n in s.files && Clearable(n)
      then State(s.files - {n}, s.agent, s.trace + [FileEvent(Unlink(n), ByOperator)])
      else s
  }

  ghost function After(s: State, ms: seq<Move>): State {
    if ms == [] then s else Next(After(s, ms[..|ms| - 1]), ms[|ms| - 1])
  }

  ghost function Initially(d: Dir): State {
    State(d, Idle, [])
  }

  ghost predicate WellFormedCall(c: Call) {
    c.EnqueueCall? ==> WellFormed(c.request)
  }

  ghost predicate WellFormedMove(m: Move) {
    m.Begin? ==> WellFormedCall(m.call)
  }

  ghost predicate WellFormedMoves(ms: seq<Move>) {
    forall i :: 0 <= i < |ms| ==> WellFormedMove(ms[i])
  }

  // ---------------------------------------------------------------- what clears can do to a call

  /** `d` is `whole` less some files that an operator may have cleared. */
  ghost predicate Part(d: Dir, whole: Dir) {
    && (forall n :: n in d ==> n in whole && d[n] == whole[n])
    && (forall n :: n in whole && n !in d ==> Clearable(n))
  }

  /** The directory as the call would have it by now without any clears. */
  ghost function Undisturbed(a: Agent): Dir
    requires a.Busy? && a.done <= |CallEvents(a.start, a.call)|
  {
    Effects(a.start, CallEvents(a.start, a.call)[..a.done])
  }

  /** An event that does not fail does the same to a part as to the whole. */
  lemma PartStep(d: Dir, whole: Dir, ev: Event)
    requires Part(d, whole) && !Fails(d, ev)
    ensures Part(Effect(d, ev), Effect(whole, ev))
    ensures forall n :: n in d ==> (n in Effect(d, ev) <==> n in Effect(whole, ev))
    ensures ev.FileEvent? && ev.op.Rename? ==>
      ev.op.dst in Effect(d, ev) && Effect(d, ev)[ev.op.dst] == whole[ev.op.src]
  {
    hide Clearable;
  }

  lemma PartVisible(d: Dir, whole: Dir)
    requires Part(d, whole)
    ensures forall n :: n in Pending(d) ==> n in Pending(whole) && Pending(d)[n] == Pending(whole)[n]
    ensures forall n :: n in d && n in Pending(whole) ==> n in Pending(d)
    ensures Shrinks(Pending(whole), Pending(d)) && Torn(d) <= Torn(whole)
  {
    hide Clearable, IsDeferred;
  }

  // ---------------------------------------------------------------- consistency

  /** An enqueue that stops anywhere leaves a consistent directory. */
  lemma {:induction false} EnqueueStaysGood(d: Dir, e: DeferEntry, nanos: nat, k: nat)
    requires Good(d) && WellFormed(e) && k <= |EnqueueEvents(d, e, nanos)|
    ensures Good(Effects(d, EnqueueEvents(d, e, nanos)[..k]))
  {
    hide Filename, WellFormed, Pending, Listing, EnqueueEvents, VictimsIn, Effects;
    var p, p' := Pending(d), Pending(Effects(d, EnqueueEvents(d, e, nanos)[..k]));
    EnqueueAtEveryPoint(d, e, nanos, k);
    DuplicateIsVisible(d, e);
    DominatedIsHasStronger(d, e);
    VictimsAreRedundant(d, e);
    if !Duplicate(d, e) && !Dominated(d, e) && k >= Prelude(d, e) + 3 {
      assert p' == Accept(p, e);
      AcceptKeepsInvariants(p, e);
    } else {
      ShrinksKeepsInvariants(p, p');
    }
  }

  /** Every call, stopped anywhere, leaves a consistent directory and tears no visible file. */
  lemma {:induction false} CallStaysGood(d: Dir, c: Call, k: nat)
    requires Good(d) && WellFormedCall(c) && k <= |CallEvents(d, c)|
    ensures Good(Effects(d, CallEvents(d, c)[..k]))
    ensures Torn(Effects(d, CallEvents(d, c)[..k])) <= Torn(d)
  {
    hide Pending, Torn, EnqueueEvents, ReplayEvents, WellFormed, Antichain, Valid;
    match c {
      case EnqueueCall(e, nanos) =>
        EnqueueStaysGood(d, e, nanos, k);
        EnqueueAtEveryPoint(d, e, nanos, k);
      case ReplayCall(answers) =>
        ReplayAtEveryPoint(d, answers, k);
    }
  }

  /** The events that are not an operator's. */
  ghost function ByAgent(evs: seq<Event>): seq<Event> {
    if evs == [] then []
    else
      var last := evs[|evs| - 1];
      ByAgent(evs[..|evs| - 1]) + (if last.FileEvent? && last.cause.ByOperator? then [] else [last])
  }

  ghost predicate EndsWith(evs: seq<Event>, tail: seq<Event>) {
    |tail| <= |evs| && evs[|evs| - |tail|..] == tail
  }

  /** A process in a call: the directory is part of what the call alone would have made of it. */
  ghost predicate CallGoesOn(files: Dir, a: Agent, trace: seq<Event>) {
    a.Busy? ==>
      && Good(a.start) && WellFormedCall(a.call) && a.done <= |CallEvents(a.start, a.call)|
      && a.since <= |trace| && Part(files, Undisturbed(a))
      && EndsWith(ByAgent(trace), CallEvents(a.start, a.call)[..a.done])
  }

  ghost predicate Consistent(d: Dir, s: State) {
    && Good(s.files) && Torn(s.files) <= Torn(d) && s.files == Effects(d, s.trace)
    && (s.agent.Busy? ==> Torn(s.agent.start) <= Torn(d))
    && CallGoesOn(s.files, s.agent, s.trace)
  }

  lemma ByAgentSnoc(evs: seq<Event>, ev: Event)
    ensures ByAgent(evs + [ev]) == ByAgent(evs) + (if ev.FileEvent? && ev.cause.ByOperator? then [] else [ev])
  {
    assert (evs + [ev])[..|evs|] == evs;
  }

  lemma EndsWithSnoc(evs: seq<Event>, all: seq<Event>, k: nat)
    requires k < |all| && EndsWith(evs, all[..k])
    ensures EndsWith(evs + [all[k]], all[..k + 1])
  {
    var longer := evs + [all[k]];
    assert all[..k + 1] == all[..k] + [all[k]];
    assert longer[|longer| - (k + 1)..] == evs[|evs| - k..] + [all[k]];
  }

  /** A file that is less than a consistent directory is consistent. */
  lemma PartIsGood(d: Dir, whole: Dir)
    requires Part(d, whole) && Good(whole)
    ensures Good(d) && Torn(d) <= Torn(whole)
  {
    hide Pending, Torn, Valid, Antichain, Part;
    PartVisible(d, whole);
    ShrinksKeepsInvariants(Pending(whole), Pending(d));
  }

  /** No event of the process is an operator's. */
  lemma AgentCauses(d: Dir, c: Call, k: nat)
    requires k < |CallEvents(d, c)|
    ensures var ev := CallEvents(d, c)[k];
            && (ev.FileEvent? && c.EnqueueCall? ==> ev.cause == ByEnqueue(c.request))
            && (ev.FileEvent? && c.ReplayCall? ==> ev.cause.ByReplay?)
            && (ev.FileEvent? && (ev.op.Create? || ev.op.Fill?) ==> !Clearable(ev.op.name))
  {
    hide VisitEvents, Listing, IsDeferred, IsManualClear, VictimsIn, Duplicate, Dominated, AnyThere;
    match c {
      case ReplayCall(answers) =>
        VisitsCauses(Listing(d), answers, Reached(|Listing(d)|, answers), k);
      case EnqueueCall(e, nanos) =>
        ScratchIsHidden(e, nanos);
    }
  }

  lemma {:induction false} VisitsCauses(entries: seq<DeferEntry>, answers: seq<Answer>, n: nat, i: nat)
    requires n <= |entries| && n <= |answers| && i < |VisitsEvents(entries, answers, n)|
    ensures var ev := VisitsEvents(entries, answers, n)[i];
            ev.FileEvent? ==> ev.cause.ByReplay? && (ev.op.Create? || ev.op.Fill? ==> !Clearable(ev.op.name))
  {
    hide VisitEvents, Clearable;
    if n > 0 {
      if i < |VisitsEvents(entries, answers, n - 1)| {
        VisitsCauses(entries, answers, n - 1, i);
      } else {
        VisitCauses(entries[n - 1], answers[n - 1], i - |VisitsEvents(entries, answers, n - 1)|);
      }
    }
  }

  lemma VisitCauses(e: DeferEntry, a: Answer, i: nat)
    requires i < |VisitEvents(e, a)|
    ensures var ev := VisitEvents(e, a)[i];
            ev.FileEvent? ==> ev.cause.ByReplay? && (ev.op.Create? || ev.op.Fill? ==> !Clearable(ev.op.name))
  {
    hide Filename, TmpName, ManualClearFilename, Bumped, Exhausted, FateOf, Clearable;
    ScratchIsHidden(Bumped(e), a.nanos);
  }

  lemma ScratchIsHidden(e: DeferEntry, nanos: nat)
    ensures !Clearable(TmpName(e, nanos))
  {
    hide TmpName, Extension, Decimal;
    FilenameExtensions(e, nanos);
    DecimalIsNoWord(nanos);
  }

  /** One event further the directory is still part of what the call alone would have made of it. */
  lemma {:induction false} CallAdvances(files: Dir, a: Agent, trace: seq<Event>)
    requires a.Busy? && CallGoesOn(files, a, trace) && a.done < |CallEvents(a.start, a.call)|
    requires !Fails(files, CallEvents(a.start, a.call)[a.done])
    ensures var ev := CallEvents(a.start, a.call)[a.done];
            && CallGoesOn(Effect(files, ev), a.(done := a.done + 1), trace + [ev])
            && Good(Effect(files, ev)) && Torn(Effect(files, ev)) <= Torn(a.start)
  {
    hide Good, Torn, CallEvents, WellFormedCall, Effect, Effects, Fails, Part, ByAgent, EndsWith;
    var evs := CallEvents(a.start, a.call);
    var ev, next := evs[a.done], a.(done := a.done + 1);
    EffectsStep(a.start, evs, a.done);
    assert Undisturbed(next) == Effect(Undisturbed(a), ev);
    PartStep(files, Undisturbed(a), ev);
    CallStaysGood(a.start, a.call, a.done + 1);
    PartIsGood(Effect(files, ev), Undisturbed(next));
    AgentCauses(a.start, a.call, a.done);
    ByAgentSnoc(trace, ev);
    EndsWithSnoc(ByAgent(trace), evs, a.done);
  }

  lemma {:induction false} AdvanceIsConsistent(d: Dir, s: State)
    requires Consistent(d, s) && s.agent.Busy?
    ensures Consistent(d, Advanced(s))
  {
    hide Good, Torn, CallEvents, Effect, Effects, Fails, CallGoesOn;
    var a := s.agent;
    var evs := CallEvents(a.start, a.call);
    if a.done < |evs| && !Fails(s.files, evs[a.done]) {
      CallAdvances(s.files, a, s.trace);
      TraceGrows(d, s.trace, evs[a.done]);
    } else {
      IdleGoesOn(s.files, s.trace);
    }
  }

  lemma IdleGoesOn(files: Dir, trace: seq<Event>)
    ensures CallGoesOn(files, Idle, trace)
  {
  }

  lemma TraceGrows(d: Dir, trace: seq<Event>, ev: Event)
    ensures Effects(d, trace + [ev]) == Effect(Effects(d, trace), ev)
  {
    assert (trace + [ev])[..|trace|] == trace;
  }

  lemma {:induction false} ClearIsConsistent(d: Dir, s: State, n: string)
    requires Consistent(d, s) && n in s.files && Clearable(n)
    ensures Consistent(d, Next(s, Clear(n)))
  {
    hide Good, Torn, CallEvents, WellFormedCall, Clearable, ByAgent, EndsWith, Undisturbed;
    var ev := FileEvent(Unlink(n), ByOperator);
    TraceGrows(d, s.trace, ev);
    ByAgentSnoc(s.trace, ev);
    assert ByAgent(s.trace + [ev]) == ByAgent(s.trace);
    assert Part(s.files - {n}, s.files);
    PartIsGood(s.files - {n}, s.files);
    if s.agent.Busy? { assert Part(s.files - {n}, Undisturbed(s.agent)); }
  }

  lemma {:induction false} MoveIsConsistent(d: Dir, s: State, m: Move)
    requires Consistent(d, s) && WellFormedMove(m)
    ensures Consistent(d, Next(s, m))
  {
    hide Good, Torn, CallEvents, WellFormedCall, Clearable, ByAgent, Advanced;
    match m {
      case Begin(c) =>
        var evs := CallEvents(s.files, c);
        assert evs[..0] == [];
        EmptyRun(s.files, [], []);
        assert Part(s.files, s.files);
      case Advance =>
        if s.agent.Busy? { AdvanceIsConsistent(d, s); }
      case Crash =>
      case Clear(n) =>
        if n in s.files && Clearable(n) { ClearIsConsistent(d, s, n); }
    }
  }

  lemma {:induction false} AlwaysConsistent(d: Dir, ms: seq<Move>)
    requires Good(d) && WellFormedMoves(ms)
    ensures Consistent(d, After(Initially(d), ms))
  {
    hide Good, Torn, Consistent, Next, WellFormedMove;
    if ms == [] {
      StartIsConsistent(d);
    } else {
      AlwaysConsistent(d, ms[..|ms| - 1]);
      MoveIsConsistent(d, After(Initially(d), ms[..|ms| - 1]), ms[|ms| - 1]);
    }
  }

  lemma StartIsConsistent(d: Dir)
    requires Good(d)
    ensures Consistent(d, Initially(d))
  {
  }

  // ---------------------------------------------------------------- promoted records

  /** A rename publishes the scratch file that was just filled, or promotes the record that is being visited. */
  ghost predicate RenameShape(prev: Event, ev: Event) {
    ev.FileEvent? && ev.op.Rename? ==>
      || (&& prev.FileEvent? && prev.op.Fill? && prev.op.name == ev.op.src
          && !Clearable(ev.op.src) && IsDeferred(ev.op.dst))
      || (&& ev.cause.ByReplay? && WellFormed(ev.cause.visited)
          && ev.op == Rename(Filename(ev.cause.visited), ManualClearFilename(ev.cause.visited)))
  }

  lemma VisitRenames(e: DeferEntry, a: Answer, k: nat)
    requires WellFormed(e) && k < |VisitEvents(e, a)|
    ensures k == 0 ==> !VisitEvents(e, a)[k].FileEvent?
    ensures k > 0 ==> RenameShape(VisitEvents(e, a)[k - 1], VisitEvents(e, a)[k])
  {
    hide Filename, TmpName, ManualClearFilename, WellFormed, Exhausted, Extension, FateOf;
    ScratchIsHidden(Bumped(e), a.nanos);
    FilenameExtensions(Bumped(e), a.nanos);
  }

  lemma {:induction false} VisitsRenames(entries: seq<DeferEntry>, answers: seq<Answer>, n: nat, k: nat)
    requires n <= |entries| && n <= |answers| && k < |VisitsEvents(entries, answers, n)|
    requires forall i :: 0 <= i < n ==> WellFormed(entries[i])
    ensures var evs := VisitsEvents(entries, answers, n);
            if k == 0 then !evs[k].FileEvent? else RenameShape(evs[k - 1], evs[k])
  {
    hide VisitEvents, RenameShape, WellFormed;
    var before := VisitsEvents(entries, answers, n - 1);
    if k < |before| {
      VisitsRenames(entries, answers, n - 1, k);
    } else {
      VisitRenames(entries[n - 1], answers[n - 1], k - |before|);
      if k == |before| && k > 0 { NoRenameThere(before[k - 1], VisitEvents(entries[n - 1], answers[n - 1])[0]); }
    }
  }

  lemma NoRenameThere(prev: Event, ev: Event)
    requires ev.FileEvent? ==> !ev.op.Rename?
    ensures RenameShape(prev, ev)
  {
  }

  lemma {:induction false} CallRenames(d: Dir, c: Call, k: nat)
    requires Good(d) && WellFormedCall(c) && k < |CallEvents(d, c)|
    ensures var evs := CallEvents(d, c);
            if k == 0 then evs[k].FileEvent? ==> !evs[k].op.Rename? else RenameShape(evs[k - 1], evs[k])
  {
    hide Listing, VictimsIn, Duplicate, Dominated, AnyThere, VisitsEvents, RenameShape, Filename, TmpName, WellFormed;
    var evs := CallEvents(d, c);
    match c {
      case EnqueueCall(e, nanos) =>
        EnqueueRenameShape(d, e, nanos, k);
      case ReplayCall(answers) =>
        ListedIsWellFormed(d);
        VisitsRenames(Listing(d), answers, Reached(|Listing(d)|, answers), k);
    }
  }

  lemma ListedIsWellFormed(d: Dir)
    requires Good(d)
    ensures forall i :: 0 <= i < |Listing(d)| ==> WellFormed(Listing(d)[i])
  {
    hide Listing, WellFormed, Filename, Pending;
    ListingIsPending(d);
  }

  lemma {:induction false} EnqueueRenameShape(d: Dir, e: DeferEntry, nanos: nat, k: nat)
    requires k < |EnqueueEvents(d, e, nanos)|
    ensures var evs := EnqueueEvents(d, e, nanos);
            if k == 0 then evs[k].FileEvent? && !evs[k].op.Rename? else RenameShape(evs[k - 1], evs[k])
  {
    hide EnqueueEvents, Duplicate, Dominated, VictimsIn, Filename, TmpName, Prelude, Extension, WellFormed;
    assert !Duplicate(d, e) && !Dominated(d, e) by { EnqueueRun(d, e, nanos, 0); }
    EnqueueShape(d, e, nanos);
    ScratchIsHidden(e, nanos);
    FilenameExtensions(e, nanos);
  }

  /** Promotion gives a record the name of its request. */
  lemma {:induction false} PromotionKeepsNames(d: Dir, e: DeferEntry)
    requires Good(d) && PromotedNamed(d) && WellFormed(e)
    ensures PromotedNamed(Do(d, Rename(Filename(e), ManualClearFilename(e))))
  {
    hide Filename, ManualClearFilename, WellFormed, Extension, Antichain;
    var n := Filename(e);
    FilenameExtensions(e, 0);
    if n in d && d[n].Record? {
      assert n in Pending(d);
      FilenameIsId(d[n].entry, e);
      ManualNameIsId(d[n].entry, e);
    }
  }

  lemma {:induction false} EventKeepsPromoted(d: Dir, s: State)
    requires Consistent(d, s) && s.agent.Busy? && s.agent.done < |CallEvents(s.agent.start, s.agent.call)|
    requires PromotedNamed(s.files)
    ensures PromotedNamed(Effect(s.files, CallEvents(s.agent.start, s.agent.call)[s.agent.done]))
  {
    hide Good, Torn, CallEvents, WellFormed, Effects, Filename, ManualClearFilename, Extension, Part, EndsWith,
         ByAgent, Undisturbed;
    var a := s.agent;
    var evs := CallEvents(a.start, a.call);
    CallRenames(a.start, a.call, a.done);
    AgentCauses(a.start, a.call, a.done);
    var ev := evs[a.done];
    if ev.FileEvent? && ev.op.Rename? && ev.cause.ByReplay? && WellFormed(ev.cause.visited)
       && ev.op == Rename(Filename(ev.cause.visited), ManualClearFilename(ev.cause.visited)) {
      PromotionKeepsNames(s.files, ev.cause.visited);
    }
  }

  lemma MoveKeepsPromoted(d: Dir, s: State, m: Move)
    requires Consistent(d, s) && PromotedNamed(s.files)
    ensures PromotedNamed(Next(s, m).files)
  {
    hide CallEvents, Fails, Effect, WellFormed, ManualClearFilename, Consistent, IsManualClear, Clearable;
    if m.Advance? && s.agent.Busy? && s.agent.done < |CallEvents(s.agent.start, s.agent.call)| {
      EventKeepsPromoted(d, s);
    }
  }

  lemma {:induction false} AlwaysPromotedNamed(d: Dir, ms: seq<Move>)
    requires Good(d) && PromotedNamed(d) && WellFormedMoves(ms)
    ensures PromotedNamed(After(Initially(d), ms).files)
  {
    hide Good, Consistent, Next, WellFormedMove, PromotedNamed;
    if ms != [] {
      AlwaysPromotedNamed(d, ms[..|ms| - 1]);
      AlwaysConsistent(d, ms[..|ms| - 1]);
      MoveKeepsPromoted(d, After(Initially(d), ms[..|ms| - 1]), ms[|ms| - 1]);
    }
  }

  /**
   After every move of every run: complete records under their own names, pending and promoted, none
   redundant, at most one of the restart family per unit, no visible file torn; and in the middle of a call
   nothing is there that the call alone would not have left.
   */
  lemma RunStaysGood(d: Dir, ms: seq<Move>)
    requires Good(d) && WellFormedMoves(ms)
    ensures var s := After(Initially(d), ms);
            && Good(s.files) && Torn(s.files) <= Torn(d) && s.files == Effects(d, s.trace)
            && OnePerUnit(Pending(s.files)) && (PromotedNamed(d) ==> PromotedNamed(s.files))
            && (s.agent.Busy? ==>
                  && s.agent.done <= |CallEvents(s.agent.start, s.agent.call)|
                  && Part(s.files, Undisturbed(s.agent)))
  {
    hide Valid, Antichain, Torn, After, WellFormedMoves, Initially, PromotedNamed, OnePerUnit, Pending;
    AlwaysConsistent(d, ms);
    IrredundantIsOnePerUnit(Pending(After(Initially(d), ms).files));
    if PromotedNamed(d) { AlwaysPromotedNamed(d, ms); }
  }

  // ---------------------------------------------------------------- departures

  /** The process's last events: the entry was dispatched and its health check, if any, passed. */
  ghost predicate JustSucceeded(past: seq<Event>, e: DeferEntry) {
    EndsWith(past, if e.healthCheck.None? then [Dispatched(e, DispatchOk)]
                   else [Dispatched(e, DispatchOk), Checked(e, HealthOk)])
  }

  /** The process's last events: the dispatch or the health check failed and the attempt was written down. */
  ghost predicate JustFailed(past: seq<Event>, e: DeferEntry) {
    exists nanos: nat ::
      || EndsWith(past, [Dispatched(e, ActionFailed)] + AtomicWriteEvents(Bumped(e), nanos, ByReplay(e)))
      || EndsWith(past, [Dispatched(e, DispatchOk), Checked(e, HealthFailed)]
                        + AtomicWriteEvents(Bumped(e), nanos, ByReplay(e)))
  }

  /** The four reasons for which the record `n` may disappear from the pending files. */
  ghost predicate Justified(now: Dir, past: seq<Event>, ev: Event, n: string) {
    && ev.FileEvent? && n in Pending(now)
    && match ev.cause
       case ByEnqueue(e) =>
         ev.op == Unlink(n) && SameTarget(e, Pending(now)[n]) && Subsumes(e.action, Pending(now)[n].action)
       case ByReplay(e) =>
         || (ev.op == Unlink(n) && Pending(now)[n] == e && JustSucceeded(past, e))
         || (&& ev.op == Rename(n, ManualClearFilename(e)) && Pending(now)[n] == Bumped(e)
             && Exhausted(e) && JustFailed(past, e)
             && ManualClearFilename(e) in Effect(now, ev)
             && Effect(now, ev)[ManualClearFilename(e)] == Record(Bumped(e)))
       case ByOperator => ev.op == Unlink(n)
  }

  ghost predicate Leaves(d: Dir, evs: seq<Event>, i: nat, n: string)
    requires i < |evs|
  {
    n in Pending(Effects(d, evs[..i])) && n !in Pending(Effects(d, evs[..i + 1]))
  }

  ghost predicate AllJustified(d: Dir, evs: seq<Event>) {
    forall i: nat, n :: i < |evs| && Leaves(d, evs, i, n) ==>
      Justified(Effects(d, evs[..i]), ByAgent(evs[..i]), evs[i], n)
  }

  lemma EndsWithLonger(a: seq<Event>, b: seq<Event>, tail: seq<Event>)
    requires EndsWith(b, tail)
    ensures EndsWith(a + b, tail)
  {
  }

  lemma EndsWithTrans(evs: seq<Event>, b: seq<Event>, tail: seq<Event>)
    requires EndsWith(evs, b) && EndsWith(b, tail)
    ensures EndsWith(evs, tail)
  {
    assert evs == evs[..|evs| - |b|] + b;
    EndsWithLonger(evs[..|evs| - |b|], b, tail);
  }

  /** What justified a departure still does when more is known of the past. */
  lemma JustifiedByMore(now: Dir, past: seq<Event>, more: seq<Event>, ev: Event, n: string)
    requires Justified(now, past, ev, n) && EndsWith(more, past)
    ensures Justified(now, more, ev, n)
  {
    hide Filename, ManualClearFilename, Pending, Effect, EndsWith, AtomicWriteEvents, Exhausted, Bumped, Subsumes;
    if ev.cause.ByReplay? {
      var e := ev.cause.visited;
      if JustSucceeded(past, e) {
        EndsWithTrans(more, past, if e.healthCheck.None? then [Dispatched(e, DispatchOk)]
                                  else [Dispatched(e, DispatchOk), Checked(e, HealthOk)]);
      }
      if JustFailed(past, e) {
        var nanos: nat :|
          || EndsWith(past, [Dispatched(e, ActionFailed)] + AtomicWriteEvents(Bumped(e), nanos, ByReplay(e)))
          || EndsWith(past, [Dispatched(e, DispatchOk), Checked(e, HealthFailed)]
                            + AtomicWriteEvents(Bumped(e), nanos, ByReplay(e)));
        var write := AtomicWriteEvents(Bumped(e), nanos, ByReplay(e));
        if EndsWith(past, [Dispatched(e, ActionFailed)] + write) {
          EndsWithTrans(more, past, [Dispatched(e, ActionFailed)] + write);
        } else {
          EndsWithTrans(more, past, [Dispatched(e, DispatchOk), Checked(e, HealthFailed)] + write);
        }
      }
    }
  }

  lemma EndsWithItself(evs: seq<Event>)
    ensures EndsWith(evs, evs)
  {
  }

  /** Nothing disappears while the outside world is asked. */
  lemma VisitIndex(d: Dir, e: DeferEntry, a: Answer, i: nat)
    requires i <= |VisitEvents(e, a)|
    ensures Effects(d, VisitEvents(e, a)[..i]) ==
            if i < |Asked(e, a)| then d else Effects(d, Reaction(e, a)[..i - |Asked(e, a)|])
  {
    hide Reaction, Effects;
    VisitRun(d, e, a, i);
  }

  /** A visit of a record that is as dispatched justifies every departure. */
  lemma VisitDeparture(d: Dir, e: DeferEntry, a: Answer, i: nat, n: string)
    requires Filename(e) in Pending(d) && Pending(d)[Filename(e)] == e
    requires i < |VisitEvents(e, a)| && Leaves(d, VisitEvents(e, a), i, n)
    ensures Justified(Effects(d, VisitEvents(e, a)[..i]), VisitEvents(e, a)[..i], VisitEvents(e, a)[i], n)
  {
    hide Filename, ManualClearFilename, Pending, Effects, FailEvents, RemoveEvents, Exhausted, Bumped, Justified;
    var evs := VisitEvents(e, a);
    VisitIndex(d, e, a, i);
    VisitIndex(d, e, a, i + 1);
    EmptyRun(d, [], []);
    assert Reaction(e, a)[..0] == [];
    if i >= |Asked(e, a)| {
      var j := i - |Asked(e, a)|;
      assert evs[i] == Reaction(e, a)[j];
      assert evs[..i] == Asked(e, a) + Reaction(e, a)[..j];
      match FateOf(e, a) {
        case Executed =>
          RemovalIsJustified(d, e, a, j, n);
          assert evs[..i] == Asked(e, a);
        case Failed | HealthCheckFailed | Promoted =>
          PromotionIsJustified(d, e, a, j, n);
        case _ =>
      }
    }
  }

  lemma RemovalIsJustified(d: Dir, e: DeferEntry, a: Answer, j: nat, n: string)
    requires FateOf(e, a).Executed? && j < |RemoveEvents(e)|
    requires Filename(e) in Pending(d) && Pending(d)[Filename(e)] == e
    requires n in Pending(Effects(d, RemoveEvents(e)[..j])) && n !in Pending(Effects(d, RemoveEvents(e)[..j + 1]))
    ensures j == 0 && Justified(Effects(d, RemoveEvents(e)[..j]), Asked(e, a), RemoveEvents(e)[j], n)
  {
    hide Filename, Pending, Exhausted, Bumped;
    RemoveAtEveryPoint(d, e, j);
    RemoveAtEveryPoint(d, e, j + 1);
    assert j == 0 && n == Filename(e);
    assert RemoveEvents(e)[..0] == [];
    EndsWithItself(Asked(e, a));
    assert JustSucceeded(Asked(e, a), e);
  }

  /** In a failed attempt a record disappears only by promotion, and then its counted form is kept. */
  lemma PromotionIsJustified(d: Dir, e: DeferEntry, a: Answer, j: nat, n: string)
    requires FateOf(e, a).Failed? || FateOf(e, a).HealthCheckFailed? || FateOf(e, a).Promoted?
    requires j < |FailEvents(e, a.nanos)|
    requires var evs := FailEvents(e, a.nanos);
             n in Pending(Effects(d, evs[..j])) && n !in Pending(Effects(d, evs[..j + 1]))
    ensures var evs := FailEvents(e, a.nanos);
            Justified(Effects(d, evs[..j]), Asked(e, a) + evs[..j], evs[j], n)
  {
    hide Filename, ManualClearFilename, Pending, Torn, Exhausted, Bumped, AtomicWriteEvents, Extension, EndsWith,
         Effects;
    var evs := FailEvents(e, a.nanos);
    FailLength(e, a.nanos);
    FailAtEveryPoint(d, e, a.nanos, j);
    FailAtEveryPoint(d, e, a.nanos, j + 1);
    AtomicWriteLength(Bumped(e), a.nanos, ByReplay(e));
    EffectsStep(d, evs, j);
    assert j == 4 && n == Filename(e);
    var write := AtomicWriteEvents(Bumped(e), a.nanos, ByReplay(e));
    assert evs[..4] == write && evs[4] == PromoteEvents(e)[0];
    EndsWithItself(Asked(e, a) + write);
    assert JustFailed(Asked(e, a) + evs[..j], e);
    FilenameExtensions(e, 0);
    RetireEffect(Effects(d, evs[..4]), Filename(e), ManualClearFilename(e));
  }

  lemma {:induction false} VisitsDeparture(d: Dir, entries: seq<DeferEntry>, answers: seq<Answer>, i: nat, k: nat,
                                           n: string)
    requires i <= |entries| && i <= |answers| && Snapshot(Pending(d), entries)
    requires k < |VisitsEvents(entries, answers, i)| && Leaves(d, VisitsEvents(entries, answers, i), k, n)
    ensures var evs := VisitsEvents(entries, answers, i); Justified(Effects(d, evs[..k]), evs[..k], evs[k], n)
  {
    hide VisitEvents, Justified, Effects, Snapshot, Pending, EndsWith;
    var before := VisitsEvents(entries, answers, i - 1);
    var now := VisitEvents(entries[i - 1], answers[i - 1]);
    var all := VisitsEvents(entries, answers, i);
    assert all == before + now;
    if k < |before| {
      assert all[..k] == before[..k] && all[..k + 1] == before[..k + 1] && all[k] == before[k];
      VisitsDeparture(d, entries, answers, i - 1, k, n);
    } else {
      var j := k - |before|;
      assert all[..k] == before + now[..j] && all[..k + 1] == before + now[..j + 1] && all[k] == now[j];
      EffectsConcat(d, before, now[..j]);
      EffectsConcat(d, before, now[..j + 1]);
      FirstVisit(d, entries, answers, i - 1);
      VisitDeparture(Effects(d, before), entries[i - 1], answers[i - 1], j, n);
      EndsWithItself(now[..j]);
      EndsWithLonger(before, now[..j], now[..j]);
      JustifiedByMore(Effects(d, all[..k]), now[..j], all[..k], all[k], n);
    }
  }

  lemma {:induction false} EnqueueDeparture(d: Dir, e: DeferEntry, nanos: nat, i: nat, n: string)
    requires Good(d) && WellFormed(e)
    requires i < |EnqueueEvents(d, e, nanos)| && Leaves(d, EnqueueEvents(d, e, nanos), i, n)
    ensures var evs := EnqueueEvents(d, e, nanos); Justified(Effects(d, evs[..i]), evs[..i], evs[i], n)
    ensures !Duplicate(d, e) && !Dominated(d, e) && i < |VictimsIn(d, e)|
  {
    hide Filename, Pending, Effects, WellFormed, Good, VictimsIn, AtomicWriteEvents, Duplicate, Dominated, AnyThere,
         Subsumes;
    EnqueueAtEveryPoint(d, e, nanos, i);
    EnqueueAtEveryPoint(d, e, nanos, i + 1);
    VictimsAreRedundant(d, e);
    var vs := VictimsIn(d, e);
    assert i < |vs|;
    NamesOfSnoc(vs, i);
    assert n == Filename(vs[i]) && vs[i] in vs;
    assert EnqueueEvents(d, e, nanos)[i] == FileEvent(Unlink(n), ByEnqueue(e));
  }

  /** Every departure in a call that nothing disturbs is justified. */
  lemma CallDeparture(d: Dir, c: Call, k: nat, n: string)
    requires Good(d) && WellFormedCall(c) && k < |CallEvents(d, c)| && Leaves(d, CallEvents(d, c), k, n)
    ensures var evs := CallEvents(d, c); Justified(Effects(d, evs[..k]), evs[..k], evs[k], n)
  {
    hide Leaves, Justified, Good, WellFormed, EnqueueEvents, VisitsEvents, Effects, Snapshot;
    match c {
      case EnqueueCall(e, nanos) => EnqueueDeparture(d, e, nanos, k, n);
      case ReplayCall(answers) =>
        ListingIsSnapshot(d);
        VisitsDeparture(d, Listing(d), answers, Reached(|Listing(d)|, answers), k, n);
    }
  }

  /** A departure from the whole for a reason is one from a part of it for the same reason. */
  lemma JustifiedInPart(d: Dir, whole: Dir, past: seq<Event>, ev: Event, n: string)
    requires Part(d, whole) && !Fails(d, ev) && n in Pending(d) && Justified(whole, past, ev, n)
    ensures Justified(d, past, ev, n)
  {
    hide ManualClearFilename, Pending, Clearable, Effect, JustSucceeded, JustFailed, Bumped, Exhausted, Subsumes;
    PartVisible(d, whole);
    PartStep(d, whole, ev);
  }

  /** What leaves when the process advances, leaves for a reason. */
  lemma {:induction false} AdvanceDeparture(d: Dir, s: State, n: string)
    requires Consistent(d, s) && s.agent.Busy? && s.agent.done < |CallEvents(s.agent.start, s.agent.call)|
    requires var ev := CallEvents(s.agent.start, s.agent.call)[s.agent.done];
             !Fails(s.files, ev) && n in Pending(s.files) && n !in Pending(Effect(s.files, ev))
    ensures Leaves(s.agent.start, CallEvents(s.agent.start, s.agent.call), s.agent.done, n)
    ensures Justified(s.files, ByAgent(s.trace), CallEvents(s.agent.start, s.agent.call)[s.agent.done], n)
  {
    hide Good, Torn, CallEvents, WellFormedCall, Effect, Fails, Part, ByAgent, EndsWith, Justified, Effects, Pending;
    var a := s.agent;
    var evs := CallEvents(a.start, a.call);
    var ev, whole := evs[a.done], Undisturbed(a);
    EffectsStep(a.start, evs, a.done);
    PartStep(s.files, whole, ev);
    PartVisible(s.files, whole);
    PartVisible(Effect(s.files, ev), Effect(whole, ev));
    PendingIsThere(s.files, n);
    if n in Pending(Effect(whole, ev)) { PendingIsThere(Effect(whole, ev), n); }
    CallDeparture(a.start, a.call, a.done, n);
    JustifiedByMore(whole, evs[..a.done], ByAgent(s.trace), ev, n);
    JustifiedInPart(s.files, whole, ByAgent(s.trace), ev, n);
  }

  lemma PendingIsThere(d: Dir, n: string)
    requires n in Pending(d)
    ensures n in d && IsDeferred(n)
  {
  }

  lemma LeavesEarlier(d: Dir, trace: seq<Event>, ev: Event, i: nat, n: string)
    requires i < |trace|
    ensures Leaves(d, trace + [ev], i, n) <==> Leaves(d, trace, i, n)
    ensures (trace + [ev])[..i] == trace[..i] && (trace + [ev])[i] == trace[i]
  {
    hide Pending, Effects;
    assert (trace + [ev])[..i] == trace[..i] && (trace + [ev])[..i + 1] == trace[..i + 1];
  }

  lemma LeavesLast(d: Dir, trace: seq<Event>, ev: Event, n: string)
    ensures Leaves(d, trace + [ev], |trace|, n) <==>
            n in Pending(Effects(d, trace)) && n !in Pending(Effect(Effects(d, trace), ev))
    ensures (trace + [ev])[..|trace|] == trace && (trace + [ev])[|trace|] == ev
  {
    hide Pending, Effect, Effects;
    TraceGrows(d, trace, ev);
    assert (trace + [ev])[..|trace| + 1] == trace + [ev];
  }

  lemma JustifiedSnoc(d: Dir, trace: seq<Event>, ev: Event)
    requires AllJustified(d, trace)
    requires var now := Effects(d, trace);
             forall n :: n in Pending(now) && n !in Pending(Effect(now, ev)) ==> Justified(now, ByAgent(trace), ev, n)
    ensures AllJustified(d, trace + [ev])
  {
    hide Pending, Effect, Justified, ByAgent, Effects, Leaves;
    var longer := trace + [ev];
    forall i: nat, n | i < |longer| && Leaves(d, longer, i, n)
      ensures Justified(Effects(d, longer[..i]), ByAgent(longer[..i]), longer[i], n)
    {
      if i < |trace| {
        LeavesEarlier(d, trace, ev, i, n);
      } else {
        LeavesLast(d, trace, ev, n);
      }
    }
  }

  /** The event that a move adds to the trace, if any. */
  lemma MoveIsJustified(d: Dir, s: State, m: Move)
    requires Consistent(d, s) && AllJustified(d, s.trace)
    ensures AllJustified(d, Next(s, m).trace)
  {
    hide AllJustified, CallEvents, Effect, Fails, Effects, Justified, Pending, Clearable, CallGoesOn;
    match m {
      case Advance =>
        if s.agent.Busy? {
          var evs := CallEvents(s.agent.start, s.agent.call);
          if s.agent.done < |evs| && !Fails(s.files, evs[s.agent.done]) {
            forall n | n in Pending(s.files) && n !in Pending(Effect(s.files, evs[s.agent.done]))
              ensures Justified(s.files, ByAgent(s.trace), evs[s.agent.done], n)
            {
              AdvanceDeparture(d, s, n);
            }
            JustifiedSnoc(d, s.trace, evs[s.agent.done]);
          }
        }
      case Clear(n) =>
        if n in s.files && Clearable(n) {
          ClearIsJustified(s.files, ByAgent(s.trace), n);
          JustifiedSnoc(d, s.trace, FileEvent(Unlink(n), ByOperator));
        }
      case _ =>
    }
  }

  lemma ClearIsJustified(d: Dir, past: seq<Event>, n: string)
    ensures var ev := FileEvent(Unlink(n), ByOperator);
            forall x :: x in Pending(d) && x !in Pending(Effect(d, ev)) ==> x == n && Justified(d, past, ev, x)
  {
    hide Pending;
    UnlinkEffect(d, n);
  }

  /**
   At-least-once: in every run, wherever the process dies and whenever an operator steps in, a record
   stops being pending only when this very record was just dispatched and its health check passed, when
   it moved to manual clear right after its last failed attempt, when a stronger request for its target
   displaced it, or when an operator cleared it.
   */
  lemma {:induction false} EveryDepartureIsJustified(d: Dir, ms: seq<Move>)
    requires Good(d) && WellFormedMoves(ms)
    ensures AllJustified(d, After(Initially(d), ms).trace)
  {
    hide Good, Consistent, Next, Leaves, Justified, WellFormedMove;
    if ms != [] {
      EveryDepartureIsJustified(d, ms[..|ms| - 1]);
      AlwaysConsistent(d, ms[..|ms| - 1]);
      MoveIsJustified(d, After(Initially(d), ms[..|ms| - 1]), ms[|ms| - 1]);
    }
  }

  // ---------------------------------------------------------------- no request is lost

  /** An enqueue is between the first unlink of redundant records and the rename that replaces them. */
  ghost predicate InWindow(d: Dir, e: DeferEntry, k: nat) {
    && !Duplicate(d, e) && !Dominated(d, e)
    && VictimsIn(d, e) != [] && 1 <= k < Prelude(d, e) + 3
  }

  /** The request `r` is in the hands of an enqueue that replaces what stood for it. */
  ghost predicate InFlight(a: Agent, r: DeferEntry) {
    && a.Busy? && a.call.EnqueueCall?
    && InWindow(a.start, a.call.request, a.done)
    && SameTarget(a.call.request, r) && Subsumes(a.call.request.action, r.action)
  }

  /** At event `i` the record `n`, which stood for `r`, left the queue other than by being displaced. */
  ghost predicate DischargedBy(d: Dir, evs: seq<Event>, i: nat, n: string, r: DeferEntry)
    requires i < |evs|
  {
    && Leaves(d, evs, i, n) && Justified(Effects(d, evs[..i]), ByAgent(evs[..i]), evs[i], n)
    && Covers(Pending(Effects(d, evs[..i]))[n], r) && !evs[i].cause.ByEnqueue?
  }

  /**
   Since event `from` a record that stood for `r` was executed, promoted to manual clear or cleared by an
   operator.
   */
  ghost predicate Discharged(d: Dir, evs: seq<Event>, from: nat, r: DeferEntry) {
    exists i: nat, n :: from <= i < |evs| && DischargedBy(d, evs, i, n, r)
  }

  /** The request is covered, in flight, or was discharged since event `from`. */
  ghost predicate Held(d: Dir, s: State, from: nat, r: DeferEntry) {
    Covered(Pending(s.files), r) || InFlight(s.agent, r) || Discharged(d, s.trace, from, r)
  }

  /** The process never dies while it holds `r` in its hands; enqueues for other units do not matter. */
  ghost predicate NeverDiesInFlight(s: State, ms: seq<Move>, r: DeferEntry) {
    forall i :: 0 <= i < |ms| && ms[i].Crash? ==> !InFlight(After(s, ms[..i]).agent, r)
  }

  /** An accepted request is covered as soon as its enqueue returns. */
  lemma EnqueuedIsCovered(d: Dir, e: DeferEntry, nanos: nat)
    requires Good(d) && WellFormed(e)
    ensures Covered(Pending(Effects(d, EnqueueEvents(d, e, nanos))), e)
  {
    hide Filename, WellFormed, Pending, EnqueueEvents;
    EnqueueRefinesAccept(d, e, nanos);
    var p := Pending(d);
    if Filename(e) in p {
      FilenameIsId(p[Filename(e)], e);
      assert Covers(p[Filename(e)], e);
    } else if HasStronger(p, e) {
      var n :| n in p && SameTarget(p[n], e) && Subsumes(p[n].action, e.action);
      assert Covers(p[n], e);
    } else {
      assert Covers(Accept(p, e)[Filename(e)], e);
    }
  }

  /**
   Exactly when an interrupted enqueue forgets something: every record that was pending is still
   stood for, if and only if the call does not stop in the window.
   */
  lemma {:induction false} EnqueueForgetsExactlyInWindow(d: Dir, e: DeferEntry, nanos: nat, k: nat)
    requires Good(d) && WellFormed(e) && k <= |EnqueueEvents(d, e, nanos)|
    ensures (forall m :: m in Pending(d) ==>
               Covered(Pending(Effects(d, EnqueueEvents(d, e, nanos)[..k])), Pending(d)[m]))
            <==> !InWindow(d, e, k)
  {
    hide Filename, WellFormed, Pending, EnqueueEvents, Effects, VictimsIn, Antichain, Duplicate, Dominated, Valid;
    var p, p' := Pending(d), Pending(Effects(d, EnqueueEvents(d, e, nanos)[..k]));
    EnqueueAtEveryPoint(d, e, nanos, k);
    VictimsAreRedundant(d, e);
    if InWindow(d, e, k) {
      ForgottenVictim(d, e, nanos, k);
    } else {
      forall m | m in p
        ensures Covered(p', p[m])
      {
        KeptOrReplaced(d, e, nanos, k, m);
      }
    }
  }

  lemma {:induction false} KeptOrReplaced(d: Dir, e: DeferEntry, nanos: nat, k: nat, m: string)
    requires Good(d) && WellFormed(e) && k <= |EnqueueEvents(d, e, nanos)| && m in Pending(d)
    requires !InWindow(d, e, k)
    ensures var p' := Pending(Effects(d, EnqueueEvents(d, e, nanos)[..k]));
            exists n :: n in p' && Covers(p'[n], Pending(d)[m]) && WellFormed(p'[n])
  {
    hide Filename, WellFormed, Pending, EnqueueEvents, Effects, VictimsIn, Antichain, Duplicate, Dominated;
    var p, p' := Pending(d), Pending(Effects(d, EnqueueEvents(d, e, nanos)[..k]));
    EnqueueAtEveryPoint(d, e, nanos, k);
    VictimsAreRedundant(d, e);
    DuplicateIsVisible(d, e);
    assert k == 0 ==> NamesOf(VictimsIn(d, e)[..k]) == {};
    if m in p' {
      assert Covers(p'[m], p[m]);
    } else {
      assert Covers(p'[Filename(e)], p[m]);
    }
  }

  lemma ForgottenVictim(d: Dir, e: DeferEntry, nanos: nat, k: nat)
    requires Good(d) && WellFormed(e) && k <= |EnqueueEvents(d, e, nanos)| && InWindow(d, e, k)
    ensures exists m :: && m in Pending(d)
                        && !Covered(Pending(Effects(d, EnqueueEvents(d, e, nanos)[..k])), Pending(d)[m])
  {
    hide Filename, WellFormed, Pending, EnqueueEvents, Effects, VictimsIn, Duplicate, Dominated;
    var p, p' := Pending(d), Pending(Effects(d, EnqueueEvents(d, e, nanos)[..k]));
    EnqueueAtEveryPoint(d, e, nanos, k);
    VictimsAreRedundant(d, e);
    var vs := VictimsIn(d, e);
    var m := Filename(vs[0]);
    assert vs[0] in vs;
    var gone := if k <= |vs| then vs[..k] else vs;
    assert gone[0] == vs[0] && m in NamesOf(gone);
    assert p' == p - NamesOf(gone);
    forall n | n in p'
      ensures !Covers(p'[n], p[m])
    {
      FilenameIsId(p[n], p[m]);
    }
  }

  lemma DischargedLonger(d: Dir, trace: seq<Event>, ev: Event, from: nat, r: DeferEntry)
    requires Discharged(d, trace, from, r)
    ensures Discharged(d, trace + [ev], from, r)
  {
    hide Pending, Effects, Covers, Leaves, Justified, ByAgent;
    var i: nat, n :| from <= i < |trace| && DischargedBy(d, trace, i, n, r);
    LeavesEarlier(d, trace, ev, i, n);
    assert DischargedBy(d, trace + [ev], i, n, r);
  }

  lemma LeftIsDischarged(d: Dir, trace: seq<Event>, ev: Event, n: string, from: nat, r: DeferEntry)
    requires from <= |trace|
    requires var now := Effects(d, trace);
             && n in Pending(now) && n !in Pending(Effect(now, ev)) && Covers(Pending(now)[n], r)
             && Justified(now, ByAgent(trace), ev, n) && !ev.cause.ByEnqueue?
    ensures Discharged(d, trace + [ev], from, r)
  {
    hide Pending, Effects, Effect, Covers, Leaves, Justified, ByAgent;
    LeavesLast(d, trace, ev, n);
    assert DischargedBy(d, trace + [ev], |trace|, n, r);
  }

  /** A name stands for one request, whatever record it holds. */
  lemma StillCovers(p: Visible, q: Visible, n: string, r: DeferEntry)
    requires Valid(p) && Valid(q) && WellFormed(r) && n in p && n in q && Covers(p[n], r)
    ensures Covered(q, r)
  {
    hide Filename, WellFormed;
    FilenameIsId(q[n], p[n]);
    CoversTransitive(q[n], p[n], r);
  }

  /** A request that displaces a record takes over everything that the record stood for. */
  lemma TakesOver(e: DeferEntry, x: DeferEntry, r: DeferEntry)
    requires WellFormed(x) && WellFormed(r) && Covers(x, r)
    requires SameTarget(e, x) && Subsumes(e.action, x.action)
    ensures SameTarget(e, r) && Subsumes(e.action, r.action)
  {
    hide WellFormed;
    if x.id == r.id {
      IdDetermines(x, r);
      KindDecidesSubsumption(x.action, r.action, e.action);
    }
  }

  /** The events of an enqueue that writes: unlinks and a sync, then the atomic write. */
  lemma EnqueueShape(d: Dir, e: DeferEntry, nanos: nat)
    requires !Duplicate(d, e) && !Dominated(d, e)
    ensures var evs, k := EnqueueEvents(d, e, nanos), Prelude(d, e);
            && |evs| == k + 4
            && (forall i :: 0 <= i < k + 2 ==> evs[i].FileEvent? && !evs[i].op.Rename?)
            && evs[k + 1] == FileEvent(Fill(TmpName(e, nanos), e), ByEnqueue(e))
            && evs[k + 2] == FileEvent(Rename(TmpName(e, nanos), Filename(e)), ByEnqueue(e))
            && evs[k + 3] == FileEvent(SyncDir, ByEnqueue(e))
  {
    hide Filename, TmpName, VictimsIn, Duplicate, Dominated, AnyThere;
    var pre, write := ReplaceEvents(d, e), AtomicWriteEvents(e, nanos, ByEnqueue(e));
    assert |pre| == Prelude(d, e);
    assert EnqueueEvents(d, e, nanos) == pre + write;
  }

  /** The rename of an enqueue finds its scratch file, which no operator clears, and publishes the request. */
  lemma {:induction false} Publishes(d: Dir, s: State)
    requires Consistent(d, s) && s.agent.Busy? && s.agent.call.EnqueueCall?
    requires var e := s.agent.call.request;
             !Duplicate(s.agent.start, e) && !Dominated(s.agent.start, e)
               && s.agent.done == Prelude(s.agent.start, e) + 2
    ensures var e := s.agent.call.request;
            Filename(e) in Pending(Advanced(s).files) && Pending(Advanced(s).files)[Filename(e)] == e
    ensures Advanced(s).agent == s.agent.(done := s.agent.done + 1)
  {
    hide Good, Torn, EnqueueEvents, WellFormed, ByAgent, EndsWith, Filename, TmpName, Extension, Duplicate, Dominated,
         Prelude, Clearable;
    var a := s.agent;
    var e, nanos := a.call.request, a.call.nanos;
    var evs := EnqueueEvents(a.start, e, nanos);
    EnqueueShape(a.start, e, nanos);
    EffectsStep(a.start, evs, a.done - 1);
    ScratchIsHidden(e, nanos);
    assert Undisturbed(a)[TmpName(e, nanos)] == Record(e);
    PartStep(s.files, Undisturbed(a), evs[a.done]);
    FilenameExtensions(e, nanos);
  }

  /** A request in flight stays in flight until the rename covers it. */
  lemma {:induction false} FlightGoesOn(d: Dir, s: State, r: DeferEntry)
    requires Consistent(d, s) && InFlight(s.agent, r)
    ensures Covered(Pending(Advanced(s).files), r) || InFlight(Advanced(s).agent, r)
  {
    hide Good, Torn, EnqueueEvents, WellFormed, ByAgent, EndsWith, Filename, Duplicate, Dominated, Prelude, VictimsIn,
         Pending, Effect, CallGoesOn;
    var a := s.agent;
    EnqueueShape(a.start, a.call.request, a.call.nanos);
    if a.done == Prelude(a.start, a.call.request) + 2 {
      Publishes(d, s);
      assert Covers(Pending(Advanced(s).files)[Filename(a.call.request)], r);
    }
  }

  /** An advancing process keeps a covered request covered, takes it in flight or discharges it. */
  lemma {:induction false} AdvanceHolds(d: Dir, s: State, from: nat, r: DeferEntry)
    requires from <= |s.trace| && Consistent(d, s) && s.agent.Busy? && WellFormed(r) && Covered(Pending(s.files), r)
    ensures Held(d, Advanced(s), from, r)
  {
    hide Good, Torn, CallEvents, WellFormed, Effect, Fails, ByAgent, Justified, Effects, Pending, Discharged,
         InFlight, Covers, CallGoesOn;
    var a := s.agent;
    var evs := CallEvents(a.start, a.call);
    if a.done < |evs| && !Fails(s.files, evs[a.done]) {
      var ev := evs[a.done];
      var n :| n in Pending(s.files) && Covers(Pending(s.files)[n], r);
      GoodIsValid(s.files);
      if n in Pending(Effect(s.files, ev)) {
        AdvanceIsConsistent(d, s);
        GoodIsValid(Advanced(s).files);
        StillCovers(Pending(s.files), Pending(Effect(s.files, ev)), n, r);
      } else {
        AdvanceDeparture(d, s, n);
        JustifiedIsFileEvent(s.files, ByAgent(s.trace), ev, n);
        if ev.cause.ByEnqueue? {
          TakenInFlight(d, s, n, r);
        } else {
          LeftIsDischarged(d, s.trace, ev, n, from, r);
        }
      }
    }
  }

  lemma GoodIsValid(d: Dir)
    requires Good(d)
    ensures Valid(Pending(d))
    ensures forall n :: n in Pending(d) ==> WellFormed(Pending(d)[n])
  {
    hide Pending, WellFormed, Filename;
  }

  lemma JustifiedIsFileEvent(now: Dir, past: seq<Event>, ev: Event, n: string)
    requires Justified(now, past, ev, n)
    ensures ev.FileEvent?
  {
  }

  /** What stood for a request and is displaced leaves the request in the hands of the enqueue. */
  lemma {:induction false} TakenInFlight(d: Dir, s: State, n: string, r: DeferEntry)
    requires Consistent(d, s) && s.agent.Busy? && s.agent.done < |CallEvents(s.agent.start, s.agent.call)|
    requires WellFormed(r) && n in Pending(s.files) && Covers(Pending(s.files)[n], r)
    requires var ev := CallEvents(s.agent.start, s.agent.call)[s.agent.done];
             && !Fails(s.files, ev) && n !in Pending(Effect(s.files, ev))
             && Justified(s.files, ByAgent(s.trace), ev, n) && ev.cause.ByEnqueue?
    ensures InFlight(Advanced(s).agent, r)
  {
    hide Good, Torn, EnqueueEvents, ReplayEvents, WellFormed, Effect, Fails, ByAgent, Effects, Pending, Covers,
         Leaves, VictimsIn, Duplicate, Dominated, AnyThere, Subsumes, SameTarget, EndsWith, Part;
    var a := s.agent;
    AgentCauses(a.start, a.call, a.done);
    AdvanceDeparture(d, s, n);
    EnqueueDeparture(a.start, a.call.request, a.call.nanos, a.done, n);
    GoodIsValid(s.files);
    TakesOver(a.call.request, Pending(s.files)[n], r);
  }

  lemma TraceOnlyGrows(s: State, m: Move)
    ensures |s.trace| <= |Next(s, m).trace|
  {
    hide CallEvents, Fails, Effect, Clearable;
  }

  lemma {:induction false} MoveHolds(d: Dir, s: State, m: Move, from: nat, r: DeferEntry)
    requires from <= |s.trace| && Consistent(d, s) && WellFormed(r)
    requires Held(d, s, from, r) && !(m.Crash? && InFlight(s.agent, r))
    ensures from <= |Next(s, m).trace| && Held(d, Next(s, m), from, r)
  {
    hide Good, Torn, WellFormed, CallEvents, Effect, Fails, Pending, Discharged, Covered, Clearable, CallGoesOn,
         InWindow, Effects, Advanced;
    TraceOnlyGrows(s, m);
    match m {
      case Begin(_) =>
      case Crash =>
      case Advance =>
        if s.agent.Busy? {
          if Covered(Pending(s.files), r) {
            AdvanceHolds(d, s, from, r);
          } else if InFlight(s.agent, r) {
            FlightGoesOn(d, s, r);
          } else {
            AdvanceKeepsDischarged(d, s, from, r);
          }
        }
      case Clear(n) =>
        if n in s.files && Clearable(n) {
          if Discharged(d, s.trace, from, r) {
            DischargedLonger(d, s.trace, FileEvent(Unlink(n), ByOperator), from, r);
          } else if Covered(Pending(s.files), r) {
            ClearHolds(d, s, n, from, r);
          }
        }
    }
  }

  lemma AdvanceKeepsDischarged(d: Dir, s: State, from: nat, r: DeferEntry)
    requires s.agent.Busy? && Discharged(d, s.trace, from, r)
    ensures Discharged(d, Advanced(s).trace, from, r)
  {
    hide Discharged, CallEvents, Fails, Effect;
    var evs := CallEvents(s.agent.start, s.agent.call);
    if s.agent.done < |evs| { DischargedLonger(d, s.trace, evs[s.agent.done], from, r); }
  }

  lemma ClearHolds(d: Dir, s: State, n: string, from: nat, r: DeferEntry)
    requires from <= |s.trace| && s.files == Effects(d, s.trace)
    requires n in s.files && Clearable(n) && Covered(Pending(s.files), r)
    ensures var s' := Next(s, Clear(n)); Covered(Pending(s'.files), r) || Discharged(d, s'.trace, from, r)
  {
    hide Pending, Discharged, Covers, Justified, Effects, Clearable, ByAgent;
    var ev := FileEvent(Unlink(n), ByOperator);
    var m :| m in Pending(s.files) && Covers(Pending(s.files)[m], r);
    ClearIsJustified(s.files, ByAgent(s.trace), n);
    UnlinkEffect(s.files, n);
    if m == n {
      LeftIsDischarged(d, s.trace, ev, n, from, r);
    } else {
      assert Covers(Pending(s.files - {n})[m], r);
    }
  }

  lemma {:induction false} HeldThrough(d: Dir, s: State, ms: seq<Move>, from: nat, r: DeferEntry)
    requires from <= |s.trace| && Consistent(d, s) && WellFormedMoves(ms) && WellFormed(r)
    requires Held(d, s, from, r) && NeverDiesInFlight(s, ms, r)
    ensures from <= |After(s, ms).trace| && Consistent(d, After(s, ms)) && Held(d, After(s, ms), from, r)
  {
    hide Consistent, WellFormedMove, WellFormed, Held, InFlight, Next;
    if ms != [] {
      var front := ms[..|ms| - 1];
      assert NeverDiesInFlight(s, front, r) by {
        assert forall i :: 0 <= i < |front| ==> front[..i] == ms[..i];
      }
      HeldThrough(d, s, front, from, r);
      MoveHolds(d, After(s, front), ms[|ms| - 1], from, r);
      MoveIsConsistent(d, After(s, front), ms[|ms| - 1]);
    }
  }

  /**
   No request is lost: in every run in which the process does not die with it in its hands, a request
   that is covered at the start is covered, or just being replaced by a stronger one, or a record standing
   for it was executed, promoted to manual clear or cleared by an operator.
   */
  lemma NoRequestIsLost(d: Dir, ms: seq<Move>, r: DeferEntry)
    requires Good(d) && WellFormedMoves(ms) && WellFormed(r)
    requires Covered(Pending(d), r) && NeverDiesInFlight(Initially(d), ms, r)
    ensures Held(d, After(Initially(d), ms), 0, r)
  {
    hide Good, WellFormed, WellFormedMoves, NeverDiesInFlight, Covered, Discharged, InFlight;
    StartIsConsistent(d);
    HeldThrough(d, Initially(d), ms, 0, r);
  }

  /** The enqueue has published its request, or found at its start that it need not. */
  ghost predicate Accepted(a: Agent) {
    && a.Busy? && a.call.EnqueueCall?
    && (Duplicate(a.start, a.call.request) || Dominated(a.start, a.call.request)
        || a.done >= Prelude(a.start, a.call.request) + 3)
  }

  lemma {:induction false} MoveAccepts(d: Dir, s: State, m: Move)
    requires Consistent(d, s) && WellFormedMove(m)
    requires Accepted(s.agent) ==> Held(d, s, s.agent.since, s.agent.call.request)
    ensures var s' := Next(s, m); Accepted(s'.agent) ==> Held(d, s', s'.agent.since, s'.agent.call.request)
  {
    hide Good, Torn, WellFormed, CallEvents, Effect, Fails, Pending, Discharged, Covered, Clearable, InWindow,
         Effects, Duplicate, Dominated, Prelude, Part, EndsWith, ByAgent, Undisturbed;
    if Accepted(s.agent) && !m.Crash? {
      NotInOwnFlight(s.agent);
      MoveHolds(d, s, m, s.agent.since, s.agent.call.request);
    } else if Accepted(Next(s, m).agent) {
      match m {
        case Begin(c) =>
          if s.agent.Idle? {
            AcceptedAtOnce(s.files, c.request, c.nanos);
          }
        case Advance =>
          Publishes(d, s);
          var e := s.agent.call.request;
          CoversItself(Pending(Advanced(s).files), Filename(e), e);
        case _ =>
      }
    }
  }

  lemma NotInOwnFlight(a: Agent)
    requires a.Busy? && a.call.EnqueueCall?
    ensures !InFlight(a, a.call.request)
  {
  }

  lemma CoversItself(p: Visible, n: string, e: DeferEntry)
    requires n in p && p[n] == e
    ensures Covered(p, e)
  {
    assert Covers(p[n], e);
  }

  lemma {:induction false} AcceptedAtOnce(d: Dir, e: DeferEntry, nanos: nat)
    requires Good(d) && WellFormed(e) && (Duplicate(d, e) || Dominated(d, e))
    ensures Covered(Pending(d), e)
  {
    hide Good, WellFormed, Pending, Covered, Duplicate, Dominated, Effects;
    EnqueuedIsCovered(d, e, nanos);
    EmptyRun(d, [], []);
  }

  lemma {:induction false} AcceptedIsHeld(d: Dir, ms: seq<Move>)
    requires Good(d) && WellFormedMoves(ms)
    ensures var s := After(Initially(d), ms); Accepted(s.agent) ==> Held(d, s, s.agent.since, s.agent.call.request)
  {
    hide Good, WellFormedMove, Accepted, Held, Next;
    if ms == [] {
      assert !Accepted(Idle) by { IdleAcceptsNothing(); }
    } else {
      AcceptedIsHeld(d, ms[..|ms| - 1]);
      AlwaysConsistent(d, ms[..|ms| - 1]);
      MoveAccepts(d, After(Initially(d), ms[..|ms| - 1]), ms[|ms| - 1]);
    }
  }

  lemma IdleAcceptsNothing()
    ensures !Accepted(Idle)
  {
  }

  /**
   At-least-once, end to end: a request whose enqueue is about to return stays held through everything
   that follows, replays, clears and crashes included, unless the process dies with it in its hands.
   Only what happened since that enqueue began can discharge it.
   */
  lemma AcceptedRequestIsNotLost(d: Dir, earlier: seq<Move>, later: seq<Move>)
    requires Good(d) && WellFormedMoves(earlier) && WellFormedMoves(later)
    requires var s := After(Initially(d), earlier);
             && s.agent.Busy? && s.agent.call.EnqueueCall?
             && s.agent.done == |CallEvents(s.agent.start, s.agent.call)|
             && NeverDiesInFlight(s, later, s.agent.call.request)
    ensures var s := After(Initially(d), earlier);
            Held(d, After(s, later), s.agent.since, s.agent.call.request)
  {
    hide Good, Torn, WellFormed, WellFormedMoves, NeverDiesInFlight, Held, After, Part, EndsWith, ByAgent,
         Undisturbed, EnqueueEvents, Duplicate, Dominated, Prelude;
    var s := After(Initially(d), earlier);
    AlwaysConsistent(d, earlier);
    AcceptedIsHeld(d, earlier);
    if !Duplicate(s.agent.start, s.agent.call.request) && !Dominated(s.agent.start, s.agent.call.request) {
      EnqueueShape(s.agent.start, s.agent.call.request, s.agent.call.nanos);
    }
    HeldThrough(d, s, later, s.agent.since, s.agent.call.request);
  }
}
