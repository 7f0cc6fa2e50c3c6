/**
 The apply loop: one pass over the topological order with abort, transitive skip, interruption,
 deferral and change recording. Primitives and the pacer are an arbitrary world that answers turn by
 turn.
 */
module Orchestrator {
  import opened Registry

  datatype PrimitiveError =
    | Io | InvalidPayload | ExecFailed | DpkgLocked | ChownNotPermitted | InvalidTarget | Cancelled
    | Panic | ApplyError | RunrUnavailable | SystemdUnavailable | Validation | HealthCheckFailed | DeferIo

  predicate IsDeferrable(e: PrimitiveError) {
    e.DpkgLocked? || e.RunrUnavailable? || e.SystemdUnavailable?
  }

  datatype PlanAnswer = PlanOk(noChange: bool) | PlanErr(error: PrimitiveError)
  datatype ApplyAnswer = ApplyOk(changed: bool, deferred: bool) | ApplyErr(error: PrimitiveError)

  /**
   What happens at one position: whether the pacer sleep completes, what the primitive answers, and
   which ids it records as changed by itself while it applies.
   */
  datatype Turn = Turn(slept: bool, plan: PlanAnswer, apply: ApplyAnswer, records: set<string>)

  datatype Outcome = NoChange | Changed | Failed | Skipped | Deferred | Interrupted

  datatype ApplySummary = ApplySummary(
    changed: nat, noChange: nat, failed: nat, skipped: nat, deferred: nat, interrupted: nat)

  datatype ApplyOpts = ApplyOpts(continueOnError: bool, pacerEnabled: bool)

  /** The calls the loop makes, in order. An apply call sees the ids recorded as changed so far. */
  datatype LogEvent =
    | PlanCall(id: string)
    | MarkDirty(kind: string)
    | ApplyCall(id: string, kind: string, seen: set<string>)

  datatype Setup = Setup(
    view: map<string, Resource>,
    order: seq<string>,
    primitives: set<string>,
    opts: ApplyOpts,
    world: nat -> Turn)

  class ApplyCtx {
    var changed: set<string>

    constructor ()
      ensures changed == {}
    {
      changed := {};
    }

    method RecordChanged(id: string)
      modifies this
      ensures changed == old(changed) + {id}
    {
      changed := changed + {id};
    }

    /** What a primitive records through the context it is given. */
    method RecordAll(ids: set<string>)
      modifies this
      ensures changed == old(changed) + ids
    {
      changed := changed + ids;
    }
  }

  // ---------------------------------------------------------------- specification

  predicate Bad(o: Outcome) {
    o.Failed? || o.Interrupted? || o.Skipped?
  }

  /** An earlier outcome ended the run. */
  ghost predicate AbortedBy(s: Setup, outs: seq<Outcome>) {
    exists j :: 0 <= j < |outs| && (outs[j].Interrupted? || (outs[j].Failed? && !s.opts.continueOnError))
  }

  /** The ids whose outcome so far is bad. */
  ghost function BadIds(s: Setup, outs: seq<Outcome>): set<string>
    requires |outs| <= |s.order|
  {
    set j | 0 <= j < |outs| && Bad(outs[j]) :: s.order[j]
  }

  /** A hard dependency has a bad outcome. */
  ghost predicate DependsOnBad(s: Setup, outs: seq<Outcome>, r: Resource)
    requires |outs| <= |s.order|
  {
    exists dep :: dep in r.dependsOn && dep in BadIds(s, outs)
  }

  ghost predicate SleepCancelled(s: Setup, outs: seq<Outcome>) {
    |outs| > 0 && s.opts.pacerEnabled && !s.world(|outs|).slept
  }

  /** The resource at the next position gets as far as its primitive. */
  ghost predicate GetsPlanned(s: Setup, outs: seq<Outcome>)
    requires |outs| < |s.order|
  {
    var id := s.order[|outs|];
    && !AbortedBy(s, outs) && !SleepCancelled(s, outs)
    && id in s.view && !DependsOnBad(s, outs, s.view[id]) && s.view[id].kind in s.primitives
  }

  ghost predicate GetsApplied(s: Setup, outs: seq<Outcome>)
    requires |outs| < |s.order|
  {
    GetsPlanned(s, outs) && s.world(|outs|).plan == PlanOk(false)
  }

  /** The ids recorded as changed at the next position, when its outcome is `o`. */
  ghost function RecordedAt(s: Setup, outs: seq<Outcome>, o: Outcome): set<string>
    requires |outs| < |s.order|
  {
    (if GetsApplied(s, outs) then s.world(|outs|).records else {}) + (if o.Changed? then {s.order[|outs|]} else {})
  }

  /** The ids recorded as changed so far. */
  ghost function Recorded(s: Setup, outs: seq<Outcome>): set<string>
    requires |outs| <= |s.order|
  {
    if outs == [] then {}
    else Recorded(s, outs[..|outs| - 1]) + RecordedAt(s, outs[..|outs| - 1], outs[|outs| - 1])
  }

  /** What the primitive's answers amount to. */
  function Verdict(t: Turn): Outcome {
    match t.plan
    case PlanErr(e) => if e.Cancelled? then Interrupted else Failed
    case PlanOk(true) => NoChange
    case PlanOk(false) =>
      match t.apply
      case ApplyOk(changed, deferred) => if deferred then Deferred else if changed then Changed else NoChange
      case ApplyErr(e) => if e.Cancelled? then Interrupted else if IsDeferrable(e) then Deferred else Failed
  }

  /** The outcome at the next position, from the history alone. */
  ghost function Expected(s: Setup, outs: seq<Outcome>): Outcome
    requires |outs| < |s.order|
  {
    if AbortedBy(s, outs) then Skipped
    else if SleepCancelled(s, outs) then Interrupted
    else if GetsPlanned(s, outs) then Verdict(s.world(|outs|))
    else if s.order[|outs|] in s.view && DependsOnBad(s, outs, s.view[s.order[|outs|]]) then Skipped
    else Failed
  }

  /** Every outcome is the one its history calls for. */
  ghost predicate Follows(s: Setup, outs: seq<Outcome>) {
    |outs| <= |s.order| && forall i :: 0 <= i < |outs| ==> outs[i] == Expected(s, outs[..i])
  }

  ghost function EventsAt(s: Setup, outs: seq<Outcome>, initial: set<string>): seq<LogEvent>
    requires |outs| < |s.order|
  {
    var id := s.order[|outs|];
    if !GetsPlanned(s, outs) then []
    else if !GetsApplied(s, outs) then [PlanCall(id)]
    else
      [PlanCall(id), MarkDirty(s.view[id].kind), ApplyCall(id, s.view[id].kind, initial + Recorded(s, outs))]
  }

  /** The calls made for a run with these outcomes. */
  ghost function LogOf(s: Setup, outs: seq<Outcome>, initial: set<string>): seq<LogEvent>
    requires |outs| <= |s.order|
  {
    if outs == [] then [] else LogOf(s, outs[..|outs| - 1], initial) + EventsAt(s, outs[..|outs| - 1], initial)
  }

  function Count(outs: seq<Outcome>, o: Outcome): nat {
    if outs == [] then 0 else Count(outs[..|outs| - 1], o) + (if outs[|outs| - 1] == o then 1 else 0)
  }

  function SummaryOf(outs: seq<Outcome>): ApplySummary {
    ApplySummary(Count(outs, Changed), Count(outs, NoChange), Count(outs, Failed), Count(outs, Skipped),
                 Count(outs, Deferred), Count(outs, Interrupted))
  }

  function Tally(s: ApplySummary, o: Outcome): ApplySummary {
    match o
    case Changed => s.(changed := s.changed + 1)
    case NoChange => s.(noChange := s.noChange + 1)
    case Failed => s.(failed := s.failed + 1)
    case Skipped => s.(skipped := s.skipped + 1)
    case Deferred => s.(deferred := s.deferred + 1)
    case Interrupted => s.(interrupted := s.interrupted + 1)
  }

  // ---------------------------------------------------------------- what the primitive answered

  /** The plan found something to do, so the apply was called. */
  predicate HasDiff(t: Turn) {
    t.plan == PlanOk(false)
  }

  predicate AnsweredCancel(t: Turn) {
    t.plan == PlanErr(Cancelled) || (HasDiff(t) && t.apply == ApplyErr(Cancelled))
  }

  /** An error of the plan, or one of the apply that is not about something being unavailable for now. */
  predicate AnsweredError(t: Turn) {
    || (t.plan.PlanErr? && t.plan.error != Cancelled)
    || (&& HasDiff(t) && t.apply.ApplyErr? && t.apply.error != Cancelled && t.apply.error != DpkgLocked
        && t.apply.error != RunrUnavailable && t.apply.error != SystemdUnavailable)
  }

  predicate AnsweredDeferral(t: Turn) {
    && HasDiff(t)
    && (|| (t.apply.ApplyOk? && t.apply.deferred)
        || t.apply == ApplyErr(DpkgLocked) || t.apply == ApplyErr(RunrUnavailable)
        || t.apply == ApplyErr(SystemdUnavailable))
  }

  predicate AnsweredChange(t: Turn) {
    HasDiff(t) && t.apply == ApplyOk(true, false)
  }

  // ---------------------------------------------------------------- the loop

  /** Planning and applying one resource whose dependencies are fine. */
  method RunPrimitive(id: string, kind: string, turn: Turn, ctx: ApplyCtx)
    returns (outcome: Outcome, calls: seq<LogEvent>)
    modifies ctx
    ensures outcome == Verdict(turn)
    ensures outcome.Interrupted? <==> AnsweredCancel(turn)
    ensures outcome.Failed? <==> AnsweredError(turn)
    ensures outcome.Deferred? <==> AnsweredDeferral(turn)
    ensures outcome.Changed? <==> AnsweredChange(turn)
    ensures outcome.NoChange? <==> turn.plan == PlanOk(true) || (HasDiff(turn) && turn.apply == ApplyOk(false, false))
    ensures ctx.changed == old(ctx.changed) + (if turn.plan == PlanOk(false) then turn.records else {})
                           + (if outcome.Changed? then {id} else {})
    ensures calls == if turn.plan == PlanOk(false)
                     then [PlanCall(id), MarkDirty(kind), ApplyCall(id, kind, old(ctx.changed))]
                     else [PlanCall(id)]
  {
    calls := [PlanCall(id)];
    match turn.plan {
      case PlanErr(e) =>
        outcome := if e.Cancelled? then Interrupted else Failed;
      case PlanOk(noChange) =>
        if noChange {
          outcome := NoChange;
        } else {
          calls := calls + [MarkDirty(kind)];
          calls := calls + [ApplyCall(id, kind, ctx.changed)];
          ctx.RecordAll(turn.records);
          match turn.apply {
            case ApplyOk(changed, deferred) =>
              if deferred {
                outcome := Deferred;
              } else if changed {
                ctx.RecordChanged(id);
                outcome := Changed;
              } else {
                outcome := NoChange;
              }
            case ApplyErr(e) =>
              outcome := if e.Cancelled? then Interrupted else if IsDeferrable(e) then Deferred else Failed;
          }
        }
    }
  }

  /** `Orchestrator::apply` after the order is known. */
  method ApplyOrder(s: Setup, ctx: ApplyCtx)
    returns (outs: seq<Outcome>, summary: ApplySummary, log: seq<LogEvent>)
    modifies ctx
    ensures |outs| == |s.order| && Follows(s, outs)
    ensures summary == SummaryOf(outs)
    ensures log == LogOf(s, outs, old(ctx.changed))
    ensures ctx.changed == old(ctx.changed) + Recorded(s, outs)
  {
    hide Expected, GetsPlanned, GetsApplied, EventsAt, SummaryOf, Verdict, Recorded, RecordedAt, BadIds, AbortedBy,
         Bad, Tally;
    ghost var initial := ctx.changed;
    outs, log := [], [];
    summary := ApplySummary(0, 0, 0, 0, 0, 0);
    var aborted := false;
    var failedOrInterrupted: set<string> := {};
    LoopStart(s, initial);
    for idx := 0 to |s.order|
      invariant |outs| == idx && Follows(s, outs)
      invariant summary == SummaryOf(outs)
      invariant log == LogOf(s, outs, initial)
      invariant ctx.changed == initial + Recorded(s, outs)
      invariant aborted == AbortedBy(s, outs)
      invariant !aborted ==> failedOrInterrupted == BadIds(s, outs)
    {
      var id := s.order[idx];
      var outcome: Outcome;
      var calls: seq<LogEvent> := [];
      ghost var before := outs;
      if idx > 0 && s.opts.pacerEnabled && !aborted && !s.world(idx).slept {
        InterruptedBySleep(s, before, initial);
        outcome := Interrupted;
      } else if aborted {
        SkippedByAbort(s, before, initial);
        outcome := Skipped;
      } else if id !in s.view {
        MissingFails(s, before, initial);
        outcome := Failed;
      } else if exists dep | dep in s.view[id].dependsOn :: dep in failedOrInterrupted {
        DependentSkipped(s, before, initial);
        outcome := Skipped;
      } else if s.view[id].kind !in s.primitives {
        UnknownKindFails(s, before, initial);
        outcome := Failed;
      } else {
        PrimitiveDecides(s, before, initial);
        outcome, calls := RunPrimitive(id, s.view[id].kind, s.world(idx), ctx);
      }
      if outcome.Failed? || outcome.Interrupted? || (outcome.Skipped? && !aborted) {
        failedOrInterrupted := failedOrInterrupted + {id};
      }
      if outcome.Interrupted? || (outcome.Failed? && !s.opts.continueOnError) {
        aborted := true;
      }
      NextPosition(s, before, outcome, initial);
      outs := outs + [outcome];
      summary := Tally(summary, outcome);
      log := log + calls;
    }
  }

  // ---------------------------------------------------------------- one position

  lemma LoopStart(s: Setup, initial: set<string>)
    ensures Follows(s, []) && SummaryOf([]) == ApplySummary(0, 0, 0, 0, 0, 0)
    ensures LogOf(s, [], initial) == [] && Recorded(s, []) == {} && BadIds(s, []) == {} && !AbortedBy(s, [])
  {
  }

  /** Appending the expected outcome extends every part of the specification by one position. */
  lemma NextPosition(s: Setup, outs: seq<Outcome>, o: Outcome, initial: set<string>)
    requires |outs| < |s.order| && Follows(s, outs) && o == Expected(s, outs)
    ensures Follows(s, outs + [o])
    ensures SummaryOf(outs + [o]) == Tally(SummaryOf(outs), o)
    ensures LogOf(s, outs + [o], initial) == LogOf(s, outs, initial) + EventsAt(s, outs, initial)
    ensures Recorded(s, outs + [o]) == Recorded(s, outs) + RecordedAt(s, outs, o)
    ensures BadIds(s, outs + [o]) == BadIds(s, outs) + (if Bad(o) then {s.order[|outs|]} else {})
    ensures AbortedBy(s, outs + [o]) <==>
              AbortedBy(s, outs) || o.Interrupted? || (o.Failed? && !s.opts.continueOnError)
    ensures Bad(o) <==> o.Failed? || o.Interrupted? || o.Skipped?
  {
    hide Expected, EventsAt, RecordedAt;
    var longer := outs + [o];
    assert longer[..|outs|] == outs;
    forall i | 0 <= i < |longer|
      ensures longer[i] == Expected(s, longer[..i])
    {
      if i < |outs| { assert longer[..i] == outs[..i]; }
    }
    IdsSnoc(s, outs, o);
    assert AbortedBy(s, longer) <==> AbortedBy(s, outs) || o.Interrupted? || (o.Failed? && !s.opts.continueOnError) by {
      if AbortedBy(s, outs) {
        var j :| 0 <= j < |outs| && (outs[j].Interrupted? || (outs[j].Failed? && !s.opts.continueOnError));
        assert longer[j] == outs[j];
      }
      assert longer[|outs|] == o;
    }
  }

  lemma IdsSnoc(s: Setup, outs: seq<Outcome>, o: Outcome)
    requires |outs| < |s.order|
    ensures BadIds(s, outs + [o]) == BadIds(s, outs) + (if Bad(o) then {s.order[|outs|]} else {})
  {
    var longer := outs + [o];
    assert longer[|outs|] == o;
    assert forall j :: 0 <= j < |outs| ==> longer[j] == outs[j];
    assert forall id :: id in BadIds(s, outs) ==> id in BadIds(s, longer) by {
      forall id | id in BadIds(s, outs) ensures id in BadIds(s, longer) {
        var j :| 0 <= j < |outs| && Bad(outs[j]) && s.order[j] == id;
        assert Bad(longer[j]);
      }
    }
  }

  lemma InterruptedBySleep(s: Setup, outs: seq<Outcome>, initial: set<string>)
    requires |outs| < |s.order| && !AbortedBy(s, outs) && SleepCancelled(s, outs)
    ensures Expected(s, outs) == Interrupted && EventsAt(s, outs, initial) == []
      && RecordedAt(s, outs, Interrupted) == {}
  {
  }

  lemma SkippedByAbort(s: Setup, outs: seq<Outcome>, initial: set<string>)
    requires |outs| < |s.order| && AbortedBy(s, outs)
    ensures Expected(s, outs) == Skipped && EventsAt(s, outs, initial) == [] && RecordedAt(s, outs, Skipped) == {}
  {
  }

  lemma MissingFails(s: Setup, outs: seq<Outcome>, initial: set<string>)
    requires |outs| < |s.order| && !AbortedBy(s, outs) && !SleepCancelled(s, outs) && s.order[|outs|] !in s.view
    ensures Expected(s, outs) == Failed && EventsAt(s, outs, initial) == [] && RecordedAt(s, outs, Failed) == {}
  {
  }

  lemma DependentSkipped(s: Setup, outs: seq<Outcome>, initial: set<string>)
    requires |outs| < |s.order| && !AbortedBy(s, outs) && !SleepCancelled(s, outs) && s.order[|outs|] in s.view
    requires exists dep :: dep in s.view[s.order[|outs|]].dependsOn && dep in BadIds(s, outs)
    ensures Expected(s, outs) == Skipped && EventsAt(s, outs, initial) == [] && RecordedAt(s, outs, Skipped) == {}
  {
  }

  lemma UnknownKindFails(s: Setup, outs: seq<Outcome>, initial: set<string>)
    requires |outs| < |s.order| && !AbortedBy(s, outs) && !SleepCancelled(s, outs) && s.order[|outs|] in s.view
    requires !DependsOnBad(s, outs, s.view[s.order[|outs|]]) && s.view[s.order[|outs|]].kind !in s.primitives
    ensures Expected(s, outs) == Failed && EventsAt(s, outs, initial) == [] && RecordedAt(s, outs, Failed) == {}
  {
  }

  lemma PrimitiveDecides(s: Setup, outs: seq<Outcome>, initial: set<string>)
    requires |outs| < |s.order| && !AbortedBy(s, outs) && !SleepCancelled(s, outs) && s.order[|outs|] in s.view
    requires !DependsOnBad(s, outs, s.view[s.order[|outs|]]) && s.view[s.order[|outs|]].kind in s.primitives
    ensures Expected(s, outs) == Verdict(s.world(|outs|))
    ensures var turn := s.world(|outs|);
            RecordedAt(s, outs, Verdict(turn)) == (if turn.plan == PlanOk(false) then turn.records else {})
                                                  + (if Verdict(turn).Changed? then {s.order[|outs|]} else {})
    ensures var id := s.order[|outs|];
            EventsAt(s, outs, initial) ==
              if s.world(|outs|).plan == PlanOk(false)
              then [PlanCall(id), MarkDirty(s.view[id].kind),
                    ApplyCall(id, s.view[id].kind, initial + Recorded(s, outs))]
              else [PlanCall(id)]
  {
  }

  // ---------------------------------------------------------------- the whole call

  /** The registry as the loop reads it. */
  ghost predicate IsView(rs: seq<Resource>, view: map<string, Resource>) {
    && (forall id :: id in view <==> Known(rs, id))
    && (forall i :: 0 <= i < |rs| ==> rs[i].id in view && view[rs[i].id] == rs[i])
  }

  datatype ApplyResult =
    | Done(setup: Setup, outs: seq<Outcome>, summary: ApplySummary, log: seq<LogEvent>)
    | Rejected(why: TopoResult)

  /** `Orchestrator::apply`: sort, then one pass; a registry that cannot be sorted touches nothing. */
  method Apply(registry: Registry, primitives: set<string>, opts: ApplyOpts, world: nat -> Turn, ctx: ApplyCtx)
    returns (r: ApplyResult)
    requires registry.Valid()
    modifies ctx
    ensures r.Rejected? ==> !r.why.Order? && IsTopoResult(registry.resources, r.why) && ctx.changed == old(ctx.changed)
    ensures r.Done? ==>
              && IsTopoResult(registry.resources, Order(r.setup.order)) && IsView(registry.resources, r.setup.view)
              && r.setup == Setup(r.setup.view, r.setup.order, primitives, opts, world)
              && |r.outs| == |r.setup.order| && Follows(r.setup, r.outs)
              && r.summary == SummaryOf(r.outs) && r.log == LogOf(r.setup, r.outs, old(ctx.changed))
              && ctx.changed == old(ctx.changed) + Recorded(r.setup, r.outs)
  {
    hide IsTopoResult, Follows, SummaryOf, LogOf, Recorded;
    var sorted := registry.TopologicalOrder();
    if !sorted.Order? {
      return Rejected(sorted);
    }
    registry.KnownIsIndexed();
    var view := map id | id in registry.byId :: registry.resources[registry.byId[id]];
    var s := Setup(view, sorted.ids, primitives, opts, world);
    var outs, summary, log := ApplyOrder(s, ctx);
    return Done(s, outs, summary, log);
  }
}
