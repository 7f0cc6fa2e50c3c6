/**
 How deferred actions reach a backend, and why deduplication loses nothing: serving the deduplicated
 journal leaves every unit in the state that serving every single request would.
 */
module Dispatch {
  import opened DeferFormat
  import opened Directory
  import opened Journal
  import opened EnqueueTheory
  import opened ReplayTheory

  datatype BackendCall =
    | StartUnit
    | StopUnit
    | RestartUnit
    | ReloadUnit
    | ReloadDaemon
    | Exec(program: string, args: seq<string>)

  /** Where a record goes: to a backend call, nowhere for lack of a client, or it is refused. */
  datatype Route = Call(call: BackendCall) | NoClient | Refused

  /** What a backend handle or a child process reports. */
  datatype HandleResult = HandleOk | TransportDown | HandleError

  function CallFor(a: DeferAction): Route {
    match a
    case Start => Call(StartUnit)
    case Stop => Call(StopUnit)
    case Restart => Call(RestartUnit)
    case Reload => Call(ReloadUnit)
    case ReloadOrRestart => Call(RestartUnit)   // neither backend has the combined call
    case DaemonReload => Call(ReloadDaemon)
    case Command(_) => Refused
  }

  function RouteOf(e: DeferEntry, haveSystemd: bool, haveRunr: bool): Route {
    if e.action.Command? then
      if e.action.argv == [] then Refused else Call(Exec(e.action.argv[0], e.action.argv[1..]))
    else if e.initSystem == "systemd" then
      if haveSystemd then CallFor(e.action) else NoClient
    else if e.initSystem == "runr" then
      if haveRunr then CallFor(e.action) else NoClient
    else Refused
  }

  /** Only a transport failure is transient; a missing client counts as one. */
  function AnswerOf(r: Route, h: HandleResult): DispatchAnswer {
    match r
    case Refused => ActionFailed
    case NoClient => ClientUnavailable
    case Call(c) =>
      match h
      case HandleOk => DispatchOk
      case TransportDown => if c.Exec? then ActionFailed else ClientUnavailable
      case HandleError => ActionFailed
  }

  /** A record is kept without counting an attempt exactly when its init system cannot be reached. */
  lemma OnlyUnreachableIsTransient(e: DeferEntry, haveSystemd: bool, haveRunr: bool, h: HandleResult)
    ensures AnswerOf(RouteOf(e, haveSystemd, haveRunr), h).ClientUnavailable? <==>
              && !e.action.Command?
              && (|| (e.initSystem == "systemd" && (!haveSystemd || h.TransportDown?))
                  || (e.initSystem == "runr" && (!haveRunr || h.TransportDown?)))
  {
    assert e.initSystem == "systemd" ==> |e.initSystem| == 7;
    assert e.initSystem == "runr" ==> |e.initSystem| == 4;
  }

  /** Which records reach a backend, and which of its calls they make. */
  lemma RouteTells(e: DeferEntry, haveSystemd: bool, haveRunr: bool)
    ensures var r := RouteOf(e, haveSystemd, haveRunr);
            var reached := (e.initSystem == "systemd" && haveSystemd) || (e.initSystem == "runr" && haveRunr);
            && (e.action.Command? && e.action.argv == [] ==> r == Refused)
            && (e.action.Command? && e.action.argv != [] ==> r == Call(Exec(e.action.argv[0], e.action.argv[1..])))
            && (reached && e.action.Start? ==> r == Call(StartUnit))
            && (reached && e.action.Stop? ==> r == Call(StopUnit))
            && (reached && (e.action.Restart? || e.action.ReloadOrRestart?) ==> r == Call(RestartUnit))
            && (reached && e.action.Reload? ==> r == Call(ReloadUnit))
            && (reached && e.action.DaemonReload? ==> r == Call(ReloadDaemon))
            && (!e.action.Command? && (e.initSystem == "systemd" || e.initSystem == "runr") && !reached ==>
                  r == NoClient)
            && (!e.action.Command? && e.initSystem != "systemd" && e.initSystem != "runr" ==> r == Refused)
  {
    assert e.initSystem == "systemd" ==> |e.initSystem| == 7;
    assert e.initSystem == "runr" ==> |e.initSystem| == 4;
  }

  /**
   A dispatch succeeds exactly when the record goes to a backend that is there, or is a command to run, and the
   call succeeds. Otherwise it fails for good, unless the init system cannot be reached.
   */
  lemma SucceedsIff(e: DeferEntry, haveSystemd: bool, haveRunr: bool, h: HandleResult)
    ensures AnswerOf(RouteOf(e, haveSystemd, haveRunr), h).DispatchOk? <==>
              && h.HandleOk?
              && if e.action.Command? then e.action.argv != []
                 else (e.initSystem == "systemd" && haveSystemd) || (e.initSystem == "runr" && haveRunr)
  {
    RouteTells(e, haveSystemd, haveRunr);
  }

  /** What a unit still owes: a reload of its configuration, a restart of its process. */
  datatype Needs = Needs(reload: bool, restart: bool)

  function Serve(n: Needs, r: Route): Needs {
    match r
    case Call(RestartUnit) => Needs(false, false)
    case Call(ReloadUnit) => Needs(false, n.restart)
    case _ => n
  }

  predicate OnUnit(e: DeferEntry, initSystem: string, target: string) {
    e.initSystem == initSystem && e.target == target
  }

  /** The needs of one unit after a sequence of records was served. */
  function NeedsAfter(es: seq<DeferEntry>, initSystem: string, target: string, n: Needs): Needs {
    if es == [] then n
    else
      var before := NeedsAfter(es[..|es| - 1], initSystem, target, n);
      var last := es[|es| - 1];
      if OnUnit(last, initSystem, target) then Serve(before, RouteOf(last, true, true)) else before
  }

  /** A request of the reload and restart family. */
  predicate UnitRequest(e: DeferEntry) {
    e.action.Reload? || e.action.ReloadOrRestart? || e.action.Restart?
  }

  /** One unit gets only such requests; other units and commands may get any. */
  ghost predicate OnlyUnitRequests(es: seq<DeferEntry>, initSystem: string, target: string) {
    forall e :: e in es && OnUnit(e, initSystem, target) ==> UnitRequest(e)
  }

  predicate KnownInitSystem(initSystem: string) {
    initSystem == "systemd" || initSystem == "runr"
  }

  ghost predicate Touches(es: seq<DeferEntry>, initSystem: string, target: string) {
    exists e :: e in es && OnUnit(e, initSystem, target)
  }

  ghost predicate Restarts(es: seq<DeferEntry>, initSystem: string, target: string) {
    exists e :: e in es && OnUnit(e, initSystem, target) && !e.action.Reload?
  }

  lemma ServeRequest(n: Needs, e: DeferEntry)
    requires UnitRequest(e)
    ensures Serve(n, RouteOf(e, true, true)) ==
            if KnownInitSystem(e.initSystem) then Needs(false, n.restart && e.action.Reload?) else n
  {
  }

  /** The outcome depends only on whether a unit of a known init system is touched and whether it is restarted. */
  lemma {:induction false} NeedsAfterIs(es: seq<DeferEntry>, initSystem: string, target: string, n: Needs)
    requires OnlyUnitRequests(es, initSystem, target)
    ensures NeedsAfter(es, initSystem, target, n) ==
            if KnownInitSystem(initSystem)
            then Needs(n.reload && !Touches(es, initSystem, target), n.restart && !Restarts(es, initSystem, target))
            else n
  {
    hide UnitRequest, RouteOf, KnownInitSystem;
    if es != [] {
      var front, last := es[..|es| - 1], es[|es| - 1];
      assert es == front + [last];
      if OnUnit(last, initSystem, target) { ServeRequest(NeedsAfter(front, initSystem, target, n), last); }
      NeedsAfterIs(front, initSystem, target, n);
      assert Touches(es, initSystem, target) <==>
        Touches(front, initSystem, target) || OnUnit(last, initSystem, target);
      assert Restarts(es, initSystem, target) <==>
             Restarts(front, initSystem, target) || (OnUnit(last, initSystem, target) && !last.action.Reload?);
    }
  }

  /** The journal touches and restarts the units that the requests do. */
  lemma JournalReachesSameUnits(rs: seq<DeferEntry>, p: Visible, l: seq<DeferEntry>,
                                initSystem: string, target: string)
    requires AllWellFormed(rs) && OnlyUnitRequests(rs, initSystem, target) && HoldsMaximal(p, rs)
    requires forall e :: e in l <==> exists n :: n in p && p[n] == e
    ensures forall e :: e in l ==> e in rs
    ensures Touches(l, initSystem, target) <==> Touches(rs, initSystem, target)
    ensures Restarts(l, initSystem, target) <==> Restarts(rs, initSystem, target)
  {
    hide WellFormed, Filename;
    forall e | e in l
      ensures e in rs
    {
      var n :| n in p && p[n] == e;
      assert IsFirst(rs, p[n]);
    }
    forall r | r in rs && OnUnit(r, initSystem, target)
      ensures exists e :: e in l && OnUnit(e, initSystem, target) && (!r.action.Reload? ==> !e.action.Reload?)
    {
      var e := Representative(rs, p, r);
      assert e in l;
    }
  }

  /** Every request has a record in the journal that does at least as much. */
  lemma Representative(rs: seq<DeferEntry>, p: Visible, r: DeferEntry) returns (e: DeferEntry)
    requires AllWellFormed(rs) && HoldsMaximal(p, rs) && r in rs && UnitRequest(r)
    ensures exists n :: n in p && p[n] == e
    ensures SameTarget(e, r) && (!r.action.Reload? ==> !e.action.Reload?)
  {
    hide WellFormed, Filename;
    var top := r;
    if !Maximal(r, rs) {
      top := MaximalAbove(rs, r);
    }
    var i :| 0 <= i < |rs| && rs[i] == top;
    var n := Filename(top);
    assert Wanted(rs, n);
    e := p[n];
    VisibleRequest(p, rs, n);
    MaximalByName(rs, e, top);
    assert Subsumes(ReloadOrRestart, e.action) == Subsumes(ReloadOrRestart, top.action);
  }

  /** A replay that is not cancelled visits the whole listing. */
  lemma ReachesAll(n: nat, answers: seq<Answer>)
    requires n <= |answers| && forall i :: 0 <= i < n ==> !answers[i].cancelled
    ensures Reached(n, answers) == n
  {
  }

  /**
   Deduplication preserves meaning: for a unit whose requests are all of the reload and restart family,
   whatever else is queued, one uncancelled pass over the journal serves it as if each request had been
   served.
   */
  lemma {:induction false} DedupPreservesMeaning(rs: seq<DeferEntry>, nanos: seq<nat>, answers: seq<Answer>,
                              initSystem: string, target: string, n: Needs)
    requires |nanos| == |rs| && AllWellFormed(rs) && OnlyUnitRequests(rs, initSystem, target)
    requires var d := EnqueueAll(rs, nanos);
             |answers| >= |Listing(d)| && forall i :: 0 <= i < |Listing(d)| ==> !answers[i].cancelled
    ensures NeedsAfter(DispatchedIn(ReplayEvents(EnqueueAll(rs, nanos), answers)), initSystem, target, n)
         == NeedsAfter(rs, initSystem, target, n)
  {
    hide WellFormed, Filename, EnqueueAll, Listing, Pending, ReplayEvents, HoldsMaximal, Touches, Restarts,
         NeedsAfter;
    var d := EnqueueAll(rs, nanos);
    var l := Listing(d);
    JournalHoldsMaximalRequests(rs, nanos);
    ReplayDispatchesByPriority(d, answers);
    ReachesAll(|l|, answers);
    assert l[..|l|] == l;
    ListingIsPending(d);
    forall e
      ensures e in l <==> exists m :: m in Pending(d) && Pending(d)[m] == e
    {
    }
    JournalReachesSameUnits(rs, Pending(d), l, initSystem, target);
    NeedsAfterIs(rs, initSystem, target, n);
    NeedsAfterIs(l, initSystem, target, n);
  }
}
