/**
 The journal object. Every method takes a budget of file operations and answers: when it runs out
 the call stops there, as after a crash or an I/O error, so one contract covers every stopping point.
 */
module Journal {
  import opened Text
  import opened DeferFormat
  import opened Directory

  datatype EnqueueResult = Created | AlreadyExists | Subsumed | ReplacedLowerPriority

  /** What the outside world says while one entry is replayed; `cancelled` is the token seen before it. */
  datatype Answer = Answer(cancelled: bool, dispatch: DispatchAnswer, health: HealthAnswer, nanos: nat)

  datatype ReplayReport = ReplayReport(
    executed: u32,
    skippedUnavailable: u32,
    failed: u32,
    promotedToManualClear: u32,
    healthCheckFailed: u32)

  /** What became of one entry of the snapshot. */
  datatype Fate = Executed | SkippedUnavailable | Failed | HealthCheckFailed | Promoted | KeptByCancel | Unreached

  // ---------------------------------------------------------------- enqueue

  function OnTarget(l: seq<DeferEntry>, e: DeferEntry): seq<DeferEntry> {
    if l == [] then []
    else
      var last := l[|l| - 1];
      OnTarget(l[..|l| - 1], e) + (if SameTarget(last, e) then [last] else [])
  }

  /** The listed entries that `e` makes redundant, in listing order. */
  function Victims(same: seq<DeferEntry>, e: DeferEntry): seq<DeferEntry> {
    if same == [] then []
    else
      var last := same[|same| - 1];
      Victims(same[..|same| - 1], e) + (if Subsumes(e.action, last.action) then [last] else [])
  }

  lemma {:induction false} OnTargetElements(l: seq<DeferEntry>, e: DeferEntry, x: DeferEntry)
    ensures x in OnTarget(l, e) <==> x in l && SameTarget(x, e)
  {
    if l != [] {
      OnTargetElements(l[..|l| - 1], e, x);
      assert l == l[..|l| - 1] + [l[|l| - 1]];
    }
  }

  lemma {:induction false} VictimsElements(same: seq<DeferEntry>, e: DeferEntry, x: DeferEntry)
    ensures x in Victims(same, e) <==> x in same && Subsumes(e.action, x.action)
  {
    if same != [] {
      VictimsElements(same[..|same| - 1], e, x);
      assert same == same[..|same| - 1] + [same[|same| - 1]];
    }
  }

  function UnlinkEvents(vs: seq<DeferEntry>, cause: Cause): (r: seq<Event>)
    ensures |r| == |vs|
    ensures forall i :: 0 <= i < |vs| ==> r[i] == FileEvent(Unlink(Filename(vs[i])), cause)
  {
    seq(|vs|, i requires 0 <= i < |vs| => FileEvent(Unlink(Filename(vs[i])), cause))
  }

  ghost predicate Duplicate(d: Dir, e: DeferEntry) {
    exists x :: x in OnTarget(Listing(d), e) && x.id == e.id
  }

  ghost predicate Dominated(d: Dir, e: DeferEntry) {
    exists x :: x in OnTarget(Listing(d), e) && Subsumes(x.action, e.action)
  }

  ghost function VictimsIn(d: Dir, e: DeferEntry): seq<DeferEntry> {
    Victims(OnTarget(Listing(d), e), e)
  }

  /** Some of the records has a file to unlink; a record may sit under a name that is not its own. */
  ghost predicate AnyThere(d: Dir, vs: seq<DeferEntry>) {
    exists i :: 0 <= i < |vs| && Filename(vs[i]) in d
  }

  /** The unlink loop, and the directory sync that follows it when a file was unlinked. */
  ghost function ReplaceEvents(d: Dir, e: DeferEntry): seq<Event> {
    var vs := VictimsIn(d, e);
    UnlinkEvents(vs, ByEnqueue(e)) + (if AnyThere(d, vs) then [FileEvent(SyncDir, ByEnqueue(e))] else [])
  }

  /** How many events come before the atomic write of a request that is neither duplicate nor dominated. */
  ghost function Prelude(d: Dir, e: DeferEntry): nat {
    |VictimsIn(d, e)| + (if AnyThere(d, VictimsIn(d, e)) then 1 else 0)
  }

  ghost function EnqueueEvents(d: Dir, e: DeferEntry, nanos: nat): seq<Event> {
    if Duplicate(d, e) || Dominated(d, e) then []
    else ReplaceEvents(d, e) + AtomicWriteEvents(e, nanos, ByEnqueue(e))
  }

  // ---------------------------------------------------------------- replay

  function Bumped(e: DeferEntry): DeferEntry {
    e.(attemptCount := if e.attemptCount == U32_MAX then U32_MAX else e.attemptCount + 1)
  }

  predicate Exhausted(e: DeferEntry) {
    Bumped(e).attemptCount >= e.maxAttempts
  }

  function RemoveEvents(e: DeferEntry): seq<Event> {
    [FileEvent(Unlink(Filename(e)), ByReplay(e)), FileEvent(SyncDir, ByReplay(e))]
  }

  function PromoteEvents(e: DeferEntry): seq<Event> {
    [FileEvent(Rename(Filename(e), ManualClearFilename(e)), ByReplay(e)), FileEvent(SyncDir, ByReplay(e))]
  }

  function FailEvents(e: DeferEntry, nanos: nat): seq<Event> {
    AtomicWriteEvents(Bumped(e), nanos, ByReplay(e)) + (if Exhausted(e) then PromoteEvents(e) else [])
  }

  /** The questions put to the outside world about one entry. */
  function Asked(e: DeferEntry, a: Answer): seq<Event> {
    if a.dispatch.DispatchOk? && e.healthCheck.Some?
    then [Dispatched(e, a.dispatch), Checked(e, a.health)]
    else [Dispatched(e, a.dispatch)]
  }

  /** What the answers make the journal do. */
  function Reaction(e: DeferEntry, a: Answer): seq<Event> {
    match FateOf(e, a)
    case Executed => RemoveEvents(e)
    case Failed | HealthCheckFailed | Promoted => FailEvents(e, a.nanos)
    case SkippedUnavailable | KeptByCancel | Unreached => []
  }

  function VisitEvents(e: DeferEntry, a: Answer): seq<Event> {
    Asked(e, a) + Reaction(e, a)
  }

  function FateOf(e: DeferEntry, a: Answer): Fate {
    match a.dispatch
    case ClientUnavailable => SkippedUnavailable
    case ActionFailed => if Exhausted(e) then Promoted else Failed
    case DispatchOk =>
      if e.healthCheck.None? || a.health.HealthOk? then Executed
      else if a.health.HealthCancelled? then KeptByCancel
      else if Exhausted(e) then Promoted else HealthCheckFailed
  }

  /** How many of `n` entries are visited: the loop stops at the first one that finds the token cancelled. */
  function Reached(n: nat, answers: seq<Answer>): (r: nat)
    ensures r <= n && r <= |answers|
    ensures forall i :: 0 <= i < r ==> !answers[i].cancelled
    ensures r < n && r < |answers| ==> answers[r].cancelled
  {
    if n == 0 || answers == [] || answers[0].cancelled then 0
    else 1 + Reached(n - 1, answers[1..])
  }

  /** The events of visiting the first `i` entries. */
  function VisitsEvents(entries: seq<DeferEntry>, answers: seq<Answer>, i: nat): seq<Event>
    requires i <= |entries| && i <= |answers|
  {
    if i == 0 then [] else VisitsEvents(entries, answers, i - 1) + VisitEvents(entries[i - 1], answers[i - 1])
  }

  ghost function ReplayEvents(d: Dir, answers: seq<Answer>): seq<Event> {
    var l := Listing(d);
    VisitsEvents(l, answers, Reached(|l|, answers))
  }

  function FateAt(entries: seq<DeferEntry>, answers: seq<Answer>, i: nat): Fate
    requires i < |entries|
  {
    if i < Reached(|entries|, answers) then FateOf(entries[i], answers[i]) else Unreached
  }

  /** How many of the first `n` entries met fate `f`. */
  function CountFate(entries: seq<DeferEntry>, answers: seq<Answer>, n: nat, f: Fate): (c: nat)
    requires n <= |entries|
    ensures c <= n
  {
    if n == 0 then 0
    else CountFate(entries, answers, n - 1, f) + (if FateAt(entries, answers, n - 1) == f then 1 else 0)
  }

  function Saturated(n: nat): u32 {
    if n <= U32_MAX then n else U32_MAX
  }

  function SaturatingInc(n: u32): u32 {
    if n < U32_MAX then n + 1 else n
  }

  /** The report counts fates. */
  function ReportUpTo(entries: seq<DeferEntry>, answers: seq<Answer>, n: nat): ReplayReport
    requires n <= |entries|
  {
    ReplayReport(
      Saturated(CountFate(entries, answers, n, Executed)),
      Saturated(CountFate(entries, answers, n, SkippedUnavailable)),
      Saturated(CountFate(entries, answers, n, Failed)),
      Saturated(CountFate(entries, answers, n, Promoted)),
      Saturated(CountFate(entries, answers, n, HealthCheckFailed)))
  }

  /** The counter a fate increments. */
  function Tally(r: ReplayReport, fate: Fate): ReplayReport {
    match fate
    case Executed => r.(executed := SaturatingInc(r.executed))
    case SkippedUnavailable => r.(skippedUnavailable := SaturatingInc(r.skippedUnavailable))
    case Failed => r.(failed := SaturatingInc(r.failed))
    case Promoted => r.(promotedToManualClear := SaturatingInc(r.promotedToManualClear))
    case HealthCheckFailed => r.(healthCheckFailed := SaturatingInc(r.healthCheckFailed))
    case KeptByCancel | Unreached => r
  }

  // ---------------------------------------------------------------- operator

  /** `bosun status --clear` matches a file by its name or by the id of the record in it. */
  predicate ClearMatches(d: Dir, arg: string, n: string) {
    && n in d
    && (IsDeferred(n) || IsManualClear(n))
    && (n == arg || (d[n].Record? && d[n].entry.id == arg))
  }

  // ---------------------------------------------------------------- the object

  class Journal {
    var files: Dir

    constructor ()
      ensures files == map[] && Good(files)
    {
      files := map[];
    }

    /** Names are sorted first and read afterwards; what does not parse is skipped. */
    method ListSorted() returns (out: seq<DeferEntry>)
      ensures out == Listing(files)
    {
      hide Extension, LexLeq;
      var names: seq<string> := [];
      var unread := files.Keys;
      while unread != {}
        invariant unread <= files.Keys
        invariant Ascending(names)
        invariant forall n :: n in names <==> n in files && n !in unread && IsDeferred(n)
        decreases |unread|
      {
        var n :| n in unread;
        if IsDeferred(n) {
          names := InsertName(names, n);
        }
        unread := unread - {n};
      }
      out := [];
      ghost var kept: seq<string> := [];
      for i := 0 to |names|
        invariant forall k :: 0 <= k < |kept| ==> kept[k] in names[..i]
        invariant Ascending(kept)
        invariant forall n :: n in kept <==> n in names[..i] && files[n].Record?
        invariant |out| == |kept|
        invariant forall k :: 0 <= k < |kept| ==> kept[k] in Pending(files) && out[k] == Pending(files)[kept[k]]
      {
        assert names[i] in names;
        assert names[..i + 1] == names[..i] + [names[i]];
        if files[names[i]].Record? {
          out := out + [files[names[i]].entry];
          kept := kept + [names[i]];
        }
      }
      assert names[..|names|] == names;
      AscendingUnique(kept, SortedNames(Pending(files).Keys));
    }

    method AtomicWrite(e: DeferEntry, nanos: nat, budget: nat, ghost cause: Cause) returns (done: bool, left: nat)
      modifies this
      ensures files == Effects(old(files), Take(AtomicWriteEvents(e, nanos, cause), budget))
      ensures done <==> budget >= 4
      ensures done ==> left == budget - 4
    {
      hide Filename, TmpName, ManualClearFilename;
      var tmp := TmpName(e, nanos);
      ghost var evs := AtomicWriteEvents(e, nanos, cause);
      ghost var d := files;
      assert evs[..0] == [];
      done, left := false, budget;
      if left == 0 { return; }
      EffectsStep(d, evs, 0);
      files := files[tmp := Garbage];
      left := left - 1;
      if left == 0 { return; }
      EffectsStep(d, evs, 1);
      files := files[tmp := Record(e)];
      left := left - 1;
      if left == 0 { return; }
      EffectsStep(d, evs, 2);
      files := (files - {tmp})[Filename(e) := Record(e)];
      left := left - 1;
      if left == 0 { return; }
      EffectsStep(d, evs, 3);
      assert evs[..4] == evs;
      done, left := true, left - 1;
    }

    /** The loop of `enqueue` that deletes what the new action makes redundant. */
    method UnlinkVictims(same: seq<DeferEntry>, e: DeferEntry, budget: nat)
      returns (replacedAny: bool, done: bool, left: nat)
      modifies this
      ensures files == Effects(old(files), Take(UnlinkEvents(Victims(same, e), ByEnqueue(e)), budget))
      ensures done <==> budget >= |Victims(same, e)|
      ensures done ==> left == budget - |Victims(same, e)|
      ensures done ==> (replacedAny <==> AnyThere(old(files), Victims(same, e)))
    {
      hide Filename, TmpName, ManualClearFilename, AnyThere, Subsumes, Victims, Effects;
      ghost var d := files;
      ghost var all := UnlinkEvents(Victims(same, e), ByEnqueue(e));
      replacedAny, done, left := false, false, budget;
      NoVictims(d, same, e);
      assert all[..0] == [];
      for i := 0 to |same|
        invariant |Victims(same[..i], e)| + left == budget
        invariant |Victims(same[..i], e)| <= |all|
        invariant files == Effects(d, all[..|Victims(same[..i], e)|])
        invariant replacedAny <==> AnyThere(d, Victims(same[..i], e))
        invariant !replacedAny ==> files == d
        invariant files.Keys <= d.Keys
      {
        ghost var v := |Victims(same[..i], e)|;
        VictimsStep(same, e, i);
        if Subsumes(e.action, same[i].action) {
          if left == 0 {
            return;
          }
          EffectsStep(d, all, v);
          assert Effects(d, all[..v + 1]) == files - {Filename(same[i])};
          AnyThereSnoc(d, Victims(same[..i], e), same[i]);
          if Filename(same[i]) in files {
            files := files - {Filename(same[i])};
            replacedAny := true;
          }
          left := left - 1;
        }
      }
      assert same[..|same|] == same && all[..|all|] == all;
      done := true;
    }

    /** `enqueue`: deduplicate, drop what the new action makes redundant, write the new record. */
    method Enqueue(e: DeferEntry, nanos: nat, budget: nat) returns (r: Option<EnqueueResult>)
      modifies this
      ensures files == Effects(old(files), Take(EnqueueEvents(old(files), e, nanos), budget))
      ensures r.None? <==> budget < |EnqueueEvents(old(files), e, nanos)|
      ensures r == Some(AlreadyExists) <==> Duplicate(old(files), e)
      ensures r == Some(Subsumed) <==> !Duplicate(old(files), e) && Dominated(old(files), e)
      ensures r == Some(ReplacedLowerPriority) ==> AnyThere(old(files), VictimsIn(old(files), e))
      ensures r == Some(Created) ==> !AnyThere(old(files), VictimsIn(old(files), e))
    {
      hide Filename, TmpName, Effects, Take, EnqueueEvents, UnlinkEvents, Victims, OnTarget, AtomicWriteEvents,
           AnyThere, Subsumes;
      ghost var d := files;
      EnqueueRun(d, e, nanos, budget);
      var existing := ListSorted();
      var same := OnTarget(existing, e);
      if exists x | x in same :: x.id == e.id {
        return Some(AlreadyExists);
      }
      if exists x | x in same :: Subsumes(x.action, e.action) {
        return Some(Subsumed);
      }
      var replacedAny, done, left := UnlinkVictims(same, e, budget);
      if !done {
        return None;
      }
      if replacedAny {
        if left == 0 {
          return None;
        }
        left := left - 1;
      }
      done, left := AtomicWrite(e, nanos, left, ByEnqueue(e));
      if !done {
        return None;
      }
      return Some(if replacedAny then ReplacedLowerPriority else Created);
    }

    /** `remove`, `bump_attempt` and `move_to_manual_clear` of one visited entry. */
    method Remove(e: DeferEntry, budget: nat) returns (done: bool, left: nat)
      modifies this
      ensures files == Effects(old(files), Take(RemoveEvents(e), budget))
      ensures done <==> budget >= 2
      ensures done ==> left == budget - 2
    {
      hide Filename, TmpName, ManualClearFilename;
      RunTwo(files, RemoveEvents(e));
      done, left := false, budget;
      if left == 0 { return; }
      files := files - {Filename(e)};
      left := left - 1;
      if left == 0 { return; }
      done, left := true, left - 1;
    }

    method BumpAttempt(e: DeferEntry, nanos: nat, budget: nat)
      returns (next: DeferEntry, done: bool, left: nat)
      modifies this
      ensures next == Bumped(e)
      ensures files == Effects(old(files), Take(AtomicWriteEvents(Bumped(e), nanos, ByReplay(e)), budget))
      ensures done <==> budget >= 4
      ensures done ==> left == budget - 4
    {
      next := e.(attemptCount := SaturatingInc(e.attemptCount));
      done, left := AtomicWrite(next, nanos, budget, ByReplay(e));
    }

    /** Renaming a file that is gone is an error, and the replay ends there. */
    method MoveToManualClear(e: DeferEntry, budget: nat, ghost visited: DeferEntry) returns (done: bool, left: nat)
      requires Filename(e) == Filename(visited) && ManualClearFilename(e) == ManualClearFilename(visited)
      modifies this
      ensures files == Effects(old(files), Take(PromoteEvents(visited), budget))
      ensures done <==> budget >= 2 && Filename(e) in old(files)
      ensures done ==> left == budget - 2
    {
      hide Filename, TmpName, ManualClearFilename;
      RunTwo(files, PromoteEvents(visited));
      done, left := false, budget;
      if left == 0 || Filename(e) !in files { return; }
      var content := files[Filename(e)];
      files := (files - {Filename(e)})[ManualClearFilename(e) := content];
      left := left - 1;
      if left == 0 { return; }
      done, left := true, left - 1;
    }

    /** The failure branch of the replay loop: count the attempt, promote at the limit. */
    method Fail(e: DeferEntry, nanos: nat, budget: nat) returns (promoted: bool, done: bool, left: nat)
      modifies this
      ensures files == Effects(old(files), Take(FailEvents(e, nanos), budget))
      ensures done <==> budget >= |FailEvents(e, nanos)|
      ensures done ==> left == budget - |FailEvents(e, nanos)| && promoted == Exhausted(e)
    {
      hide Filename, TmpName, ManualClearFilename;
      ghost var d := files;
      ghost var write := AtomicWriteEvents(Bumped(e), nanos, ByReplay(e));
      ghost var rest := if Exhausted(e) then PromoteEvents(e) else [];
      BumpedNames(e);
      RunConcat(d, write, rest, budget);
      promoted := false;
      var updated;
      updated, done, left := BumpAttempt(e, nanos, budget);
      if !done { return; }
      AtomicWriteAtEveryPoint(d, Bumped(e), nanos, ByReplay(e), 4);
      assert write[..4] == write;
      assert files == Effects(d, write);
      if updated.attemptCount >= updated.maxAttempts {
        done, left := MoveToManualClear(updated, left, e);
        promoted := true;
      }
    }

    /** One iteration of the replay loop, after the cancellation test. */
    method Visit(e: DeferEntry, a: Answer, budget: nat) returns (fate: Fate, done: bool, left: nat)
      modifies this
      ensures files == Effects(old(files), Take(VisitEvents(e, a), budget))
      ensures done <==> budget >= |VisitEvents(e, a)|
      ensures done ==> left == budget - |VisitEvents(e, a)| && fate == FateOf(e, a)
      ensures done ==> (fate.SkippedUnavailable? <==> a.dispatch.ClientUnavailable?)
      ensures done ==> (fate.Executed? <==> a.dispatch.DispatchOk? && (e.healthCheck.None? || a.health.HealthOk?))
      ensures done ==> (fate.KeptByCancel? <==>
                          a.dispatch.DispatchOk? && e.healthCheck.Some? && a.health.HealthCancelled?)
      ensures done && a.dispatch.ActionFailed? ==> fate.Failed? || fate.Promoted?
    {
      hide Filename, Effects, Take, FailEvents, VisitEvents;
      ghost var d := files;
      fate, done, left := Unreached, false, budget;
      VisitRun(d, e, a, budget);
      if left == 0 { return; }
      left := left - 1;
      match a.dispatch {
        case ClientUnavailable =>
          fate, done := SkippedUnavailable, true;
        case ActionFailed =>
          var promoted;
          promoted, done, left := Fail(e, a.nanos, left);
          fate := if promoted then Promoted else Failed;
        case DispatchOk =>
          if e.healthCheck.Some? {
            if left == 0 { return; }
            left := left - 1;
            if a.health.HealthCancelled? {
              fate, done := KeptByCancel, true;
              return;
            }
            if a.health.HealthFailed? {
              var promoted;
              promoted, done, left := Fail(e, a.nanos, left);
              fate := if promoted then Promoted else HealthCheckFailed;
              return;
            }
          }
          done, left := Remove(e, left);
          fate := Executed;
      }
    }

    /** `replay_with_health_check`: one pass over the snapshot taken at the start. */
    method Replay(answers: seq<Answer>, budget: nat) returns (report: ReplayReport, done: bool)
      modifies this
      ensures files == Effects(old(files), Take(ReplayEvents(old(files), answers), budget))
      ensures done <==> budget >= |ReplayEvents(old(files), answers)|
      ensures done ==> report == ReportUpTo(Listing(old(files)), answers, |Listing(old(files))|)
    {
      hide Filename, Effects, Take, VisitEvents, VisitsEvents, Listing, FateOf, ReportUpTo, Tally, Reached;
      ghost var d := files;
      report := ReplayReport(0, 0, 0, 0, 0);
      var entries := ListSorted();
      ghost var stop := Reached(|entries|, answers);
      var left := budget;
      var i := 0;
      EmptyRun(d, entries, answers);
      while i < |entries| && i < |answers| && !answers[i].cancelled
        invariant i <= stop
        invariant |VisitsEvents(entries, answers, i)| <= budget
        invariant left == budget - |VisitsEvents(entries, answers, i)|
        invariant files == Effects(d, VisitsEvents(entries, answers, i))
        invariant report == ReportUpTo(entries, answers, i)
        decreases |entries| - i
      {
        ReplayRun(d, entries, answers, i, stop, budget);
        var fate;
        fate, done, left := Visit(entries[i], answers[i], left);
        if !done { return; }
        TallyStep(entries, answers, i);
        report := Tally(report, fate);
        i := i + 1;
      }
      done := true;
      assert i == stop;
      TakeAll(VisitsEvents(entries, answers, i), budget);
      UnreachedAdds(entries, answers, i);
    }

    /** `clear_one`: the first match in directory order, which is unspecified. */
    method ClearOne(arg: string) returns (found: Option<string>)
      modifies this
      ensures found.Some? ==> ClearMatches(old(files), arg, found.value) && files == old(files) - {found.value}
      ensures found.None? ==> files == old(files) && forall n :: n in files ==> !ClearMatches(files, arg, n)
      ensures found.None? ==> forall n :: n in files && (IsDeferred(n) || IsManualClear(n)) ==>
                n != arg && (files[n].Record? ==> files[n].entry.id != arg)
    {
      hide Extension;
      var unread := files.Keys;
      while unread != {}
        invariant unread <= files.Keys && files == old(files)
        invariant forall n :: n in files && n !in unread ==> !ClearMatches(files, arg, n)
        decreases |unread|
      {
        var n :| n in unread;
        unread := unread - {n};
        if !IsDeferred(n) && !IsManualClear(n) { continue; }
        if n == arg || (files[n].Record? && files[n].entry.id == arg) {
          files := files - {n};
          return Some(n);
        }
      }
      return None;
    }

    /** `clear_all_manual`: every promoted record and nothing else. */
    method ClearAllManual() returns (removed: nat)
      modifies this
      ensures files == map n | n in old(files) && !IsManualClear(n) :: old(files)[n]
      ensures removed == |set n | n in old(files) && IsManualClear(n)|
      ensures Pending(files) == Pending(old(files))
    {
      hide Extension;
      var unread := files.Keys;
      ghost var gone: set<string> := {};
      removed := 0;
      while unread != {}
        invariant unread <= files.Keys
        invariant gone == set n | n in old(files) && n !in unread && IsManualClear(n)
        invariant files == map n | n in old(files) && n !in gone :: old(files)[n]
        invariant removed == |gone|
        decreases |unread|
      {
        var n :| n in unread;
        unread := unread - {n};
        if IsManualClear(n) {
          files := files - {n};
          removed := removed + 1;
          gone := gone + {n};
        }
      }
      assert gone == set n | n in old(files) && IsManualClear(n);
    }
  }

  // ---------------------------------------------------------------- helpers of the methods

  /** Where a budget lets an enqueue stop. */
  lemma EnqueueRun(d: Dir, e: DeferEntry, nanos: nat, budget: nat)
    ensures Duplicate(d, e) || Dominated(d, e) ==>
              EnqueueEvents(d, e, nanos) == [] && Effects(d, Take(EnqueueEvents(d, e, nanos), budget)) == d
    ensures !Duplicate(d, e) && !Dominated(d, e) ==>
              var unlinks := UnlinkEvents(VictimsIn(d, e), ByEnqueue(e));
              var write := AtomicWriteEvents(e, nanos, ByEnqueue(e));
              var synced := Prelude(d, e);
              && |EnqueueEvents(d, e, nanos)| == synced + 4
              && Effects(d, Take(EnqueueEvents(d, e, nanos), budget)) ==
                 if budget < synced then Effects(d, Take(unlinks, budget))
                 else Effects(Effects(d, Take(unlinks, budget)), Take(write, budget - synced))
  {
    hide Filename, TmpName, AtomicWriteEvents, VictimsIn, Listing, AnyThere;
    if !Duplicate(d, e) && !Dominated(d, e) {
      var unlinks := UnlinkEvents(VictimsIn(d, e), ByEnqueue(e));
      var write := AtomicWriteEvents(e, nanos, ByEnqueue(e));
      var sync := if AnyThere(d, VictimsIn(d, e)) then [FileEvent(SyncDir, ByEnqueue(e))] else [];
      assert |write| == 4 by { AtomicWriteLength(e, nanos, ByEnqueue(e)); }
      assert EnqueueEvents(d, e, nanos) == (unlinks + sync) + write;
      RunConcat(d, unlinks + sync, write, budget);
      RunConcat(d, unlinks, sync, budget);
      if sync != [] {
        assert sync[..0] == [] && sync[..1] == sync;
        assert Effects(Effects(d, unlinks), sync) == Effects(d, unlinks);
        EffectsConcat(d, unlinks, sync);
      } else {
        assert unlinks + sync == unlinks;
      }
    }
  }

  lemma NoVictims(d: Dir, same: seq<DeferEntry>, e: DeferEntry)
    ensures Victims(same[..0], e) == [] && !AnyThere(d, []) && Effects(d, []) == d
  {
  }

  /** The next entry is the next victim if it is one at all. */
  lemma VictimsStep(same: seq<DeferEntry>, e: DeferEntry, i: nat)
    requires i < |same|
    ensures var now := Victims(same[..i], e);
            if Subsumes(e.action, same[i].action)
            then Victims(same[..i + 1], e) == now + [same[i]] && |now| < |Victims(same, e)|
              && Victims(same, e)[|now|] == same[i]
            else Victims(same[..i + 1], e) == now
  {
    hide Subsumes;
    assert same[..i + 1][..i] == same[..i];
    VictimsPrefix(same, e, i + 1);
  }

  lemma AnyThereSnoc(d: Dir, vs: seq<DeferEntry>, v: DeferEntry)
    ensures AnyThere(d, vs + [v]) <==> AnyThere(d, vs) || Filename(v) in d
  {
    hide Filename;
    var longer := vs + [v];
    assert longer[|vs|] == v && forall i :: 0 <= i < |vs| ==> longer[i] == vs[i];
    if AnyThere(d, vs) {
      var i :| 0 <= i < |vs| && Filename(vs[i]) in d;
      assert Filename(longer[i]) in d;
    }
  }

  lemma AtomicWriteLength(e: DeferEntry, nanos: nat, cause: Cause)
    ensures |AtomicWriteEvents(e, nanos, cause)| == 4
  {
  }

  /** Where a budget lets a visit stop. */
  lemma VisitRun(d: Dir, e: DeferEntry, a: Answer, budget: nat)
    ensures Effects(d, Take(VisitEvents(e, a), budget)) ==
            if budget < |Asked(e, a)| then d else Effects(d, Take(Reaction(e, a), budget - |Asked(e, a)|))
    ensures Reaction(e, a) == [] ==> Effects(d, Take(VisitEvents(e, a), budget)) == d
    ensures |VisitEvents(e, a)| == |Asked(e, a)| + |Reaction(e, a)|
  {
    hide Reaction;
    RunConcat(d, Asked(e, a), Reaction(e, a), budget);
    Asking(d, Asked(e, a), budget);
  }

  /** Where a budget lets a replay stop: before, in or after its `i`-th visit. */
  lemma ReplayRun(d: Dir, entries: seq<DeferEntry>, answers: seq<Answer>, i: nat, n: nat, budget: nat)
    requires i < n <= |entries| && n <= |answers|
    requires budget >= |VisitsEvents(entries, answers, i)|
    ensures var before := VisitsEvents(entries, answers, i);
            var now := VisitEvents(entries[i], answers[i]);
            && VisitsEvents(entries, answers, i + 1) == before + now
            && (budget >= |before + now| ==>
                  Effects(d, before + now) == Effects(Effects(d, before), Take(now, budget - |before|)))
            && |before + now| <= |VisitsEvents(entries, answers, n)|
            && (budget < |before + now| ==>
                  Effects(d, Take(VisitsEvents(entries, answers, n), budget)) ==
                  Effects(Effects(d, before), Take(now, budget - |before|)))
  {
    hide VisitEvents;
    var before := VisitsEvents(entries, answers, i);
    var now := VisitEvents(entries[i], answers[i]);
    var all := VisitsEvents(entries, answers, n);
    VisitsPrefix(entries, answers, i + 1, n);
    var later := all[|before + now|..];
    assert all == (before + now) + later;
    RunConcat(d, before + now, later, budget);
    RunConcat(d, before, now, budget);
    EffectsConcat(d, before, now);
  }

  /** One visit adds its fate to the report. */
  lemma TallyStep(entries: seq<DeferEntry>, answers: seq<Answer>, i: nat)
    requires i < Reached(|entries|, answers)
    ensures Tally(ReportUpTo(entries, answers, i), FateOf(entries[i], answers[i])) ==
      ReportUpTo(entries, answers, i + 1)
  {
    hide FateOf, Reached;
    assert FateAt(entries, answers, i) == FateOf(entries[i], answers[i]);
  }

  lemma TakeAll(evs: seq<Event>, budget: nat)
    requires |evs| <= budget
    ensures Take(evs, budget) == evs
  {
  }

  lemma EmptyRun(d: Dir, entries: seq<DeferEntry>, answers: seq<Answer>)
    ensures VisitsEvents(entries, answers, 0) == []
    ensures Effects(d, []) == d
    ensures ReportUpTo(entries, answers, 0) == ReplayReport(0, 0, 0, 0, 0)
  {
  }

  lemma BumpedNames(e: DeferEntry)
    ensures Filename(Bumped(e)) == Filename(e)
    ensures ManualClearFilename(Bumped(e)) == ManualClearFilename(e)
  {
  }

  lemma VictimsPrefix(same: seq<DeferEntry>, e: DeferEntry, i: nat)
    requires i <= |same|
    ensures Victims(same[..i], e) <= Victims(same, e)
  {
    if i == |same| {
      assert same[..i] == same;
    } else {
      var shorter := same[..|same| - 1];
      assert shorter[..i] == same[..i];
      VictimsPrefix(shorter, e, i);
    }
  }

  /** Asking the outside world changes no file. */
  lemma Asking(d: Dir, asked: seq<Event>, budget: nat)
    requires forall i :: 0 <= i < |asked| ==> !asked[i].FileEvent?
    ensures Effects(d, asked) == d
    ensures Effects(d, Take(asked, budget)) == d
    decreases |asked|
  {
    if asked != [] {
      Asking(d, asked[..|asked| - 1], budget);
      if budget < |asked| {
        assert Take(asked, budget) == Take(asked[..|asked| - 1], budget);
      } else {
        assert Take(asked, budget) == asked;
      }
    }
  }

  lemma VisitsPrefix(entries: seq<DeferEntry>, answers: seq<Answer>, i: nat, n: nat)
    requires i <= n <= |entries| && n <= |answers|
    ensures VisitsEvents(entries, answers, i) <= VisitsEvents(entries, answers, n)
    decreases n
  {
    if i < n {
      VisitsPrefix(entries, answers, i, n - 1);
    }
  }

  /** Entries that are not reached add nothing to the report. */
  lemma UnreachedAdds(entries: seq<DeferEntry>, answers: seq<Answer>, i: nat)
    requires Reached(|entries|, answers) <= i <= |entries|
    ensures ReportUpTo(entries, answers, i) == ReportUpTo(entries, answers, |entries|)
    decreases |entries| - i
  {
    if i < |entries| {
      assert FateAt(entries, answers, i) == Unreached;
      UnreachedAdds(entries, answers, i + 1);
    }
  }
}
