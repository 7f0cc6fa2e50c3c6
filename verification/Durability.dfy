/**
 Power loss. A directory entry is safe only once the directory was synced: of what happened since the
 last sync any part may be lost, in any combination. The contents of a file are synced before it is
 renamed, so an entry that survives comes with its contents.
 */
module Durability {
  import opened Text
  import opened DeferFormat
  import opened Directory
  import opened Journal
  import opened EnqueueTheory
  import opened JournalRuns

  /** What one event changes in the directory. */
  datatype Update = Put(name: string, file: File) | Remove(name: string) | Move(src: string, dst: string, file: File)

  function Apply(d: Dir, u: Update): Dir {
    match u
    case Put(n, f) => d[n := f]
    case Remove(n) => d - {n}
    case Move(src, dst, f) => (d - {src})[dst := f]
  }

  function UpdatesOf(d: Dir, ev: Event): seq<Update> {
    if !ev.FileEvent? then []
    else
      match ev.op
      case Unlink(n) => [Remove(n)]
      case Create(n) => [Put(n, Garbage)]
      case Fill(n, e) => [Put(n, Record(e))]
      case Rename(src, dst) => if src in d then [Move(src, dst, d[src])] else []
      case SyncDir => []
  }

  predicate Syncs(ev: Event) {
    ev.FileEvent? && ev.op.SyncDir?
  }

  /**
   The disk: the directory as last synced, what changed since, and whether the running call has changed
   something that a sync would be for. The code leaves out the sync after unlinks that found no file.
   */
  datatype Disk = Disk(entries: Dir, unsynced: seq<Update>, took: bool)

  function Took(took: bool, d: Dir, ev: Event): bool {
    if !ev.FileEvent? then false
    else if ev.cause.ByOperator? then took
    else took || (ev.op.Unlink? && ev.op.name in d) || (ev.op.Rename? && ev.op.src in d)
  }

  /** What an event in the directory `d` does to the disk. */
  function DiskEvent(disk: Disk, d: Dir, ev: Event): Disk {
    if !Syncs(ev) then Disk(disk.entries, disk.unsynced + UpdatesOf(d, ev), Took(disk.took, d, ev))
    else if disk.took then Disk(d, [], false)
    else disk
  }

  ghost function DiskNext(disk: Disk, s: State, m: Move): Disk {
    match m
    case Begin(_) => if s.agent.Idle? then disk.(took := false) else disk
    case Crash => disk
    case Advance =>
      if s.agent.Idle? then disk
      else
        var evs := CallEvents(s.agent.start, s.agent.call);
        if s.agent.done >= |evs| || Fails(s.files, evs[s.agent.done]) then disk
        else DiskEvent(disk, s.files, evs[s.agent.done])
    case Clear(n) =>
      if n in s.files && Clearable(n) then DiskEvent(disk, s.files, FileEvent(Unlink(n), ByOperator)) else disk
  }

  /** A run together with its disk. */
  datatype Machine = Machine(run: State, disk: Disk)

  ghost function Step(x: Machine, m: Move): Machine {
    Machine(Next(x.run, m), DiskNext(x.disk, x.run, m))
  }

  ghost function Steps(x: Machine, ms: seq<Move>): Machine {
    if ms == [] then x else Step(Steps(x, ms[..|ms| - 1]), ms[|ms| - 1])
  }

  ghost function Boot(d: Dir): Machine {
    Machine(Initially(d), Disk(d, [], false))
  }

  /** The directory when only the updates marked in `kept` reach the disk. */
  function Surviving(d: Dir, us: seq<Update>, kept: seq<bool>): Dir
    requires |kept| == |us|
  {
    if us == [] then d
    else
      var k := |us| - 1;
      var before := Surviving(d, us[..k], kept[..k]);
      if kept[k] then Apply(before, us[k]) else before
  }

  function AfterPowerLoss(disk: Disk, kept: seq<bool>): Dir
    requires |kept| == |disk.unsynced|
  {
    Surviving(disk.entries, disk.unsynced, kept)
  }

  /** The first `k` of `n` updates are kept. */
  function First(k: nat, n: nat): (kept: seq<bool>)
    ensures |kept| == n
  {
    seq(n, i => i < k)
  }

  lemma SurvivingSnoc(d: Dir, us: seq<Update>, u: Update, kept: seq<bool>, keep: bool)
    requires |kept| == |us|
    ensures Surviving(d, us + [u], kept + [keep]) ==
            if keep then Apply(Surviving(d, us, kept), u) else Surviving(d, us, kept)
  {
    hide Apply;
    assert (us + [u])[..|us|] == us && (kept + [keep])[..|us|] == kept;
  }

  lemma FirstSnoc(k: nat, n: nat)
    ensures k <= n ==> First(k, n + 1) == First(k, n) + [false]
    ensures First(n + 1, n + 1) == First(n, n) + [true]
  {
  }

  /** On the live directory an update is what the event does. */
  lemma UpdateIsEffect(d: Dir, ev: Event)
    ensures Effect(d, ev) == if UpdatesOf(d, ev) == [] then d else Apply(d, UpdatesOf(d, ev)[0])
    ensures |UpdatesOf(d, ev)| <= 1
  {
  }

  // ---------------------------------------------------------------- what updates a run makes

  /** Only records under their own names are moved to the names that a listing shows, from names it does not. */
  ghost predicate Proper(u: Update) {
    && (u.Put? ==> !IsDeferred(u.name))
    && (u.Move? && IsDeferred(u.dst) ==>
          !IsDeferred(u.src) && u.file.Record? && WellFormed(u.file.entry) && Filename(u.file.entry) == u.dst)
  }

  ghost predicate AllProper(us: seq<Update>) {
    forall k :: 0 <= k < |us| ==> Proper(us[k])
  }

  lemma {:induction false} PublishedIsProper(d: Dir, s: State)
    requires Consistent(d, s) && s.agent.Busy? && s.agent.done < |CallEvents(s.agent.start, s.agent.call)|
    requires var evs := CallEvents(s.agent.start, s.agent.call);
             var k := s.agent.done;
             && evs[k].FileEvent? && evs[k].op.Rename? && evs[k].op.src in s.files && IsDeferred(evs[k].op.dst)
    ensures var op := CallEvents(s.agent.start, s.agent.call)[s.agent.done].op;
            && !IsDeferred(op.src) && s.files[op.src].Record?
            && WellFormed(s.files[op.src].entry) && Filename(s.files[op.src].entry) == op.dst
  {
    hide Good, Torn, CallEvents, WellFormed, Filename, ManualClearFilename, Extension, EndsWith, ByAgent;
    var a := s.agent;
    var evs := CallEvents(a.start, a.call);
    var op := evs[a.done].op;
    CallRenames(a.start, a.call, a.done);
    if evs[a.done].cause.ByReplay? { FilenameExtensions(evs[a.done].cause.visited, 0); }
    EffectsStep(a.start, evs, a.done - 1);
    assert Undisturbed(a)[op.src] == Record(evs[a.done - 1].op.entry);
    PartStep(s.files, Undisturbed(a), evs[a.done]);
    CallAdvances(s.files, a, s.trace);
    var next := Effect(s.files, evs[a.done]);
    assert op.dst in Pending(next) && Pending(next)[op.dst] == s.files[op.src].entry;
    GoodNames(next, op.dst);
  }

  lemma GoodNames(d: Dir, n: string)
    requires Good(d) && n in Pending(d)
    ensures WellFormed(Pending(d)[n]) && Filename(Pending(d)[n]) == n
  {
    hide Pending, WellFormed, Filename;
  }

  lemma {:induction false} AdvanceIsProper(d: Dir, s: State)
    requires Consistent(d, s) && s.agent.Busy? && s.agent.done < |CallEvents(s.agent.start, s.agent.call)|
    ensures AllProper(UpdatesOf(s.files, CallEvents(s.agent.start, s.agent.call)[s.agent.done]))
  {
    hide Good, Torn, CallEvents, WellFormed, Filename, IsDeferred, IsManualClear, EndsWith, ByAgent, Part,
         Undisturbed;
    var ev := CallEvents(s.agent.start, s.agent.call)[s.agent.done];
    AgentCauses(s.agent.start, s.agent.call, s.agent.done);
    if ev.FileEvent? && ev.op.Rename? && ev.op.src in s.files && IsDeferred(ev.op.dst) {
      PublishedIsProper(d, s);
    }
  }

  /** What is on disk, and what is on its way there. */
  ghost predicate Sound(d: Dir, files: Dir, disk: Disk) {
    var us := disk.unsynced;
    && Good(disk.entries) && Torn(disk.entries) <= Torn(d) && AllProper(us)
    && Surviving(disk.entries, us, First(|us|, |us|)) == files
    && forall k :: 0 <= k <= |us| ==> Good(Surviving(disk.entries, us, First(k, |us|)))
  }

  ghost predicate SoundMachine(d: Dir, x: Machine) {
    Consistent(d, x.run) && Sound(d, x.run.files, x.disk)
  }

  /** One more event, which leaves a consistent directory. */
  lemma {:induction false} EventIsSound(d: Dir, files: Dir, disk: Disk, ev: Event)
    requires Sound(d, files, disk) && Good(files) && Torn(files) <= Torn(d)
    requires Good(Effect(files, ev)) && AllProper(UpdatesOf(files, ev))
    ensures Sound(d, Effect(files, ev), DiskEvent(disk, files, ev))
  {
    hide Good, Torn, UpdatesOf, Apply, Proper, Surviving, First, Effect;
    UpdateIsEffect(files, ev);
    var us, more := disk.unsynced, UpdatesOf(files, ev);
    if Syncs(ev) {
      NothingLost(files);
      SyncKeepsFiles(files, ev);
    } else if more == [] {
      assert us + more == us;
    } else {
      OneMoreUpdate(disk.entries, us, more[0]);
      var all := us + [more[0]];
      assert us + more == all;
      forall k | 0 <= k <= |all|
        ensures Good(Surviving(disk.entries, all, First(k, |all|)))
      {
        if k <= |us| {
          assert Surviving(disk.entries, all, First(k, |all|)) == Surviving(disk.entries, us, First(k, |us|));
        }
      }
    }
  }

  lemma NothingLost(d: Dir)
    ensures forall k :: Surviving(d, [], First(k, 0)) == d
  {
  }

  lemma SyncKeepsFiles(d: Dir, ev: Event)
    requires Syncs(ev)
    ensures Effect(d, ev) == d && UpdatesOf(d, ev) == []
  {
  }

  lemma OneMoreUpdate(disk: Dir, us: seq<Update>, u: Update)
    ensures Surviving(disk, us + [u], First(|us| + 1, |us| + 1)) == Apply(Surviving(disk, us, First(|us|, |us|)), u)
    ensures forall k: nat :: k <= |us| ==>
      Surviving(disk, us + [u], First(k, |us| + 1)) == Surviving(disk, us, First(k, |us|))
  {
    hide Apply, First, Surviving;
    FirstSnoc(|us|, |us|);
    SurvivingSnoc(disk, us, u, First(|us|, |us|), true);
    forall k: nat | k <= |us|
      ensures Surviving(disk, us + [u], First(k, |us| + 1)) == Surviving(disk, us, First(k, |us|))
    {
      FirstSnoc(k, |us|);
      SurvivingSnoc(disk, us, u, First(k, |us|), false);
    }
  }

  lemma {:induction false} StepIsSound(d: Dir, x: Machine, m: Move)
    requires SoundMachine(d, x) && WellFormedMove(m)
    ensures SoundMachine(d, Step(x, m))
  {
    hide Good, Torn, CallEvents, Effect, Effects, Fails, Clearable, CallGoesOn, UpdatesOf, WellFormedCall, AllProper,
         Surviving, DiskEvent;
    var s := x.run;
    MoveIsConsistent(d, s, m);
    match m {
      case Advance =>
        if s.agent.Busy? {
          var evs := CallEvents(s.agent.start, s.agent.call);
          if s.agent.done < |evs| && !Fails(s.files, evs[s.agent.done]) {
            AdvanceIsProper(d, s);
            EventIsSound(d, s.files, x.disk, evs[s.agent.done]);
          }
        }
      case Clear(n) =>
        if n in s.files && Clearable(n) {
          ClearIsProper(s.files, n);
          EventIsSound(d, s.files, x.disk, FileEvent(Unlink(n), ByOperator));
        }
      case _ =>
    }
  }

  lemma ClearIsProper(d: Dir, n: string)
    ensures AllProper(UpdatesOf(d, FileEvent(Unlink(n), ByOperator)))
    ensures Effect(d, FileEvent(Unlink(n), ByOperator)) == d - {n}
  {
  }

  lemma BootIsSound(d: Dir)
    requires Good(d)
    ensures SoundMachine(d, Boot(d))
  {
    hide Good, Consistent;
    StartIsConsistent(d);
    NothingLost(d);
  }

  lemma {:induction false} AlwaysSound(d: Dir, ms: seq<Move>)
    requires Good(d) && WellFormedMoves(ms)
    ensures SoundMachine(d, Steps(Boot(d), ms))
  {
    hide Good, Step, WellFormedMove, SoundMachine;
    if ms == [] {
      BootIsSound(d);
    } else {
      AlwaysSound(d, ms[..|ms| - 1]);
      StepIsSound(d, Steps(Boot(d), ms[..|ms| - 1]), ms[|ms| - 1]);
    }
  }

  /** The disk does not influence the run, so what holds of runs holds here. */
  lemma {:induction false} StepsRun(x: Machine, ms: seq<Move>)
    ensures Steps(x, ms).run == After(x.run, ms)
  {
    hide Next, DiskNext;
    if ms != [] { StepsRun(x, ms[..|ms| - 1]); }
  }

  // ---------------------------------------------------------------- nothing is torn

  lemma ApplyKeepsNames(d: Dir, u: Update)
    requires Valid(Pending(d)) && Proper(u)
    ensures Valid(Pending(Apply(d, u))) && Torn(Apply(d, u)) <= Torn(d)
  {
    hide WellFormed, Filename, IsDeferred;
    var p, q := Pending(d), Pending(Apply(d, u));
    forall n | n in q
      ensures WellFormed(q[n]) && Filename(q[n]) == n
    {
      if !(u.Move? && u.dst == n) { assert n in p && q[n] == p[n]; }
    }
  }

  lemma {:induction false} SurvivorsKeepNames(d: Dir, us: seq<Update>, kept: seq<bool>)
    requires |kept| == |us| && Valid(Pending(d)) && AllProper(us)
    ensures Valid(Pending(Surviving(d, us, kept))) && Torn(Surviving(d, us, kept)) <= Torn(d)
  {
    hide Pending, Torn, Valid, Apply, Proper;
    if us != [] {
      var k := |us| - 1;
      SurvivorsKeepNames(d, us[..k], kept[..k]);
      if kept[k] { ApplyKeepsNames(Surviving(d, us[..k], kept[..k]), us[k]); }
    }
  }

  /**
   Power loss at any point of any run, whatever part of the unsynced changes it takes: every visible record
   is well formed, sits under its own name and is whole. If changes reach the disk in their order, no record
   makes another redundant either.
   */
  lemma {:induction false} PowerLossTearsNothing(d: Dir, ms: seq<Move>, kept: seq<bool>)
    requires Good(d) && WellFormedMoves(ms) && |kept| == |Steps(Boot(d), ms).disk.unsynced|
    ensures var left := AfterPowerLoss(Steps(Boot(d), ms).disk, kept);
            && Valid(Pending(left)) && Torn(left) <= Torn(d)
            && ((exists k :: 0 <= k <= |kept| && kept == First(k, |kept|)) ==> Good(left))
  {
    hide Pending, Torn, Valid, Antichain, Steps, WellFormedMoves, AllProper, First, Surviving, Consistent;
    AlwaysSound(d, ms);
    var disk := Steps(Boot(d), ms).disk;
    SurvivorsKeepNames(disk.entries, disk.unsynced, kept);
  }

  // ---------------------------------------------------------------- which records survive

  predicate Removes(u: Update, n: string) {
    (u.Remove? && u.name == n) || (u.Move? && u.src == n)
  }

  predicate Publishes(u: Update) {
    u.Move? && IsDeferred(u.dst)
  }

  /** On disk there is a record for `r`, and nothing on its way to the disk removes it. */
  ghost predicate SecuredBy(disk: Dir, us: seq<Update>, n: string, r: DeferEntry) {
    && n in Pending(disk) && Covers(Pending(disk)[n], r)
    && forall k :: 0 <= k < |us| ==> !Removes(us[k], n)
  }

  ghost predicate Secured(disk: Disk, r: DeferEntry) {
    exists n :: SecuredBy(disk.entries, disk.unsynced, n, r)
  }

  lemma ApplyKeeps(d: Dir, u: Update, n: string)
    requires n in Pending(d) && Proper(u) && !Removes(u, n)
    ensures n in Pending(Apply(d, u))
  {
    hide WellFormed, Filename, IsDeferred;
  }

  /** What is on disk and not removed is there whatever survives. */
  lemma {:induction false} NotRemovedStays(d: Dir, us: seq<Update>, kept: seq<bool>, n: string)
    requires |kept| == |us| && AllProper(us) && n in Pending(d) && forall k :: 0 <= k < |us| ==> !Removes(us[k], n)
    ensures n in Pending(Surviving(d, us, kept))
  {
    hide Pending, Apply, Proper, Removes;
    if us != [] {
      var k := |us| - 1;
      NotRemovedStays(d, us[..k], kept[..k], n);
      if kept[k] { ApplyKeeps(Surviving(d, us[..k], kept[..k]), us[k], n); }
    }
  }

  /** The updates that publish nothing. */
  function Losses(us: seq<Update>): (kept: seq<bool>)
    ensures |kept| == |us|
  {
    seq(|us|, i requires 0 <= i < |us| => !Publishes(us[i]))
  }

  lemma ApplyLoss(d: Dir, u: Update, n: string)
    requires Proper(u)
    ensures !Publishes(u) && n in Pending(Apply(d, u)) ==>
              n in Pending(d) && Pending(Apply(d, u))[n] == Pending(d)[n] && !Removes(u, n)
    ensures Publishes(u) && IsDeferred(n) ==> !Removes(u, n)
  {
    hide WellFormed, Filename, IsDeferred;
  }

  /** When exactly those survive, only what was on disk and is not removed is left. */
  lemma {:induction false} LossesLeave(d: Dir, us: seq<Update>, n: string)
    requires AllProper(us) && n in Pending(Surviving(d, us, Losses(us)))
    ensures n in Pending(d) && Pending(Surviving(d, us, Losses(us)))[n] == Pending(d)[n]
    ensures forall k :: 0 <= k < |us| ==> !Removes(us[k], n)
  {
    hide Pending, Apply, Proper, Removes, Publishes;
    if us != [] {
      var k := |us| - 1;
      assert Losses(us)[..k] == Losses(us[..k]);
      PendingIsThere(Surviving(d, us, Losses(us)), n);
      ApplyLoss(Surviving(d, us[..k], Losses(us[..k])), us[k], n);
      LossesLeave(d, us[..k], n);
    }
  }

  /** A name stands for one request, so what is there under it covers what it covered. */
  lemma {:induction false} SurvivorCovers(disk: Dir, us: seq<Update>, kept: seq<bool>, n: string, r: DeferEntry)
    requires |kept| == |us| && Good(disk) && AllProper(us) && WellFormed(r) && SecuredBy(disk, us, n, r)
    ensures n in Pending(Surviving(disk, us, kept)) && Covers(Pending(Surviving(disk, us, kept))[n], r)
  {
    hide Pending, AllProper, WellFormed, Filename, Surviving, Removes, Covers, Antichain;
    NotRemovedStays(disk, us, kept, n);
    SurvivorsKeepNames(disk, us, kept);
    var p, q := Pending(disk), Pending(Surviving(disk, us, kept));
    FilenameIsId(q[n], p[n]);
    assert Covers(q[n], p[n]) by { SameIdCovers(q[n], p[n]); }
    CoversTransitive(q[n], p[n], r);
  }

  lemma SameIdCovers(e: DeferEntry, f: DeferEntry)
    requires e.id == f.id
    ensures Covers(e, f)
  {
  }

  /**
   Exactly when a request cannot be lost by a power loss now: on disk there is a record for it, and no
   unsynced change removes that record.
   */
  lemma {:induction false} SurvivesPowerLossIff(d: Dir, ms: seq<Move>, r: DeferEntry)
    requires Good(d) && WellFormedMoves(ms) && WellFormed(r)
    ensures var disk := Steps(Boot(d), ms).disk;
            (forall kept :: |kept| == |disk.unsynced| ==> Covered(Pending(AfterPowerLoss(disk, kept)), r))
            <==> Secured(disk, r)
  {
    hide Good, Torn, Pending, Steps, WellFormedMoves, WellFormed, AllProper, First, Surviving, Consistent, Covers,
         Removes;
    AlwaysSound(d, ms);
    var disk := Steps(Boot(d), ms).disk;
    var us := disk.unsynced;
    if n :| SecuredBy(disk.entries, us, n, r) {
      forall kept: seq<bool> | |kept| == |us|
        ensures Covered(Pending(AfterPowerLoss(disk, kept)), r)
      {
        SurvivorCovers(disk.entries, us, kept, n, r);
      }
    }
    if forall kept :: |kept| == |us| ==> Covered(Pending(AfterPowerLoss(disk, kept)), r) {
      var left := AfterPowerLoss(disk, Losses(us));
      assert Covered(Pending(left), r);
      var n :| n in Pending(left) && Covers(Pending(left)[n], r);
      LossesLeave(disk.entries, us, n);
      assert SecuredBy(disk.entries, us, n, r);
    }
  }

  // ---------------------------------------------------------------- redundancy after a power loss

  /** The record is on disk, or on its way there. */
  ghost predicate Possible(disk: Dir, us: seq<Update>, e: DeferEntry) {
    || (Filename(e) in Pending(disk) && Pending(disk)[Filename(e)] == e)
    || (exists k :: 0 <= k < |us| && Publishes(us[k]) && us[k].file == Record(e))
  }

  /** Of what is on disk or on its way there, no record makes another redundant. */
  ghost predicate NoneRedundant(disk: Dir, us: seq<Update>) {
    forall e, f :: Possible(disk, us, e) && Possible(disk, us, f) && SameTarget(e, f) ==> !Subsumes(e.action, f.action)
  }

  lemma ApplyPossible(d: Dir, u: Update, n: string)
    requires Proper(u) && n in Pending(Apply(d, u))
    ensures || (n in Pending(d) && Pending(Apply(d, u))[n] == Pending(d)[n])
            || (Publishes(u) && u.file == Record(Pending(Apply(d, u))[n]))
  {
    hide WellFormed, Filename, IsDeferred;
  }

  lemma {:induction false} SurvivorIsPossible(disk: Dir, us: seq<Update>, kept: seq<bool>, n: string)
    requires |kept| == |us| && Good(disk) && AllProper(us) && n in Pending(Surviving(disk, us, kept))
    ensures Possible(disk, us, Pending(Surviving(disk, us, kept))[n])
  {
    hide Pending, Proper, Apply, Publishes, Filename, WellFormed, Antichain;
    var left := Surviving(disk, us, kept);
    if us != [] {
      var k := |us| - 1;
      var before := Surviving(disk, us[..k], kept[..k]);
      if kept[k] { ApplyPossible(before, us[k], n); }
      if n in Pending(before) && Pending(left)[n] == Pending(before)[n] {
        SurvivorIsPossible(disk, us[..k], kept[..k], n);
      }
    }
  }

  /** The updates that publish something. */
  function Gains(us: seq<Update>): (kept: seq<bool>)
    ensures |kept| == |us|
  {
    seq(|us|, i requires 0 <= i < |us| => Publishes(us[i]))
  }

  lemma ApplyGain(d: Dir, u: Update, n: string)
    requires Proper(u) && Publishes(u) && IsDeferred(n)
    ensures n in Pending(d) || u.dst == n ==> n in Pending(Apply(d, u))
  {
    hide WellFormed, Filename, IsDeferred;
  }

  /** When exactly those survive, every possible record has its name there. */
  lemma {:induction false} GainsHold(disk: Dir, us: seq<Update>, e: DeferEntry)
    requires AllProper(us) && Possible(disk, us, e)
    ensures Filename(e) in Pending(Surviving(disk, us, Gains(us)))
  {
    hide Pending, Apply, Filename, WellFormed, IsDeferred;
    if us != [] {
      var k := |us| - 1;
      assert Gains(us)[..k] == Gains(us[..k]);
      assert IsDeferred(Filename(e)) by { DeferredName(e); }
      if Publishes(us[k]) { ApplyGain(Surviving(disk, us[..k], Gains(us[..k])), us[k], Filename(e)); }
      if !(Publishes(us[k]) && us[k].file == Record(e)) { GainsHold(disk, us[..k], e); }
    }
  }

  lemma DeferredName(e: DeferEntry)
    ensures IsDeferred(Filename(e))
  {
    hide Filename, Extension;
    FilenameExtensions(e, 0);
  }

  lemma {:induction false} PossibleIsWellFormed(disk: Dir, us: seq<Update>, e: DeferEntry)
    requires Good(disk) && AllProper(us) && Possible(disk, us, e)
    ensures WellFormed(e)
  {
    hide Pending, Filename, WellFormed, Antichain, IsDeferred;
    if k :| 0 <= k < |us| && Publishes(us[k]) && us[k].file == Record(e) { assert Proper(us[k]); }
  }

  /** Records of the names of `e` and `f` relate as `e` and `f` do. */
  lemma {:induction false} RedundantByName(e: DeferEntry, f: DeferEntry, e': DeferEntry, f': DeferEntry)
    requires WellFormed(e) && WellFormed(f) && WellFormed(e') && WellFormed(f')
    requires Filename(e) == Filename(e') && Filename(f) == Filename(f')
    ensures SameTarget(e, f) <==> SameTarget(e', f')
    ensures Subsumes(e.action, f.action) <==> Subsumes(e'.action, f'.action)
  {
    hide Filename, WellFormed, Subsumes;
    FilenameIsId(e, e');
    FilenameIsId(f, f');
    IdDetermines(e, e');
    IdDetermines(f, f');
    KindDecidesSubsumption(e.action, e'.action, f.action);
    KindDecidesSubsumption(f.action, f'.action, e'.action);
  }

  /** Whatever survives, no record makes another redundant, if and only if none on disk or on its way does. */
  lemma {:induction false} PowerLossIsGoodIff(d: Dir, ms: seq<Move>)
    requires Good(d) && WellFormedMoves(ms)
    ensures var disk := Steps(Boot(d), ms).disk;
            (forall kept :: |kept| == |disk.unsynced| ==> Good(AfterPowerLoss(disk, kept)))
            <==> NoneRedundant(disk.entries, disk.unsynced)
  {
    hide Pending, Valid, Torn, Antichain, Steps, WellFormedMoves, AllProper, First, Surviving, Consistent, Possible,
         NoneRedundant;
    AlwaysSound(d, ms);
    var disk := Steps(Boot(d), ms).disk;
    var us := disk.unsynced;
    if NoneRedundant(disk.entries, us) {
      forall kept: seq<bool> | |kept| == |us|
        ensures Good(AfterPowerLoss(disk, kept))
      {
        SurvivorsKeepNames(disk.entries, us, kept);
        NoneRedundantLeft(disk.entries, us, kept);
      }
    }
    if forall kept :: |kept| == |us| ==> Good(AfterPowerLoss(disk, kept)) {
      var left := AfterPowerLoss(disk, Gains(us));
      assert Good(left);
      GainsAreIrredundant(disk.entries, us);
    }
  }

  lemma {:induction false} NoneRedundantLeft(disk: Dir, us: seq<Update>, kept: seq<bool>)
    requires |kept| == |us| && Good(disk) && AllProper(us) && NoneRedundant(disk, us)
    ensures Antichain(Pending(Surviving(disk, us, kept)))
  {
    hide Pending, AllProper, Surviving, Possible, Good, SameTarget, Subsumes;
    var p := Pending(Surviving(disk, us, kept));
    forall m, n | m in p && n in p && SameTarget(p[m], p[n])
      ensures !Subsumes(p[m].action, p[n].action)
    {
      SurvivorIsPossible(disk, us, kept, m);
      SurvivorIsPossible(disk, us, kept, n);
    }
  }

  lemma {:induction false} GainsAreIrredundant(disk: Dir, us: seq<Update>)
    requires Good(disk) && AllProper(us) && Good(Surviving(disk, us, Gains(us)))
    ensures NoneRedundant(disk, us)
  {
    hide Pending, AllProper, Surviving, Possible, SameTarget, Subsumes, Gains, Filename, WellFormed;
    var p := Pending(Surviving(disk, us, Gains(us)));
    forall e, f | Possible(disk, us, e) && Possible(disk, us, f) && SameTarget(e, f)
      ensures !Subsumes(e.action, f.action)
    {
      GainsHold(disk, us, e);
      GainsHold(disk, us, f);
      PossibleIsWellFormed(disk, us, e);
      PossibleIsWellFormed(disk, us, f);
      RedundantByName(e, f, p[Filename(e)], p[Filename(f)]);
    }
  }

  // ---------------------------------------------------------------- accepted requests survive

  /** The enqueue is one that writes. */
  ghost predicate Writes(a: Agent) {
    && a.Busy? && a.call.EnqueueCall?
    && !Duplicate(a.start, a.call.request) && !Dominated(a.start, a.call.request)
  }

  /** The request that covers `r` is published and not yet synced. */
  ghost predicate AwaitsSync(x: Machine, r: DeferEntry) {
    var a := x.run.agent;
    && Writes(a) && a.done == Prelude(a.start, a.call.request) + 3 && x.disk.took
    && Covers(a.call.request, r)
    && Filename(a.call.request) in Pending(x.run.files)
    && Pending(x.run.files)[Filename(a.call.request)] == a.call.request
  }

  /** An enqueue that replaces what stood for `r`, or itself stands for it, has not synced its record yet. */
  ghost predicate InUnsyncedFlight(a: Agent, r: DeferEntry) {
    || InFlight(a, r)
    || (Writes(a) && a.done == Prelude(a.start, a.call.request) + 3 && Covers(a.call.request, r))
  }

  ghost predicate DurablyHeld(d: Dir, x: Machine, from: nat, r: DeferEntry) {
    Discharged(d, x.run.trace, from, r) || InFlight(x.run.agent, r) || AwaitsSync(x, r) || Secured(x.disk, r)
  }

  ghost predicate NeverDiesInUnsyncedFlight(x: Machine, ms: seq<Move>, r: DeferEntry) {
    forall i :: 0 <= i < |ms| && ms[i].Crash? ==> !InUnsyncedFlight(Steps(x, ms[..i]).run.agent, r)
  }

  /** What is secured is there. */
  lemma {:induction false} SecuredIsPending(d: Dir, files: Dir, disk: Disk, n: string, r: DeferEntry)
    requires Sound(d, files, disk) && WellFormed(r) && SecuredBy(disk.entries, disk.unsynced, n, r)
    ensures n in Pending(files) && Covers(Pending(files)[n], r)
  {
    hide Good, Torn, Pending, WellFormed, AllProper, First, Surviving, Covers, SecuredBy;
    var us := disk.unsynced;
    SurvivorCovers(disk.entries, us, First(|us|, |us|), n, r);
  }

  /** What is there when the directory is synced is secured. */
  lemma SyncSecures(disk: Disk, files: Dir, ev: Event, n: string, r: DeferEntry)
    requires Syncs(ev) && disk.took && n in Pending(files) && Covers(Pending(files)[n], r)
    ensures Secured(DiskEvent(disk, files, ev), r)
  {
    hide Pending, Covers;
    assert SecuredBy(files, [], n, r);
  }

  /** An event that leaves the record pending leaves it secured. */
  lemma {:induction false} StaysSecured(disk: Disk, files: Dir, ev: Event, n: string, r: DeferEntry)
    requires SecuredBy(disk.entries, disk.unsynced, n, r) && !(Syncs(ev) && disk.took)
    requires AllProper(UpdatesOf(files, ev)) && n in Pending(Effect(files, ev))
    ensures Secured(DiskEvent(disk, files, ev), r)
  {
    hide Covers, Pending, WellFormed, Filename, IsDeferred, Effect, UpdatesOf;
    UpdateIsEffect(files, ev);
    var more := UpdatesOf(files, ev);
    if more != [] { PendingIsNotRemoved(files, more[0], n); }
    var next := DiskEvent(disk, files, ev);
    assert SecuredBy(next.entries, next.unsynced, n, r);
  }

  lemma PendingIsNotRemoved(d: Dir, u: Update, n: string)
    requires Proper(u) && n in Pending(Apply(d, u))
    ensures !Removes(u, n)
  {
    hide WellFormed, Filename, IsDeferred;
  }

  /** A secured record stays so, or its request is taken in flight or discharged. */
  lemma {:induction false} AdvanceKeepsSecured(d: Dir, x: Machine, n: string, from: nat, r: DeferEntry)
    requires from <= |x.run.trace| && SoundMachine(d, x) && x.run.agent.Busy? && WellFormed(r)
    requires SecuredBy(x.disk.entries, x.disk.unsynced, n, r)
    requires var evs := CallEvents(x.run.agent.start, x.run.agent.call);
             x.run.agent.done < |evs| && !Fails(x.run.files, evs[x.run.agent.done])
    ensures DurablyHeld(d, Step(x, Advance), from, r)
  {
    hide Good, Torn, CallEvents, WellFormed, Effect, Effects, Fails, ByAgent, Justified, Pending, Discharged,
         InFlight, Covers, CallGoesOn, AllProper, UpdatesOf, SecuredBy, Sound, Secured, AwaitsSync, Syncs, DiskEvent;
    var s := x.run;
    var ev := CallEvents(s.agent.start, s.agent.call)[s.agent.done];
    SecuredIsPending(d, s.files, x.disk, n, r);
    if Syncs(ev) && x.disk.took {
      SyncSecures(x.disk, s.files, ev, n, r);
    } else if n in Pending(Effect(s.files, ev)) {
      AdvanceIsProper(d, s);
      StaysSecured(x.disk, s.files, ev, n, r);
    } else {
      AdvanceDeparture(d, s, n);
      JustifiedIsFileEvent(s.files, ByAgent(s.trace), ev, n);
      if ev.cause.ByEnqueue? {
        TakenInFlight(d, s, n, r);
      } else {
        LeftIsDischarged(d, s.trace, ev, n, from, r);
      }
    }
  }

  /** A request in flight is published, and then awaits the sync. */
  lemma {:induction false} FlightLands(d: Dir, x: Machine, r: DeferEntry)
    requires SoundMachine(d, x) && InFlight(x.run.agent, r)
    ensures InFlight(Step(x, Advance).run.agent, r) || AwaitsSync(Step(x, Advance), r)
  {
    hide Good, Torn, EnqueueEvents, WellFormed, Filename, Duplicate, Dominated, Prelude, VictimsIn, Pending, Effect,
         CallGoesOn, Sound, Fails, DiskNext;
    var a := x.run.agent;
    EnqueueShape(a.start, a.call.request, a.call.nanos);
    if a.done == Prelude(a.start, a.call.request) + 2 {
      PublishedAwaits(d, x);
    } else {
      assert !Fails(x.run.files, EnqueueEvents(a.start, a.call.request, a.call.nanos)[a.done]) by { NoRename(a); }
    }
  }

  lemma NoRename(a: Agent)
    requires Writes(a) && a.done < Prelude(a.start, a.call.request) + 2
    ensures a.done < |EnqueueEvents(a.start, a.call.request, a.call.nanos)|
    ensures forall files :: !Fails(files, EnqueueEvents(a.start, a.call.request, a.call.nanos)[a.done])
  {
    hide EnqueueEvents, Duplicate, Dominated, Prelude;
    EnqueueShape(a.start, a.call.request, a.call.nanos);
  }

  /** After its rename the request awaits the sync. */
  lemma {:induction false} PublishedAwaits(d: Dir, x: Machine)
    requires SoundMachine(d, x) && Writes(x.run.agent)
    requires x.run.agent.done == Prelude(x.run.agent.start, x.run.agent.call.request) + 2
    ensures Step(x, Advance).run.agent == x.run.agent.(done := x.run.agent.done + 1)
    ensures forall r :: Covers(x.run.agent.call.request, r) ==> AwaitsSync(Step(x, Advance), r)
  {
    hide Good, Torn, EnqueueEvents, WellFormed, Filename, Duplicate, Dominated, Prelude, Pending, CallGoesOn, Sound,
         Covers, Effect, TmpName;
    var a := x.run.agent;
    EnqueueShape(a.start, a.call.request, a.call.nanos);
    JournalRuns.Publishes(d, x.run);
  }

  /** The sync after the rename secures the request. */
  lemma {:induction false} SyncLands(d: Dir, x: Machine, r: DeferEntry)
    requires SoundMachine(d, x) && AwaitsSync(x, r)
    ensures Secured(Step(x, Advance).disk, r)
  {
    hide Good, Torn, EnqueueEvents, WellFormed, Filename, Duplicate, Dominated, Prelude, Pending, CallGoesOn, Sound,
         Covers, Effect, Secured, DiskEvent;
    var a := x.run.agent;
    var e := a.call.request;
    EnqueueShape(a.start, e, a.call.nanos);
    SyncSecures(x.disk, x.run.files, EnqueueEvents(a.start, e, a.call.nanos)[a.done], Filename(e), r);
  }

  lemma {:induction false} AdvanceHoldsDurably(d: Dir, x: Machine, from: nat, r: DeferEntry)
    requires from <= |x.run.trace| && SoundMachine(d, x) && x.run.agent.Busy? && WellFormed(r)
    requires DurablyHeld(d, x, from, r)
    ensures DurablyHeld(d, Step(x, Advance), from, r)
  {
    hide SoundMachine, WellFormed, CallEvents, Effect, Fails, Discharged, SecuredBy, InFlight, AwaitsSync, DiskEvent;
    if Discharged(d, x.run.trace, from, r) {
      AdvanceKeepsDischarged(d, x.run, from, r);
    } else if InFlight(x.run.agent, r) {
      FlightLands(d, x, r);
    } else if AwaitsSync(x, r) {
      SyncLands(d, x, r);
    } else {
      var n :| SecuredBy(x.disk.entries, x.disk.unsynced, n, r);
      var evs := CallEvents(x.run.agent.start, x.run.agent.call);
      if x.run.agent.done < |evs| && !Fails(x.run.files, evs[x.run.agent.done]) {
        AdvanceKeepsSecured(d, x, n, from, r);
      }
    }
  }

  lemma {:induction false} ClearHoldsDurably(d: Dir, x: Machine, n: string, from: nat, r: DeferEntry)
    requires from <= |x.run.trace| && SoundMachine(d, x) && WellFormed(r) && n in x.run.files && Clearable(n)
    requires DurablyHeld(d, x, from, r)
    ensures DurablyHeld(d, Step(x, Clear(n)), from, r)
  {
    hide Good, Torn, WellFormed, CallEvents, Effects, Discharged, SecuredBy, InFlight, Sound, Justified, ByAgent,
         Pending, Covers, Clearable, CallGoesOn, Secured, UpdatesOf, Filename, Duplicate, Dominated, Prelude, Effect;
    var s, ev := x.run, FileEvent(Unlink(n), ByOperator);
    ClearIsJustified(s.files, ByAgent(s.trace), n);
    ClearIsProper(s.files, n);
    UnlinkEffect(s.files, n);
    if Discharged(d, s.trace, from, r) {
      DischargedLonger(d, s.trace, ev, from, r);
    } else if AwaitsSync(x, r) {
      if n == Filename(s.agent.call.request) { LeftIsDischarged(d, s.trace, ev, n, from, r); }
    } else if Secured(x.disk, r) {
      ClearKeepsSecured(d, x, n, from, r);
    }
  }

  lemma {:induction false} ClearKeepsSecured(d: Dir, x: Machine, n: string, from: nat, r: DeferEntry)
    requires from <= |x.run.trace| && SoundMachine(d, x) && WellFormed(r) && Secured(x.disk, r)
    ensures var ev := FileEvent(Unlink(n), ByOperator);
            Discharged(d, x.run.trace + [ev], from, r) || Secured(DiskEvent(x.disk, x.run.files, ev), r)
  {
    hide Good, Torn, WellFormed, Effects, Discharged, SecuredBy, Sound, Justified, ByAgent, Pending, Covers,
         CallGoesOn, UpdatesOf, Effect, AllProper, DiskEvent;
    var s, ev := x.run, FileEvent(Unlink(n), ByOperator);
    var m :| SecuredBy(x.disk.entries, x.disk.unsynced, m, r);
    SecuredIsPending(d, s.files, x.disk, m, r);
    ClearIsJustified(s.files, ByAgent(s.trace), n);
    ClearIsProper(s.files, n);
    if m in Pending(Effect(s.files, ev)) {
      StaysSecured(x.disk, s.files, ev, m, r);
    } else {
      LeftIsDischarged(d, s.trace, ev, m, from, r);
    }
  }

  lemma {:induction false} StepHoldsDurably(d: Dir, x: Machine, m: Move, from: nat, r: DeferEntry)
    requires from <= |x.run.trace| && SoundMachine(d, x) && WellFormed(r)
    requires DurablyHeld(d, x, from, r) && !(m.Crash? && InUnsyncedFlight(x.run.agent, r))
    ensures from <= |Step(x, m).run.trace| && DurablyHeld(d, Step(x, m), from, r)
  {
    hide SoundMachine, WellFormed, Discharged, SecuredBy, Prelude, Covers, Pending, InWindow, Duplicate, Dominated,
         Clearable, Advanced, CallEvents, DiskEvent, Fails;
    TraceOnlyGrows(x.run, m);
    match m {
      case Advance => if x.run.agent.Busy? { AdvanceHoldsDurably(d, x, from, r); }
      case Clear(n) => if n in x.run.files && Clearable(n) { ClearHoldsDurably(d, x, n, from, r); }
      case _ => SameDisk(x.disk, Step(x, m).disk, r);
    }
  }

  lemma SameDisk(disk: Disk, next: Disk, r: DeferEntry)
    requires next.entries == disk.entries && next.unsynced == disk.unsynced
    ensures Secured(disk, r) ==> Secured(next, r)
  {
    hide SecuredBy;
    if n :| SecuredBy(disk.entries, disk.unsynced, n, r) { assert SecuredBy(next.entries, next.unsynced, n, r); }
  }

  lemma {:induction false} DurablyHeldThrough(d: Dir, x: Machine, ms: seq<Move>, from: nat, r: DeferEntry)
    requires from <= |x.run.trace| && SoundMachine(d, x) && WellFormedMoves(ms) && WellFormed(r)
    requires DurablyHeld(d, x, from, r) && NeverDiesInUnsyncedFlight(x, ms, r)
    ensures from <= |Steps(x, ms).run.trace| && DurablyHeld(d, Steps(x, ms), from, r) && SoundMachine(d, Steps(x, ms))
  {
    hide SoundMachine, WellFormedMove, WellFormed, DurablyHeld, InUnsyncedFlight, Step;
    if ms != [] {
      var front := ms[..|ms| - 1];
      assert NeverDiesInUnsyncedFlight(x, front, r) by {
        assert forall i :: 0 <= i < |front| ==> front[..i] == ms[..i];
      }
      DurablyHeldThrough(d, x, front, from, r);
      StepHoldsDurably(d, Steps(x, front), ms[|ms| - 1], from, r);
      StepIsSound(d, Steps(x, front), ms[|ms| - 1]);
    }
  }

  /** The enqueue has published its request. */
  ghost predicate Published(a: Agent) {
    Writes(a) && a.done >= Prelude(a.start, a.call.request) + 3
  }

  lemma {:induction false} StepPublishes(d: Dir, x: Machine, m: Move)
    requires SoundMachine(d, x) && WellFormedMove(m)
    requires Published(x.run.agent) ==> DurablyHeld(d, x, x.run.agent.since, x.run.agent.call.request)
    ensures var y := Step(x, m);
            Published(y.run.agent) ==> DurablyHeld(d, y, y.run.agent.since, y.run.agent.call.request)
  {
    hide Good, Torn, WellFormed, CallEvents, Effect, Fails, Pending, Discharged, Clearable, InWindow, Effects,
         Duplicate, Dominated, Prelude, Part, EndsWith, ByAgent, Undisturbed, Sound, Secured, Filename, InFlight,
         DiskNext;
    if Published(x.run.agent) && !m.Crash? {
      NotInOwnFlight(x.run.agent);
      StepHoldsDurably(d, x, m, x.run.agent.since, x.run.agent.call.request);
    } else if Published(Step(x, m).run.agent) && m.Advance? {
      PublishedAwaits(d, x);
      SameIdCovers(x.run.agent.call.request, x.run.agent.call.request);
    }
  }

  lemma {:induction false} PublishedIsHeld(d: Dir, ms: seq<Move>)
    requires Good(d) && WellFormedMoves(ms)
    ensures var x := Steps(Boot(d), ms);
            Published(x.run.agent) ==> DurablyHeld(d, x, x.run.agent.since, x.run.agent.call.request)
  {
    hide Good, WellFormedMove, Published, DurablyHeld, Step, SoundMachine;
    if ms == [] {
      assert !Published(Idle) by { IdlePublishesNothing(); }
    } else {
      PublishedIsHeld(d, ms[..|ms| - 1]);
      AlwaysSound(d, ms[..|ms| - 1]);
      StepPublishes(d, Steps(Boot(d), ms[..|ms| - 1]), ms[|ms| - 1]);
    }
  }

  lemma IdlePublishesNothing()
    ensures !Published(Idle)
  {
  }

  /** What is held and not in flight survives every power loss, or was discharged. */
  lemma {:induction false} HeldSurvives(d: Dir, x: Machine, from: nat, r: DeferEntry, kept: seq<bool>)
    requires SoundMachine(d, x) && WellFormed(r) && DurablyHeld(d, x, from, r) && !InUnsyncedFlight(x.run.agent, r)
    requires |kept| == |x.disk.unsynced|
    ensures Covered(Pending(AfterPowerLoss(x.disk, kept)), r) || Discharged(d, x.run.trace, from, r)
  {
    hide Good, Torn, Pending, WellFormed, AllProper, First, Surviving, Covers, SecuredBy, Discharged, InFlight,
         Prelude, Writes, Consistent;
    if Secured(x.disk, r) {
      var n :| SecuredBy(x.disk.entries, x.disk.unsynced, n, r);
      SurvivorCovers(x.disk.entries, x.disk.unsynced, kept, n, r);
    }
  }

  /**
   At-least-once across power loss: once an enqueue that wrote its request is about to return, the request
   survives a power loss at any later point, whatever part of the unsynced changes it takes, unless a record
   for it was executed, promoted or cleared since that enqueue began. The process must not die, nor the
   power fail, while a later enqueue has taken the record away and not yet synced its replacement.
   */
  lemma {:induction false} WrittenRequestSurvivesPowerLoss(d: Dir, earlier: seq<Move>, later: seq<Move>,
                                                           kept: seq<bool>)
    requires Good(d) && WellFormedMoves(earlier) && WellFormedMoves(later)
    requires var x := Steps(Boot(d), earlier);
             var y := Steps(x, later);
             && Writes(x.run.agent) && x.run.agent.done == |CallEvents(x.run.agent.start, x.run.agent.call)|
             && NeverDiesInUnsyncedFlight(x, later, x.run.agent.call.request)
             && !InUnsyncedFlight(y.run.agent, x.run.agent.call.request)
             && |kept| == |y.disk.unsynced|
    ensures var x := Steps(Boot(d), earlier);
            var y := Steps(x, later);
            || Covered(Pending(AfterPowerLoss(y.disk, kept)), x.run.agent.call.request)
            || Discharged(d, y.run.trace, x.run.agent.since, x.run.agent.call.request)
  {
    hide Good, Torn, WellFormed, WellFormedMoves, NeverDiesInUnsyncedFlight, InUnsyncedFlight, Steps, Part, EndsWith,
         ByAgent, Undisturbed, EnqueueEvents, Duplicate, Dominated, Prelude, Sound, DurablyHeld, Covered, Discharged,
         Pending, Surviving;
    var x := Steps(Boot(d), earlier);
    AlwaysSound(d, earlier);
    PublishedIsHeld(d, earlier);
    EnqueueShape(x.run.agent.start, x.run.agent.call.request, x.run.agent.call.nanos);
    DurablyHeldThrough(d, x, later, x.run.agent.since, x.run.agent.call.request);
    HeldSurvives(d, Steps(x, later), x.run.agent.since, x.run.agent.call.request, kept);
  }

  // ---------------------------------------------------------------- a call that returns is synced

  /** A sync comes before the next question and before the end of the call. */
  ghost predicate SyncFollows(evs: seq<Event>, k: nat) {
    exists j :: k <= j < |evs| && Syncs(evs[j]) && forall i :: k <= i < j ==> evs[i].FileEvent?
  }

  predicate ChangesEntry(ev: Event) {
    ev.FileEvent? && (ev.op.Unlink? || ev.op.Rename?)
  }

  lemma VisitSyncs(e: DeferEntry, a: Answer, k: nat)
    requires k < |VisitEvents(e, a)| && ChangesEntry(VisitEvents(e, a)[k])
    ensures k + 1 < |VisitEvents(e, a)| && Syncs(VisitEvents(e, a)[k + 1])
  {
    hide Filename, TmpName, ManualClearFilename, Bumped, Exhausted, FateOf;
  }

  lemma {:induction false} VisitsSync(entries: seq<DeferEntry>, answers: seq<Answer>, n: nat, k: nat)
    requires n <= |entries| && n <= |answers| && k < |VisitsEvents(entries, answers, n)|
    requires ChangesEntry(VisitsEvents(entries, answers, n)[k])
    ensures k + 1 < |VisitsEvents(entries, answers, n)| && Syncs(VisitsEvents(entries, answers, n)[k + 1])
  {
    hide VisitEvents, ChangesEntry, Syncs;
    var before := VisitsEvents(entries, answers, n - 1);
    if k < |before| {
      VisitsSync(entries, answers, n - 1, k);
    } else {
      VisitSyncs(entries[n - 1], answers[n - 1], k - |before|);
    }
  }

  /** Every unlink and every rename of a call is followed by a sync. */
  lemma {:induction false} CallSyncs(d: Dir, c: Call, k: nat)
    requires k < |CallEvents(d, c)| && ChangesEntry(CallEvents(d, c)[k])
    ensures SyncFollows(CallEvents(d, c), k + 1)
  {
    hide Listing, VisitsEvents, EnqueueEvents, Duplicate, Dominated, Prelude, Filename, TmpName;
    var evs := CallEvents(d, c);
    match c {
      case EnqueueCall(e, nanos) =>
        assert !Duplicate(d, e) && !Dominated(d, e) by { EnqueueRun(d, e, nanos, 0); }
        EnqueueShape(d, e, nanos);
        assert Syncs(evs[|evs| - 1]);
      case ReplayCall(answers) =>
        VisitsSync(Listing(d), answers, Reached(|Listing(d)|, answers), k);
    }
  }

  /** What the call has changed since its last sync will be synced before it returns. */
  ghost predicate WillSync(x: Machine) {
    x.run.agent.Busy? && x.disk.took ==>
      SyncFollows(CallEvents(x.run.agent.start, x.run.agent.call), x.run.agent.done)
  }

  lemma {:induction false} StepWillSync(x: Machine, m: Move)
    requires WillSync(x)
    ensures WillSync(Step(x, m))
  {
    hide CallEvents, Fails, Effect, Clearable, UpdatesOf;
    var a := x.run.agent;
    if m.Advance? && a.Busy? {
      var evs := CallEvents(a.start, a.call);
      if a.done < |evs| && !Fails(x.run.files, evs[a.done]) {
        AdvanceWillSync(x);
      }
    }
  }

  lemma {:induction false} AdvanceWillSync(x: Machine)
    requires WillSync(x) && x.run.agent.Busy?
    requires var evs := CallEvents(x.run.agent.start, x.run.agent.call);
             x.run.agent.done < |evs| && !Fails(x.run.files, evs[x.run.agent.done])
    ensures WillSync(Step(x, Advance))
  {
    hide CallEvents, Fails, Effect, UpdatesOf, SyncFollows;
    var a := x.run.agent;
    var evs := CallEvents(a.start, a.call);
    var ev := evs[a.done];
    if ChangesEntry(ev) {
      CallSyncs(a.start, a.call, a.done);
    } else if x.disk.took && ev.FileEvent? && !Syncs(ev) {
      StillFollows(evs, a.done);
    }
  }

  lemma StillFollows(evs: seq<Event>, k: nat)
    requires k < |evs| && SyncFollows(evs, k) && !Syncs(evs[k])
    ensures SyncFollows(evs, k + 1)
  {
  }

  lemma {:induction false} AlwaysWillSync(d: Dir, ms: seq<Move>)
    ensures WillSync(Steps(Boot(d), ms))
  {
    hide Step, WillSync;
    if ms == [] {
      BootWillSync(d);
    } else {
      AlwaysWillSync(d, ms[..|ms| - 1]);
      StepWillSync(Steps(Boot(d), ms[..|ms| - 1]), ms[|ms| - 1]);
    }
  }

  lemma BootWillSync(d: Dir)
    ensures WillSync(Boot(d))
  {
  }

  /**
   A call that is about to return has synced everything it changed: an executed, promoted or counted record
   is so on disk, too.
   */
  lemma {:induction false} ReturnedCallIsSynced(d: Dir, ms: seq<Move>)
    requires var a := Steps(Boot(d), ms).run.agent; a.Busy? && a.done == |CallEvents(a.start, a.call)|
    ensures !Steps(Boot(d), ms).disk.took
  {
    hide Steps, CallEvents;
    AlwaysWillSync(d, ms);
  }

  // ---------------------------------------------------------------- two runs with a power loss

  lemma StepsSnoc(x: Machine, ms: seq<Move>, m: Move)
    ensures Steps(x, ms + [m]) == Step(Steps(x, ms), m)
  {
    hide Step;
    assert (ms + [m])[..|ms|] == ms;
  }

  /** In an empty directory an enqueue only writes. */
  lemma {:induction false} EmptyEnqueue(e: DeferEntry, nanos: nat)
    ensures EnqueueEvents(map[], e, nanos) == AtomicWriteEvents(e, nanos, ByEnqueue(e))
  {
    hide Filename, TmpName, AtomicWriteEvents, Listing;
    EmptyListing();
    assert VictimsIn(map[], e) == [];
    assert ReplaceEvents(map[], e) == [];
  }

  lemma EmptyListing()
    ensures Listing(map[]) == []
  {
    hide Pending, Filename, WellFormed;
    assert Pending(map[]) == map[] by { NothingPending(); }
    ListingIsPending(map[]);
  }

  lemma NothingPending()
    ensures Pending(map[]) == map[]
  {
  }

  /** An enqueue into an empty directory, up to its rename: three unsynced updates. */
  lemma {:induction false} WriteUpToRename(x: Machine, ms: seq<Move>, e: DeferEntry) returns (more: seq<Move>)
    requires Steps(x, ms).run.agent.Idle? && Steps(x, ms).run.files == map[]
    requires WellFormedMoves(ms) && WellFormed(e)
    ensures WellFormedMoves(more)
    ensures var before, y, tmp := Steps(x, ms), Steps(x, more), TmpName(e, 0);
            && y.run.files == map[Filename(e) := Record(e)]
            && y.disk.entries == before.disk.entries
            && y.disk.unsynced == before.disk.unsynced
                                  + [Put(tmp, Garbage), Put(tmp, Record(e)), Move(tmp, Filename(e), Record(e))]
  {
    hide Filename, TmpName, WellFormed, Steps, EnqueueEvents;
    var c := EnqueueCall(e, 0);
    var before, tmp := Steps(x, ms), TmpName(e, 0);
    EmptyEnqueue(e, 0);
    StepsSnoc(x, ms, Begin(c));
    var m1 := ms + [Begin(c)];
    StepsSnoc(x, m1, Advance);
    var m2 := m1 + [Advance];
    assert Steps(x, m2).disk.unsynced == before.disk.unsynced + [Put(tmp, Garbage)];
    StepsSnoc(x, m2, Advance);
    var m3 := m2 + [Advance];
    assert Steps(x, m3).disk.unsynced == before.disk.unsynced + [Put(tmp, Garbage), Put(tmp, Record(e))];
    assert Steps(x, m3).run.files == map[tmp := Record(e)];
    StepsSnoc(x, m3, Advance);
    more := m3 + [Advance];
    assert Steps(x, more).run.files == map[Filename(e) := Record(e)];
  }

  lemma {:induction false} AllLost(d: Dir, us: seq<Update>)
    ensures Surviving(d, us, First(0, |us|)) == d
  {
    if us != [] {
      AllLost(d, us[..|us| - 1]);
      assert First(0, |us|)[..|us| - 1] == First(0, |us| - 1);
    }
  }

  /**
   An enqueue that finds its request pending returns without a sync. If the record was left unsynced by a
   process that died after its rename, a power loss then takes the request although its enqueue returned.
   */
  lemma {:induction false} AlreadyExistsMayBeLost(e: DeferEntry) returns (ms: seq<Move>)
    requires WellFormed(e)
    ensures WellFormedMoves(ms)
    ensures var x := Steps(Boot(map[]), ms);
            && x.run.agent.Busy? && x.run.agent.call == EnqueueCall(e, 0)
            && x.run.agent.done == |CallEvents(x.run.agent.start, x.run.agent.call)|
            && !Covered(Pending(AfterPowerLoss(x.disk, First(0, |x.disk.unsynced|))), e)
  {
    hide Filename, WellFormed, Steps, EnqueueEvents, TmpName, Covers, First, Surviving;
    var start := Boot(map[]);
    assert Steps(start, []) == start by { NoMoves(start); }
    ms := WriteUpToRename(start, [], e);
    StepsSnoc(start, ms, Crash);
    ms := ms + [Crash];
    StepsSnoc(start, ms, Begin(EnqueueCall(e, 0)));
    ms := ms + [Begin(EnqueueCall(e, 0))];
    var x := Steps(start, ms);
    assert EnqueueEvents(x.run.agent.start, e, 0) == [] by { PendingAlready(e); }
    AllLost(map[], x.disk.unsynced);
  }

  lemma NoMoves(x: Machine)
    ensures Steps(x, []) == x
  {
  }

  lemma {:induction false} PendingAlready(e: DeferEntry)
    requires WellFormed(e)
    ensures Good(map[Filename(e) := Record(e)]) && EnqueueEvents(map[Filename(e) := Record(e)], e, 0) == []
  {
    hide Filename, WellFormed, Duplicate, Dominated, Listing, Pending, Good;
    var d := map[Filename(e) := Record(e)];
    OneRecord(e);
    DuplicateIsVisible(d, e);
  }

  lemma OneRecord(e: DeferEntry)
    requires WellFormed(e)
    ensures var d := map[Filename(e) := Record(e)]; Good(d) && Pending(d) == map[Filename(e) := e]
  {
    hide Filename, WellFormed;
    DeferredName(e);
    assert Pending(map[Filename(e) := Record(e)]) == map[Filename(e) := e];
    NotAboveItself(e);
  }

  lemma OtherName(v: DeferEntry, e: DeferEntry)
    requires WellFormed(v) && WellFormed(e) && Subsumes(e.action, v.action)
    ensures Filename(e) != Filename(v) && !Subsumes(v.action, e.action)
  {
    hide Filename, WellFormed;
    if Filename(e) == Filename(v) {
      FilenameIsId(e, v);
      IdDetermines(e, v);
      KindDecidesSubsumption(e.action, v.action, v.action);
    }
  }

  /** The one record a stronger request displaces. */
  lemma {:induction false} DisplacesIt(v: DeferEntry, e: DeferEntry)
    requires WellFormed(v) && WellFormed(e) && SameTarget(e, v) && Subsumes(e.action, v.action)
    ensures var d := map[Filename(v) := Record(v)];
            && Good(d) && EnqueueEvents(d, e, 0) != []
            && EnqueueEvents(d, e, 0)[0] == FileEvent(Unlink(Filename(v)), ByEnqueue(e))
  {
    hide Filename, WellFormed, Listing, AtomicWriteEvents, VictimsIn, Duplicate, Dominated, AnyThere, Pending, Good,
         Subsumes;
    var d := map[Filename(v) := Record(v)];
    OneRecord(v);
    OtherName(v, e);
    DuplicateIsVisible(d, e);
    DominatedIsHasStronger(d, e);
    VictimsAreRedundant(d, e);
    assert Filename(v) in Redundant(Pending(d), e);
    var vs := VictimsIn(d, e);
    assert vs[0] in vs;
  }

  /**
   Changes that reach the disk out of order can leave a record that another one makes redundant: a process
   dies after it unlinked the weaker record, the next one writes the stronger, and only that change survives.
   */
  lemma {:induction false} MayBeRedundant(v: DeferEntry, e: DeferEntry) returns (ms: seq<Move>)
    requires WellFormed(v) && WellFormed(e) && SameTarget(e, v) && Subsumes(e.action, v.action)
    ensures WellFormedMoves(ms)
    ensures var d := map[Filename(v) := Record(v)];
            var disk := Steps(Boot(d), ms).disk;
            Good(d) && exists kept :: |kept| == |disk.unsynced| && !Good(AfterPowerLoss(disk, kept))
  {
    hide Filename, WellFormed, Steps, EnqueueEvents, TmpName, Good, Surviving, SameTarget, Subsumes;
    var d := map[Filename(v) := Record(v)];
    var start := Boot(d);
    DisplacesIt(v, e);
    assert Steps(start, []) == start by { NoMoves(start); }
    StepsSnoc(start, [], Begin(EnqueueCall(e, 0)));
    ms := [] + [Begin(EnqueueCall(e, 0))];
    StepsSnoc(start, ms, Advance);
    ms := ms + [Advance];
    StepsSnoc(start, ms, Crash);
    ms := ms + [Crash];
    assert Steps(start, ms).run.files == map[] && Steps(start, ms).disk.entries == d;
    ms := WriteUpToRename(start, ms, e);
    var disk := Steps(start, ms).disk;
    assert disk.unsynced[|disk.unsynced| - 1] == Move(TmpName(e, 0), Filename(e), Record(e));
    StrongerIsPossible(disk, v, e);
    PowerLossIsGoodIff(d, ms);
  }

  lemma {:induction false} StrongerIsPossible(disk: Disk, v: DeferEntry, e: DeferEntry)
    requires WellFormed(v) && disk.entries == map[Filename(v) := Record(v)] && disk.unsynced != []
    requires disk.unsynced[|disk.unsynced| - 1] == Move(TmpName(e, 0), Filename(e), Record(e))
    requires SameTarget(e, v) && Subsumes(e.action, v.action)
    ensures !NoneRedundant(disk.entries, disk.unsynced)
  {
    hide Filename, WellFormed, TmpName, SameTarget, Subsumes, Pending, Good;
    DeferredName(e);
    OneRecord(v);
    var us := disk.unsynced;
    assert Publishes(us[|us| - 1]) && us[|us| - 1].file == Record(e);
    assert Possible(disk.entries, us, e);
    assert Possible(disk.entries, us, v);
  }
}
