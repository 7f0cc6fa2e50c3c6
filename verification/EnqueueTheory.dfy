/**
 What enqueueing means. At every stopping point the visible records are known exactly; over whole
 sequences of requests the journal holds the maximal ones, whatever their order.
 */
module EnqueueTheory {
  import opened DeferFormat
  import opened Directory
  import opened Journal

  /** The visible records that a request makes redundant. */
  ghost function Redundant(p: Visible, e: DeferEntry): set<string> {
    set n | n in p && SameTarget(p[n], e) && Subsumes(e.action, p[n].action)
  }

  ghost predicate HasStronger(p: Visible, e: DeferEntry) {
    exists n :: n in p && SameTarget(p[n], e) && Subsumes(p[n].action, e.action)
  }

  /** Enqueueing on the level of visible records. */
  ghost function Accept(p: Visible, e: DeferEntry): Visible {
    if Filename(e) in p || HasStronger(p, e) then p
    else (p - Redundant(p, e))[Filename(e) := e]
  }

  ghost function NamesOf(vs: seq<DeferEntry>): set<string> {
    set i | 0 <= i < |vs| :: Filename(vs[i])
  }

  // ---------------------------------------------------------------- the three tests of enqueue

  lemma {:induction false} DuplicateIsVisible(d: Dir, e: DeferEntry)
    requires Good(d) && WellFormed(e)
    ensures Duplicate(d, e) <==> Filename(e) in Pending(d)
  {
    hide Filename, WellFormed, Pending, Antichain;
    var l := Listing(d);
    ListingIsPending(d);
    if Duplicate(d, e) {
      var x :| x in OnTarget(l, e) && x.id == e.id;
      OnTargetElements(l, e, x);
      FilenameIsId(x, e);
    }
    if Filename(e) in Pending(d) {
      var x := Pending(d)[Filename(e)];
      FilenameIsId(x, e);
      IdDetermines(x, e);
      OnTargetElements(l, e, x);
    }
  }

  lemma {:induction false} DominatedIsHasStronger(d: Dir, e: DeferEntry)
    requires Good(d)
    ensures Dominated(d, e) <==> HasStronger(Pending(d), e)
  {
    hide Filename, WellFormed, Pending, Antichain, Subsumes;
    var l := Listing(d);
    ListingIsPending(d);
    if Dominated(d, e) {
      var x :| x in OnTarget(l, e) && Subsumes(x.action, e.action);
      OnTargetElements(l, e, x);
      assert Pending(d)[Filename(x)] == x;
    }
    if HasStronger(Pending(d), e) {
      var n :| n in Pending(d) && SameTarget(Pending(d)[n], e) && Subsumes(Pending(d)[n].action, e.action);
      OnTargetElements(l, e, Pending(d)[n]);
    }
  }

  lemma {:induction false} VictimsAreRedundant(d: Dir, e: DeferEntry)
    requires Good(d)
    ensures NamesOf(VictimsIn(d, e)) == Redundant(Pending(d), e)
    ensures forall x :: x in VictimsIn(d, e) ==>
              Filename(x) in Pending(d) && Pending(d)[Filename(x)] == x && SameTarget(x, e)
                && Subsumes(e.action, x.action)
    ensures VictimsIn(d, e) == [] <==> Redundant(Pending(d), e) == {}
  {
    hide Filename, WellFormed, Pending, Antichain, Subsumes, SameTarget, Victims, OnTarget, Listing;
    var l := Listing(d);
    var vs := VictimsIn(d, e);
    ListingIsPending(d);
    forall x | x in vs
      ensures x in l && SameTarget(x, e) && Subsumes(e.action, x.action)
    {
      OnTargetElements(l, e, x);
      VictimsElements(OnTarget(l, e), e, x);
    }
    forall i | 0 <= i < |vs|
      ensures Filename(vs[i]) in Redundant(Pending(d), e)
    {
      assert vs[i] in vs;
    }
    forall n | n in Redundant(Pending(d), e)
      ensures n in NamesOf(vs)
    {
      var x := Pending(d)[n];
      OnTargetElements(l, e, x);
      VictimsElements(OnTarget(l, e), e, x);
      var i :| 0 <= i < |vs| && vs[i] == x;
      assert Filename(vs[i]) in NamesOf(vs);
    }
    if vs != [] { assert Filename(vs[0]) in NamesOf(vs); }
  }

  // ---------------------------------------------------------------- stopping points

  lemma {:induction false} UnlinkAtEveryPoint(d: Dir, vs: seq<DeferEntry>, cause: Cause, k: nat)
    requires k <= |vs|
    ensures Pending(Effects(d, UnlinkEvents(vs, cause)[..k])) == Pending(d) - NamesOf(vs[..k])
    ensures Torn(Effects(d, UnlinkEvents(vs, cause)[..k])) == Torn(d) - NamesOf(vs[..k])
  {
    hide Filename, Pending, Torn, Effects, NamesOf;
    var evs := UnlinkEvents(vs, cause);
    if k == 0 {
      assert evs[..0] == [];
      NoNames(d, vs);
    } else {
      UnlinkAtEveryPoint(d, vs, cause, k - 1);
      EffectsStep(d, evs, k - 1);
      UnlinkEffect(Effects(d, evs[..k - 1]), Filename(vs[k - 1]));
      NamesOfSnoc(vs, k - 1);
    }
  }

  lemma NoNames(d: Dir, vs: seq<DeferEntry>)
    ensures NamesOf(vs[..0]) == {} && Effects(d, []) == d
  {
  }

  lemma NamesOfSnoc(vs: seq<DeferEntry>, k: nat)
    requires k < |vs|
    ensures NamesOf(vs[..k + 1]) == NamesOf(vs[..k]) + {Filename(vs[k])}
  {
    hide Filename;
    forall n
      ensures n in NamesOf(vs[..k + 1]) <==> n in NamesOf(vs[..k]) + {Filename(vs[k])}
    {
      if n in NamesOf(vs[..k]) {
        var i :| 0 <= i < k && Filename(vs[..k][i]) == n;
        assert Filename(vs[..k + 1][i]) == n;
      }
      assert vs[..k + 1][k] == vs[k];
      if n in NamesOf(vs[..k + 1]) {
        var i :| 0 <= i < k + 1 && Filename(vs[..k + 1][i]) == n;
        if i < k { assert Filename(vs[..k][i]) == n; }
      }
    }
  }

  /** The visible records after `k` events of an enqueue, for every `k`. */
  lemma EnqueueAtEveryPoint(d: Dir, e: DeferEntry, nanos: nat, k: nat)
    requires k <= |EnqueueEvents(d, e, nanos)|
    ensures var p, p' := Pending(d), Pending(Effects(d, EnqueueEvents(d, e, nanos)[..k]));
            var vs := VictimsIn(d, e);
            if Duplicate(d, e) || Dominated(d, e) then p' == p
            else if k <= |vs| then p' == p - NamesOf(vs[..k])
            else if k < Prelude(d, e) + 3 then p' == p - NamesOf(vs)
            else p' == (p - NamesOf(vs))[Filename(e) := e]
    ensures Torn(Effects(d, EnqueueEvents(d, e, nanos)[..k])) <= Torn(d)
  {
    hide Filename, Pending, Torn, Listing, AtomicWriteEvents, VictimsIn, UnlinkEvents, Take, Effects, EnqueueEvents;
    EnqueueRun(d, e, nanos, k);
    if !Duplicate(d, e) && !Dominated(d, e) {
      var vs := VictimsIn(d, e);
      assert |UnlinkEvents(vs, ByEnqueue(e))| == |vs|;
      var unlinks := UnlinkEvents(vs, ByEnqueue(e));
      var u := if k <= |vs| then k else |vs|;
      TakeIsPrefix(EnqueueEvents(d, e, nanos), k);
      TakeIsPrefix(unlinks, k);
      UnlinkAtEveryPoint(d, vs, ByEnqueue(e), u);
      assert vs[..|vs|] == vs && unlinks[..|vs|] == unlinks;
      var synced := Prelude(d, e);
      if k >= synced {
        var w := k - synced;
        AtomicWriteLength(e, nanos, ByEnqueue(e));
        TakeIsPrefix(AtomicWriteEvents(e, nanos, ByEnqueue(e)), w);
        AtomicWriteAtEveryPoint(Effects(d, Take(unlinks, k)), e, nanos, ByEnqueue(e), w);
        if vs == [] { assert NamesOf(vs) == {}; }
      }
    } else {
      TakeIsPrefix(EnqueueEvents(d, e, nanos), k);
    }
  }

  lemma TakeIsPrefix(evs: seq<Event>, k: nat)
    ensures Take(evs, k) == if k <= |evs| then evs[..k] else evs
  {
  }

  /** A completed enqueue does to the directory what `Accept` does to the visible records. */
  lemma EnqueueRefinesAccept(d: Dir, e: DeferEntry, nanos: nat)
    requires Good(d) && WellFormed(e)
    ensures Pending(Effects(d, EnqueueEvents(d, e, nanos))) == Accept(Pending(d), e)
  {
    hide Filename, WellFormed, Pending, Listing, AtomicWriteEvents, VictimsIn, Antichain;
    var evs := EnqueueEvents(d, e, nanos);
    assert evs[..|evs|] == evs;
    EnqueueAtEveryPoint(d, e, nanos, |evs|);
    DuplicateIsVisible(d, e);
    DominatedIsHasStronger(d, e);
    VictimsAreRedundant(d, e);
    if !Duplicate(d, e) && !Dominated(d, e) {
      assert |evs| == Prelude(d, e) + 4 by { EnqueueRun(d, e, nanos, 0); }
    }
  }

  lemma AcceptKeepsInvariants(p: Visible, e: DeferEntry)
    requires Valid(p) && Antichain(p) && WellFormed(e)
    ensures Valid(Accept(p, e)) && Antichain(Accept(p, e))
  {
    hide Filename, WellFormed;
    var q := Accept(p, e);
    if q != p {
      forall m, n | m in q && n in q && SameTarget(q[m], q[n])
        ensures !Subsumes(q[m].action, q[n].action)
      {
        if m == Filename(e) && n != Filename(e) {
          assert n !in Redundant(p, e);
        } else if m != Filename(e) && n == Filename(e) {
          assert !HasStronger(p, e);
        }
      }
    }
  }

  // ---------------------------------------------------------------- in terms of the actions

  /** At most one pending record of a unit is a restart, a reload-or-restart or a reload. */
  ghost predicate OnePerUnit(p: Visible) {
    forall m, n |
      && m in p && (p[m].action.Restart? || p[m].action.ReloadOrRestart? || p[m].action.Reload?)
      && n in p && (p[n].action.Restart? || p[n].action.ReloadOrRestart? || p[n].action.Reload?)
      && p[m].initSystem == p[n].initSystem && p[m].target == p[n].target
      :: m == n
  }

  lemma {:induction false} IrredundantIsOnePerUnit(p: Visible)
    requires Valid(p) && Antichain(p)
    ensures OnePerUnit(p)
  {
    hide Filename, MakeId;
    forall m, n | && m in p && (p[m].action.Restart? || p[m].action.ReloadOrRestart? || p[m].action.Reload?)
                  && n in p && (p[n].action.Restart? || p[n].action.ReloadOrRestart? || p[n].action.Reload?)
                  && p[m].initSystem == p[n].initSystem && p[m].target == p[n].target
      ensures m == n
    {
      assert p[m].action == p[n].action;
      FilenameIsId(p[m], p[n]);
    }
  }

  /** The three tests of an enqueue, by the actions of the pending records of its unit. */
  lemma {:induction false} EnqueueTests(d: Dir, e: DeferEntry)
    requires Good(d) && WellFormed(e)
    ensures var p := Pending(d);
            && (Duplicate(d, e) <==> exists n :: n in p && p[n].id == e.id)
            && (Dominated(d, e) <==>
                  exists n :: n in p && p[n].initSystem == e.initSystem && p[n].target == e.target
                              && (|| (p[n].action.Restart? && (e.action.ReloadOrRestart? || e.action.Reload?))
                                  || (p[n].action.ReloadOrRestart? && e.action.Reload?)))
            && (AnyThere(d, VictimsIn(d, e)) <==>
                  exists n :: n in p && p[n].initSystem == e.initSystem && p[n].target == e.target
                              && (|| (e.action.Restart? && (p[n].action.ReloadOrRestart? || p[n].action.Reload?))
                                  || (e.action.ReloadOrRestart? && p[n].action.Reload?)))
  {
    hide Filename, WellFormed, Pending, Listing, Duplicate, Dominated, VictimsIn, Antichain, AnyThere;
    var p := Pending(d);
    DuplicateIsVisible(d, e);
    if Filename(e) in p { FilenameIsId(p[Filename(e)], e); }
    forall n | n in p && p[n].id == e.id
      ensures n == Filename(e)
    {
      FilenameIsId(p[n], e);
    }
    DominatedIsHasStronger(d, e);
    AnyThereIffRedundant(d, e);
    forall n
      ensures n in Redundant(p, e) <==>
              n in p && p[n].initSystem == e.initSystem && p[n].target == e.target
              && (|| (e.action.Restart? && (p[n].action.ReloadOrRestart? || p[n].action.Reload?))
                  || (e.action.ReloadOrRestart? && p[n].action.Reload?))
    {
    }
  }

  lemma {:induction false} AnyThereIffRedundant(d: Dir, e: DeferEntry)
    requires Good(d)
    ensures AnyThere(d, VictimsIn(d, e)) <==> exists n :: n in Redundant(Pending(d), e)
  {
    hide Filename, Pending, VictimsIn, Good, Redundant;
    var p, vs := Pending(d), VictimsIn(d, e);
    VictimsAreRedundant(d, e);
    if n :| n in Redundant(p, e) {
      var i :| 0 <= i < |vs| && Filename(vs[i]) == n;
      assert vs[i] in vs;
      VisibleIsThere(d, n);
    }
    if AnyThere(d, vs) {
      var i :| 0 <= i < |vs| && Filename(vs[i]) in d;
      assert Filename(vs[i]) in NamesOf(vs);
    }
  }

  lemma VisibleIsThere(d: Dir, n: string)
    requires n in Pending(d)
    ensures n in d
  {
  }

  /**
   A completed enqueue removes a record if and only if it is for the same unit and the new and the old action
   are a restart over a reload-or-restart or a reload, or a reload-or-restart over a reload. So starts, stops,
   commands and daemon reloads are never removed. It adds its own record, as it is, if and only if that is not
   there and no such stronger record is.
   */
  lemma {:induction false} EnqueueChanges(d: Dir, e: DeferEntry, nanos: nat, n: string)
    requires Good(d) && WellFormed(e)
    ensures var p, q := Pending(d), Pending(Effects(d, EnqueueEvents(d, e, nanos)));
            && (n in p ==>
                  (n !in q <==>
                     && p[n].initSystem == e.initSystem && p[n].target == e.target
                     && (|| (e.action.Restart? && p[n].action.ReloadOrRestart?)
                         || (e.action.Restart? && p[n].action.Reload?)
                         || (e.action.ReloadOrRestart? && p[n].action.Reload?))))
            && (n in p && n in q ==> q[n] == p[n])
            && (n !in p && n in q ==> n == Filename(e) && q[n] == e)
            && (n !in p && n == Filename(e) ==>
                  (n !in q <==>
                     exists m :: m in p && p[m].initSystem == e.initSystem && p[m].target == e.target
                                 && (|| (p[m].action.Restart? && (e.action.ReloadOrRestart? || e.action.Reload?))
                                     || (p[m].action.ReloadOrRestart? && e.action.Reload?))))
  {
    hide Filename, WellFormed, Pending, EnqueueEvents, Effects;
    EnqueueRefinesAccept(d, e, nanos);
    var p := Pending(d);
    if n in p && n in Redundant(p, e) {
      NotPendingYet(p, e, n);
    }
  }

  /** A request that makes a pending record redundant is neither pending nor dominated. */
  lemma {:induction false} NotPendingYet(p: Visible, e: DeferEntry, n: string)
    requires Valid(p) && Antichain(p) && WellFormed(e) && n in Redundant(p, e)
    ensures Filename(e) !in p && !HasStronger(p, e) && Filename(e) != n
  {
    hide Filename, WellFormed;
    if Filename(e) in p {
      FilenameIsId(p[Filename(e)], e);
      IdDetermines(p[Filename(e)], e);
      KindDecidesSubsumption(p[Filename(e)].action, e.action, p[n].action);
    }
    if HasStronger(p, e) {
      var m :| m in p && SameTarget(p[m], e) && Subsumes(p[m].action, e.action);
      StrongerThanStronger(p[m].action, e.action, p[n].action);
    }
  }

  lemma StrongerThanStronger(a: DeferAction, b: DeferAction, c: DeferAction)
    requires Subsumes(a, b) && Subsumes(b, c)
    ensures Subsumes(a, c)
  {
  }

  // ---------------------------------------------------------------- sequences of requests

  ghost function AcceptAll(rs: seq<DeferEntry>): Visible {
    if rs == [] then map[] else Accept(AcceptAll(rs[..|rs| - 1]), rs[|rs| - 1])
  }

  /** No request of `rs` is stronger than `r` on the same target. */
  ghost predicate Maximal(r: DeferEntry, rs: seq<DeferEntry>) {
    forall i :: 0 <= i < |rs| && SameTarget(rs[i], r) ==> !Subsumes(rs[i].action, r.action)
  }

  /** `n` is the name of some maximal request. */
  ghost predicate Wanted(rs: seq<DeferEntry>, n: string) {
    exists i :: 0 <= i < |rs| && Filename(rs[i]) == n && Maximal(rs[i], rs)
  }

  /** `e` is the earliest request with its name. */
  ghost predicate IsFirst(rs: seq<DeferEntry>, e: DeferEntry) {
    exists i :: 0 <= i < |rs| && rs[i] == e && forall j :: 0 <= j < i ==> Filename(rs[j]) != Filename(e)
  }

  ghost predicate AllWellFormed(rs: seq<DeferEntry>) {
    forall i :: 0 <= i < |rs| ==> WellFormed(rs[i])
  }

  /** The journal is characterised by the requests alone. */
  ghost predicate HoldsMaximal(p: Visible, rs: seq<DeferEntry>) {
    && (forall n :: n in p <==> Wanted(rs, n))
    && (forall n :: n in p ==> IsFirst(rs, p[n]) && Filename(p[n]) == n)
  }

  /** Every request is maximal or has a maximal one above it. */
  lemma MaximalAbove(rs: seq<DeferEntry>, r: DeferEntry) returns (top: DeferEntry)
    requires exists i :: 0 <= i < |rs| && SameTarget(rs[i], r) && Subsumes(rs[i].action, r.action)
    ensures top in rs && SameTarget(top, r) && Subsumes(top.action, r.action) && Maximal(top, rs)
    decreases Rank(DefaultPriority(r.action))
  {
    var i :| 0 <= i < |rs| && SameTarget(rs[i], r) && Subsumes(rs[i].action, r.action);
    if Maximal(rs[i], rs) {
      top := rs[i];
    } else {
      top := MaximalAbove(rs, rs[i]);
    }
  }

  /** Maximality depends on the kind of action, so on the name. */
  lemma MaximalByName(rs: seq<DeferEntry>, a: DeferEntry, b: DeferEntry)
    requires WellFormed(a) && WellFormed(b) && Filename(a) == Filename(b)
    ensures Maximal(a, rs) <==> Maximal(b, rs)
    ensures SameTarget(a, b)
    ensures forall c: DeferAction :: Subsumes(c, a.action) == Subsumes(c, b.action)
    ensures forall c: DeferAction :: Subsumes(a.action, c) == Subsumes(b.action, c)
  {
    hide Filename, WellFormed;
    FilenameIsId(a, b);
    IdDetermines(a, b);
    forall c: DeferAction
      ensures Subsumes(c, a.action) == Subsumes(c, b.action) && Subsumes(a.action, c) == Subsumes(b.action, c)
    {
      KindDecidesSubsumption(a.action, b.action, c);
    }
  }

  lemma MaximalSnoc(rs: seq<DeferEntry>, e: DeferEntry, r: DeferEntry)
    ensures Maximal(r, rs + [e]) <==> Maximal(r, rs) && !(SameTarget(e, r) && Subsumes(e.action, r.action))
  {
    var all := rs + [e];
    assert all[|rs|] == e;
    assert forall i :: 0 <= i < |rs| ==> all[i] == rs[i];
  }

  lemma IsFirstSnoc(rs: seq<DeferEntry>, e: DeferEntry, x: DeferEntry)
    requires IsFirst(rs, x)
    ensures IsFirst(rs + [e], x)
  {
    hide Filename;
    var i :| 0 <= i < |rs| && rs[i] == x && forall j :: 0 <= j < i ==> Filename(rs[j]) != Filename(x);
    assert (rs + [e])[i] == x;
    assert forall j :: 0 <= j < i ==> Filename((rs + [e])[j]) != Filename(x);
  }

  /** One more request keeps the characterisation. */
  lemma HoldsMaximalStep(p: Visible, rs: seq<DeferEntry>, e: DeferEntry)
    requires HoldsMaximal(p, rs) && AllWellFormed(rs) && WellFormed(e)
    ensures HoldsMaximal(Accept(p, e), rs + [e])
  {
    hide Filename, WellFormed, Subsumes, Wanted, IsFirst, Maximal;
    var q := Accept(p, e);
    forall n
      ensures n in q <==> Wanted(rs + [e], n)
    {
      StepKeys(p, rs, e, n);
    }
    forall n | n in q
      ensures IsFirst(rs + [e], q[n]) && Filename(q[n]) == n
    {
      if n in p && q[n] == p[n] {
        IsFirstSnoc(rs, e, p[n]);
      } else {
        FreshName(p, rs, e);
      }
    }
  }

  /** When a request is written, no earlier one had its name. */
  lemma FreshName(p: Visible, rs: seq<DeferEntry>, e: DeferEntry)
    requires HoldsMaximal(p, rs) && AllWellFormed(rs) && WellFormed(e)
    requires Filename(e) !in p && !HasStronger(p, e)
    ensures Maximal(e, rs)
    ensures forall j :: 0 <= j < |rs| ==> Filename(rs[j]) != Filename(e)
    ensures IsFirst(rs + [e], e)
  {
    hide Filename, WellFormed;
    NoStrongerRequest(p, rs, e);
    assert !Wanted(rs, Filename(e));
    forall j | 0 <= j < |rs|
      ensures Filename(rs[j]) != Filename(e)
    {
      if Filename(rs[j]) == Filename(e) {
        MaximalByName(rs, rs[j], e);
      }
    }
    assert (rs + [e])[|rs|] == e;
  }

  lemma NoStrongerRequest(p: Visible, rs: seq<DeferEntry>, e: DeferEntry)
    requires HoldsMaximal(p, rs) && AllWellFormed(rs) && WellFormed(e)
    ensures Maximal(e, rs) <==> !HasStronger(p, e)
  {
    hide Filename, WellFormed;
    if !Maximal(e, rs) {
      var top := MaximalAbove(rs, e);
      var i :| 0 <= i < |rs| && rs[i] == top;
      assert Wanted(rs, Filename(top));
      VisibleRequest(p, rs, Filename(top));
      MaximalByName(rs, p[Filename(top)], top);
    }
    if HasStronger(p, e) {
      var n :| n in p && SameTarget(p[n], e) && Subsumes(p[n].action, e.action);
      VisibleRequest(p, rs, n);
    }
  }

  lemma VisibleRequest(p: Visible, rs: seq<DeferEntry>, n: string)
    requires HoldsMaximal(p, rs) && AllWellFormed(rs) && n in p
    ensures p[n] in rs && WellFormed(p[n]) && Maximal(p[n], rs) && Filename(p[n]) == n
  {
    hide Filename, WellFormed;
    assert IsFirst(rs, p[n]);
    assert Wanted(rs, n);
    var i :| 0 <= i < |rs| && Filename(rs[i]) == n && Maximal(rs[i], rs);
    MaximalByName(rs, rs[i], p[n]);
  }

  lemma StepKeys(p: Visible, rs: seq<DeferEntry>, e: DeferEntry, n: string)
    requires HoldsMaximal(p, rs) && AllWellFormed(rs) && WellFormed(e)
    ensures n in Accept(p, e) <==> Wanted(rs + [e], n)
  {
    hide Filename, WellFormed, Subsumes, Maximal;
    var all := rs + [e];
    NoStrongerRequest(p, rs, e);
    NotAboveItself(e);
    if n in Accept(p, e) {
      if n in p {
        VisibleRequest(p, rs, n);
        var i :| 0 <= i < |rs| && rs[i] == p[n];
        assert all[i] == p[n];
        MaximalSnoc(rs, e, p[n]);
        KeptIsNotRedundant(p, rs, e, n);
        assert Maximal(all[i], all);
      } else {
        assert n == Filename(e);
        FreshName(p, rs, e);
        MaximalSnoc(rs, e, e);
        assert all[|rs|] == e;
      }
    }
    if Wanted(all, n) {
      var i :| 0 <= i < |all| && Filename(all[i]) == n && Maximal(all[i], all);
      MaximalSnoc(rs, e, all[i]);
      if i < |rs| {
        assert Wanted(rs, n);
        VisibleRequest(p, rs, n);
        MaximalByName(rs, p[n], all[i]);
        assert n !in Redundant(p, e);
      }
    }
  }

  lemma NotAboveItself(e: DeferEntry)
    ensures !Subsumes(e.action, e.action)
  {
  }

  /** A record that stays visible is not made redundant by the request, even one that is not written. */
  lemma {:induction false} KeptIsNotRedundant(p: Visible, rs: seq<DeferEntry>, e: DeferEntry, n: string)
    requires HoldsMaximal(p, rs) && AllWellFormed(rs) && WellFormed(e)
    requires n in p && n in Accept(p, e)
    ensures !(SameTarget(e, p[n]) && Subsumes(e.action, p[n].action))
  {
    hide Filename, WellFormed;
    if Filename(e) in p {
      VisibleRequest(p, rs, Filename(e));
      VisibleRequest(p, rs, n);
      MaximalByName(rs, p[Filename(e)], e);
    } else if HasStronger(p, e) {
      var m :| m in p && SameTarget(p[m], e) && Subsumes(p[m].action, e.action);
      VisibleRequest(p, rs, m);
      VisibleRequest(p, rs, n);
    } else {
      if n != Filename(e) { assert n !in Redundant(p, e); }
    }
  }

  /** The visible records are the maximal requests, each in the form in which it was first made. */
  lemma {:induction false} AcceptAllHoldsMaximal(rs: seq<DeferEntry>)
    requires AllWellFormed(rs)
    ensures HoldsMaximal(AcceptAll(rs), rs)
    ensures Valid(AcceptAll(rs)) && Antichain(AcceptAll(rs))
  {
    hide Filename, WellFormed;
    if rs != [] {
      var front := rs[..|rs| - 1];
      AcceptAllHoldsMaximal(front);
      HoldsMaximalStep(AcceptAll(front), front, rs[|rs| - 1]);
      AcceptKeepsInvariants(AcceptAll(front), rs[|rs| - 1]);
      assert rs == front + [rs[|rs| - 1]];
    }
  }

  // ---------------------------------------------------------------- the directory

  /** The directory after enqueueing a sequence of requests, starting from an empty one. */
  ghost function EnqueueAll(rs: seq<DeferEntry>, nanos: seq<nat>): Dir
    requires |nanos| == |rs|
  {
    if rs == [] then map[]
    else
      var d := EnqueueAll(rs[..|rs| - 1], nanos[..|rs| - 1]);
      Effects(d, EnqueueEvents(d, rs[|rs| - 1], nanos[|rs| - 1]))
  }

  /** After any sequence of requests the pending files are the maximal requests in their first form. */
  lemma {:induction false} JournalHoldsMaximalRequests(rs: seq<DeferEntry>, nanos: seq<nat>)
    requires AllWellFormed(rs) && |nanos| == |rs|
    ensures HoldsMaximal(Pending(EnqueueAll(rs, nanos)), rs)
    ensures Good(EnqueueAll(rs, nanos))
    ensures Pending(EnqueueAll(rs, nanos)) == AcceptAll(rs)
    ensures OnePerUnit(Pending(EnqueueAll(rs, nanos)))
  {
    hide Filename, WellFormed, HoldsMaximal, OnePerUnit;
    AcceptAllHoldsMaximal(rs);
    IrredundantIsOnePerUnit(AcceptAll(rs));
    if rs != [] {
      var front := rs[..|rs| - 1];
      JournalHoldsMaximalRequests(front, nanos[..|rs| - 1]);
      EnqueueRefinesAccept(EnqueueAll(front, nanos[..|rs| - 1]), rs[|rs| - 1], nanos[|rs| - 1]);
    }
  }

  /** The order of the requests, their repetition and the clock do not matter for what is pending. */
  lemma {:induction false} PendingIsOrderFree(rs: seq<DeferEntry>, nanos: seq<nat>, rs': seq<DeferEntry>,
                                              nanos': seq<nat>)
    requires AllWellFormed(rs) && |nanos| == |rs|
    requires AllWellFormed(rs') && |nanos'| == |rs'|
    requires forall r :: r in rs <==> r in rs'
    ensures Pending(EnqueueAll(rs, nanos)).Keys == Pending(EnqueueAll(rs', nanos')).Keys
  {
    hide Filename, WellFormed, Pending, EnqueueAll;
    JournalHoldsMaximalRequests(rs, nanos);
    JournalHoldsMaximalRequests(rs', nanos');
    forall n
      ensures Wanted(rs, n) <==> Wanted(rs', n)
    {
      WantedIsOrderFree(rs, rs', n);
      WantedIsOrderFree(rs', rs, n);
    }
  }

  lemma WantedIsOrderFree(rs: seq<DeferEntry>, rs': seq<DeferEntry>, n: string)
    requires forall r :: r in rs <==> r in rs'
    ensures Wanted(rs, n) ==> Wanted(rs', n)
  {
    hide Filename;
    if Wanted(rs, n) {
      var i :| 0 <= i < |rs| && Filename(rs[i]) == n && Maximal(rs[i], rs);
      assert rs[i] in rs';
      var j :| 0 <= j < |rs'| && rs'[j] == rs[i];
      forall k | 0 <= k < |rs'| && SameTarget(rs'[k], rs[i])
        ensures !Subsumes(rs'[k].action, rs[i].action)
      {
        assert rs'[k] in rs;
      }
      assert Maximal(rs'[j], rs');
    }
  }
}
