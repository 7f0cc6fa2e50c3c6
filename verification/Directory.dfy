/**
 The journal directory: a map from file names to contents, changed one file operation at a time.
 A record is only visible through a `.deferred` name whose contents parse.
 */
module Directory {
  import opened Text
  import opened DeferFormat

  /** A file either parses as an entry or does not (being written, corrupt). */
  datatype File = Record(entry: DeferEntry) | Garbage

  type Dir = map<string, File>

  datatype FileOp =
    | Unlink(name: string)
    | Create(name: string)                    // open with create and truncate
    | Fill(name: string, entry: DeferEntry)   // contents written and synced
    | Rename(src: string, dst: string)
    | SyncDir

  datatype DispatchAnswer = DispatchOk | ClientUnavailable | ActionFailed
  datatype HealthAnswer = HealthOk | HealthCancelled | HealthFailed

  /** On whose behalf a file operation happens. */
  datatype Cause = ByEnqueue(request: DeferEntry) | ByReplay(visited: DeferEntry) | ByOperator

  datatype Event =
    | Dispatched(entry: DeferEntry, result: DispatchAnswer)
    | Checked(entry: DeferEntry, health: HealthAnswer)
    | FileEvent(op: FileOp, cause: Cause)

  predicate IsDeferred(name: string) { Extension(name) == Some("deferred") }

  predicate IsManualClear(name: string) { Extension(name) == Some("manual_clear") }

  function Do(d: Dir, op: FileOp): Dir {
    match op
    case Unlink(n) => d - {n}
    case Create(n) => d[n := Garbage]
    case Fill(n, e) => d[n := Record(e)]
    case Rename(src, dst) => if src in d then (d - {src})[dst := d[src]] else d
    case SyncDir => d
  }

  function Effect(d: Dir, ev: Event): Dir {
    if ev.FileEvent? then Do(d, ev.op) else d
  }

  function Effects(d: Dir, evs: seq<Event>): Dir {
    if evs == [] then d else Effect(Effects(d, evs[..|evs| - 1]), evs[|evs| - 1])
  }

  /** The events that happen before a crash or an I/O error after `budget` of them. */
  function Take(evs: seq<Event>, budget: nat): seq<Event> {
    if budget <= |evs| then evs[..budget] else evs
  }

  /** Visible records by file name. */
  type Visible = map<string, DeferEntry>

  /** What a listing shows: the parseable `.deferred` files. */
  function Pending(d: Dir): Visible {
    map n | n in d && IsDeferred(n) && d[n].Record? :: d[n].entry
  }

  /** The `.deferred` names whose contents do not parse. */
  function Torn(d: Dir): set<string> {
    set n | n in d && IsDeferred(n) && d[n].Garbage?
  }

  // ---------------------------------------------------------------- subsumption

  predicate Subsumes(a: DeferAction, b: DeferAction) {
    || (a.Restart? && (b.Reload? || b.ReloadOrRestart?))
    || (a.ReloadOrRestart? && b.Reload?)
  }

  predicate SameTarget(e: DeferEntry, f: DeferEntry) {
    e.initSystem == f.initSystem && e.target == f.target
  }

  /** `f` stands for the same request as `e`, or for a stronger one on the same target. */
  predicate Covers(f: DeferEntry, e: DeferEntry) {
    f.id == e.id || (SameTarget(f, e) && Subsumes(f.action, e.action))
  }

  /** Covering composes: a stronger request stands for everything the weaker one stood for. */
  lemma CoversTransitive(g: DeferEntry, f: DeferEntry, e: DeferEntry)
    requires WellFormed(g) && WellFormed(f) && WellFormed(e)
    requires Covers(g, f) && Covers(f, e)
    ensures Covers(g, e)
  {
    if g.id == f.id { IdDetermines(g, f); KindDecidesSubsumption(g.action, f.action, e.action); }
    if f.id == e.id { IdDetermines(f, e); KindDecidesSubsumption(f.action, e.action, g.action); }
  }

  /** Subsumption looks only at the kind of an action. */
  lemma KindDecidesSubsumption(a: DeferAction, b: DeferAction, c: DeferAction)
    requires SameKind(a, b)
    ensures Subsumes(a, c) == Subsumes(b, c)
    ensures Subsumes(c, a) == Subsumes(c, b)
  {
    assert |Slug(a)| == |Slug(b)|;
    assert Slug(a)[0] == Slug(b)[0] && Slug(a)[1] == Slug(b)[1] && Slug(a)[2] == Slug(b)[2];
  }

  // ---------------------------------------------------------------- invariants

  /** Every visible record is well formed and sits under its own name. */
  ghost predicate Valid(p: Visible) {
    forall n :: n in p ==> WellFormed(p[n]) && Filename(p[n]) == n
  }

  /** No visible record makes another one redundant. */
  ghost predicate Antichain(p: Visible) {
    forall m, n :: m in p && n in p && SameTarget(p[m], p[n]) ==> !Subsumes(p[m].action, p[n].action)
  }

  ghost predicate Good(d: Dir) {
    Valid(Pending(d)) && Antichain(Pending(d))
  }

  /** Promoted records are well formed and sit under their own names. */
  ghost predicate PromotedNamed(d: Dir) {
    forall n :: n in d && IsManualClear(n) && d[n].Record? ==>
      WellFormed(d[n].entry) && ManualClearFilename(d[n].entry) == n
  }

  ghost predicate Covered(p: Visible, r: DeferEntry) {
    exists n :: n in p && Covers(p[n], r)
  }

  /** The same request, perhaps after a different number of attempts. */
  predicate SameRequest(e: DeferEntry, f: DeferEntry) {
    f == e.(attemptCount := f.attemptCount)
  }

  /** `q` keeps some of the requests of `p` and has no others. */
  ghost predicate Shrinks(p: Visible, q: Visible) {
    forall n :: n in q ==> n in p && SameRequest(p[n], q[n])
  }

  lemma SameRequestFacts(e: DeferEntry, f: DeferEntry)
    requires SameRequest(e, f)
    ensures Filename(e) == Filename(f) && ManualClearFilename(e) == ManualClearFilename(f)
    ensures WellFormed(e) ==> WellFormed(f)
    ensures e.id == f.id && SameTarget(e, f) && e.action == f.action
  {
  }

  lemma ShrinksKeepsInvariants(p: Visible, q: Visible)
    requires Shrinks(p, q)
    ensures Valid(p) ==> Valid(q)
    ensures Antichain(p) ==> Antichain(q)
  {
    hide Filename, ManualClearFilename, WellFormed, SameTarget, Subsumes;
    forall n | n in q
      ensures Filename(p[n]) == Filename(q[n])
      ensures WellFormed(p[n]) ==> WellFormed(q[n])
    {
      SameRequestFacts(p[n], q[n]);
    }
    if Antichain(p) {
      forall m, n | m in q && n in q && SameTarget(q[m], q[n])
        ensures !Subsumes(q[m].action, q[n].action)
      {
        assert SameTarget(p[m], p[n]) by { SameTargetOfSameRequest(p[m], q[m], p[n], q[n]); }
      }
    }
  }

  lemma SameTargetOfSameRequest(e: DeferEntry, e': DeferEntry, f: DeferEntry, f': DeferEntry)
    requires SameRequest(e, e') && SameRequest(f, f') && SameTarget(e', f')
    ensures SameTarget(e, f)
  {
  }

  // ---------------------------------------------------------------- event sequences

  lemma {:induction false} EffectsConcat(d: Dir, a: seq<Event>, b: seq<Event>)
    ensures Effects(d, a + b) == Effects(Effects(d, a), b)
  {
    if b == [] {
      assert a + b == a;
    } else {
      EffectsConcat(d, a, b[..|b| - 1]);
      assert (a + b)[..|a + b| - 1] == a + b[..|b| - 1];
    }
  }

  lemma EffectsStep(d: Dir, evs: seq<Event>, i: nat)
    requires i < |evs|
    ensures Effects(d, evs[..i + 1]) == Effect(Effects(d, evs[..i]), evs[i])
  {
    assert evs[..i + 1][..i] == evs[..i];
  }

  /** Running one sequence after another within a budget. */
  lemma RunConcat(d: Dir, a: seq<Event>, b: seq<Event>, budget: nat)
    ensures budget < |a| ==> Take(a + b, budget) == Take(a, budget)
    ensures budget >= |a| ==> Take(a, budget) == a
    ensures budget >= |a| ==> Effects(d, Take(a + b, budget)) == Effects(Effects(d, a), Take(b, budget - |a|))
  {
    if budget >= |a| {
      assert Take(a + b, budget) == a + Take(b, budget - |a|);
      EffectsConcat(d, a, Take(b, budget - |a|));
    }
  }

  lemma RunTwo(d: Dir, evs: seq<Event>)
    requires |evs| == 2
    ensures Effects(d, Take(evs, 0)) == d
    ensures Effects(d, Take(evs, 1)) == Effect(d, evs[0])
    ensures Effects(d, evs) == Effect(Effect(d, evs[0]), evs[1])
  {
    assert evs[..0] == [] && evs[..2] == evs;
    EffectsStep(d, evs, 0);
    EffectsStep(d, evs, 1);
  }

  // ---------------------------------------------------------------- single operations

  lemma UnlinkEffect(d: Dir, n: string)
    ensures Pending(Do(d, Unlink(n))) == Pending(d) - {n}
    ensures Torn(Do(d, Unlink(n))) == Torn(d) - {n}
  {
    hide IsDeferred;
  }

  /** Writing under a name that is not listed changes nothing visible. */
  lemma {:induction false} HiddenWriteEffect(d: Dir, n: string, e: DeferEntry)
    requires !IsDeferred(n)
    ensures Pending(Do(d, Create(n))) == Pending(d) == Pending(Do(d, Fill(n, e)))
    ensures Torn(Do(d, Create(n))) == Torn(d) == Torn(Do(d, Fill(n, e)))
  {
    hide IsDeferred;
  }

  lemma PublishEffect(d: Dir, src: string, dst: string)
    requires src in d && d[src].Record? && !IsDeferred(src) && IsDeferred(dst)
    ensures Pending(Do(d, Rename(src, dst))) == Pending(d)[dst := d[src].entry]
    ensures Torn(Do(d, Rename(src, dst))) == Torn(d) - {dst}
  {
    hide IsDeferred;
  }

  lemma RetireEffect(d: Dir, src: string, dst: string)
    requires IsDeferred(src) && !IsDeferred(dst)
    ensures Pending(Do(d, Rename(src, dst))) == Pending(d) - {src}
    ensures Torn(Do(d, Rename(src, dst))) == Torn(d) - {src}
    ensures src in d ==> dst in Do(d, Rename(src, dst)) && Do(d, Rename(src, dst))[dst] == d[src]
  {
    hide IsDeferred;
  }

  /** tmp, fsync(file), rename, fsync(dir). */
  function WriteEvents(tmp: string, dst: string, e: DeferEntry, cause: Cause): seq<Event> {
    [ FileEvent(Create(tmp), cause),
      FileEvent(Fill(tmp, e), cause),
      FileEvent(Rename(tmp, dst), cause),
      FileEvent(SyncDir, cause) ]
  }

  function AtomicWriteEvents(e: DeferEntry, nanos: nat, cause: Cause): seq<Event> {
    WriteEvents(TmpName(e, nanos), Filename(e), e, cause)
  }

  lemma WriteAtEveryPoint(d: Dir, tmp: string, dst: string, e: DeferEntry, cause: Cause, k: nat)
    requires !IsDeferred(tmp) && IsDeferred(dst)
    requires k <= 4
    ensures var d' := Effects(d, WriteEvents(tmp, dst, e, cause)[..k]);
            && Pending(d') == (if k < 3 then Pending(d) else Pending(d)[dst := e])
            && Torn(d') == (if k < 3 then Torn(d) else Torn(d) - {dst})
            && (k >= 3 ==> dst in d' && d'[dst] == Record(e))
  {
    hide IsDeferred, Pending, Torn;
    var evs := WriteEvents(tmp, dst, e, cause);
    if k == 0 {
      assert evs[..0] == [];
    } else {
      WriteAtEveryPoint(d, tmp, dst, e, cause, k - 1);
      EffectsStep(d, evs, k - 1);
      var before := Effects(d, evs[..k - 1]);
      HiddenWriteEffect(before, tmp, e);
      if k == 3 {
        assert evs[..2][..1] == evs[..1];
        assert tmp in before && before[tmp] == Record(e);
        PublishEffect(before, tmp, dst);
      }
    }
  }

  /** Whatever the point at which an atomic write stops, the old or the new record is visible, whole. */
  lemma AtomicWriteAtEveryPoint(d: Dir, e: DeferEntry, nanos: nat, cause: Cause, k: nat)
    requires k <= 4
    ensures var d' := Effects(d, AtomicWriteEvents(e, nanos, cause)[..k]);
            && Pending(d') == (if k < 3 then Pending(d) else Pending(d)[Filename(e) := e])
            && Torn(d') == (if k < 3 then Torn(d) else Torn(d) - {Filename(e)})
            && (k >= 3 ==> Filename(e) in d' && d'[Filename(e)] == Record(e))
  {
    hide Filename, TmpName, Effects, Pending, Torn, WriteEvents;
    FilenameExtensions(e, nanos);
    DecimalIsNoWord(nanos);
    WriteAtEveryPoint(d, TmpName(e, nanos), Filename(e), e, cause, k);
  }

  // ---------------------------------------------------------------- listing

  /** The names in ascending order. */
  ghost function SortedNames(names: set<string>): (s: seq<string>)
    ensures Ascending(s)
    ensures forall n :: n in s <==> n in names
    decreases |names|
  {
    if names == {} then []
    else
      LeastExists(names);
      var least :| least in names && forall n :: n in names ==> LexLeq(least, n);
      var rest := SortedNames(names - {least});
      assert forall n :: n in [least] + rest <==> n == least || n in rest;
      assert Ascending([least] + rest) by {
        assert forall i :: 0 <= i < |rest| ==> rest[i] in rest;
      }
      [least] + rest
  }

  lemma LeastExists(names: set<string>)
    requires names != {}
    ensures exists least :: least in names && forall n :: n in names ==> LexLeq(least, n)
    decreases |names|
  {
    var x :| x in names;
    LexReflexive(x);
    var rest := names - {x};
    if rest == {} {
      assert names == {x};
    } else {
      LeastExists(rest);
      var y :| y in rest && forall n :: n in rest ==> LexLeq(y, n);
      LexTotal(x, y);
      if LexLeq(x, y) {
        forall n | n in names
          ensures LexLeq(x, n)
        {
          if n != x { LexTransitive(x, y, n); }
        }
      } else {
        assert forall n :: n in names ==> n == x || n in rest;
        assert forall n :: n in names ==> LexLeq(y, n);
      }
    }
  }

  lemma TailElements(a: seq<string>, n: string)
    requires Ascending(a) && a != []
    ensures n in a[1..] <==> n in a && n != a[0]
  {
    assert a == [a[0]] + a[1..];
    assert forall i :: 1 <= i < |a| ==> LexLess(a[0], a[i]);
  }

  /** A set of names has only one ascending enumeration. */
  lemma {:induction false} AscendingUnique(a: seq<string>, b: seq<string>)
    requires Ascending(a) && Ascending(b)
    requires forall n :: n in a <==> n in b
    ensures a == b
    decreases |a|
  {
    if a == [] {
      assert b == [] by { assert forall i :: 0 <= i < |b| ==> b[i] in b; }
    } else {
      assert a[0] in a && a[0] in b;
      assert b != [];
      assert b[0] in b && b[0] in a;
      var i :| 0 <= i < |b| && b[i] == a[0];
      var j :| 0 <= j < |a| && a[j] == b[0];
      assert i != 0 ==> LexLess(b[0], b[i]);
      assert j != 0 ==> LexLess(a[0], a[j]);
      assert a[0] == b[0] by {
        LexReflexive(a[0]);
        LexAntisymmetric(a[0], b[0]);
      }
      forall n
        ensures n in a[1..] <==> n in b[1..]
      {
        TailElements(a, n);
        TailElements(b, n);
      }
      AscendingUnique(a[1..], b[1..]);
      assert a == [a[0]] + a[1..] && b == [b[0]] + b[1..];
    }
  }

  /** `list_sorted`: the visible records in the order of their names. */
  ghost function Listing(d: Dir): seq<DeferEntry> {
    var names := SortedNames(Pending(d).Keys);
    assert forall i :: 0 <= i < |names| ==> names[i] in names;
    seq(|names|, i requires 0 <= i < |names| => Pending(d)[names[i]])
  }

  lemma {:induction false} ListingIsPending(d: Dir)
    requires Valid(Pending(d))
    ensures forall i :: 0 <= i < |Listing(d)| ==>
              Filename(Listing(d)[i]) in Pending(d) && Pending(d)[Filename(Listing(d)[i])] == Listing(d)[i]
    ensures forall n :: n in Pending(d) ==> Pending(d)[n] in Listing(d)
    ensures forall i, j :: 0 <= i < j < |Listing(d)| ==> LexLess(Filename(Listing(d)[i]), Filename(Listing(d)[j]))
  {
    hide Pending, Filename, WellFormed;
    var names := SortedNames(Pending(d).Keys);
    assert forall i :: 0 <= i < |names| ==> names[i] in names;
    forall n | n in Pending(d)
      ensures Pending(d)[n] in Listing(d)
    {
      assert n in names;
      var i :| 0 <= i < |names| && names[i] == n;
      assert Listing(d)[i] == Pending(d)[n];
    }
  }
}
