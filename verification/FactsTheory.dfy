/**
 The cache agrees with collecting every time, driven by the discipline of the apply loop; and a value
 once known is never forgotten.
 */
module FactsTheory {
  import opened Json
  import opened Facts
  import Orchestrator
  import ApplyTheory

  /** The two values are known to be the same, or neither is known. */
  ghost predicate SameKnown(a: FactValue, b: FactValue) {
    a.Known? == b.Known? && (a.Known? ==> a.value == b.value)
  }

  /**
   Facts of one name give one answer. The constructor accepts two facts of one name, but the cache has
   only one entry for them.
   */
  ghost predicate OneAnswer(facts: seq<Fact>, collect: Fact -> FactValue) {
    forall i, j :: 0 <= i < |facts| && 0 <= j < |facts| && facts[i].name == facts[j].name ==>
      SameKnown(collect(facts[i]), collect(facts[j]))
  }

  /** In particular when no two facts have the same name. */
  lemma DistinctNamesGiveOneAnswer(facts: seq<Fact>, collect: Fact -> FactValue)
    requires forall i, j :: 0 <= i < j < |facts| ==> facts[i].name != facts[j].name
    ensures OneAnswer(facts, collect)
  {
  }

  // ---------------------------------------------------------------- a run with a system underneath

  /** What is outside: which facts each plan reads, how applies change the system, the clock. */
  datatype Surroundings<!S> = Surroundings(
    collect: (Fact, S) -> FactValue,
    wanted: nat -> seq<string>,
    next: nat -> S,
    now: nat -> nat)

  datatype State<S> = State(cache: Cache, sys: S)

  ghost function Collector<S>(w: Surroundings<S>, sys: S): Fact -> FactValue {
    f => w.collect(f, sys)
  }

  /** The cache after a plan read the first `n` of its facts. */
  ghost function AfterReads<S>(facts: seq<Fact>, w: Surroundings<S>, st: State<S>, k: nat, n: nat): Cache
    requires n <= |w.wanted(k)|
  {
    if n == 0 then st.cache
    else GetCache(facts, w.wanted(k)[n - 1], Collector(w, st.sys), w.now(k), AfterReads(facts, w, st, k, n - 1))
  }

  ghost function StateStep<S>(facts: seq<Fact>, w: Surroundings<S>, st: State<S>, ev: Orchestrator.LogEvent,
                              k: nat): State<S> {
    match ev
    case PlanCall(_) => st.(cache := AfterReads(facts, w, st, k, |w.wanted(k)|))
    case MarkDirty(kind) => st.(cache := MarkCache(facts, kind, w.now(k), st.cache))
    case ApplyCall(_, _, _) => st.(sys := w.next(k))
  }

  /** The state before event `k` of a run that starts by collecting. */
  ghost function StateAt<S>(facts: seq<Fact>, w: Surroundings<S>, sys: S, log: seq<Orchestrator.LogEvent>,
                            k: nat): State<S>
    requires k <= |log|
  {
    if k == 0 then State(StartCache(facts, Collector(w, sys), w.now(0), map[]), sys)
    else StateStep(facts, w, StateAt(facts, w, sys, log, k - 1), log[k - 1], k - 1)
  }

  /** An apply changes only what facts triggered by its kind look at. */
  ghost predicate AppliesRespectTriggers<S>(facts: seq<Fact>, w: Surroundings<S>, sys: S,
                                            log: seq<Orchestrator.LogEvent>) {
    forall k, i :: 0 <= k < |log| && log[k].ApplyCall? && 0 <= i < |facts| && !TriggeredBy(facts[i], log[k].kind) ==>
      w.collect(facts[i], w.next(k)) == w.collect(facts[i], StateAt(facts, w, sys, log, k).sys)
  }

  /** Facts of one name give one answer in every system of the run. */
  ghost predicate AlwaysOneAnswer<S>(facts: seq<Fact>, w: Surroundings<S>, sys: S, log: seq<Orchestrator.LogEvent>) {
    && OneAnswer(facts, Collector(w, sys))
    && forall k :: 0 <= k < |log| && log[k].ApplyCall? ==> OneAnswer(facts, Collector(w, w.next(k)))
  }

  /** Every clean cache entry says what collecting now would say. */
  ghost predicate Agrees(facts: seq<Fact>, cache: Cache, collect: Fact -> FactValue) {
    forall i :: 0 <= i < |facts| && facts[i].name in cache && !cache[facts[i].name].dirty ==>
      SameKnown(cache[facts[i].name].value, collect(facts[i]))
  }

  ghost predicate DirtyFor(facts: seq<Fact>, cache: Cache, kind: string) {
    forall i :: 0 <= i < |facts| && TriggeredBy(facts[i], kind) ==> facts[i].name in cache && cache[facts[i].name].dirty
  }

  /** Some fact of that name is collected at the start. */
  ghost predicate NameCollectedAtStart(facts: seq<Fact>, name: string) {
    exists i :: 0 <= i < |facts| && facts[i].name == name && CollectedAtStart(facts[i])
  }

  /** After the start there is an entry for every such name, the clean answer of a fact of that name. */
  lemma {:induction false} StartHolds(facts: seq<Fact>, collect: Fact -> FactValue, now: nat,
                                      name: string) returns (i: nat)
    ensures var cache := StartCache(facts, collect, now, map[]);
            && (name in cache <==> NameCollectedAtStart(facts, name))
            && (name in cache ==>
                  && i < |facts| && facts[i].name == name
                  && cache[name] == CachedFact(collect(facts[i]), now, false))
  {
    hide CollectedAtStart;
    i := 0;
    if facts != [] {
      var front, last := facts[..|facts| - 1], facts[|facts| - 1];
      i := StartHolds(front, collect, now, name);
      if NameCollectedAtStart(front, name) {
        var k :| 0 <= k < |front| && front[k].name == name && CollectedAtStart(front[k]);
        assert facts[k] == front[k];
      }
      if last.name == name && CollectedAtStart(last) { i := |facts| - 1; }
    }
  }

  /** The names that are collected at the start: those of facts whose policy is not after-apply alone. */
  lemma {:induction false} StartTells(facts: seq<Fact>, collect: Fact -> FactValue, now: nat, name: string)
    ensures name in StartCache(facts, collect, now, map[]) <==>
            exists i :: 0 <= i < |facts| && facts[i].name == name
                        && (facts[i].policy.AtStart? || facts[i].policy.AtStartAndAfterApply?)
  {
    hide StartCache;
    var k := StartHolds(facts, collect, now, name);
    if NameCollectedAtStart(facts, name) {
      var i :| 0 <= i < |facts| && facts[i].name == name && CollectedAtStart(facts[i]);
      assert facts[i].policy.AtStart? || facts[i].policy.AtStartAndAfterApply?;
    }
  }

  /**
   Marking for a kind makes dirty exactly the facts with an after-apply policy that lists the kind, and changes
   neither a value nor the time of its collection.
   */
  lemma {:induction false} MarkTells(facts: seq<Fact>, kind: string, now: nat, cache: Cache, name: string)
    ensures var next := MarkCache(facts, kind, now, cache);
            var marked := exists i :: && 0 <= i < |facts| && facts[i].name == name
                                      && (facts[i].policy.AfterApply? || facts[i].policy.AtStartAndAfterApply?)
                                      && kind in facts[i].policy.triggers;
            && (name in next <==> name in cache || marked)
            && (name in next ==> (next[name].dirty <==> marked || cache[name].dirty))
            && (name in cache ==>
                  next[name].value == cache[name].value && next[name].collectedAt == cache[name].collectedAt)
            && (name !in cache && marked ==> next[name].value.Unknown?)
  {
    forall i | 0 <= i < |facts|
      ensures TriggeredBy(facts[i], kind) <==>
              && (facts[i].policy.AfterApply? || facts[i].policy.AtStartAndAfterApply?)
              && kind in facts[i].policy.triggers
    {
    }
  }

  /** Reading: what is not in the cache is unknown, a clean value is answered, a dirty one is collected. */
  lemma {:induction false} GetTells(facts: seq<Fact>, f: Fact, collect: Fact -> FactValue, now: nat, cache: Cache)
    requires f in facts && forall g :: g in facts && g.name == f.name ==> g == f
    ensures var v, next := GetValue(facts, f.name, collect, now, cache), GetCache(facts, f.name, collect, now, cache);
            && (f.name !in cache ==> v.Unknown? && next == cache)
            && (f.name in cache && !cache[f.name].dirty ==> v == cache[f.name].value && next == cache)
            && (f.name in cache && cache[f.name].dirty ==>
                  && f.name in next && next[f.name].value == v && !next[f.name].dirty
                  && (collect(f).Known? ==> v == collect(f) && next[f.name].collectedAt == now)
                  && (collect(f).Unknown? && cache[f.name].value.Unknown? ==>
                        v == collect(f) && next[f.name].collectedAt == now)
                  && (collect(f).Unknown? && !cache[f.name].value.Unknown? ==>
                        v.Stale? && next[f.name].collectedAt == cache[f.name].collectedAt))
  {
    var found := FactByName(facts, f.name);
    assert found.Some? && found.value == f;
  }

  /** Facts of one name that is collected at the start give one answer. */
  ghost predicate OneAnswerAtStart(facts: seq<Fact>, collect: Fact -> FactValue) {
    forall i, j :: 0 <= i < |facts| && 0 <= j < |facts| && facts[i].name == facts[j].name
                   && NameCollectedAtStart(facts, facts[i].name) ==>
      SameKnown(collect(facts[i]), collect(facts[j]))
  }

  /** The cache agrees after the start if and only if facts of one name that is collected then give one answer. */
  lemma {:induction false} StartAgreesIff(facts: seq<Fact>, collect: Fact -> FactValue, now: nat)
    ensures Agrees(facts, StartCache(facts, collect, now, map[]), collect) <==> OneAnswerAtStart(facts, collect)
  {
    hide StartCache, NameCollectedAtStart;
    var cache := StartCache(facts, collect, now, map[]);
    if Agrees(facts, cache, collect) {
      forall i, j | 0 <= i < |facts| && 0 <= j < |facts| && facts[i].name == facts[j].name
        && NameCollectedAtStart(facts, facts[i].name)
        ensures SameKnown(collect(facts[i]), collect(facts[j]))
      {
        var k := StartHolds(facts, collect, now, facts[i].name);
        assert SameKnown(cache[facts[i].name].value, collect(facts[i]))
          && SameKnown(cache[facts[j].name].value, collect(facts[j]));
      }
    }
    if OneAnswerAtStart(facts, collect) {
      forall i | 0 <= i < |facts| && facts[i].name in cache
        ensures SameKnown(cache[facts[i].name].value, collect(facts[i]))
      {
        var k := StartHolds(facts, collect, now, facts[i].name);
        assert SameKnown(collect(facts[k]), collect(facts[i]));
      }
    }
  }

  lemma GetAgrees(facts: seq<Fact>, name: string, collect: Fact -> FactValue, now: nat, cache: Cache)
    requires OneAnswer(facts, collect) && Agrees(facts, cache, collect)
    ensures Agrees(facts, GetCache(facts, name, collect, now, cache), collect)
    ensures forall i :: 0 <= i < |facts| && facts[i].name == name && name in cache ==>
              SameKnown(GetValue(facts, name, collect, now, cache), collect(facts[i]))
  {
    var found := FactByName(facts, name);
    if found.Some? {
      var j :| 0 <= j < |facts| && facts[j] == found.value;
      assert forall i :: 0 <= i < |facts| && facts[i].name == name ==> SameKnown(collect(facts[j]), collect(facts[i]));
    }
  }

  lemma {:induction false} ReadsAgree<S>(facts: seq<Fact>, w: Surroundings<S>, st: State<S>, k: nat, n: nat)
    requires OneAnswer(facts, Collector(w, st.sys)) && Agrees(facts, st.cache, Collector(w, st.sys))
      && n <= |w.wanted(k)|
    ensures Agrees(facts, AfterReads(facts, w, st, k, n), Collector(w, st.sys))
  {
    hide Agrees, GetCache, OneAnswer;
    if n > 0 {
      ReadsAgree(facts, w, st, k, n - 1);
      GetAgrees(facts, w.wanted(k)[n - 1], Collector(w, st.sys), w.now(k), AfterReads(facts, w, st, k, n - 1));
    }
  }

  lemma MarkAgrees(facts: seq<Fact>, kind: string, now: nat, cache: Cache, collect: Fact -> FactValue)
    requires Agrees(facts, cache, collect)
    ensures Agrees(facts, MarkCache(facts, kind, now, cache), collect)
    ensures DirtyFor(facts, MarkCache(facts, kind, now, cache), kind)
  {
    hide TriggeredBy, SameKnown;
    forall i | 0 <= i < |facts| && TriggeredBy(facts[i], kind)
      ensures facts[i].name in TriggeredNames(facts, kind)
    {
    }
  }

  lemma ApplyAgrees(facts: seq<Fact>, cache: Cache, kind: string, before: Fact -> FactValue, after: Fact -> FactValue)
    requires Agrees(facts, cache, before) && DirtyFor(facts, cache, kind)
    requires forall i :: 0 <= i < |facts| && !TriggeredBy(facts[i], kind) ==> after(facts[i]) == before(facts[i])
    ensures Agrees(facts, cache, after)
  {
    hide TriggeredBy, SameKnown;
  }

  /** The cache agrees with the system before every event of a disciplined run. */
  lemma {:induction false} AlwaysAgrees<S>(facts: seq<Fact>, w: Surroundings<S>, sys: S,
                                           log: seq<Orchestrator.LogEvent>, k: nat)
    requires AlwaysOneAnswer(facts, w, sys, log) && k <= |log|
    requires ApplyTheory.DirtyBeforeApply(log) && AppliesRespectTriggers(facts, w, sys, log)
    ensures var st := StateAt(facts, w, sys, log, k);
            && Agrees(facts, st.cache, Collector(w, st.sys)) && OneAnswer(facts, Collector(w, st.sys))
            && (k > 0 && log[k - 1].MarkDirty? ==> DirtyFor(facts, st.cache, log[k - 1].kind))
  {
    hide Agrees, DirtyFor, MarkCache, AfterReads, TriggeredBy, StartCache, OneAnswer;
    if k == 0 {
      StartIsClean(facts, Collector(w, sys), w.now(0));
    } else {
      AlwaysAgrees(facts, w, sys, log, k - 1);
      var st := StateAt(facts, w, sys, log, k - 1);
      match log[k - 1] {
        case PlanCall(_) =>
          ReadsAgree(facts, w, st, k - 1, |w.wanted(k - 1)|);
        case MarkDirty(kind) =>
          MarkAgrees(facts, kind, w.now(k - 1), st.cache, Collector(w, st.sys));
        case ApplyCall(_, kind, _) =>
          assert log[k - 2] == Orchestrator.MarkDirty(kind);
          ApplyAgrees(facts, st.cache, kind, Collector(w, st.sys), Collector(w, w.next(k - 1)));
      }
    }
  }

  lemma StartIsClean(facts: seq<Fact>, collect: Fact -> FactValue, now: nat)
    requires OneAnswer(facts, collect)
    ensures Agrees(facts, StartCache(facts, collect, now, map[]), collect)
  {
    hide StartCache, Agrees, SameKnown;
    StartAgreesIff(facts, collect, now);
  }

  /**
   The cache agrees with no cache. In every apply run, whatever fails, when a plan reads a fact that has
   a cache entry, it gets `Known(v)` if and only if collecting the fact at that moment gives `Known(v)`.
   */
  lemma {:induction false} CachedReadIsFreshRead<S>(
    s: Orchestrator.Setup, outs: seq<Orchestrator.Outcome>, initial: set<string>,
    facts: seq<Fact>, w: Surroundings<S>, sys: S, k: nat, j: nat, i: nat)
    requires |outs| <= |s.order| && i < |facts|
    requires var log := Orchestrator.LogOf(s, outs, initial);
             && AlwaysOneAnswer(facts, w, sys, log) && AppliesRespectTriggers(facts, w, sys, log)
             && k < |log| && log[k].PlanCall? && j < |w.wanted(k)| && w.wanted(k)[j] == facts[i].name
             && facts[i].name in AfterReads(facts, w, StateAt(facts, w, sys, log, k), k, j)
    ensures var st := StateAt(facts, w, sys, Orchestrator.LogOf(s, outs, initial), k);
            SameKnown(GetValue(facts, facts[i].name, Collector(w, st.sys), w.now(k), AfterReads(facts, w, st, k, j)),
                      w.collect(facts[i], st.sys))
  {
    hide Agrees, DirtyFor, StateAt, AfterReads, GetValue, SameKnown, AppliesRespectTriggers, AlwaysOneAnswer,
         OneAnswer;
    var log := Orchestrator.LogOf(s, outs, initial);
    ApplyTheory.LogIsDirtyBeforeApply(s, outs, initial);
    AlwaysAgrees(facts, w, sys, log, k);
    var st := StateAt(facts, w, sys, log, k);
    ReadsAgree(facts, w, st, k, j);
    GetAgrees(facts, facts[i].name, Collector(w, st.sys), w.now(k), AfterReads(facts, w, st, k, j));
  }

  // ---------------------------------------------------------------- stale discipline

  /** One use of the cache: a read with what a collection would answer, or a mark. */
  datatype Use = Read(name: string, answer: FactValue, now: nat) | Mark(kind: string, now: nat)

  /** A cache together with the last value each fact was known to have, and when it was collected. */
  datatype History = History(cache: Cache, lastKnown: map<string, (Json, nat)>)

  ghost predicate Collects(h: History, facts: seq<Fact>, name: string) {
    name in h.cache && h.cache[name].dirty && FactByName(facts, name).Some?
  }

  ghost function Uses(h: History, facts: seq<Fact>, u: Use): History {
    match u
    case Read(name, answer, now) =>
      History(GetCache(facts, name, _ => answer, now, h.cache),
              if Collects(h, facts, name)
                && answer.Known? then h.lastKnown[name := (answer.value, now)] else h.lastKnown)
    case Mark(kind, now) => History(MarkCache(facts, kind, now, h.cache), h.lastKnown)
  }

  ghost function UsesAll(h: History, facts: seq<Fact>, us: seq<Use>): History {
    if us == [] then h else Uses(UsesAll(h, facts, us[..|us| - 1]), facts, us[|us| - 1])
  }

  /** Collectors answer `Known` or `Unknown`, never `Stale`. */
  ghost predicate CollectorAnswers(us: seq<Use>) {
    forall i :: 0 <= i < |us| && us[i].Read? ==> !us[i].answer.Stale?
  }

  /** Known and stale entries carry the last known value and its time; unknown ones never had one. */
  ghost predicate Remembers(h: History) {
    && h.lastKnown.Keys <= h.cache.Keys
    && forall n :: n in h.cache ==> RemembersAt(h, n)
  }

  ghost predicate RemembersAt(h: History, n: string)
    requires n in h.cache
  {
    match h.cache[n].value
    case Known(v) => n in h.lastKnown && h.lastKnown[n] == (v, h.cache[n].collectedAt)
    case Stale(v, _) => n in h.lastKnown && h.lastKnown[n] == (v, h.cache[n].collectedAt)
    case Unknown(_) => n !in h.lastKnown
  }

  ghost function StartHistory(facts: seq<Fact>, collect: Fact -> FactValue, now: nat): History {
    var cache := StartCache(facts, collect, now, map[]);
    History(cache, map n | n in cache && cache[n].value.Known? :: (cache[n].value.value, now))
  }

  lemma {:induction false} StartEntries(facts: seq<Fact>, collect: Fact -> FactValue, now: nat, n: string)
    requires forall f: Fact :: !collect(f).Stale?
    requires n in StartCache(facts, collect, now, map[])
    ensures var e := StartCache(facts, collect, now, map[])[n]; e.collectedAt == now && !e.value.Stale?
  {
    if facts != [] {
      var f := facts[|facts| - 1];
      if !(CollectedAtStart(f) && f.name == n) { StartEntries(facts[..|facts| - 1], collect, now, n); }
    }
  }

  lemma StartRemembers(facts: seq<Fact>, collect: Fact -> FactValue, now: nat)
    requires forall f: Fact :: !collect(f).Stale?
    ensures Remembers(StartHistory(facts, collect, now))
  {
    hide StartCache;
    var h := StartHistory(facts, collect, now);
    forall n | n in h.cache
      ensures RemembersAt(h, n)
    {
      StartEntries(facts, collect, now, n);
    }
  }

  lemma UseRemembers(h: History, facts: seq<Fact>, u: Use)
    requires Remembers(h) && (u.Read? ==> !u.answer.Stale?)
    ensures Remembers(Uses(h, facts, u))
    ensures h.lastKnown.Keys <= Uses(h, facts, u).lastKnown.Keys
  {
    hide FactByName, TriggeredNames, Age;
    var h' := Uses(h, facts, u);
    forall n | n in h'.cache
      ensures RemembersAt(h', n)
    {
      if n in h.cache { assert RemembersAt(h, n); }
    }
  }

  lemma {:induction false} UsesRemember(facts: seq<Fact>, collect: Fact -> FactValue, now: nat, us: seq<Use>)
    requires (forall f: Fact :: !collect(f).Stale?) && CollectorAnswers(us)
    ensures Remembers(UsesAll(StartHistory(facts, collect, now), facts, us))
  {
    hide StartHistory, Remembers, Uses;
    if us == [] {
      StartRemembers(facts, collect, now);
    } else {
      UsesRemember(facts, collect, now, us[..|us| - 1]);
      UseRemembers(UsesAll(StartHistory(facts, collect, now), facts, us[..|us| - 1]), facts, us[|us| - 1]);
    }
  }

  lemma {:induction false} LastKnownGrows(h: History, facts: seq<Fact>, us: seq<Use>, k: nat)
    requires Remembers(h) && CollectorAnswers(us) && k <= |us|
    ensures Remembers(UsesAll(h, facts, us))
    ensures UsesAll(h, facts, us[..k]).lastKnown.Keys <= UsesAll(h, facts, us).lastKnown.Keys
  {
    hide Remembers, Uses;
    if us != [] {
      var front := us[..|us| - 1];
      LastKnownGrows(h, facts, front, if k < |us| then k else |front|);
      UseRemembers(UsesAll(h, facts, front), facts, us[|us| - 1]);
      if k < |us| { assert front[..k] == us[..k]; } else { assert us[..k] == us; }
    }
  }

  /** After any uses, a fact that was ever known has a value in the cache: the last known one. */
  lemma {:induction false} OnceKnownNeverUnknown(facts: seq<Fact>, collect: Fact -> FactValue, now: nat,
                                                 us: seq<Use>, k: nat, n: string)
    requires (forall f: Fact :: !collect(f).Stale?) && CollectorAnswers(us) && k <= |us|
    requires var early := UsesAll(StartHistory(facts, collect, now), facts, us[..k]).cache;
             n in early && early[n].value.Known?
    ensures var h := UsesAll(StartHistory(facts, collect, now), facts, us);
            && n in h.lastKnown && n in h.cache && !h.cache[n].value.Unknown?
            && (h.cache[n].value.Known? ==> h.cache[n].value.value == h.lastKnown[n].0)
            && (h.cache[n].value.Stale? ==> h.cache[n].value.last == h.lastKnown[n].0)
  {
    hide StartHistory, Uses, UsesAll;
    var start := StartHistory(facts, collect, now);
    var early, h := UsesAll(start, facts, us[..k]), UsesAll(start, facts, us);
    StartRemembers(facts, collect, now);
    LastKnownGrows(start, facts, us, k);
    UsesRemember(facts, collect, now, us[..k]);
    assert RemembersAt(early, n) && n in early.lastKnown;
    assert RemembersAt(h, n);
  }

  /** A refresh that fails answers the last known value, with its age since that value was collected. */
  lemma StaleReadIsLastKnown(facts: seq<Fact>, collect: Fact -> FactValue, now: nat, us: seq<Use>, n: string,
                             reason: string, at: nat)
    requires (forall f: Fact :: !collect(f).Stale?) && CollectorAnswers(us)
    requires var h := UsesAll(StartHistory(facts, collect, now), facts, us); Collects(h, facts, n) && n in h.lastKnown
    ensures var h := UsesAll(StartHistory(facts, collect, now), facts, us);
            var since := h.lastKnown[n].1;
            GetValue(facts, n, _ => Unknown(reason), at, h.cache) ==
              Stale(h.lastKnown[n].0, if at < since then 0 else (at - since) % 0x1_0000_0000_0000_0000)
  {
    hide StartHistory, Uses, UsesAll, FactByName;
    var h := UsesAll(StartHistory(facts, collect, now), facts, us);
    UsesRemember(facts, collect, now, us);
    assert RemembersAt(h, n);
  }
}
