/** The facts collector: a cache with dirty flags and lazy refresh. */
module Facts {
  import opened Text
  import opened Json

  datatype FactValue =
    | Known(value: Json)
    | Unknown(reason: string)
    | Stale(last: Json, ageMs: nat)

  datatype RefreshPolicy =
    | AtStart
    | AfterApply(triggers: seq<string>)
    | AtStartAndAfterApply(triggers: seq<string>)

  datatype Fact = Fact(name: string, policy: RefreshPolicy)

  datatype CachedFact = CachedFact(value: FactValue, collectedAt: nat, dirty: bool)

  type Cache = map<string, CachedFact>

  const U64_VALUES := 0x1_0000_0000_0000_0000

  predicate CollectedAtStart(f: Fact) {
    !f.policy.AfterApply?
  }

  predicate TriggeredBy(f: Fact, kind: string) {
    !f.policy.AtStart? && kind in f.policy.triggers
  }

  /** Milliseconds since `since`, never negative, truncated to 64 bits. */
  function Age(since: nat, now: nat): nat {
    if now < since then 0 else (now - since) % U64_VALUES
  }

  /** A value that was known becomes stale, not unknown, when a refresh fails. */
  function UpgradeOrReplace(prev: FactValue, answer: FactValue, prevCollectedAt: nat, now: nat): FactValue {
    match answer
    case Known(v) => Known(v)
    case Unknown(reason) =>
      (match prev
       case Known(v) => Stale(v, Age(prevCollectedAt, now))
       case Stale(v, _) => Stale(v, Age(prevCollectedAt, now))
       case Unknown(_) => Unknown(reason))
    case Stale(v, age) => Stale(v, age)
  }

  function Refreshed(entry: CachedFact, answer: FactValue, now: nat): CachedFact {
    var v := UpgradeOrReplace(entry.value, answer, entry.collectedAt, now);
    CachedFact(v, if v.Stale? then entry.collectedAt else now, false)
  }

  /** The first fact of that name. */
  function FactByName(facts: seq<Fact>, name: string): (r: Option<Fact>)
    ensures r.Some? ==> r.value in facts && r.value.name == name
    ensures r.None? ==> forall f :: f in facts ==> f.name != name
  {
    if facts == [] then None
    else if facts[0].name == name then Some(facts[0])
    else FactByName(facts[1..], name)
  }

  // ---------------------------------------------------------------- specification of the three calls

  function StartCache(facts: seq<Fact>, collect: Fact -> FactValue, now: nat, cache: Cache): Cache {
    if facts == [] then cache
    else
      var before := StartCache(facts[..|facts| - 1], collect, now, cache);
      var f := facts[|facts| - 1];
      if CollectedAtStart(f) then before[f.name := CachedFact(collect(f), now, false)] else before
  }

  ghost function TriggeredNames(facts: seq<Fact>, kind: string): set<string> {
    set i | 0 <= i < |facts| && TriggeredBy(facts[i], kind) :: facts[i].name
  }

  function Marked(cache: Cache, name: string, now: nat): CachedFact {
    if name in cache then cache[name].(dirty := true)
    else CachedFact(Unknown("pending after-apply refresh"), now, true)
  }

  ghost function MarkCache(facts: seq<Fact>, kind: string, now: nat, cache: Cache): Cache {
    map n | n in cache.Keys + TriggeredNames(facts, kind) ::
      if n in TriggeredNames(facts, kind) then Marked(cache, n, now) else cache[n]
  }

  function GetCache(facts: seq<Fact>, name: string, collect: Fact -> FactValue, now: nat, cache: Cache): Cache {
    if name !in cache || !cache[name].dirty then cache
    else
      match FactByName(facts, name)
      case None => cache
      case Some(f) => cache[name := Refreshed(cache[name], collect(f), now)]
  }

  function GetValue(facts: seq<Fact>, name: string, collect: Fact -> FactValue, now: nat, cache: Cache): FactValue {
    if name !in cache then Unknown("unknown fact '" + name + "'")
    else if !cache[name].dirty then cache[name].value
    else
      match FactByName(facts, name)
      case None => Unknown("fact '" + name + "' has cache entry but no collector")
      case Some(f) => Refreshed(cache[name], collect(f), now).value
  }

  // ---------------------------------------------------------------- the object

  class FactsCollector {
    const facts: seq<Fact>
    var cache: Cache

    constructor (facts: seq<Fact>)
      ensures this.facts == facts && cache == map[]
    {
      this.facts := facts;
      cache := map[];
    }

    method CollectAtStart(collect: Fact -> FactValue, now: nat)
      modifies this
      ensures cache == StartCache(facts, collect, now, old(cache))
    {
      assert facts[..0] == [];
      for i := 0 to |facts|
        invariant cache == StartCache(facts[..i], collect, now, old(cache))
      {
        assert facts[..i + 1][..i] == facts[..i];
        if CollectedAtStart(facts[i]) {
          cache := cache[facts[i].name := CachedFact(collect(facts[i]), now, false)];
        }
      }
      assert facts[..|facts|] == facts;
    }

    method MarkDirtyAfterApply(kind: string, now: nat)
      modifies this
      ensures cache == MarkCache(facts, kind, now, old(cache))
    {
      hide TriggeredNames, TriggeredBy;
      var toDirty: seq<string> := [];
      assert facts[..0] == [];
      NoneTriggered(kind);
      for i := 0 to |facts|
        invariant cache == old(cache)
        invariant forall n :: n in toDirty <==> n in TriggeredNames(facts[..i], kind)
      {
        TriggeredSnoc(facts, i, kind);
        if TriggeredBy(facts[i], kind) {
          toDirty := toDirty + [facts[i].name];
        }
      }
      assert facts[..|facts|] == facts;
      ghost var start := cache;
      for i := 0 to |toDirty|
        invariant cache.Keys == start.Keys + (set n | n in toDirty[..i])
        invariant forall n :: n in cache ==>
                    cache[n] == if n in toDirty[..i] then Marked(start, n, now) else start[n]
      {
        var name := toDirty[i];
        assert toDirty[..i + 1] == toDirty[..i] + [name];
        if name in cache {
          cache := cache[name := cache[name].(dirty := true)];
        } else {
          cache := cache[name := CachedFact(Unknown("pending after-apply refresh"), now, true)];
        }
      }
      assert toDirty[..|toDirty|] == toDirty;
      assert (set n | n in toDirty) == TriggeredNames(facts, kind);
      assert cache == MarkCache(facts, kind, now, start);
    }

    /** `FactsView::get`. */
    method Get(name: string, collect: Fact -> FactValue, now: nat) returns (v: FactValue)
      modifies this
      ensures v == GetValue(facts, name, collect, now, old(cache))
      ensures cache == GetCache(facts, name, collect, now, old(cache))
    {
      if name !in cache {
        return Unknown("unknown fact '" + name + "'");
      }
      if !cache[name].dirty {
        return cache[name].value;
      }
      var fact := FactByName(facts, name);
      if fact.None? {
        return Unknown("fact '" + name + "' has cache entry but no collector");
      }
      var answer := collect(fact.value);
      var entry := cache[name];
      var newValue := UpgradeOrReplace(entry.value, answer, entry.collectedAt, now);
      var at := entry.collectedAt;
      if !newValue.Stale? {
        at := now;
      }
      cache := cache[name := CachedFact(newValue, at, false)];
      return newValue;
    }
  }

  lemma NoneTriggered(kind: string)
    ensures TriggeredNames([], kind) == {}
  {
  }

  lemma TriggeredSnoc(facts: seq<Fact>, i: nat, kind: string)
    requires i < |facts|
    ensures TriggeredNames(facts[..i + 1], kind) ==
            TriggeredNames(facts[..i], kind) + (if TriggeredBy(facts[i], kind) then {facts[i].name} else {})
  {
    hide TriggeredBy;
    var longer, shorter := facts[..i + 1], facts[..i];
    assert longer[i] == facts[i] && forall j :: 0 <= j < i ==> longer[j] == shorter[j];
    forall n | n in TriggeredNames(shorter, kind)
      ensures n in TriggeredNames(longer, kind)
    {
      var j :| 0 <= j < i && TriggeredBy(shorter[j], kind) && shorter[j].name == n;
      assert TriggeredBy(longer[j], kind) && longer[j].name == n;
    }
  }
}
