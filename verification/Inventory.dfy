/** Deep merge of inventories and lookup by dotted path. */
module Inventory {
  import opened Json

  datatype MergeStrategy = DeepMapReplaceList | DeepMapAppendList | Replace

  /** Append the items that are not there yet. */
  function AppendNew(a: seq<Json>, b: seq<Json>): seq<Json> {
    if b == [] then a
    else
      var front := AppendNew(a, b[..|b| - 1]);
      var item := b[|b| - 1];
      if item in front then front else front + [item]
  }

  /** The keys of a merged object: those of both, less the ones `over` sets to null. */
  function MergedKeys(base: map<string, Json>, over: map<string, Json>): set<string> {
    set k | k in base.Keys + over.Keys && !(k in over && over[k].Null?)
  }

  /** Deep merge, pointwise. */
  function MergeDeep(base: Json, over: Json, append: bool): Json
    decreases over
  {
    if over.Null? then base
    else if base.Object? && over.Object? then
      Object(map k | k in MergedKeys(base.fields, over.fields) ::
        if k !in over.fields then base.fields[k]
        else if k in base.fields then MergeDeep(base.fields[k], over.fields[k], append)
        else over.fields[k])
    else if base.Array? && over.Array? && append then Array(AppendNew(base.items, over.items))
    else over
  }

  function MergeInventory(base: Json, over: Json, strategy: MergeStrategy): Json {
    match strategy
    case Replace => over
    case DeepMapReplaceList => MergeDeep(base, over, false)
    case DeepMapAppendList => MergeDeep(base, over, true)
  }

  /** The value of one merged key. */
  function MergedField(base: map<string, Json>, over: map<string, Json>, k: string, append: bool): Json
    requires k in base || k in over
  {
    if k !in over then base[k]
    else if k in base then MergeDeep(base[k], over[k], append)
    else over[k]
  }

  /** The object after the keys in `done` were merged. */
  ghost function PartlyMerged(base: map<string, Json>, over: map<string, Json>, done: set<string>,
                              append: bool): map<string, Json>
    requires done <= over.Keys
  {
    map k | k in base.Keys + done && !(k in done && over[k].Null?) ::
      if k in done then MergedField(base, over, k, append) else base[k]
  }

  lemma AllMerged(base: Json, over: Json, append: bool)
    requires base.Object? && over.Object?
    ensures MergeDeep(base, over, append) == Object(PartlyMerged(base.fields, over.fields, over.fields.Keys, append))
  {
    assert MergeDeep(base, over, append).fields == PartlyMerged(base.fields, over.fields, over.fields.Keys, append);
  }

  lemma MergeOneKey(base: map<string, Json>, over: map<string, Json>, done: set<string>, k: string, append: bool)
    requires done <= over.Keys && k in over && k !in done
    ensures var m, next := PartlyMerged(base, over, done, append), PartlyMerged(base, over, done + {k}, append);
            && (k in m <==> k in base) && (k in m ==> m[k] == base[k])
            && next == if over[k].Null? then m - {k} else m[k := MergedField(base, over, k, append)]
  {
    hide MergedField;
  }

  lemma NothingMerged(base: map<string, Json>, over: map<string, Json>, append: bool)
    ensures PartlyMerged(base, over, {}, append) == base
  {
  }

  /** The loop that removes and inserts keys one by one, whatever the order of the keys. */
  method MergeFields(base: map<string, Json>, over: Json, append: bool) returns (m: map<string, Json>)
    requires over.Object?
    ensures m == PartlyMerged(base, over.fields, over.fields.Keys, append)
    decreases over, 0
  {
    hide PartlyMerged, MergeDeep;
    m := base;
    var todo := over.fields.Keys;
    ghost var done: set<string> := {};
    NothingMerged(base, over.fields, append);
    while todo != {}
      invariant todo <= over.fields.Keys && done == over.fields.Keys - todo
      invariant m == PartlyMerged(base, over.fields, done, append)
      decreases |todo|
    {
      var k :| k in todo;
      var v := over.fields[k];
      MergeOneKey(base, over.fields, done, k, append);
      todo, done := todo - {k}, done + {k};
      if v.Null? {
        m := m - {k};
      } else if k in m {
        var prev := m[k];
        m := m - {k};
        var merged := MergeInPlace(prev, v, append);
        m := m[k := merged];
      } else {
        m := m[k := v];
      }
    }
    assert done == over.fields.Keys;
  }

  method AppendItems(base: seq<Json>, over: seq<Json>) returns (arr: seq<Json>)
    ensures arr == AppendNew(base, over)
  {
    arr := base;
    assert over[..0] == [];
    for i := 0 to |over|
      invariant arr == AppendNew(base, over[..i])
    {
      assert over[..i + 1][..i] == over[..i];
      if over[i] !in arr {
        arr := arr + [over[i]];
      }
    }
    assert over[..|over|] == over;
  }

  /** `merge_deep` as the program runs it. */
  method MergeInPlace(base: Json, over: Json, append: bool) returns (r: Json)
    ensures r == MergeDeep(base, over, append)
    decreases over, 1
  {
    if over.Null? {
      return base;
    }
    if base.Object? && over.Object? {
      AllMerged(base, over, append);
      var m := MergeFields(base.fields, over, append);
      return Object(m);
    }
    if base.Array? && over.Array? && append {
      var arr := AppendItems(base.items, over.items);
      return Array(arr);
    }
    return over;
  }

  // ---------------------------------------------------------------- stabilisation

  /** No key holds null, at any depth of objects; what is inside arrays does not matter. */
  ghost predicate NoNullKeys(v: Json)
    decreases v
  {
    v.Object? ==> forall k :: k in v.fields ==> !v.fields[k].Null? && NoNullKeys(v.fields[k])
  }

  lemma MergeObjects(base: Json, over: Json, append: bool)
    requires base.Object? && over.Object?
    ensures MergeDeep(base, over, append).Object?
    ensures MergeDeep(base, over, append).fields.Keys == MergedKeys(base.fields, over.fields)
    ensures forall k :: k in MergedKeys(base.fields, over.fields) ==>
              MergeDeep(base, over, append).fields[k] == MergedField(base.fields, over.fields, k, append)
  {
  }

  lemma {:induction false} AppendContains(a: seq<Json>, b: seq<Json>)
    ensures forall x :: x in a || x in b ==> x in AppendNew(a, b)
  {
    if b != [] {
      AppendContains(a, b[..|b| - 1]);
      assert b == b[..|b| - 1] + [b[|b| - 1]];
    }
  }

  lemma {:induction false} AppendNothingNew(a: seq<Json>, b: seq<Json>)
    requires forall x :: x in b ==> x in a
    ensures AppendNew(a, b) == a
  {
    if b != [] {
      assert b == b[..|b| - 1] + [b[|b| - 1]];
      AppendNothingNew(a, b[..|b| - 1]);
    }
  }

  lemma AppendIsStable(a: seq<Json>, b: seq<Json>)
    ensures AppendNew(AppendNew(a, b), b) == AppendNew(a, b)
    ensures AppendNew(b, b) == b
  {
    AppendContains(a, b);
    AppendNothingNew(AppendNew(a, b), b);
    AppendNothingNew(b, b);
  }

  /** Equality of two objects, key by key. */
  lemma SameObject(a: Json, b: Json)
    requires a.Object? && b.Object? && a.fields.Keys == b.fields.Keys
    requires forall k :: k in a.fields ==> a.fields[k] == b.fields[k]
    ensures a == b
  {
    assert a.fields == b.fields;
  }

  /** Merging an override into itself twice is merging it once. */
  lemma {:induction false} SelfMergeIsStable(over: Json, append: bool)
    ensures MergeDeep(MergeDeep(over, over, append), over, append) == MergeDeep(over, over, append)
    decreases over
  {
    if over.Object? {
      hide MergeDeep;
      var once := MergeDeep(over, over, append);
      MergeObjects(over, over, append);
      var twice := MergeDeep(once, over, append);
      MergeObjects(once, over, append);
      forall k | k in once.fields
        ensures twice.fields[k] == once.fields[k]
      {
        SelfMergeIsStable(over.fields[k], append);
      }
      SameObject(twice, once);
    } else if over.Array? {
      AppendIsStable(over.items, over.items);
    }
  }

  /** Applying an override three times is the same as applying it twice, for all values and both list modes. */
  lemma {:induction false} ThreeTimesIsTwice(x: Json, over: Json, append: bool)
    ensures var f := (v: Json) => MergeDeep(v, over, append); f(f(f(x))) == f(f(x))
    decreases over
  {
    if over.Object? {
      if x.Object? {
        ThreeTimesOnObjects(x, over, append);
      } else {
        SelfMergeIsStable(over, append);
      }
    } else if over.Array? && x.Array? && append {
      AppendIsStable(x.items, over.items);
    } else if over.Array? {
      AppendIsStable(over.items, over.items);
    }
  }

  lemma {:induction false} ThreeTimesOnObjects(x: Json, over: Json, append: bool)
    requires x.Object? && over.Object?
    ensures var f := (v: Json) => MergeDeep(v, over, append); f(f(f(x))) == f(f(x))
    decreases over, 0
  {
    hide MergeDeep;
    var y := MergeDeep(x, over, append);
    MergeObjects(x, over, append);
    var z := MergeDeep(y, over, append);
    MergeObjects(y, over, append);
    var u := MergeDeep(z, over, append);
    MergeObjects(z, over, append);
    forall k | k in z.fields
      ensures u.fields[k] == z.fields[k]
    {
      if k in over.fields {
        if k in x.fields {
          ThreeTimesIsTwice(x.fields[k], over.fields[k], append);
        } else {
          SelfMergeIsStable(over.fields[k], append);
        }
      }
    }
    SameObject(u, z);
  }

  /** A value is its own merge exactly when it has no null keys. */
  lemma {:induction false} SelfMergeIsIdentity(v: Json, append: bool)
    ensures MergeDeep(v, v, append) == v <==> NoNullKeys(v)
    decreases v
  {
    if v.Object? {
      hide MergeDeep;
      var once := MergeDeep(v, v, append);
      MergeObjects(v, v, append);
      forall k | k in v.fields && !v.fields[k].Null?
        ensures once.fields[k] == v.fields[k] <==> NoNullKeys(v.fields[k])
      {
        SelfMergeIsIdentity(v.fields[k], append);
      }
      if NoNullKeys(v) {
        SameObject(once, v);
      }
    } else if v.Array? {
      AppendIsStable(v.items, v.items);
    }
  }

  /** The second merge finds nothing to remove: nulls of `over` that survived the first one do not exist. */
  ghost predicate SettlesAtOnce(x: Json, over: Json)
    decreases over
  {
    if !over.Object? then true
    else if !x.Object? then NoNullKeys(over)
    else forall k :: k in over.fields && !over.fields[k].Null? ==>
           if k in x.fields then SettlesAtOnce(x.fields[k], over.fields[k]) else NoNullKeys(over.fields[k])
  }

  /** Exactly when applying an override twice is the same as applying it once. */
  lemma {:induction false} TwiceIsOnceIff(x: Json, over: Json, append: bool)
    ensures MergeDeep(MergeDeep(x, over, append), over, append) == MergeDeep(x, over, append) <==>
      SettlesAtOnce(x, over)
    decreases over
  {
    if over.Object? && x.Object? {
      hide MergeDeep;
      var y := MergeDeep(x, over, append);
      MergeObjects(x, over, append);
      var z := MergeDeep(y, over, append);
      MergeObjects(y, over, append);
      forall k | k in y.fields
        ensures z.fields[k] == y.fields[k] <==>
                  (k in over.fields ==>
                     if k in x.fields then SettlesAtOnce(x.fields[k], over.fields[k]) else NoNullKeys(over.fields[k]))
      {
        if k in over.fields {
          if k in x.fields {
            TwiceIsOnceIff(x.fields[k], over.fields[k], append);
          } else {
            SelfMergeIsIdentity(over.fields[k], append);
          }
        }
      }
      if SettlesAtOnce(x, over) {
        SameObject(z, y);
      }
    } else if over.Object? {
      SelfMergeIsIdentity(over, append);
    } else if over.Array? && x.Array? && append {
      AppendIsStable(x.items, over.items);
    } else if over.Array? {
      AppendIsStable(over.items, over.items);
    }
  }

  /** An override is idempotent on every value exactly when it has no null keys. */
  lemma IdempotentIffNoNullKeys(over: Json, append: bool)
    ensures (forall x :: MergeDeep(MergeDeep(x, over, append), over, append) == MergeDeep(x, over, append))
            <==> NoNullKeys(over)
  {
    hide MergeDeep;
    forall x
      ensures MergeDeep(MergeDeep(x, over, append), over, append) == MergeDeep(x, over, append) <==>
        SettlesAtOnce(x, over)
    {
      TwiceIsOnceIff(x, over, append);
    }
    if NoNullKeys(over) {
      forall x ensures SettlesAtOnce(x, over) { NoNullsSettle(x, over); }
    } else {
      TwiceIsOnceIff(Null, over, append);
      assert !SettlesAtOnce(Null, over);
      assert MergeDeep(MergeDeep(Null, over, append), over, append) != MergeDeep(Null, over, append);
    }
  }

  lemma {:induction false} NoNullsSettle(x: Json, over: Json)
    requires NoNullKeys(over)
    ensures SettlesAtOnce(x, over)
    decreases over
  {
    if over.Object? && x.Object? {
      forall k | k in over.fields && k in x.fields
        ensures SettlesAtOnce(x.fields[k], over.fields[k])
      {
        NoNullsSettle(x.fields[k], over.fields[k]);
      }
    }
  }

  /** Whatever the strategy, a third application of an override changes nothing. */
  lemma EveryStrategySettles(x: Json, over: Json, strategy: MergeStrategy)
    ensures var f := (v: Json) => MergeInventory(v, over, strategy); f(f(f(x))) == f(f(x))
  {
    hide MergeDeep;
    if !strategy.Replace? { ThreeTimesIsTwice(x, over, strategy.DeepMapAppendList?); }
  }

  // ---------------------------------------------------------------- lookup

  datatype Lookup = Found(value: Json) | KeyNotFound | TypeMismatch

  /** Segments of a dotted path; there is always at least one. */
  function Split(path: string): (segments: seq<string>)
    ensures segments != []
  {
    if path == [] then [[]]
    else
      var rest := Split(path[1..]);
      if path[0] == '.' then [[]] + rest else [[path[0]] + rest[0]] + rest[1..]
  }

  function Join(segments: seq<string>): string
    requires segments != []
  {
    if |segments| == 1 then segments[0] else segments[0] + ['.'] + Join(segments[1..])
  }

  /** Splitting loses nothing and leaves no dot in a segment. */
  lemma {:induction false} SplitThenJoin(path: string)
    ensures Join(Split(path)) == path
    ensures forall i :: 0 <= i < |Split(path)| ==> '.' !in Split(path)[i]
  {
    SegmentsHaveNoDot(path);
    if path != [] {
      hide Join;
      SplitThenJoin(path[1..]);
      var rest := Split(path[1..]);
      if path[0] == '.' { JoinAfterDot(rest); } else { JoinAfterChar(rest, path[0]); }
      assert path == [path[0]] + path[1..];
    }
  }

  lemma {:induction false} JoinAfterDot(rest: seq<string>)
    requires rest != []
    ensures Join([[]] + rest) == ['.'] + Join(rest)
  {
    var all := [[]] + rest;
    assert all[1..] == rest && all[0] == [] && |all| > 1;
    assert Join(all) == all[0] + ['.'] + Join(all[1..]);
  }

  lemma {:induction false} JoinAfterChar(rest: seq<string>, c: char)
    requires rest != []
    ensures Join([[c] + rest[0]] + rest[1..]) == [c] + Join(rest)
  {
    var all := [[c] + rest[0]] + rest[1..];
    assert all[0] == [c] + rest[0] && all[1..] == rest[1..];
    if |rest| > 1 {
      var tail := Join(rest[1..]);
      assert Join(all) == all[0] + ['.'] + tail && Join(rest) == rest[0] + ['.'] + tail;
      assert ([c] + rest[0]) + ['.'] + tail == [c] + (rest[0] + ['.'] + tail);
    }
  }

  lemma {:induction false} SegmentsHaveNoDot(path: string)
    ensures forall i :: 0 <= i < |Split(path)| ==> '.' !in Split(path)[i]
  {
    if path != [] { SegmentsHaveNoDot(path[1..]); }
  }

  function LookupPath(v: Json, segments: seq<string>): Lookup {
    if segments == [] then Found(v)
    else if !v.Object? then TypeMismatch
    else if segments[0] !in v.fields then KeyNotFound
    else LookupPath(v.fields[segments[0]], segments[1..])
  }

  /** `JsonInventory::get`. */
  method Get(root: Json, path: string) returns (r: Lookup)
    ensures r == LookupPath(root, Split(path))
  {
    var node := root;
    var segments := Split(path);
    assert segments[0..] == segments;
    for i := 0 to |segments|
      invariant LookupPath(root, segments) == LookupPath(node, segments[i..])
    {
      assert segments[i..][0] == segments[i] && segments[i..][1..] == segments[i + 1..];
      if !node.Object? {
        return TypeMismatch;
      }
      if segments[i] !in node.fields {
        return KeyNotFound;
      }
      node := node.fields[segments[i]];
    }
    return Found(node);
  }

  /** Same value found, or not found in both. */
  predicate SameFinding(a: Lookup, b: Lookup) {
    a.Found? == b.Found? && (a.Found? ==> a.value == b.value)
  }

  /** Following `p`, every value up to the first absent key is an object, and there is such a key. */
  predicate LacksAlong(v: Json, p: seq<string>)
    requires p != []
    decreases |p|
  {
    v.Object? && (p[0] !in v.fields || (|p| > 1 && LacksAlong(v.fields[p[0]], p[1..])))
  }

  /** A value that `over` sets at a path is what the merge has there. */
  lemma {:induction false} OverrideWins(base: Json, over: Json, append: bool, p: seq<string>)
    requires LookupPath(over, p).Found?
    requires !LookupPath(over, p).value.Null? && !LookupPath(over, p).value.Object?
    requires append ==> !LookupPath(over, p).value.Array?
    ensures LookupPath(MergeDeep(base, over, append), p) == LookupPath(over, p)
    decreases |p|
  {
    if p != [] && base.Object? {
      MergeObjects(base, over, append);
      if |p| == 1 { assert p[1..] == []; }
      if p[0] in base.fields && !over.fields[p[0]].Null? {
        OverrideWins(base.fields[p[0]], over.fields[p[0]], append, p[1..]);
      }
    }
  }

  /** Where `over` says nothing, the base shows through. */
  lemma {:induction false} BaseShowsThrough(base: Json, over: Json, append: bool, p: seq<string>)
    requires p != [] && LacksAlong(over, p)
    ensures SameFinding(LookupPath(MergeDeep(base, over, append), p), LookupPath(base, p))
    decreases |p|
  {
    if base.Object? {
      MergeObjects(base, over, append);
      if p[0] in over.fields {
        if p[0] in base.fields {
          BaseShowsThrough(base.fields[p[0]], over.fields[p[0]], append, p[1..]);
        } else {
          LackedIsNotFound(over.fields[p[0]], p[1..]);
        }
      }
    } else {
      LackedIsNotFound(over, p);
    }
  }

  lemma {:induction false} LackedIsNotFound(v: Json, p: seq<string>)
    requires p != [] && LacksAlong(v, p)
    ensures !LookupPath(v, p).Found?
    decreases |p|
  {
    if p[0] in v.fields { LackedIsNotFound(v.fields[p[0]], p[1..]); }
  }

  /** A null in `over` hides a path exactly when the base has an object where the key would be. */
  lemma {:induction false} NullHidesIff(base: Json, over: Json, append: bool, p: seq<string>)
    requires p != [] && LookupPath(over, p) == Found(Null)
    ensures var parent := LookupPath(base, p[..|p| - 1]);
            LookupPath(MergeDeep(base, over, append), p) ==
              if parent.Found? && parent.value.Object? then KeyNotFound else Found(Null)
    decreases |p|
  {
    if |p| == 1 {
      assert p[1..] == [] && p[..0] == [];
      if base.Object? { MergeObjects(base, over, append); }
    } else {
      var up := p[..|p| - 1];
      assert up[0] == p[0] && up[1..] == p[1..][..|p[1..]| - 1];
      assert p[1..] != [];
      if base.Object? {
        MergeObjects(base, over, append);
        assert !over.fields[p[0]].Null?;
        if p[0] in base.fields {
          NullHidesIff(base.fields[p[0]], over.fields[p[0]], append, p[1..]);
        }
      }
    }
  }

  // ---------------------------------------------------------------- lookup in a merge, all cases

  /** How far `p` can be followed in `v`. */
  function Depth(v: Json, p: seq<string>): (k: nat)
    ensures k <= |p|
  {
    if p == [] || !v.Object? || p[0] !in v.fields then 0 else 1 + Depth(v.fields[p[0]], p[1..])
  }

  /** The value there. */
  function Reaches(v: Json, p: seq<string>): Json
    decreases |p|
  {
    if p == [] || !v.Object? || p[0] !in v.fields then v else Reaches(v.fields[p[0]], p[1..])
  }

  lemma {:induction false} LookupByDepth(v: Json, p: seq<string>)
    ensures LookupPath(v, p) ==
            if Depth(v, p) == |p| then Found(Reaches(v, p))
            else if Reaches(v, p).Object? then KeyNotFound
            else TypeMismatch
    decreases |p|
  {
    if p != [] && v.Object? && p[0] in v.fields { LookupByDepth(v.fields[p[0]], p[1..]); }
  }

  predicate ParentIsObject(base: Json, p: seq<string>, k: nat)
    requires 0 < k <= |p|
  {
    var parent := LookupPath(base, p[..k - 1]);
    parent.Found? && parent.value.Object?
  }

  /**
   What lookup finds in a merge, from where the path leads in the override and what it finds in the base;
   `merged` says what becomes of two values that meet at its end.
   */
  ghost predicate FindsInMerge(merged: (Json, Json) -> Json, base: Json, over: Json, p: seq<string>, found: Lookup) {
    var k, v := Depth(over, p), Reaches(over, p);
    var inBase := LookupPath(base, p);
    if v.Null? && k == 0 then found == inBase
    else if v.Null? && ParentIsObject(base, p, k) then found == KeyNotFound
    else if v.Null? then found == if k == |p| then Found(Null) else TypeMismatch
    else if k == |p| then found == Found(if inBase.Found? then merged(inBase.value, v) else v)
    else if v.Object? then SameFinding(found, inBase)
    else found == TypeMismatch
  }

  lemma ParentBelow(base: Json, p: seq<string>, k: nat)
    requires 1 < k <= |p|
    ensures ParentIsObject(base, p, k) <==>
            base.Object? && p[0] in base.fields && ParentIsObject(base.fields[p[0]], p[1..], k - 1)
  {
    assert p[..k - 1][0] == p[0] && p[..k - 1][1..] == p[1..][..k - 2];
  }

  /** An override that is inserted whole, because the base has no object where it goes. */
  lemma InsertedWhole(merged: (Json, Json) -> Json, base: Json, over: Json, p: seq<string>)
    requires !base.Object? && p != [] && over.Object? && p[0] in over.fields
    ensures FindsInMerge(merged, base, over, p, LookupPath(over, p))
  {
    LookupByDepth(over, p);
    var k := Depth(over, p);
    if k > 1 { ParentBelow(base, p, k); }
    assert p[..0] == [];
  }

  /** One step down the path. */
  lemma FindsBelow(merged: (Json, Json) -> Json, base: Json, over: Json, p: seq<string>, found: Lookup)
    requires p != [] && base.Object? && over.Object? && p[0] in over.fields && !over.fields[p[0]].Null?
    requires if p[0] in base.fields then FindsInMerge(merged, base.fields[p[0]], over.fields[p[0]], p[1..], found)
             else found == LookupPath(over.fields[p[0]], p[1..])
    ensures FindsInMerge(merged, base, over, p, found)
  {
    var k := Depth(over, p);
    LookupByDepth(over, p);
    if k > 1 { ParentBelow(base, p, k); }
  }

  /** A key that the override sets to null is gone. */
  lemma Removed(merged: (Json, Json) -> Json, base: Json, over: Json, p: seq<string>)
    requires p != [] && base.Object? && over.Object? && p[0] in over.fields && over.fields[p[0]].Null?
    ensures FindsInMerge(merged, base, over, p, KeyNotFound)
  {
    assert p[..0] == [];
    assert Depth(over, p) == 1 && Reaches(over, p) == Null;
  }

  ghost function DeepMerger(append: bool): (Json, Json) -> Json {
    (base: Json, over: Json) => MergeDeep(base, over, append)
  }

  /** Lookup in a merge, for every path: what `over` has or lacks along it decides. */
  lemma {:induction false} LookupInMerge(base: Json, over: Json, append: bool, p: seq<string>)
    ensures FindsInMerge(DeepMerger(append), base, over, p, LookupPath(MergeDeep(base, over, append), p))
    decreases |p|
  {
    hide FindsInMerge;
    if p == [] || !over.Object? || p[0] !in over.fields {
      NotFollowed(base, over, append, p);
    } else if !base.Object? {
      InsertedWhole(DeepMerger(append), base, over, p);
    } else {
      MergeObjects(base, over, append);
      if over.fields[p[0]].Null? {
        Removed(DeepMerger(append), base, over, p);
      } else {
        if p[0] in base.fields { LookupInMerge(base.fields[p[0]], over.fields[p[0]], append, p[1..]); }
        FindsBelow(DeepMerger(append), base, over, p, LookupPath(MergeDeep(base, over, append), p));
      }
    }
  }

  lemma NotFollowed(base: Json, over: Json, append: bool, p: seq<string>)
    requires p == [] || !over.Object? || p[0] !in over.fields
    ensures FindsInMerge(DeepMerger(append), base, over, p, LookupPath(MergeDeep(base, over, append), p))
  {
    if base.Object? && over.Object? { MergeObjects(base, over, append); }
  }

  // ---------------------------------------------------------------- lists and strategies

  /** Position of the first occurrence, or the length. */
  function FirstIndex(items: seq<Json>, x: Json): (i: nat)
    ensures i <= |items| && (i < |items| ==> items[i] == x) && forall j :: 0 <= j < i ==> items[j] != x
  {
    if items == [] || items[0] == x then 0 else 1 + FirstIndex(items[1..], x)
  }

  /** `r` is `a` followed by what is new in `b`, each once, in order of first appearance. */
  ghost predicate AppendsNew(a: seq<Json>, b: seq<Json>, r: seq<Json>) {
    && a <= r
    && (forall x :: x in r <==> x in a || x in b)
    && (forall i, j :: |a| <= i < |r| && 0 <= j < i ==> r[i] != r[j])
    && (forall i, j :: |a| <= i < j < |r| ==> FirstIndex(b, r[i]) < FirstIndex(b, r[j]))
  }

  lemma FirstIndexOfPrefix(b: seq<Json>, c: Json, x: Json)
    ensures FirstIndex(b + [c], x) == if x in b then FirstIndex(b, x) else if x == c then |b| else |b| + 1
  {
    var all := b + [c];
    assert all[|b|] == c && forall i :: 0 <= i < |b| ==> all[i] == b[i];
    if x in b { assert FirstIndex(b, x) < |b|; }
  }

  lemma {:induction false} AppendAppendsNew(a: seq<Json>, b: seq<Json>)
    ensures AppendsNew(a, b, AppendNew(a, b))
  {
    hide FirstIndex;
    if b != [] {
      var front, c := b[..|b| - 1], b[|b| - 1];
      AppendAppendsNew(a, front);
      assert b == front + [c];
      AppendOneMore(a, front, c, AppendNew(a, front));
    }
  }

  lemma {:induction false} AppendOneMore(a: seq<Json>, b: seq<Json>, c: Json, r: seq<Json>)
    requires AppendsNew(a, b, r)
    ensures AppendsNew(a, b + [c], if c in r then r else r + [c])
  {
    hide FirstIndex;
    var r' := if c in r then r else r + [c];
    forall x
      ensures x in b + [c] <==> x in b || x == c
    {
    }
    forall i, j | |a| <= i < j < |r'|
      ensures FirstIndex(b + [c], r'[i]) < FirstIndex(b + [c], r'[j])
    {
      FirstIndexOfPrefix(b, c, r'[i]);
      FirstIndexOfPrefix(b, c, r'[j]);
      assert r'[i] == r[i] && r[i] in r && r[i] !in a[..] by { NotInPrefix(a, r, i); }
      if j < |r| { assert r[j] in r && r[j] !in a by { NotInPrefix(a, r, j); } }
    }
  }

  lemma NotInPrefix(a: seq<Json>, r: seq<Json>, i: nat)
    requires a <= r && |a| <= i < |r| && forall i, j :: |a| <= i < |r| && 0 <= j < i ==> r[i] != r[j]
    ensures r[i] !in a
  {
    assert forall j :: 0 <= j < |a| ==> a[j] == r[j];
  }

  /** What each strategy does to two lists, and that the whole-value strategy takes the override as it is. */
  lemma {:induction false} StrategyTells(a: seq<Json>, b: seq<Json>, base: Json, over: Json)
    ensures MergeInventory(base, over, Replace) == over
    ensures MergeInventory(Array(a), Array(b), DeepMapReplaceList) == Array(b)
    ensures var r := MergeInventory(Array(a), Array(b), DeepMapAppendList); r.Array? && AppendsNew(a, b, r.items)
  {
    hide AppendsNew;
    AppendAppendsNew(a, b);
  }
}
