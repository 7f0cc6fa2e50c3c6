/** What a keyed merge has at a path, and what decides the fields of its records. */
module KeyedLookup {
  import opened Text
  import opened Json
  import opened Inventory
  import opened KeyedMerge

  /** A value that a merge takes from the override as it is, whatever it meets. */
  predicate Plain(v: Json) {
    v.Bool? || v.Num? || v.Str?
  }

  lemma {:induction false} KeyedObjects(base: Json, over: Json, key: string)
    requires base.Object? && over.Object? && MergeKeyed(base, over, key).Some?
    ensures var r := MergeKeyed(base, over, key).value;
            && r.Object? && r.fields.Keys == MergedKeys(base.fields, over.fields)
            && (forall k :: k in r.fields && k !in over.fields ==> r.fields[k] == base.fields[k])
            && (forall k :: k in r.fields && k in over.fields && k !in base.fields ==> r.fields[k] == over.fields[k])
            && (forall k :: k in r.fields && k in over.fields && k in base.fields ==>
                  MergeKeyed(base.fields[k], over.fields[k], key) == Some(r.fields[k]))
  {
    forall k | k in MergedKeys(base.fields, over.fields) && k in over.fields && k in base.fields
      ensures MergeKeyed(base.fields[k], over.fields[k], key).Some?
    {
      assert k in SharedKeys(base.fields, over.fields);
    }
  }

  /** What becomes of two values that meet, when their merge succeeds. */
  ghost function KeyedMerger(key: string): (Json, Json) -> Json {
    (base: Json, over: Json) =>
      var m := MergeKeyed(base, over, key);
      if m.Some? then m.value else over
  }

  /** Lookup in a keyed merge that succeeds, for every path. */
  lemma {:induction false} LookupInKeyedMerge(base: Json, over: Json, key: string, p: seq<string>)
    requires MergeKeyed(base, over, key).Some?
    ensures FindsInMerge(KeyedMerger(key), base, over, p, LookupPath(MergeKeyed(base, over, key).value, p))
    decreases |p|
  {
    hide FindsInMerge, MergeKeyed;
    var f := KeyedMerger(key);
    if p == [] || !over.Object? || p[0] !in over.fields {
      KeyedNotFollowed(base, over, key, p);
    } else if !base.Object? {
      TakenWhole(base, over, key);
      InsertedWhole(f, base, over, p);
    } else {
      KeyedObjects(base, over, key);
      if over.fields[p[0]].Null? {
        Removed(f, base, over, p);
      } else {
        if p[0] in base.fields { LookupInKeyedMerge(base.fields[p[0]], over.fields[p[0]], key, p[1..]); }
        FindsBelow(f, base, over, p, LookupPath(MergeKeyed(base, over, key).value, p));
      }
    }
  }

  lemma TakenWhole(base: Json, over: Json, key: string)
    requires Plain(over) || (over.Object? && !base.Object?) || (over.Array? && !base.Array?)
    ensures MergeKeyed(base, over, key) == Some(over)
  {
  }

  lemma KeyedNotFollowed(base: Json, over: Json, key: string, p: seq<string>)
    requires MergeKeyed(base, over, key).Some?
    requires p == [] || !over.Object? || p[0] !in over.fields
    ensures FindsInMerge(KeyedMerger(key), base, over, p, LookupPath(MergeKeyed(base, over, key).value, p))
  {
    if base.Object? && over.Object? { KeyedObjects(base, over, key); }
  }

  /** A plain value that `over` sets at a path is what the merge has there. */
  lemma {:induction false} KeyedOverrideWins(base: Json, over: Json, key: string, p: seq<string>)
    requires MergeKeyed(base, over, key).Some? && LookupPath(over, p).Found? && Plain(LookupPath(over, p).value)
    ensures LookupPath(MergeKeyed(base, over, key).value, p) == LookupPath(over, p)
  {
    hide MergeKeyed;
    LookupInKeyedMerge(base, over, key, p);
    LookupByDepth(over, p);
    var inBase, v := LookupPath(base, p), Reaches(over, p);
    if inBase.Found? { TakenWhole(inBase.value, v, key); }
  }

  /** Where `over` says nothing, the base shows through. */
  lemma {:induction false} KeyedBaseShowsThrough(base: Json, over: Json, key: string, p: seq<string>)
    requires MergeKeyed(base, over, key).Some? && p != [] && LacksAlong(over, p)
    ensures SameFinding(LookupPath(MergeKeyed(base, over, key).value, p), LookupPath(base, p))
  {
    hide MergeKeyed;
    LookupInKeyedMerge(base, over, key, p);
    LacksStops(over, p);
  }

  lemma {:induction false} LacksStops(v: Json, p: seq<string>)
    requires p != [] && LacksAlong(v, p)
    ensures Depth(v, p) < |p| && Reaches(v, p).Object?
    decreases |p|
  {
    if p[0] in v.fields { LacksStops(v.fields[p[0]], p[1..]); }
  }

  /** A null in `over` hides a path exactly when the base has an object where the key would be. */
  lemma {:induction false} KeyedNullHidesIff(base: Json, over: Json, key: string, p: seq<string>)
    requires MergeKeyed(base, over, key).Some? && p != [] && LookupPath(over, p) == Found(Null)
    ensures var parent := LookupPath(base, p[..|p| - 1]);
            LookupPath(MergeKeyed(base, over, key).value, p) ==
              if parent.Found? && parent.value.Object? then KeyNotFound else Found(Null)
  {
    hide MergeKeyed;
    LookupInKeyedMerge(base, over, key, p);
    LookupByDepth(over, p);
  }

  // ---------------------------------------------------------------- records of a list

  ghost predicate SetsField(item: Json, key: string, kv: Json, f: string) {
    KeyOf(item, key) == Some(kv) && f in item.fields
  }

  /** The last of the first `n` records of that key that has the field, or -1. */
  ghost function LastSetter(items: seq<Json>, key: string, kv: Json, f: string, n: nat): (j: int)
    requires n <= |items|
    ensures -1 <= j < n && (j >= 0 ==> SetsField(items[j], key, kv, f))
    ensures forall i :: j < i < n ==> !SetsField(items[i], key, kv, f)
  {
    if n == 0 then -1
    else if SetsField(items[n - 1], key, kv, f) then n - 1
    else LastSetter(items, key, kv, f, n - 1)
  }

  /** What is known of field `f` of a record, from the base and the last override record that has the field. */
  ghost predicate FieldDecided(base: seq<Json>, items: seq<Json>, key: string, kv: Json, f: string, n: nat,
                               rec: Option<Json>)
    requires n <= |items|
  {
    var i, j := Position(base, key, kv), LastSetter(items, key, kv, f, n);
    && (rec.Some? ==> rec.value.Object?)
    && (j >= 0 ==> rec.Some?)
    && (j >= 0 && Plain(items[j].fields[f]) ==> f in rec.value.fields && rec.value.fields[f] == items[j].fields[f])
    && (j < 0 && i < |base| ==>
          && rec.Some? && (f in rec.value.fields <==> f in base[i].fields)
          && (f in rec.value.fields ==> rec.value.fields[f] == base[i].fields[f]))
    && (j < 0 && i == |base| && rec.Some? ==> f !in rec.value.fields)
  }

  /** One more record: it decides the field if it has it, and leaves it if it has not. */
  lemma {:induction false} OneMoreRecord(base: seq<Json>, items: seq<Json>, key: string, kv: Json, f: string, n: nat,
                                         rec: Option<Json>, next: Option<Json>)
    requires n < |items| && FieldDecided(base, items, key, kv, f, n, rec) && KeyOf(items[n], key) == Some(kv)
    requires if rec.None? then next == Some(items[n]) && Position(base, key, kv) == |base|
             else next == MergeKeyed(rec.value, items[n], key) && next.Some?
    ensures FieldDecided(base, items, key, kv, f, n + 1, next)
  {
    hide MergeKeyed, Position;
    if rec.Some? {
      KeyedObjects(rec.value, items[n], key);
      if f in items[n].fields && Plain(items[n].fields[f]) && f in rec.value.fields {
        TakenWhole(rec.value.fields[f], items[n].fields[f], key);
      }
    }
  }

  lemma {:induction false} RecordFields(base: seq<Json>, over: Json, key: string, kv: Json, f: string, n: nat)
    requires over.Array? && n <= |over.items| && MergeItems(base, over, key, n).Some?
    requires AllHaveKey(base, key) && StableKeyed(over.items, key)
    ensures FieldDecided(base, over.items, key, kv, f, n, RecordOf(base, over, key, kv, n))
    ensures RecordOf(base, over, key, kv, n).None? ==> Position(base, key, kv) == |base|
  {
    hide MergeKeyed, Stable, FieldDecided, LastSetter;
    if n == 0 {
      FieldsAtStart(base, over.items, key, kv, f);
    } else {
      RecordFields(base, over, key, kv, f, n - 1);
      RecordsAreFolds(base, over, key, n - 1, kv);
      var rec, item := RecordOf(base, over, key, kv, n - 1), over.items[n - 1];
      if KeyOf(item, key) == Some(kv) {
        OneMoreRecord(base, over.items, key, kv, f, n - 1, rec, RecordOf(base, over, key, kv, n));
      } else {
        OtherRecord(base, over.items, key, kv, f, n - 1, rec);
      }
    }
  }

  lemma FieldsAtStart(base: seq<Json>, items: seq<Json>, key: string, kv: Json, f: string)
    ensures var i := Position(base, key, kv);
            FieldDecided(base, items, key, kv, f, 0, if i < |base| then Some(base[i]) else None)
  {
  }

  lemma OtherRecord(base: seq<Json>, items: seq<Json>, key: string, kv: Json, f: string, n: nat, rec: Option<Json>)
    requires n < |items| && FieldDecided(base, items, key, kv, f, n, rec) && KeyOf(items[n], key) != Some(kv)
    ensures FieldDecided(base, items, key, kv, f, n + 1, rec)
  {
    hide Position;
  }

  /**
   The fields of a merged list of records: a plain value in the last override record of a key that has the
   field is what the merged record has; a field that no override record of the key has is as in the base.
   */
  lemma {:induction false} RecordFieldIsDecided(base: seq<Json>, over: Json, key: string, kv: Json, f: string)
    requires over.Array? && AllHaveKey(base, key) && StableKeyed(over.items, key)
    requires MergeKeyed(Array(base), over, key).Some?
    ensures var r := MergeKeyed(Array(base), over, key).value;
            && r.Array?
            && var i, j, b := Position(r.items, key, kv), LastSetter(over.items, key, kv, f, |over.items|),
                              Position(base, key, kv);
               && (j >= 0 && Plain(over.items[j].fields[f]) ==>
                     && i < |r.items| && r.items[i].Object?
                     && f in r.items[i].fields && r.items[i].fields[f] == over.items[j].fields[f])
               && (j < 0 && b < |base| ==>
                     && i < |r.items| && r.items[i].Object?
                     && (f in r.items[i].fields <==> f in base[b].fields)
                     && (f in base[b].fields ==> r.items[i].fields[f] == base[b].fields[f]))
  {
    hide Stable, LastSetter, Position, RecordOf;
    var n := |over.items|;
    assert MergeItems(base, over, key, n).Some?;
    hide MergeKeyed;
    ListMerge(base, over, key);
    RecordFields(base, over, key, kv, f, n);
    RecordsAreFolds(base, over, key, n, kv);
  }

  /** A merge of lists succeeds only if every element on both sides is a record that has the key. */
  lemma {:induction false} ListsNeedKeys(base: seq<Json>, over: Json, key: string)
    requires over.Array? && MergeKeyed(Array(base), over, key).Some?
    ensures AllHaveKey(base, key) && AllHaveKey(over.items, key)
  {
    var n := |over.items|;
    assert MergeItems(base, over, key, n).Some?;
    forall i | 0 <= i < n
      ensures HasKey(over.items[i], key)
    {
      if MergeItems(base, over, key, i + 1).None? { ErrorsPersist(base, over, key, i + 1, n); }
    }
  }
}
