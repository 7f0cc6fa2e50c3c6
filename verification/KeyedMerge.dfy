/** Merge of inventories whose lists are records identified by a key field. */
module KeyedMerge {
  import opened Text
  import opened Json
  import opened Inventory

  predicate HasKey(item: Json, key: string) {
    item.Object? && key in item.fields
  }

  function KeyOf(item: Json, key: string): Option<Json> {
    if HasKey(item, key) then Some(item.fields[key]) else None
  }

  /** First position whose record has the key value `kv`, or the length. */
  function Position(items: seq<Json>, key: string, kv: Json): (i: nat)
    ensures i <= |items|
    ensures i < |items| ==> KeyOf(items[i], key) == Some(kv)
    ensures forall j :: 0 <= j < i ==> KeyOf(items[j], key) != Some(kv)
  {
    if items == [] then 0
    else if KeyOf(items[0], key) == Some(kv) then 0
    else 1 + Position(items[1..], key, kv)
  }

  predicate AllHaveKey(items: seq<Json>, key: string) {
    forall i :: 0 <= i < |items| ==> HasKey(items[i], key)
  }

  // ---------------------------------------------------------------- specification

  /** The keys that both objects have and whose values are merged. */
  function SharedKeys(base: map<string, Json>, over: map<string, Json>): set<string> {
    set k | k in base.Keys * over.Keys && !over[k].Null?
  }

  /** `None` stands for an error: a list with an element that is not a record, or lacks the key. */
  function MergeKeyed(base: Json, over: Json, key: string): Option<Json>
    decreases over, 1
  {
    if over.Null? then Some(base)
    else if base.Object? && over.Object? then
      if exists k :: k in SharedKeys(base.fields, over.fields) && MergeKeyed(base.fields[k], over.fields[k], key).None?
      then None
      else
        Some(Object(map k | k in MergedKeys(base.fields, over.fields) ::
          if k !in over.fields then base.fields[k]
          else if k in base.fields then MergeKeyed(base.fields[k], over.fields[k], key).value
          else over.fields[k]))
    else if base.Array? && over.Array? then
      if !AllHaveKey(base.items, key) then None
      else
        match MergeItems(base.items, over, key, |over.items|)
        case None => None
        case Some(items) => Some(Array(items))
    else Some(over)
  }

  /** The list after the first `n` records of `over` were merged in. */
  function MergeItems(base: seq<Json>, over: Json, key: string, n: nat): Option<seq<Json>>
    requires over.Array? && n <= |over.items|
    decreases over, 0, n
  {
    if n == 0 then Some(base)
    else
      match MergeItems(base, over, key, n - 1)
      case None => None
      case Some(sofar) =>
        var item := over.items[n - 1];
        if !HasKey(item, key) then None
        else
          var i := Position(sofar, key, item.fields[key]);
          if i == |sofar| then Some(sofar + [item])
          else
            match MergeKeyed(sofar[i], item, key)
            case None => None
            case Some(merged) => Some(sofar[i := merged])
  }

  // ---------------------------------------------------------------- the loops

  function KeyedField(base: map<string, Json>, over: map<string, Json>, k: string, key: string): Option<Json>
    requires k in base || k in over
  {
    if k !in over then Some(base[k])
    else if k in base then MergeKeyed(base[k], over[k], key)
    else Some(over[k])
  }

  ghost predicate FieldsMerge(base: map<string, Json>, over: map<string, Json>, done: set<string>, key: string)
    requires done <= over.Keys
  {
    forall k :: k in done && !over[k].Null? ==> KeyedField(base, over, k, key).Some?
  }

  ghost function PartlyKeyed(base: map<string, Json>, over: map<string, Json>, done: set<string>,
                             key: string): map<string, Json>
    requires done <= over.Keys && FieldsMerge(base, over, done, key)
  {
    map k | k in base.Keys + done && !(k in done && over[k].Null?) ::
      if k in done then KeyedField(base, over, k, key).value else base[k]
  }

  lemma ObjectsMerge(base: Json, over: Json, key: string)
    requires base.Object? && over.Object?
    ensures MergeKeyed(base, over, key).Some? <==> FieldsMerge(base.fields, over.fields, over.fields.Keys, key)
    ensures MergeKeyed(base, over, key).Some? ==>
              MergeKeyed(base, over, key).value == Object(PartlyKeyed(base.fields, over.fields, over.fields.Keys, key))
  {
    if MergeKeyed(base, over, key).Some? {
      forall k | k in over.fields && !over.fields[k].Null?
        ensures KeyedField(base.fields, over.fields, k, key).Some?
      {
        if k in base.fields { assert k in SharedKeys(base.fields, over.fields); }
      }
      assert MergeKeyed(base, over, key).value.fields ==
             PartlyKeyed(base.fields, over.fields, over.fields.Keys, key);
    } else {
      var k :| k in SharedKeys(base.fields, over.fields) && MergeKeyed(base.fields[k], over.fields[k], key).None?;
      assert KeyedField(base.fields, over.fields, k, key).None?;
    }
  }

  lemma KeyedOneKey(base: map<string, Json>, over: map<string, Json>, done: set<string>, k: string, key: string)
    requires done <= over.Keys && k in over && k !in done && FieldsMerge(base, over, done, key)
    ensures var m := PartlyKeyed(base, over, done, key); (k in m <==> k in base) && (k in m ==> m[k] == base[k])
    ensures FieldsMerge(base, over, done + {k}, key) <==> over[k].Null? || KeyedField(base, over, k, key).Some?
    ensures FieldsMerge(base, over, done + {k}, key) ==>
              PartlyKeyed(base, over, done + {k}, key) ==
              var m := PartlyKeyed(base, over, done, key);
              if over[k].Null? then m - {k} else m[k := KeyedField(base, over, k, key).value]
  {
    hide KeyedField;
  }

  lemma FailedFieldFails(base: map<string, Json>, over: map<string, Json>, k: string, key: string)
    requires k in over && !over[k].Null? && KeyedField(base, over, k, key).None?
    ensures !FieldsMerge(base, over, over.Keys, key)
  {
  }

  lemma NothingKeyed(base: map<string, Json>, over: map<string, Json>, key: string)
    ensures FieldsMerge(base, over, {}, key) && PartlyKeyed(base, over, {}, key) == base
  {
  }

  /** The loop over the keys of an object, in any order; it stops at the first error. */
  method MergeFieldsKeyed(base: map<string, Json>, over: Json, key: string) returns (r: Option<map<string, Json>>)
    requires over.Object?
    ensures r.Some? <==> FieldsMerge(base, over.fields, over.fields.Keys, key)
    ensures r.Some? ==> r.value == PartlyKeyed(base, over.fields, over.fields.Keys, key)
    decreases over, 0
  {
    hide PartlyKeyed, MergeKeyed, FieldsMerge;
    var m := base;
    var todo := over.fields.Keys;
    ghost var done: set<string> := {};
    NothingKeyed(base, over.fields, key);
    while todo != {}
      invariant todo <= over.fields.Keys && done == over.fields.Keys - todo
      invariant FieldsMerge(base, over.fields, done, key)
      invariant m == PartlyKeyed(base, over.fields, done, key)
      decreases |todo|
    {
      var k :| k in todo;
      var v := over.fields[k];
      KeyedOneKey(base, over.fields, done, k, key);
      todo, done := todo - {k}, done + {k};
      if v.Null? {
        m := m - {k};
      } else if k in m {
        var prev := m[k];
        m := m - {k};
        var merged := MergeKeyedInPlace(prev, v, key);
        if merged.None? {
          FailedFieldFails(base, over.fields, k, key);
          return None;
        }
        m := m[k := merged.value];
      } else {
        m := m[k := v];
      }
    }
    assert done == over.fields.Keys;
    return Some(m);
  }

  method MergeKeyedLists(base: seq<Json>, over: Json, key: string) returns (r: Option<seq<Json>>)
    requires over.Array?
    ensures r == if AllHaveKey(base, key) then MergeItems(base, over, key, |over.items|) else None
    decreases over, 0
  {
    hide MergeKeyed;
    var merged: seq<Json> := [];
    for i := 0 to |base|
      invariant merged == base[..i]
      invariant AllHaveKey(base[..i], key)
    {
      if !HasKey(base[i], key) {
        return None;
      }
      merged := merged + [base[i]];
    }
    assert base[..|base|] == base;
    for n := 0 to |over.items|
      invariant MergeItems(base, over, key, n) == Some(merged)
    {
      var item := over.items[n];
      if !HasKey(item, key) {
        ErrorsPersist(base, over, key, n + 1, |over.items|);
        return None;
      }
      var i := Position(merged, key, item.fields[key]);
      if i < |merged| {
        var one := MergeKeyedInPlace(merged[i], item, key);
        if one.None? {
          ErrorsPersist(base, over, key, n + 1, |over.items|);
          return None;
        }
        merged := merged[i := one.value];
      } else {
        merged := merged + [item];
      }
    }
    return Some(merged);
  }

  /** `merge_keyed_at` as the program runs it. */
  method MergeKeyedInPlace(base: Json, over: Json, key: string) returns (r: Option<Json>)
    ensures r == MergeKeyed(base, over, key)
    ensures over.Null? ==> r == Some(base)
    ensures over.Bool? || over.Num? || over.Str? ==> r == Some(over)
    ensures (over.Object? && !base.Object?) || (over.Array? && !base.Array?) ==> r == Some(over)
    decreases over, 1
  {
    hide PartlyKeyed, FieldsMerge;
    if over.Null? {
      return Some(base);
    }
    if base.Object? && over.Object? {
      ObjectsMerge(base, over, key);
      var m := MergeFieldsKeyed(base.fields, over, key);
      return if m.None? then None else Some(Object(m.value));
    }
    if base.Array? && over.Array? {
      var items := MergeKeyedLists(base.items, over, key);
      return if items.None? then None else Some(Array(items.value));
    }
    return Some(over);
  }

  lemma {:induction false} ErrorsPersist(base: seq<Json>, over: Json, key: string, n: nat, m: nat)
    requires over.Array? && n <= m <= |over.items| && MergeItems(base, over, key, n).None?
    ensures MergeItems(base, over, key, m).None?
    decreases m
  {
    if n < m { ErrorsPersist(base, over, key, n, m - 1); }
  }

  // ---------------------------------------------------------------- records

  /** A key value that merging it with itself leaves as it is. */
  predicate Stable(kv: Json, key: string) {
    !kv.Null? && MergeKeyed(kv, kv, key) == Some(kv)
  }

  /** Every element is a record whose key is stable. */
  ghost predicate StableKeyed(items: seq<Json>, key: string) {
    forall i :: 0 <= i < |items| ==> HasKey(items[i], key) && Stable(items[i].fields[key], key)
  }

  lemma ScalarsAreStable(kv: Json, key: string)
    requires kv.Bool? || kv.Num? || kv.Str?
    ensures Stable(kv, key)
  {
  }

  /** An object is stable exactly when all its fields are; in particular none of them is null. */
  lemma {:induction false} StableObjectIff(m: map<string, Json>, key: string)
    ensures Stable(Object(m), key) <==> forall k :: k in m ==> Stable(m[k], key)
  {
    var o := Object(m);
    if Stable(o, key) {
      forall k | k in m
        ensures Stable(m[k], key)
      {
        assert k in MergeKeyed(o, o, key).value.fields;
        assert k in SharedKeys(m, m);
      }
    }
    if forall k :: k in m ==> Stable(m[k], key) {
      assert SharedKeys(m, m) == m.Keys && MergedKeys(m, m) == m.Keys;
      assert MergeKeyed(o, o, key).value.fields == m;
    }
  }

  ghost function Keys(items: seq<Json>, key: string): seq<Json>
    requires AllHaveKey(items, key)
  {
    seq(|items|, i requires 0 <= i < |items| => items[i].fields[key])
  }

  /** First occurrences of the keys that are not in `seen`. */
  ghost function NewKeys(seen: seq<Json>, ks: seq<Json>): seq<Json> {
    if ks == [] then []
    else
      var front := NewKeys(seen, ks[..|ks| - 1]);
      var k := ks[|ks| - 1];
      if k in seen || k in front then front else front + [k]
  }

  /** Merging two records of one key keeps the key if and only if the key is stable. */
  lemma MergeKeepsKeyIff(a: Json, b: Json, key: string)
    requires HasKey(a, key) && HasKey(b, key) && a.fields[key] == b.fields[key] && MergeKeyed(a, b, key).Some?
    ensures KeyOf(MergeKeyed(a, b, key).value, key) == Some(b.fields[key]) <==> Stable(b.fields[key], key)
  {
    var kv := b.fields[key];
    if kv.Null? {
      assert key !in MergedKeys(a.fields, b.fields);
    } else {
      assert key in SharedKeys(a.fields, b.fields) && key in MergedKeys(a.fields, b.fields);
      assert MergeKeyed(a, b, key).value.fields[key] == MergeKeyed(kv, kv, key).value;
    }
  }

  lemma PositionByKeys(items: seq<Json>, key: string, kv: Json)
    requires AllHaveKey(items, key)
    ensures Position(items, key, kv) < |items| <==> kv in Keys(items, key)
  {
    var i := Position(items, key, kv);
    if i < |items| { assert Keys(items, key)[i] == kv; }
    if kv in Keys(items, key) {
      var j :| 0 <= j < |items| && Keys(items, key)[j] == kv;
      assert KeyOf(items[j], key) == Some(kv);
    }
  }

  lemma KeysAfterMerge(sofar: seq<Json>, i: nat, merged: Json, key: string)
    requires AllHaveKey(sofar, key) && i < |sofar| && KeyOf(merged, key) == KeyOf(sofar[i], key)
    ensures AllHaveKey(sofar[i := merged], key) && Keys(sofar[i := merged], key) == Keys(sofar, key)
  {
    var now := sofar[i := merged];
    assert AllHaveKey(now, key);
    assert Keys(now, key) == Keys(sofar, key);
  }

  lemma KeysAfterAppend(sofar: seq<Json>, item: Json, key: string)
    requires AllHaveKey(sofar, key) && HasKey(item, key)
    ensures AllHaveKey(sofar + [item], key) && Keys(sofar + [item], key) == Keys(sofar, key) + [item.fields[key]]
  {
    assert AllHaveKey(sofar + [item], key);
    assert Keys(sofar + [item], key) == Keys(sofar, key) + [item.fields[key]];
  }

  lemma NewKeysStep(seen: seq<Json>, ks: seq<Json>, n: nat)
    requires 0 < n <= |ks|
    ensures NewKeys(seen, ks[..n]) ==
            var front := NewKeys(seen, ks[..n - 1]);
            if ks[n - 1] in seen + front then front else front + [ks[n - 1]]
  {
    assert ks[..n][..n - 1] == ks[..n - 1];
  }

  /** The keys of the result: those of the base in order, then the new ones in order of first appearance. */
  lemma {:induction false} ResultKeys(base: seq<Json>, over: Json, key: string, n: nat)
    requires over.Array? && n <= |over.items| && MergeItems(base, over, key, n).Some?
    requires AllHaveKey(base, key) && StableKeyed(over.items, key)
    ensures AllHaveKey(MergeItems(base, over, key, n).value, key)
    ensures Keys(MergeItems(base, over, key, n).value, key) ==
            Keys(base, key) + NewKeys(Keys(base, key), Keys(over.items, key)[..n])
  {
    hide MergeKeyed, Position, NewKeys, Stable;
    if n == 0 {
      NoNewKeys(Keys(base, key), Keys(over.items, key));
    } else {
      ResultKeys(base, over, key, n - 1);
      var sofar := MergeItems(base, over, key, n - 1).value;
      var item := over.items[n - 1];
      var i := Position(sofar, key, item.fields[key]);
      NewKeysStep(Keys(base, key), Keys(over.items, key), n);
      PositionByKeys(sofar, key, item.fields[key]);
      if i < |sofar| {
        MergeKeepsKeyIff(sofar[i], item, key);
        KeysAfterMerge(sofar, i, MergeKeyed(sofar[i], item, key).value, key);
      } else {
        KeysAfterAppend(sofar, item, key);
      }
    }
  }

  lemma NoNewKeys(seen: seq<Json>, ks: seq<Json>)
    ensures seen + NewKeys(seen, ks[..0]) == seen
  {
  }

  lemma {:induction false} NewKeysAreNew(seen: seq<Json>, ks: seq<Json>)
    requires NoRepeats(seen)
    ensures NoRepeats(seen + NewKeys(seen, ks))
  {
    if ks != [] {
      NewKeysAreNew(seen, ks[..|ks| - 1]);
      var front := NewKeys(seen, ks[..|ks| - 1]);
      assert seen + (front + [ks[|ks| - 1]]) == (seen + front) + [ks[|ks| - 1]];
    }
  }

  /** Distinct keys in the base give distinct keys in the result, whatever the override repeats. */
  lemma DistinctKeysStayDistinct(base: seq<Json>, over: Json, key: string)
    requires over.Array? && MergeItems(base, over, key, |over.items|).Some?
    requires AllHaveKey(base, key) && StableKeyed(over.items, key) && NoRepeats(Keys(base, key))
    ensures var r := MergeItems(base, over, key, |over.items|).value;
            AllHaveKey(r, key) && NoRepeats(Keys(r, key))
  {
    hide MergeItems;
    ResultKeys(base, over, key, |over.items|);
    NewKeysAreNew(Keys(base, key), Keys(over.items, key)[..|over.items|]);
  }

  /** The record of one key after `n` records: the base record, or the first new one, with the rest folded in. */
  ghost function RecordOf(base: seq<Json>, over: Json, key: string, kv: Json, n: nat): Option<Json>
    requires over.Array? && n <= |over.items|
  {
    if n == 0 then
      var i := Position(base, key, kv);
      if i < |base| then Some(base[i]) else None
    else
      var sofar := RecordOf(base, over, key, kv, n - 1);
      var item := over.items[n - 1];
      if KeyOf(item, key) != Some(kv) then sofar
      else if sofar.None? then Some(item)
      else MergeKeyed(sofar.value, item, key)
  }

  /** `r` extends the base, has `rec` as the first record of the key, and left later duplicates alone. */
  ghost predicate HoldsRecord(base: seq<Json>, r: seq<Json>, key: string, kv: Json, rec: Option<Json>) {
    var i := Position(r, key, kv);
    && (i < |r| <==> rec.Some?)
    && (i < |r| ==> r[i] == rec.value)
    && |r| >= |base|
    && (forall j :: i < j < |base| && KeyOf(base[j], key) == Some(kv) ==> r[j] == base[j])
  }

  /** The first record of every key is the left fold of that key's records; later duplicates of the base stay. */
  lemma {:induction false} RecordsAreFolds(base: seq<Json>, over: Json, key: string, n: nat, kv: Json)
    requires over.Array? && n <= |over.items| && MergeItems(base, over, key, n).Some?
    requires AllHaveKey(base, key) && StableKeyed(over.items, key)
    ensures HoldsRecord(base, MergeItems(base, over, key, n).value, key, kv, RecordOf(base, over, key, kv, n))
  {
    hide MergeKeyed, Keys, Position, HoldsRecord, Stable;
    if n == 0 {
      HoldsAtStart(base, key, kv);
    } else {
      RecordsAreFolds(base, over, key, n - 1, kv);
      ResultKeys(base, over, key, n - 1);
      var sofar := MergeItems(base, over, key, n - 1).value;
      var item := over.items[n - 1];
      var p := Position(sofar, key, item.fields[key]);
      var rec := RecordOf(base, over, key, kv, n - 1);
      if p < |sofar| {
        FoldInto(base, sofar, item, key, kv, rec, p);
      } else {
        FoldNew(base, sofar, item, key, kv, rec);
      }
    }
  }

  lemma HoldsAtStart(base: seq<Json>, key: string, kv: Json)
    ensures var i := Position(base, key, kv);
            HoldsRecord(base, base, key, kv, if i < |base| then Some(base[i]) else None)
  {
    hide Position;
  }

  lemma SamePosition(a: seq<Json>, b: seq<Json>, key: string, kv: Json)
    requires |a| == |b| && forall j :: 0 <= j < |a| ==> KeyOf(a[j], key) == KeyOf(b[j], key)
    ensures Position(a, key, kv) == Position(b, key, kv)
  {
    hide Position, KeyOf;
  }

  /** Merging a record into the first one of its key changes that record and no other. */
  lemma FoldInto(base: seq<Json>, sofar: seq<Json>, item: Json, key: string, kv: Json, rec: Option<Json>, p: nat)
    requires AllHaveKey(sofar, key) && HasKey(item, key) && Stable(item.fields[key], key)
    requires p == Position(sofar, key, item.fields[key]) < |sofar| && MergeKeyed(sofar[p], item, key).Some?
    requires HoldsRecord(base, sofar, key, kv, rec)
    ensures HoldsRecord(base, sofar[p := MergeKeyed(sofar[p], item, key).value], key, kv,
                        if item.fields[key] != kv then rec
                        else if rec.None? then Some(item) else MergeKeyed(rec.value, item, key))
  {
    hide MergeKeyed, Position, Stable;
    MergeKeepsKeyIff(sofar[p], item, key);
    var r := sofar[p := MergeKeyed(sofar[p], item, key).value];
    SamePosition(sofar, r, key, kv);
  }

  lemma FoldNew(base: seq<Json>, sofar: seq<Json>, item: Json, key: string, kv: Json, rec: Option<Json>)
    requires HasKey(item, key) && Position(sofar, key, item.fields[key]) == |sofar|
    requires HoldsRecord(base, sofar, key, kv, rec)
    ensures HoldsRecord(base, sofar + [item], key, kv, if item.fields[key] != kv then rec else Some(item))
    ensures item.fields[key] == kv ==> rec.None?
  {
    hide Position;
    AppendPosition(sofar, item, key, kv);
  }

  lemma AppendPosition(items: seq<Json>, item: Json, key: string, kv: Json)
    ensures Position(items + [item], key, kv) ==
            if Position(items, key, kv) < |items| then Position(items, key, kv)
            else if KeyOf(item, key) == Some(kv) then |items| else |items| + 1
  {
    hide Position, KeyOf;
    var longer := items + [item];
    assert forall j :: 0 <= j < |items| ==> longer[j] == items[j];
    assert longer[|items|] == item;
  }

  /** A key that is null is lost when two records of it merge: the list then has a record without key. */
  lemma NullKeyIsLost(a: Json, b: Json, key: string)
    requires KeyOf(a, key) == Some(Null) && KeyOf(b, key) == Some(Null) && MergeKeyed(a, b, key).Some?
    ensures !HasKey(MergeKeyed(a, b, key).value, key)
    ensures MergeKeyed(Array([a]), Array([b]), key) == Some(Array([MergeKeyed(a, b, key).value]))
  {
    assert key !in MergedKeys(a.fields, b.fields);
    var over, merged := Array([b]), MergeKeyed(a, b, key).value;
    hide MergeKeyed;
    assert MergeItems([a], over, key, 0) == Some([a]);
    assert Position([a], key, Null) == 0;
    assert [a][0 := merged] == [merged];
    assert MergeItems([a], over, key, 1) == Some([merged]);
    ListMerge([a], over, key);
  }

  lemma ListMerge(base: seq<Json>, over: Json, key: string)
    requires over.Array? && AllHaveKey(base, key) && MergeItems(base, over, key, |over.items|).Some?
    ensures MergeKeyed(Array(base), over, key) == Some(Array(MergeItems(base, over, key, |over.items|).value))
  {
  }
}
