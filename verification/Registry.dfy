/** The resource registry and its topological order. */
module Registry {
  import opened Text
  import opened Digraph
  import opened Kahn

  datatype Resource = Resource(
    id: string,
    kind: string,
    dependsOn: seq<string>,
    reloadOn: seq<string>,
    restartOn: seq<string>)

  /** The three kinds of edges, in the order in which they are scanned. */
  function Sources(r: Resource): seq<string> {
    r.dependsOn + r.reloadOn + r.restartOn
  }

  ghost predicate DistinctIds(rs: seq<Resource>) {
    forall i, j :: 0 <= i < j < |rs| ==> rs[i].id != rs[j].id
  }

  ghost predicate Known(rs: seq<Resource>, id: string) {
    exists i :: 0 <= i < |rs| && rs[i].id == id
  }

  ghost function GraphOf(rs: seq<Resource>): Graph<string> {
    if rs == [] then map[] else GraphOf(rs[..|rs| - 1])[rs[|rs| - 1].id := Sources(rs[|rs| - 1])]
  }

  lemma {:induction false} GraphOfIs(rs: seq<Resource>)
    requires DistinctIds(rs)
    ensures forall id :: id in GraphOf(rs) <==> Known(rs, id)
    ensures forall i :: 0 <= i < |rs| ==> rs[i].id in GraphOf(rs) && GraphOf(rs)[rs[i].id] == Sources(rs[i])
  {
    hide Sources;
    if rs != [] {
      var front, last := rs[..|rs| - 1], rs[|rs| - 1];
      GraphOfIs(front);
      forall i | 0 <= i < |rs| - 1
        ensures rs[i].id in GraphOf(rs) && GraphOf(rs)[rs[i].id] == Sources(rs[i])
      {
        assert front[i] == rs[i];
      }
      forall id
        ensures id in GraphOf(rs) <==> Known(rs, id)
      {
        if Known(front, id) {
          var i :| 0 <= i < |front| && front[i].id == id;
          assert rs[i].id == id;
        }
        if Known(rs, id) && id != last.id {
          var i :| 0 <= i < |rs| && rs[i].id == id;
          assert front[i].id == id;
        }
      }
    }
  }

  datatype TopoResult =
    | Order(ids: seq<string>)
    | UnknownHandle(handle: string)
    | Cycle(stuck: seq<string>)

  /** `h` is the first source in scanning order that is not registered. */
  ghost predicate FirstUnknown(rs: seq<Resource>, h: string) {
    exists i, k :: && 0 <= i < |rs| && 0 <= k < |Sources(rs[i])| && Sources(rs[i])[k] == h && !Known(rs, h)
                   && (forall x :: x in Sources(rs[i])[..k] ==> Known(rs, x))
                   && (forall j :: 0 <= j < i ==> AllKnown(rs, rs[j]))
  }

  ghost predicate AllKnown(rs: seq<Resource>, r: Resource) {
    forall x :: x in Sources(r) ==> Known(rs, x)
  }

  /** The contract of the topological order. */
  ghost predicate IsTopoResult(rs: seq<Resource>, r: TopoResult) {
    var g := GraphOf(rs);
    && (r.UnknownHandle? <==> exists j :: 0 <= j < |rs| && !AllKnown(rs, rs[j]))
    && match r
       case UnknownHandle(h) => FirstUnknown(rs, h)
       case Order(ids) => IsTopological(g, ids) && !exists u :: OnCycle(g, u)
       case Cycle(stuck) =>
         && (exists u :: OnCycle(g, u))
         && Ascending(stuck)
         && (forall v :: v in stuck <==> FromCycle(g, v))
  }

  // ---------------------------------------------------------------- the contract in terms of the three fields

  predicate RefersTo(r: Resource, x: string) {
    x in r.dependsOn || x in r.reloadOn || x in r.restartOn
  }

  lemma SourcesAreReferences(r: Resource, x: string)
    ensures x in Sources(r) <==> RefersTo(r, x)
  {
    assert forall y :: y in r.dependsOn + r.reloadOn <==> y in r.dependsOn || y in r.reloadOn;
  }

  ghost predicate Depends(rs: seq<Resource>, u: string, v: string) {
    exists i :: 0 <= i < |rs| && rs[i].id == v && RefersTo(rs[i], u)
  }

  /** Every id of the chain is named in a field of the resource that has the next one. */
  ghost predicate Chain(rs: seq<Resource>, p: seq<string>, u: string, v: string) {
    p != [] && p[0] == u && p[|p| - 1] == v && forall k :: 0 <= k < |p| - 1 ==> Depends(rs, p[k], p[k + 1])
  }

  ghost predicate OnClosedChain(rs: seq<Resource>, u: string) {
    exists p :: |p| >= 2 && Chain(rs, p, u, u)
  }

  ghost predicate BehindClosedChain(rs: seq<Resource>, v: string) {
    exists u, p :: OnClosedChain(rs, u) && Chain(rs, p, u, v)
  }

  ghost predicate FirstUnknownOf(rs: seq<Resource>, xs: seq<string>, h: string) {
    exists k :: 0 <= k < |xs| && xs[k] == h && !Known(rs, h) && forall x :: x in xs[..k] ==> Known(rs, x)
  }

  ghost predicate KnownAll(rs: seq<Resource>, xs: seq<string>) {
    forall x :: x in xs ==> Known(rs, x)
  }

  /** The first handle that is not registered: resource by resource, `depends_on`, `reload_on`, `restart_on`. */
  ghost predicate ReportedUnknown(rs: seq<Resource>, h: string) {
    exists i :: 0 <= i < |rs| && UnknownAt(rs, i, h)
  }

  ghost predicate UnknownAt(rs: seq<Resource>, i: nat, h: string)
    requires i < |rs|
  {
    && (forall j :: 0 <= j < i ==>
          KnownAll(rs, rs[j].dependsOn) && KnownAll(rs, rs[j].reloadOn) && KnownAll(rs, rs[j].restartOn))
    && (|| FirstUnknownOf(rs, rs[i].dependsOn, h)
        || (KnownAll(rs, rs[i].dependsOn) && FirstUnknownOf(rs, rs[i].reloadOn, h))
        || (KnownAll(rs, rs[i].dependsOn) && KnownAll(rs, rs[i].reloadOn) && FirstUnknownOf(rs, rs[i].restartOn, h)))
  }

  /** What the result says about the fields of the resources. */
  ghost predicate TellsFields(rs: seq<Resource>, r: TopoResult) {
    && (r.UnknownHandle? <==> exists i, x :: 0 <= i < |rs| && RefersTo(rs[i], x) && !Known(rs, x))
    && (r.Cycle? <==> !r.UnknownHandle? && exists u :: OnClosedChain(rs, u))
    && match r
       case UnknownHandle(h) => ReportedUnknown(rs, h)
       case Order(ids) =>
         && NoRepeats(ids) && (forall id :: id in ids <==> Known(rs, id))
         && forall i, k, x :: 0 <= i < |ids| && 0 <= k < |rs| && rs[k].id == ids[i] && RefersTo(rs[k], x) ==>
              x in ids[..i]
       case Cycle(stuck) => Ascending(stuck) && forall v :: v in stuck <==> BehindClosedChain(rs, v)
  }

  lemma {:induction false} EdgeIsDependency(rs: seq<Resource>, u: string, v: string)
    requires DistinctIds(rs)
    ensures Edge(GraphOf(rs), u, v) <==> Depends(rs, u, v)
  {
    hide Sources, RefersTo, GraphOf, DistinctIds;
    GraphOfIs(rs);
    forall i | 0 <= i < |rs|
      ensures u in Sources(rs[i]) <==> RefersTo(rs[i], u)
    {
      SourcesAreReferences(rs[i], u);
    }
    if Edge(GraphOf(rs), u, v) {
      assert Known(rs, v);
      var i :| 0 <= i < |rs| && rs[i].id == v;
      assert RefersTo(rs[i], u);
    }
  }

  lemma {:induction false} WalkIsChain(rs: seq<Resource>, p: seq<string>, u: string, v: string)
    requires DistinctIds(rs)
    ensures WalkFromTo(GraphOf(rs), p, u, v) <==> Chain(rs, p, u, v)
  {
    hide Edge, Depends, GraphOf, DistinctIds;
    forall k | 0 <= k < |p| - 1
      ensures Edge(GraphOf(rs), p[k], p[k + 1]) <==> Depends(rs, p[k], p[k + 1])
    {
      EdgeIsDependency(rs, p[k], p[k + 1]);
    }
  }

  lemma {:induction false} CycleIsClosedChain(rs: seq<Resource>, v: string)
    requires DistinctIds(rs)
    ensures OnCycle(GraphOf(rs), v) <==> OnClosedChain(rs, v)
  {
    hide WalkFromTo, Chain, GraphOf, DistinctIds;
    forall p
      ensures WalkFromTo(GraphOf(rs), p, v, v) <==> Chain(rs, p, v, v)
    {
      WalkIsChain(rs, p, v, v);
    }
  }

  lemma {:induction false} StuckIsBehindClosedChain(rs: seq<Resource>, v: string)
    requires DistinctIds(rs)
    ensures FromCycle(GraphOf(rs), v) <==> BehindClosedChain(rs, v)
  {
    hide WalkFromTo, Chain, GraphOf, DistinctIds, OnCycle, OnClosedChain;
    forall u
      ensures OnCycle(GraphOf(rs), u) <==> OnClosedChain(rs, u)
    {
      CycleIsClosedChain(rs, u);
    }
    forall u, p
      ensures WalkFromTo(GraphOf(rs), p, u, v) <==> Chain(rs, p, u, v)
    {
      WalkIsChain(rs, p, u, v);
    }
    if FromCycle(GraphOf(rs), v) {
      var u :| OnCycle(GraphOf(rs), u) && Reaches(GraphOf(rs), u, v);
      var p :| WalkFromTo(GraphOf(rs), p, u, v);
      assert OnClosedChain(rs, u) && Chain(rs, p, u, v);
    }
    if BehindClosedChain(rs, v) {
      var u, p :| OnClosedChain(rs, u) && Chain(rs, p, u, v);
      assert OnCycle(GraphOf(rs), u) && Reaches(GraphOf(rs), u, v);
    }
  }

  lemma {:induction false} AllKnownIff(rs: seq<Resource>, r: Resource)
    ensures AllKnown(rs, r) <==> forall x :: RefersTo(r, x) ==> Known(rs, x)
    ensures AllKnown(rs, r) <==> KnownAll(rs, r.dependsOn) && KnownAll(rs, r.reloadOn) && KnownAll(rs, r.restartOn)
  {
    hide Sources, Known;
    forall x
      ensures x in Sources(r) <==> RefersTo(r, x)
    {
      SourcesAreReferences(r, x);
    }
  }

  /** The first unknown source lies in one of the three fields, with everything before it known. */
  lemma {:induction false} FirstUnknownByField(rs: seq<Resource>, r: Resource, k: nat)
    requires k < |Sources(r)| && !Known(rs, Sources(r)[k]) && forall x :: x in Sources(r)[..k] ==> Known(rs, x)
    ensures var h := Sources(r)[k];
            || FirstUnknownOf(rs, r.dependsOn, h)
            || (KnownAll(rs, r.dependsOn) && FirstUnknownOf(rs, r.reloadOn, h))
            || (KnownAll(rs, r.dependsOn) && KnownAll(rs, r.reloadOn) && FirstUnknownOf(rs, r.restartOn, h))
  {
    hide Known;
    var h := Sources(r)[k];
    assert FirstUnknownOf(rs, (r.dependsOn + r.reloadOn) + r.restartOn, h);
    SplitUnknown(rs, r.dependsOn + r.reloadOn, r.restartOn, h);
    if FirstUnknownOf(rs, r.dependsOn + r.reloadOn, h) {
      SplitUnknown(rs, r.dependsOn, r.reloadOn, h);
    } else {
      assert forall x :: x in r.dependsOn + r.reloadOn <==> x in r.dependsOn || x in r.reloadOn;
    }
  }

  lemma {:induction false} SplitUnknown(rs: seq<Resource>, xs: seq<string>, ys: seq<string>, h: string)
    requires FirstUnknownOf(rs, xs + ys, h)
    ensures FirstUnknownOf(rs, xs, h) || (KnownAll(rs, xs) && FirstUnknownOf(rs, ys, h))
  {
    hide Known;
    var all := xs + ys;
    var k :| 0 <= k < |all| && all[k] == h && forall x :: x in all[..k] ==> Known(rs, x);
    if k < |xs| {
      assert all[..k] == xs[..k];
    } else {
      assert all[..k] == xs + ys[..k - |xs|];
      assert forall x :: x in xs ==> x in all[..k];
      assert forall x :: x in ys[..k - |xs|] ==> x in all[..k];
      assert ys[k - |xs|] == h;
    }
  }

  lemma {:induction false} UnknownByField(rs: seq<Resource>, h: string)
    requires FirstUnknown(rs, h)
    ensures ReportedUnknown(rs, h)
  {
    hide Sources, Known, FirstUnknownOf, KnownAll, AllKnown;
    var i, k :| && 0 <= i < |rs| && 0 <= k < |Sources(rs[i])| && Sources(rs[i])[k] == h && !Known(rs, h)
                && (forall x :: x in Sources(rs[i])[..k] ==> Known(rs, x))
                && (forall j :: 0 <= j < i ==> AllKnown(rs, rs[j]));
    FirstUnknownByField(rs, rs[i], k);
    forall j | 0 <= j < i
      ensures KnownAll(rs, rs[j].dependsOn) && KnownAll(rs, rs[j].reloadOn) && KnownAll(rs, rs[j].restartOn)
    {
      AllKnownIff(rs, rs[j]);
    }
    assert UnknownAt(rs, i, h);
  }

  lemma {:induction false} OrderByFields(rs: seq<Resource>, ids: seq<string>, i: nat, k: nat, x: string)
    requires DistinctIds(rs) && IsTopological(GraphOf(rs), ids)
    requires i < |ids| && k < |rs| && rs[k].id == ids[i] && RefersTo(rs[k], x)
    ensures x in ids[..i]
  {
    hide Sources, RefersTo, GraphOf, DistinctIds;
    GraphOfIs(rs);
    SourcesAreReferences(rs[k], x);
  }

  lemma {:induction false} ResultTellsFields(rs: seq<Resource>, r: TopoResult)
    requires DistinctIds(rs) && IsTopoResult(rs, r)
    ensures TellsFields(rs, r)
  {
    hide GraphOf, DistinctIds, OnCycle, FromCycle, OnClosedChain, BehindClosedChain, AllKnown, RefersTo, Known,
         FirstUnknown, ReportedUnknown, Respects;
    forall j | 0 <= j < |rs|
      ensures AllKnown(rs, rs[j]) <==> forall x :: RefersTo(rs[j], x) ==> Known(rs, x)
    {
      AllKnownIff(rs, rs[j]);
    }
    forall v
      ensures OnCycle(GraphOf(rs), v) <==> OnClosedChain(rs, v)
      ensures FromCycle(GraphOf(rs), v) <==> BehindClosedChain(rs, v)
    {
      CycleIsClosedChain(rs, v);
      StuckIsBehindClosedChain(rs, v);
    }
    match r {
      case UnknownHandle(h) => UnknownByField(rs, h);
      case Order(ids) =>
        GraphOfIs(rs);
        forall i, k, x | 0 <= i < |ids| && 0 <= k < |rs| && rs[k].id == ids[i] && RefersTo(rs[k], x)
          ensures x in ids[..i]
        {
          OrderByFields(rs, ids, i, k, x);
        }
      case Cycle(_) =>
    }
  }

  class Registry {
    var resources: seq<Resource>
    var byId: map<string, nat>

    ghost predicate Valid()
      reads this
    {
      && (forall id :: id in byId ==> byId[id] < |resources| && resources[byId[id]].id == id)
      && (forall i :: 0 <= i < |resources| ==> resources[i].id in byId && byId[resources[i].id] == i)
    }

    constructor ()
      ensures Valid() && resources == []
    {
      resources, byId := [], map[];
    }

    method Add(r: Resource) returns (ok: bool)
      requires Valid()
      modifies this
      ensures Valid() && DistinctIds(resources)
      ensures ok <==> !Known(old(resources), r.id)
      ensures resources == if ok then old(resources) + [r] else old(resources)
    {
      if r.id in byId {
        assert resources[byId[r.id]].id == r.id;
        return false;
      }
      byId := byId[r.id := |resources|];
      resources := resources + [r];
      return true;
    }

    /** The edges of one resource: count them, or stop at the first source that is not registered. */
    static method CountSources(byId: map<string, nat>, id: string, deps: seq<string>,
                               before: map<string, nat>, adjBefore: Successors<string>, ghost seen: Graph<string>)
      returns (unknown: Option<nat>, inDegree: map<string, nat>, adj: Successors<string>)
      requires Counted(seen, before, adjBefore) && seen.Keys == byId.Keys
      requires id in byId && seen[id] == []
      ensures unknown.Some? ==> unknown.value < |deps| && deps[unknown.value] !in byId
                                && forall x :: x in deps[..unknown.value] ==> x in byId
      ensures unknown.None? ==> Counted(seen[id := deps], inDegree, adj) && forall x :: x in deps ==> x in byId
    {
      hide Counted, SuccessorsOf;
      unknown, inDegree, adj := None, before, adjBefore;
      CountedKeys(seen, before, adjBefore);
      assert seen[id := deps[..0]] == seen;
      for k := 0 to |deps|
        invariant inDegree.Keys == byId.Keys
        invariant Counted(seen[id := deps[..k]], inDegree, adj)
        invariant forall x :: x in deps[..k] ==> x in byId
      {
        var dep := deps[k];
        if dep !in byId {
          return Some(k), inDegree, adj;
        }
        assert deps[..k + 1] == deps[..k] + [dep];
        assert seen[id := deps[..k]][id := deps[..k] + [dep]] == seen[id := deps[..k + 1]];
        CountedStep(seen[id := deps[..k]], inDegree, adj, dep, id);
        adj := adj[dep := SuccessorsOf(adj, dep) + [id]];
        inDegree := inDegree[id := inDegree[id] + 1];
      }
      assert deps[..|deps|] == deps;
    }

    /** First pass: count every edge, and stop at the first source that is not registered. */
    static method CountEdges(rs: seq<Resource>, byId: map<string, nat>)
      returns (unknown: Option<string>, inDegree: map<string, nat>, adj: Successors<string>)
      requires DistinctIds(rs) && forall id :: id in byId <==> Known(rs, id)
      ensures unknown.Some? ==> FirstUnknown(rs, unknown.value)
      ensures unknown.None? ==>
                && (forall j :: 0 <= j < |rs| ==> AllKnown(rs, rs[j]))
                && Counted(GraphOf(rs), inDegree, adj)
    {
      hide Counted, Sources, FirstUnknown, AllKnown, DistinctIds, GraphOf, Scanned, Known;
      unknown, adj := None, map[];
      inDegree := map id | id in byId :: 0;
      ghost var seen: Graph<string> := map id | id in byId :: [];
      CountedStart(seen, inDegree);
      ScannedStart(rs, seen);
      for i := 0 to |rs|
        invariant seen.Keys == byId.Keys
        invariant Counted(seen, inDegree, adj)
        invariant Scanned(rs, seen, i)
      {
        var deps := Sources(rs[i]);
        ScannedNext(rs, seen, i);
        var missing;
        missing, inDegree, adj := CountSources(byId, rs[i].id, deps, inDegree, adj, seen);
        if missing.Some? {
          IsFirstUnknown(rs, i, missing.value);
          return Some(deps[missing.value]), inDegree, adj;
        }
        ScannedStep(rs, seen, i);
        seen := seen[rs[i].id := deps];
      }
      ScannedAll(rs, seen);
    }

    lemma KnownIsIndexed()
      requires Valid()
      ensures forall id :: id in byId <==> Known(resources, id)
      ensures DistinctIds(resources)
    {
      forall id
        ensures id in byId <==> Known(resources, id)
      {
        if id in byId { assert resources[byId[id]].id == id; }
      }
    }

    /** The nodes without incoming edges, in any order. */
    static method FreeNodes(inDegree: map<string, nat>, ghost g: Graph<string>) returns (queue: seq<string>)
      requires inDegree.Keys == g.Keys
      ensures QueueIsFree(g, inDegree, {}, queue)
    {
      queue := [];
      var unread := inDegree.Keys;
      while unread != {}
        invariant unread <= inDegree.Keys
        invariant NoRepeats(queue)
        invariant forall v :: v in queue <==> v in inDegree && v !in unread && inDegree[v] == 0
        decreases |unread|
      {
        var v :| v in unread;
        unread := unread - {v};
        if inDegree[v] == 0 {
          queue := queue + [v];
        }
      }
    }

    /** The ids whose counter is not zero, sorted. */
    static method StuckNodes(inDegree: map<string, nat>) returns (stuck: seq<string>)
      ensures Ascending(stuck)
      ensures forall v :: v in stuck <==> v in inDegree && inDegree[v] > 0
    {
      hide LexLeq;
      stuck := [];
      var unread := inDegree.Keys;
      while unread != {}
        invariant unread <= inDegree.Keys
        invariant Ascending(stuck)
        invariant forall v :: v in stuck <==> v in inDegree && v !in unread && inDegree[v] > 0
        decreases |unread|
      {
        var v :| v in unread;
        if inDegree[v] > 0 {
          stuck := InsertName(stuck, v);
        }
        unread := unread - {v};
      }
    }

    /** Kahn's loop. */
    static method Drain(ghost g: Graph<string>, counted: map<string, nat>, adj: Successors<string>)
      returns (order: seq<string>, inDegree: map<string, nat>)
      requires Counted(g, counted, adj)
      ensures NoRepeats(order) && Respects(g, order)
      ensures inDegree.Keys == g.Keys
      ensures forall v :: v in g ==> (v in order <==> inDegree[v] == 0)
      ensures forall v :: v in g && v !in order ==> Blocked(g, order, v)
    {
      hide Remaining, Occurs, Respects, Draining, QueueIsFree, NoRepeats;
      order, inDegree := [], counted;
      DrainStart(g, counted, adj);
      var queue := FreeNodes(counted, g);
      while queue != []
        invariant DrainInvariant(g, inDegree, order, queue)
        decreases |g| - |order|
      {
        var id := queue[0];
        ghost var done := Elements(order);
        Popped(g, inDegree, order, queue);
        ghost var was, sofar := inDegree, order;
        order := order + [id];
        inDegree, queue := Release(g, id, SuccessorsOf(adj, id), inDegree, queue[1..], done);
        Released(g, was, sofar, id, inDegree, queue);
      }
      DrainedAll(g, inDegree, order);
    }

    method TopologicalOrder() returns (r: TopoResult)
      requires Valid()
      ensures IsTopoResult(resources, r)
      ensures TellsFields(resources, r)
    {
      hide IsTopoResult, Counted, FirstUnknown, Respects, NoRepeats, AllKnown, Known, DistinctIds, Blocked, GraphOf,
           TellsFields;
      KnownIsIndexed();
      var unknown, counted, adj := CountEdges(resources, byId);
      if unknown.Some? {
        UnknownVerdict(resources, unknown.value);
        ResultTellsFields(resources, UnknownHandle(unknown.value));
        return UnknownHandle(unknown.value);
      }
      ghost var g := GraphOf(resources);
      var order, inDegree := Drain(g, counted, adj);
      if |order| != |resources| {
        var stuck := StuckNodes(inDegree);
        CycleVerdict(resources, order, inDegree, stuck);
        ResultTellsFields(resources, Cycle(stuck));
        return Cycle(stuck);
      }
      OrderVerdict(resources, order);
      ResultTellsFields(resources, Order(order));
      return Order(order);
    }
  }

  // ---------------------------------------------------------------- steps of the proof

  lemma IsFirstUnknown(rs: seq<Resource>, i: nat, k: nat)
    requires i < |rs| && k < |Sources(rs[i])| && !Known(rs, Sources(rs[i])[k])
    requires forall x :: x in Sources(rs[i])[..k] ==> Known(rs, x)
    requires forall j :: 0 <= j < i ==> AllKnown(rs, rs[j])
    ensures FirstUnknown(rs, Sources(rs[i])[k])
  {
  }

  /** The first `i` resources were scanned: their sources are known and recorded, the others are untouched. */
  ghost predicate Scanned(rs: seq<Resource>, seen: Graph<string>, i: nat)
    requires i <= |rs|
  {
    && (forall j :: 0 <= j < |rs| ==> rs[j].id in seen)
    && (forall j :: 0 <= j < i ==> seen[rs[j].id] == Sources(rs[j]) && AllKnown(rs, rs[j]))
    && (forall j :: i <= j < |rs| ==> seen[rs[j].id] == [])
  }

  lemma ScannedStart(rs: seq<Resource>, seen: Graph<string>)
    requires forall id :: id in seen <==> Known(rs, id)
    requires forall v :: v in seen ==> seen[v] == []
    ensures Scanned(rs, seen, 0)
  {
    forall j | 0 <= j < |rs|
      ensures rs[j].id in seen
    {
      assert Known(rs, rs[j].id);
    }
  }

  lemma ScannedNext(rs: seq<Resource>, seen: Graph<string>, i: nat)
    requires i < |rs| && Scanned(rs, seen, i)
    ensures rs[i].id in seen && seen[rs[i].id] == []
    ensures forall j :: 0 <= j < i ==> AllKnown(rs, rs[j])
  {
  }

  lemma ScannedStep(rs: seq<Resource>, seen: Graph<string>, i: nat)
    requires i < |rs| && Scanned(rs, seen, i) && DistinctIds(rs)
    requires forall x :: x in Sources(rs[i]) ==> Known(rs, x)
    ensures Scanned(rs, seen[rs[i].id := Sources(rs[i])], i + 1)
  {
    hide Sources, Known;
  }

  /** A complete scan has recorded the whole graph. */
  lemma ScannedAll(rs: seq<Resource>, seen: Graph<string>)
    requires DistinctIds(rs) && Scanned(rs, seen, |rs|) && forall id :: id in seen <==> Known(rs, id)
    ensures forall j :: 0 <= j < |rs| ==> AllKnown(rs, rs[j])
    ensures seen == GraphOf(rs)
  {
    hide Sources, GraphOf, AllKnown;
    GraphOfIs(rs);
    forall id | id in seen
      ensures id in GraphOf(rs) && seen[id] == GraphOf(rs)[id]
    {
      var i :| 0 <= i < |rs| && rs[i].id == id;
    }
  }

  lemma CountedKeys(g: Graph<string>, inDegree: map<string, nat>, adj: Successors<string>)
    requires Counted(g, inDegree, adj)
    ensures inDegree.Keys == g.Keys
  {
  }

  lemma FirstUnknownIsUnknown(rs: seq<Resource>, h: string)
    requires FirstUnknown(rs, h)
    ensures exists j :: 0 <= j < |rs| && !AllKnown(rs, rs[j])
  {
    var i, k :| && 0 <= i < |rs| && 0 <= k < |Sources(rs[i])| && Sources(rs[i])[k] == h && !Known(rs, h)
                && (forall x :: x in Sources(rs[i])[..k] ==> Known(rs, x))
                && (forall j :: 0 <= j < i ==> AllKnown(rs, rs[j]));
    assert h in Sources(rs[i]);
    assert !AllKnown(rs, rs[i]);
  }

  lemma UnknownVerdict(rs: seq<Resource>, h: string)
    requires FirstUnknown(rs, h)
    ensures IsTopoResult(rs, UnknownHandle(h))
  {
    hide FirstUnknown, AllKnown;
    FirstUnknownIsUnknown(rs, h);
  }

  /** Nothing stuck means nothing on or behind a cycle. */
  lemma OrderVerdict(rs: seq<Resource>, order: seq<string>)
    requires DistinctIds(rs) && forall j :: 0 <= j < |rs| ==> AllKnown(rs, rs[j])
    requires NoRepeats(order) && Respects(GraphOf(rs), order) && |order| == |rs|
    requires forall v :: v in GraphOf(rs) && v !in order ==> Blocked(GraphOf(rs), order, v)
    ensures IsTopoResult(rs, Order(order))
  {
    hide AllKnown, OnCycle, FromCycle, Known, Closed, Respects, NoRepeats, Blocked, GraphOf, DistinctIds;
    var g := GraphOf(rs);
    GraphOfIs(rs);
    GraphIsClosed(rs);
    OrderIsComplete(g, order, rs);
    RespectsWithin(g, order);
    forall v
      ensures !FromCycle(g, v)
    {
      LeftOverIsFromCycle(g, order, v);
    }
    CycleIffFromCycle(g);
  }

  lemma CycleVerdict(rs: seq<Resource>, order: seq<string>, inDegree: map<string, nat>, stuck: seq<string>)
    requires DistinctIds(rs) && forall j :: 0 <= j < |rs| ==> AllKnown(rs, rs[j])
    requires NoRepeats(order) && Respects(GraphOf(rs), order) && |order| != |rs|
    requires forall v :: v in GraphOf(rs) && v !in order ==> Blocked(GraphOf(rs), order, v)
    requires inDegree.Keys == GraphOf(rs).Keys
    requires forall v :: v in GraphOf(rs) ==> (v in order <==> inDegree[v] == 0)
    requires Ascending(stuck) && forall v :: v in stuck <==> v in inDegree && inDegree[v] > 0
    ensures IsTopoResult(rs, Cycle(stuck))
  {
    hide AllKnown, OnCycle, FromCycle, Known, Closed, Respects, NoRepeats, Blocked, GraphOf, DistinctIds, LexLeq;
    var g := GraphOf(rs);
    GraphOfIs(rs);
    GraphIsClosed(rs);
    OrderIsComplete(g, order, rs);
    forall v
      ensures v in g && v !in order <==> FromCycle(g, v)
    {
      LeftOverIsFromCycle(g, order, v);
    }
    CycleIffFromCycle(g);
  }

  lemma CountedStart(g: Graph<string>, inDegree: map<string, nat>)
    requires inDegree.Keys == g.Keys
    requires forall v :: v in g ==> g[v] == [] && inDegree[v] == 0
    ensures Counted(g, inDegree, map[])
  {
  }

  lemma GraphIsClosed(rs: seq<Resource>)
    requires DistinctIds(rs) && forall j :: 0 <= j < |rs| ==> AllKnown(rs, rs[j])
    ensures Closed(GraphOf(rs))
  {
    hide Sources;
    GraphOfIs(rs);
    forall u, v | Edge(GraphOf(rs), u, v)
      ensures u in GraphOf(rs)
    {
      assert Known(rs, v);
      var i :| 0 <= i < |rs| && rs[i].id == v;
      assert AllKnown(rs, rs[i]);
    }
  }

  /** What holds between two rounds of Kahn's loop. */
  ghost predicate DrainInvariant(g: Graph<string>, inDegree: map<string, nat>, order: seq<string>, queue: seq<string>) {
    var done := Elements(order);
    && Draining(g, inDegree, done)
    && inDegree.Keys == g.Keys
    && QueueIsFree(g, inDegree, done, queue)
    && NoRepeats(order) && Respects(g, order)
    && done <= g.Keys
    && (forall v :: v in done && v in g ==> inDegree[v] == 0)
  }

  lemma DrainStart(g: Graph<string>, counted: map<string, nat>, adj: Successors<string>)
    requires Counted(g, counted, adj)
    ensures Draining(g, counted, {})
    ensures NoRepeats<string>([]) && Respects(g, [])
    ensures Elements<string>([]) == {}
  {
    forall v | v in g
      ensures counted[v] == Remaining(g[v], {})
    {
      RemainingOfNone(g[v]);
    }
  }

  /** The head of the queue is free, so everything it waits for is already in the order. */
  lemma Popped(g: Graph<string>, inDegree: map<string, nat>, order: seq<string>, queue: seq<string>)
    requires DrainInvariant(g, inDegree, order, queue) && queue != []
    ensures queue[0] !in Elements(order) && queue[0] in g && inDegree[queue[0]] == 0
    ensures QueueIsFree(g, inDegree, Elements(order) + {queue[0]}, queue[1..])
    ensures NoRepeats(order + [queue[0]])
    ensures Elements(order + [queue[0]]) == Elements(order) + {queue[0]}
    ensures Respects(g, order + [queue[0]])
    ensures |order| < |g|
  {
    hide Remaining;
    var id := queue[0];
    assert id in queue;
    assert queue == [id] + queue[1..];
    ElementsOfDistinct(order);
    SubsetSize(Elements(order) + {id}, g.Keys);
    RemainingIsZero(g[id], Elements(order));
    RespectsSnoc(g, order, id);
  }

  lemma RespectsSnoc(g: Graph<string>, order: seq<string>, id: string)
    requires Respects(g, order) && id in g && forall u :: u in g[id] ==> u in order
    ensures Respects(g, order + [id])
  {
    var longer := order + [id];
    forall i | 0 <= i < |longer|
      ensures longer[i] in g && forall u :: u in g[longer[i]] ==> u in longer[..i]
    {
      assert longer[..i] == if i < |order| then order[..i] else order;
      if i < |order| { assert longer[i] == order[i]; }
    }
  }

  /** Releasing the popped node restores the invariant. */
  lemma Released(g: Graph<string>, before: map<string, nat>, order: seq<string>, id: string,
                 inDegree: map<string, nat>, queue: seq<string>)
    requires Draining(g, before, Elements(order)) && Draining(g, inDegree, Elements(order) + {id})
    requires id !in Elements(order) && id in g && before[id] == 0
    requires forall v :: v in Elements(order) && v in g ==> before[v] == 0
    requires QueueIsFree(g, inDegree, Elements(order) + {id}, queue)
    requires Elements(order + [id]) == Elements(order) + {id} && Elements(order) <= g.Keys
    requires NoRepeats(order + [id]) && Respects(g, order + [id])
    ensures DrainInvariant(g, inDegree, order + [id], queue)
  {
    hide Remaining, NoRepeats, Respects, QueueIsFree, Elements;
    forall v | v in Elements(order) + {id}
      ensures inDegree[v] == 0
    {
      RemainingDrops(g[v], Elements(order), id);
    }
  }

  lemma DrainedAll(g: Graph<string>, inDegree: map<string, nat>, order: seq<string>)
    requires DrainInvariant(g, inDegree, order, [])
    ensures forall v :: v in g ==> (v in order <==> inDegree[v] == 0)
    ensures forall v :: v in g && v !in order ==> Blocked(g, order, v)
  {
    hide Remaining;
    forall v | v in g && v !in order
      ensures Blocked(g, order, v)
    {
      RemainingIsZero(g[v], Elements(order));
    }
  }

  lemma RespectsWithin(g: Graph<string>, order: seq<string>)
    requires Respects(g, order)
    ensures forall v :: v in order ==> v in g
  {
  }

  ghost function IdsOf(rs: seq<Resource>): seq<string> {
    seq(|rs|, i requires 0 <= i < |rs| => rs[i].id)
  }

  /** An order without repeats is complete exactly when it is as long as the registry. */
  lemma OrderIsComplete(g: Graph<string>, order: seq<string>, rs: seq<Resource>)
    requires NoRepeats(order) && Respects(g, order) && DistinctIds(rs)
    requires forall id :: id in g <==> Known(rs, id)
    ensures |order| == |rs| <==> forall v :: v in g ==> v in order
  {
    RespectsWithin(g, order);
    var ids := IdsOf(rs);
    ElementsOfDistinct(order);
    ElementsOfDistinct(ids);
    assert Elements(ids) == g.Keys by {
      forall id | id in g ensures id in ids { var i :| 0 <= i < |rs| && rs[i].id == id; assert ids[i] == id; }
      forall i | 0 <= i < |ids| ensures ids[i] in g { assert rs[i].id == ids[i]; }
    }
    assert Elements(order) <= g.Keys;
    if |order| == |rs| {
      SubsetOfSameSize(Elements(order), g.Keys);
    } else {
      assert Elements(order) != g.Keys;
    }
  }

  lemma SubsetOfSameSize(a: set<string>, b: set<string>)
    requires a <= b && |a| == |b|
    ensures a == b
  {
    assert b == a + (b - a);
  }
}
