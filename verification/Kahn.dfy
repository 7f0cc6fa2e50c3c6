/** The counting core of the topological sort: edge counts, the queue and its release step. */
module Kahn {
  import opened Text
  import opened Digraph

  type Successors<N> = map<N, seq<N>>

  function SuccessorsOf<N(==)>(adj: Successors<N>, u: N): seq<N> {
    if u in adj then adj[u] else []
  }

  /** The counters and adjacency lists say how often each edge of `g` occurs. */
  ghost predicate Counted<N(!new)>(g: Graph<N>, inDegree: map<N, nat>, adj: Successors<N>) {
    && inDegree.Keys == g.Keys
    && (forall v :: v in g ==> inDegree[v] == |g[v]|)
    && (forall u, v :: v in g ==> Occurs(SuccessorsOf(adj, u), v) == Occurs(g[v], u))
    && (forall u, v :: v in SuccessorsOf(adj, u) ==> v in g)
  }

  /** Recording one edge keeps the counts right. */
  lemma CountedStep<N(!new)>(g: Graph<N>, inDegree: map<N, nat>, adj: Successors<N>, u: N, v: N)
    requires Counted(g, inDegree, adj) && v in g
    ensures Counted(g[v := g[v] + [u]], inDegree[v := inDegree[v] + 1], adj[u := SuccessorsOf(adj, u) + [v]])
  {
    hide Occurs;
    var g', adj' := g[v := g[v] + [u]], adj[u := SuccessorsOf(adj, u) + [v]];
    assert inDegree[v := inDegree[v] + 1].Keys == g'.Keys;
    forall a, b | b in g'
      ensures Occurs(SuccessorsOf(adj', a), b) == Occurs(g'[b], a)
    {
      assert Occurs(SuccessorsOf(adj, a), b) == Occurs(g[b], a);
      OccursSnoc(SuccessorsOf(adj, a), v, b);
      OccursSnoc(g[b], u, a);
    }
    forall a, b | b in SuccessorsOf(adj', a)
      ensures b in g'
    {
      if a == u { assert b in SuccessorsOf(adj, a) || b == v; } else { assert b in SuccessorsOf(adj, a); }
    }
  }

  /** Every counter is the number of edges from nodes that are not done. */
  ghost predicate Draining<N(!new)>(g: Graph<N>, inDegree: map<N, nat>, done: set<N>) {
    inDegree.Keys == g.Keys && forall v :: v in g ==> inDegree[v] == Remaining(g[v], done)
  }

  /** The queue holds, once each, the nodes that are free and not yet emitted. */
  ghost predicate QueueIsFree<N(!new)>(g: Graph<N>, inDegree: map<N, nat>, emitted: set<N>, queue: seq<N>)
    requires inDegree.Keys == g.Keys
  {
    NoRepeats(queue) && forall v :: v in queue <==> v in g && v !in emitted && inDegree[v] == 0
  }

  /** `inDegree` is `before` less the first `k` edges of the list. */
  ghost predicate Taken<N(!new)>(before: map<N, nat>, inDegree: map<N, nat>, successors: seq<N>, k: nat)
    requires k <= |successors|
  {
    inDegree.Keys == before.Keys && forall v :: v in before ==> inDegree[v] + Occurs(successors[..k], v) == before[v]
  }

  lemma TakenStep<N(!new)>(before: map<N, nat>, inDegree: map<N, nat>, successors: seq<N>, k: nat)
    requires k < |successors| && Taken(before, inDegree, successors, k)
    requires successors[k] in before && Occurs(successors, successors[k]) <= before[successors[k]]
    ensures inDegree[successors[k]] >= 1
    ensures Taken(before, inDegree[successors[k] := inDegree[successors[k]] - 1], successors, k + 1)
  {
    hide Occurs;
    var s := successors[k];
    assert successors[..k + 1] == successors[..k] + [s];
    OccursSnoc(successors[..k], s, s);
    OccursPrefix(successors, k + 1, s);
    var after := inDegree[s := inDegree[s] - 1];
    assert after.Keys == before.Keys;
    forall v | v in before
      ensures after[v] + Occurs(successors[..k + 1], v) == before[v]
    {
      OccursSnoc(successors[..k], s, v);
    }
  }

  lemma QueueStep<N(!new)>(g: Graph<N>, inDegree: map<N, nat>, emitted: set<N>, queue: seq<N>, s: N)
    requires inDegree.Keys == g.Keys && s in g && inDegree[s] >= 1 && s !in emitted
    requires QueueIsFree(g, inDegree, emitted, queue)
    ensures var after := inDegree[s := inDegree[s] - 1];
            && after.Keys == g.Keys
            && QueueIsFree(g, after, emitted, if after[s] == 0 then queue + [s] else queue)
  {
    var after := inDegree[s := inDegree[s] - 1];
    assert after.Keys == g.Keys;
    assert s !in queue;
    var q := if after[s] == 0 then queue + [s] else queue;
    assert forall v :: v in q <==> v in queue || (v == s && after[s] == 0);
  }

  /** The inner loop: take the edges of `u` off the counters and queue what becomes free. */
  method Release<N(==, !new)>(ghost g: Graph<N>, u: N, successors: seq<N>, before: map<N, nat>, waiting: seq<N>,
                              ghost done: set<N>)
    returns (inDegree: map<N, nat>, queue: seq<N>)
    requires Draining(g, before, done) && u !in done && u in g && before[u] == 0
    requires forall v :: v in done && v in g ==> before[v] == 0
    requires forall v :: v in successors ==> v in g
    requires forall v :: v in g ==> Occurs(successors, v) == Occurs(g[v], u)
    requires QueueIsFree(g, before, done + {u}, waiting)
    ensures Draining(g, inDegree, done + {u})
    ensures QueueIsFree(g, inDegree, done + {u}, queue)
  {
    hide Occurs, Remaining, QueueIsFree, Taken, NoRepeats;
    inDegree, queue := before, waiting;
    forall v | v in g
      ensures Remaining(g[v], done + {u}) + Occurs(successors, v) == before[v]
    {
      RemainingDrops(g[v], done, u);
    }
    TakenStart(before, successors);
    for k := 0 to |successors|
      invariant inDegree.Keys == g.Keys
      invariant Taken(before, inDegree, successors, k)
      invariant QueueIsFree(g, inDegree, done + {u}, queue)
    {
      var s := successors[k];
      assert s in successors;
      OccursAt(successors, k);
      TakenStep(before, inDegree, successors, k);
      QueueStep(g, inDegree, done + {u}, queue, s);
      inDegree := inDegree[s := inDegree[s] - 1];
      if inDegree[s] == 0 {
        queue := queue + [s];
      }
    }
    TakenAll(before, inDegree, successors);
  }

  lemma TakenStart<N(!new)>(before: map<N, nat>, successors: seq<N>)
    ensures Taken(before, before, successors, 0)
  {
  }

  lemma TakenAll<N(!new)>(before: map<N, nat>, inDegree: map<N, nat>, successors: seq<N>)
    requires Taken(before, inDegree, successors, |successors|)
    ensures forall v :: v in before ==> v in inDegree && inDegree[v] + Occurs(successors, v) == before[v]
  {
    assert successors[..|successors|] == successors;
  }

  lemma OccursAt<N(!new)>(s: seq<N>, k: nat)
    requires k < |s|
    ensures Occurs(s, s[k]) >= 1
  {
    OccursPrefix(s, k + 1, s[k]);
  }
}
