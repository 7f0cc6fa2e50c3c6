/** Dependency graphs: walks, cycles, topological orders, and what Kahn's algorithm can leave over. */
module Digraph {
  import opened Text

  /** Every node with the sources of its incoming edges, duplicates included. */
  type Graph<N> = map<N, seq<N>>

  ghost predicate Edge<N(!new)>(g: Graph<N>, u: N, v: N) {
    v in g && u in g[v]
  }

  /** Every edge starts at a node. */
  ghost predicate Closed<N(!new)>(g: Graph<N>) {
    forall u, v :: Edge(g, u, v) ==> u in g
  }

  ghost predicate IsWalk<N(!new)>(g: Graph<N>, p: seq<N>) {
    p != [] && forall i :: 0 <= i < |p| - 1 ==> Edge(g, p[i], p[i + 1])
  }

  ghost predicate WalkFromTo<N(!new)>(g: Graph<N>, p: seq<N>, u: N, v: N) {
    IsWalk(g, p) && p[0] == u && p[|p| - 1] == v
  }

  ghost predicate OnCycle<N(!new)>(g: Graph<N>, u: N) {
    exists p :: |p| >= 2 && WalkFromTo(g, p, u, u)
  }

  ghost predicate Reaches<N(!new)>(g: Graph<N>, u: N, v: N) {
    exists p :: WalkFromTo(g, p, u, v)
  }

  /** `v` lies on a cycle or behind one. */
  ghost predicate FromCycle<N(!new)>(g: Graph<N>, v: N) {
    exists u :: OnCycle(g, u) && Reaches(g, u, v)
  }

  /** Every element comes after all of its sources. */
  ghost predicate Respects<N(!new)>(g: Graph<N>, order: seq<N>) {
    forall i :: 0 <= i < |order| ==> order[i] in g && forall u :: u in g[order[i]] ==> u in order[..i]
  }

  /** A permutation of the nodes in which every source precedes its dependents. */
  ghost predicate IsTopological<N(!new)>(g: Graph<N>, order: seq<N>) {
    NoRepeats(order) && (forall v :: v in order <==> v in g) && Respects(g, order)
  }

  ghost function Elements<N>(s: seq<N>): set<N> {
    set x | x in s
  }

  /** Elements and length grow together while nothing repeats. */
  lemma {:induction false} ElementsOfDistinct<N(!new)>(s: seq<N>)
    requires NoRepeats(s)
    ensures |Elements(s)| == |s|
  {
    if s != [] {
      var front, last := s[..|s| - 1], s[|s| - 1];
      ElementsOfDistinct(front);
      assert last !in front;
      assert Elements(s) == Elements(front) + {last};
    }
  }

  // ---------------------------------------------------------------- walks and orders

  /** A walk that ends inside a respectful order lies inside it and only moves forward. */
  lemma {:induction false} WalksMoveForward<N(!new)>(g: Graph<N>, order: seq<N>, p: seq<N>, j: nat) returns (i: nat)
    requires Respects(g, order) && IsWalk(g, p)
    requires j < |order| && order[j] == p[|p| - 1]
    ensures i <= j && order[i] == p[0] && (|p| >= 2 ==> i < j)
  {
    if |p| == 1 {
      i := j;
    } else {
      var front := p[..|p| - 1];
      var u := p[|p| - 2];
      assert Edge(g, p[|p| - 2], p[|p| - 1]);
      var k :| 0 <= k < j && order[k] == u;
      i := WalksMoveForward(g, order, front, k);
    }
  }

  /** Nothing on or behind a cycle can be in a respectful order. */
  lemma CycleBlocks<N(!new)>(g: Graph<N>, order: seq<N>, v: N)
    requires Respects(g, order) && NoRepeats(order) && FromCycle(g, v)
    ensures v !in order && v in g
  {
    var u :| OnCycle(g, u) && Reaches(g, u, v);
    var loop :| |loop| >= 2 && WalkFromTo(g, loop, u, u);
    var p :| WalkFromTo(g, p, u, v);
    assert Edge(g, loop[|loop| - 2], u);
    if |p| >= 2 { assert Edge(g, p[|p| - 2], v); }
    if v in order {
      var j :| 0 <= j < |order| && order[j] == v;
      var i := WalksMoveForward(g, order, p, j);
      var k := WalksMoveForward(g, order, loop, i);
    }
  }

  ghost predicate HasSourceIn<N(!new)>(g: Graph<N>, stuck: set<N>, v: N) {
    exists u :: u in stuck && Edge(g, u, v)
  }

  /** Every node of the set has a source in the set. */
  ghost predicate SelfFed<N(!new)>(g: Graph<N>, stuck: set<N>) {
    forall v :: v in stuck ==> HasSourceIn(g, stuck, v)
  }

  /** If every node of a set has a source in the set, each of them lies on or behind a cycle. */
  lemma {:induction false} BackwardsToACycle<N(!new)>(g: Graph<N>, stuck: set<N>, p: seq<N>, visited: set<N>)
    requires SelfFed(g, stuck)
    requires IsWalk(g, p)
    requires (forall x :: x in p <==> x in visited) && |visited| == |p| && visited <= stuck
    ensures FromCycle(g, p[|p| - 1])
    decreases |stuck| - |p|
  {
    hide Edge, FromCycle, HasSourceIn;
    SubsetSize(visited, stuck);
    assert p[0] in visited;
    var u := SourceOf(g, stuck, p[0]);
    hide IsWalk;
    if u in p {
      var j :| 0 <= j < |p| && p[j] == u;
      ClosesCycle(g, u, p, j);
    } else {
      PrependWalk(g, u, p);
      SubsetSize(visited + {u}, stuck);
      BackwardsToACycle(g, stuck, [u] + p, visited + {u});
    }
  }

  lemma SourceOf<N(!new)>(g: Graph<N>, stuck: set<N>, v: N) returns (u: N)
    requires HasSourceIn(g, stuck, v)
    ensures u in stuck && Edge(g, u, v)
  {
    u :| u in stuck && Edge(g, u, v);
  }

  /** A walk that is entered from one of its own nodes closes a cycle before its end. */
  lemma ClosesCycle<N(!new)>(g: Graph<N>, u: N, p: seq<N>, j: nat)
    requires IsWalk(g, p) && Edge(g, u, p[0]) && j < |p| && p[j] == u
    ensures FromCycle(g, p[|p| - 1])
  {
    hide Edge;
    PrependWalk(g, u, p);
    SubWalk(g, [u] + p, 0, j + 2);
    SubWalk(g, p, j, |p|);
    assert WalkFromTo(g, ([u] + p)[0..j + 2], u, u);
    assert OnCycle(g, u);
    assert WalkFromTo(g, p[j..|p|], u, p[|p| - 1]);
    assert Reaches(g, u, p[|p| - 1]);
  }

  lemma SubWalk<N(!new)>(g: Graph<N>, p: seq<N>, a: nat, b: nat)
    requires IsWalk(g, p) && a < b <= |p|
    ensures IsWalk(g, p[a..b])
  {
    hide Edge;
    var q := p[a..b];
    forall i | 0 <= i < |q| - 1
      ensures Edge(g, q[i], q[i + 1])
    {
      assert q[i] == p[a + i] && q[i + 1] == p[a + i + 1];
    }
  }

  lemma PrependWalk<N(!new)>(g: Graph<N>, u: N, p: seq<N>)
    requires IsWalk(g, p) && Edge(g, u, p[0])
    ensures IsWalk(g, [u] + p)
  {
    var q := [u] + p;
    forall i | 0 <= i < |q| - 1
      ensures Edge(g, q[i], q[i + 1])
    {
      if i > 0 { assert q[i] == p[i - 1] && q[i + 1] == p[i]; }
    }
  }

  lemma SubsetSize<N(!new)>(a: set<N>, b: set<N>)
    requires a <= b
    ensures |a| <= |b|
  {
    assert b == a + (b - a);
  }

  /** Some source of `w` is missing from the order. */
  ghost predicate Blocked<N(!new)>(g: Graph<N>, order: seq<N>, w: N)
    requires w in g
  {
    exists u :: u in g[w] && u !in order
  }

  /** An order that can be extended by no node leaves out exactly what lies on or behind a cycle. */
  lemma LeftOverIsFromCycle<N(!new)>(g: Graph<N>, order: seq<N>, v: N)
    requires Closed(g) && Respects(g, order) && NoRepeats(order)
    requires forall w :: w in g && w !in order ==> Blocked(g, order, w)
    ensures v in g && v !in order <==> FromCycle(g, v)
  {
    hide Blocked, FromCycle, Closed, HasSourceIn, Respects;
    if FromCycle(g, v) {
      CycleBlocks(g, order, v);
    }
    if v in g && v !in order {
      var stuck := set w | w in g && w !in order;
      forall w | w in stuck
        ensures HasSourceIn(g, stuck, w)
      {
        BlockedHasSource(g, order, stuck, w);
      }
      BackwardsToACycle(g, stuck, [v], {v});
    }
  }

  lemma BlockedHasSource<N(!new)>(g: Graph<N>, order: seq<N>, stuck: set<N>, w: N)
    requires Closed(g) && w in g && Blocked(g, order, w)
    requires stuck == set x | x in g && x !in order
    ensures HasSourceIn(g, stuck, w)
  {
    var u :| u in g[w] && u !in order;
    assert Edge(g, u, w);
  }

  /** There is a cycle exactly when some node lies on or behind one. */
  lemma CycleIffFromCycle<N(!new)>(g: Graph<N>)
    ensures (exists u :: OnCycle(g, u)) <==> (exists v :: FromCycle(g, v))
  {
    if u :| OnCycle(g, u) {
      assert WalkFromTo(g, [u], u, u);
      assert FromCycle(g, u);
    }
  }

  // ---------------------------------------------------------------- counting edges

  /** How many of the sources are not done yet. */
  ghost function Remaining<N(!new)>(sources: seq<N>, done: set<N>): nat {
    if sources == [] then 0
    else Remaining(sources[..|sources| - 1], done) + (if sources[|sources| - 1] in done then 0 else 1)
  }

  lemma {:induction false} RemainingOfNone<N(!new)>(sources: seq<N>)
    ensures Remaining(sources, {}) == |sources|
  {
    if sources != [] { RemainingOfNone(sources[..|sources| - 1]); }
  }

  lemma {:induction false} RemainingIsZero<N(!new)>(sources: seq<N>, done: set<N>)
    ensures Remaining(sources, done) == 0 <==> forall u :: u in sources ==> u in done
  {
    if sources != [] {
      RemainingIsZero(sources[..|sources| - 1], done);
      assert sources == sources[..|sources| - 1] + [sources[|sources| - 1]];
    }
  }

  /** How often `x` occurs in a sequence. */
  ghost function Occurs<N(!new)>(s: seq<N>, x: N): nat {
    if s == [] then 0 else Occurs(s[..|s| - 1], x) + (if s[|s| - 1] == x then 1 else 0)
  }

  lemma OccursSnoc<N(!new)>(s: seq<N>, a: N, x: N)
    ensures Occurs(s + [a], x) == Occurs(s, x) + (if a == x then 1 else 0)
  {
    assert (s + [a])[..|s|] == s;
  }

  lemma {:induction false} OccursPrefix<N(!new)>(s: seq<N>, k: nat, x: N)
    requires k <= |s|
    ensures Occurs(s[..k], x) <= Occurs(s, x)
  {
    if k < |s| {
      OccursPrefix(s[..|s| - 1], k, x);
      assert s[..|s| - 1][..k] == s[..k];
    } else {
      assert s[..k] == s;
    }
  }

  /** Finishing one more node takes off all of its edges. */
  lemma {:induction false} RemainingDrops<N(!new)>(sources: seq<N>, done: set<N>, u: N)
    requires u !in done
    ensures Remaining(sources, done + {u}) + Occurs(sources, u) == Remaining(sources, done)
  {
    if sources != [] {
      RemainingDrops(sources[..|sources| - 1], done, u);
    }
  }
}
