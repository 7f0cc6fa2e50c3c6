/** Choice of the candidate version of a package from any number of package lists, read in any order. */
module Candidates {
  import opened Text

  datatype Candidate = Candidate(version: string, priority: Option<int>)

  /** How versions parse: a place in the version order, or no version at all. */
  type VersionOrder = string -> Option<real>

  predicate IsNewer(rank: VersionOrder, a: string, b: string) {
    match (rank(a), rank(b))
    case (Some(x), Some(y)) => x > y
    case _ => LexLess(b, a)
  }

  predicate PreferNew(rank: VersionOrder, newcomer: Candidate, holder: Candidate) {
    if newcomer.priority.Some? && holder.priority.Some? && newcomer.priority != holder.priority
    then newcomer.priority.value > holder.priority.value
    else IsNewer(rank, newcomer.version, holder.version)
  }

  function MergeCandidate(rank: VersionOrder, m: map<string, Candidate>, name: string, c: Candidate)
    : map<string, Candidate>
  {
    if name !in m || PreferNew(rank, c, m[name]) then m[name := c] else m
  }

  function CollectAll(rank: VersionOrder, found: seq<(string, Candidate)>): map<string, Candidate> {
    if found == [] then map[]
    else
      var last := found[|found| - 1];
      MergeCandidate(rank, CollectAll(rank, found[..|found| - 1]), last.0, last.1)
  }

  /** `collect_candidates` once the lists are parsed. */
  method CollectCandidates(rank: VersionOrder, found: seq<(string, Candidate)>) returns (m: map<string, Candidate>)
    ensures m == CollectAll(rank, found)
  {
    m := map[];
    assert found[..0] == [];
    for i := 0 to |found|
      invariant m == CollectAll(rank, found[..i])
    {
      assert found[..i + 1][..i] == found[..i];
      var name, c := found[i].0, found[i].1;
      if name in m {
        if PreferNew(rank, c, m[name]) {
          m := m[name := c];
        }
      } else {
        m := m[name := c];
      }
    }
    assert found[..|found|] == found;
  }

  /** Every candidate has a priority, and every version parses. */
  ghost predicate Comparable(rank: VersionOrder, c: Candidate) {
    c.priority.Some? && rank(c.version).Some?
  }

  /** `a` is at least as good as `b`: higher priority, or the same and a version that is not older. */
  ghost predicate AtLeast(rank: VersionOrder, a: Candidate, b: Candidate)
    requires Comparable(rank, a) && Comparable(rank, b)
  {
    || a.priority.value > b.priority.value
    || (a.priority.value == b.priority.value && rank(a.version).value >= rank(b.version).value)
  }

  ghost predicate AllComparable(rank: VersionOrder, found: seq<(string, Candidate)>) {
    forall i :: 0 <= i < |found| ==> Comparable(rank, found[i].1)
  }

  /** The choice for every package is one of its candidates and at least as good as all of them. */
  lemma {:induction false} ChoiceIsMaximum(rank: VersionOrder, found: seq<(string, Candidate)>)
    requires AllComparable(rank, found)
    ensures var m := CollectAll(rank, found);
            && (forall name :: name in m ==> (name, m[name]) in found && Comparable(rank, m[name]))
            && (forall i :: 0 <= i < |found| ==> found[i].0 in m && AtLeast(rank, m[found[i].0], found[i].1))
  {
    if found != [] {
      var front, last := found[..|found| - 1], found[|found| - 1];
      ChoiceIsMaximum(rank, front);
      assert found == front + [last];
      var before := CollectAll(rank, front);
      if last.0 in before { PreferredIsAtLeast(rank, last.1, before[last.0]); }
      hide PreferNew, AtLeast;
      forall i | 0 <= i < |front|
        ensures found[i].0 in CollectAll(rank, found)
        ensures AtLeast(rank, CollectAll(rank, found)[found[i].0], found[i].1)
      {
        assert front[i] == found[i];
        if found[i].0 == last.0 { AtLeastTransitive(rank, last.1, before[last.0], found[i].1); }
      }
      AtLeastReflexive(rank, last.1);
    }
  }

  lemma PreferredIsAtLeast(rank: VersionOrder, a: Candidate, b: Candidate)
    requires Comparable(rank, a) && Comparable(rank, b)
    ensures PreferNew(rank, a, b) ==> AtLeast(rank, a, b)
    ensures !PreferNew(rank, a, b) ==> AtLeast(rank, b, a)
  {
  }

  lemma AtLeastTransitive(rank: VersionOrder, a: Candidate, b: Candidate, c: Candidate)
    requires Comparable(rank, a) && Comparable(rank, b) && Comparable(rank, c) && AtLeast(rank, b, c)
    ensures AtLeast(rank, a, b) ==> AtLeast(rank, a, c)
  {
  }

  lemma AtLeastReflexive(rank: VersionOrder, a: Candidate)
    requires Comparable(rank, a)
    ensures AtLeast(rank, a, a)
  {
  }

  /** Lists read in another order give the same packages and equally good choices. */
  lemma ChoiceIsOrderFree(rank: VersionOrder, found: seq<(string, Candidate)>, found': seq<(string, Candidate)>)
    requires AllComparable(rank, found) && forall x :: x in found <==> x in found'
    ensures AllComparable(rank, found')
    ensures var m, m' := CollectAll(rank, found), CollectAll(rank, found');
            && m.Keys == m'.Keys
            && forall name :: name in m ==>
                 m[name].priority == m'[name].priority && rank(m[name].version) == rank(m'[name].version)
  {
    hide CollectAll;
    assert forall i :: 0 <= i < |found'| ==> found'[i] in found;
    ChoiceIsMaximum(rank, found);
    ChoiceIsMaximum(rank, found');
    var m, m' := CollectAll(rank, found), CollectAll(rank, found');
    forall name | name in m || name in m'
      ensures name in m && name in m'
      ensures name in m && name in m' ==>
        m[name].priority == m'[name].priority && rank(m[name].version) == rank(m'[name].version)
    {
      if name in m {
        var i :| 0 <= i < |found'| && found'[i] == (name, m[name]);
        assert AtLeast(rank, m'[name], m[name]);
      }
      if name in m' {
        var i :| 0 <= i < |found| && found[i] == (name, m'[name]);
        assert AtLeast(rank, m[name], m'[name]);
      }
    }
  }

  // ---------------------------------------------------------------- exactly when the order is irrelevant

  /** The candidates found for one package, in order. */
  ghost function CandidatesOf(found: seq<(string, Candidate)>, name: string): seq<Candidate> {
    if found == [] then []
    else
      var last := found[|found| - 1];
      CandidatesOf(found[..|found| - 1], name) + (if last.0 == name then [last.1] else [])
  }

  /** The candidate that survives when each newcomer is compared with the holder. */
  ghost function Best(rank: VersionOrder, cs: seq<Candidate>): Candidate
    requires cs != []
  {
    if |cs| == 1 then cs[0]
    else
      var holder := Best(rank, cs[..|cs| - 1]);
      if PreferNew(rank, cs[|cs| - 1], holder) then cs[|cs| - 1] else holder
  }

  lemma {:induction false} ChoiceIsBest(rank: VersionOrder, found: seq<(string, Candidate)>, name: string)
    ensures name in CollectAll(rank, found) <==> CandidatesOf(found, name) != []
    ensures name in CollectAll(rank, found) ==> CollectAll(rank, found)[name] == Best(rank, CandidatesOf(found, name))
  {
    hide PreferNew, Best;
    if found != [] {
      var front, last := found[..|found| - 1], found[|found| - 1];
      ChoiceIsBest(rank, front, name);
      if last.0 == name {
        BestSnoc(rank, CandidatesOf(front, name), last.1);
      } else {
        assert CandidatesOf(found, name) == CandidatesOf(front, name);
      }
    }
  }

  lemma BestSnoc(rank: VersionOrder, cs: seq<Candidate>, c: Candidate)
    ensures Best(rank, cs + [c]) ==
            if cs == [] then c else if PreferNew(rank, c, Best(rank, cs)) then c else Best(rank, cs)
  {
    hide PreferNew;
    assert (cs + [c])[..|cs|] == cs;
  }

  /** `w` displaces every other candidate and is displaced by none. */
  ghost predicate Dominates(rank: VersionOrder, w: Candidate, cs: seq<Candidate>) {
    w in cs && forall c :: c in cs && c != w ==> PreferNew(rank, w, c) && !PreferNew(rank, c, w)
  }

  lemma {:induction false} DominatorWins(rank: VersionOrder, w: Candidate, cs: seq<Candidate>)
    requires Dominates(rank, w, cs)
    ensures Best(rank, cs) == w
  {
    hide PreferNew;
    if |cs| > 1 {
      var front, last := cs[..|cs| - 1], cs[|cs| - 1];
      assert cs == front + [last];
      BestIsOneOf(rank, front);
      if w in front {
        DominatorWins(rank, w, front);
        NotNewerThanItself(rank, w);
      }
    }
  }

  lemma NotNewerThanItself(rank: VersionOrder, c: Candidate)
    ensures !PreferNew(rank, c, c)
  {
  }

  lemma {:induction false} BestIsOneOf(rank: VersionOrder, cs: seq<Candidate>)
    requires cs != []
    ensures Best(rank, cs) in cs
  {
    hide PreferNew;
    if |cs| > 1 { BestIsOneOf(rank, cs[..|cs| - 1]); }
  }

  /** A candidate that does not hold the place and does not come again cannot win. */
  lemma {:induction false} LoserIsOut(rank: VersionOrder, early: seq<Candidate>, rest: seq<Candidate>, w: Candidate)
    requires early != [] && Best(rank, early) != w && w !in rest
    ensures Best(rank, early + rest) != w
    decreases |rest|
  {
    hide PreferNew, Best;
    if rest == [] {
      assert early + rest == early;
    } else {
      var front, last := rest[..|rest| - 1], rest[|rest| - 1];
      LoserIsOut(rank, early, front, w);
      BestSnoc(rank, early + front, last);
      assert early + rest == (early + front) + [last];
    }
  }

  ghost function Copies(w: Candidate, n: nat): seq<Candidate> {
    if n == 0 then [] else Copies(w, n - 1) + [w]
  }

  /** Copies of one candidate, and the others. */
  lemma {:induction false} CopiesAndOthers(cs: seq<Candidate>, w: Candidate) returns (n: nat, others: seq<Candidate>)
    ensures multiset(cs) == multiset(Copies(w, n)) + multiset(others)
    ensures w !in others
  {
    if cs == [] {
      n, others := 0, [];
    } else {
      var front, last := cs[..|cs| - 1], cs[|cs| - 1];
      n, others := CopiesAndOthers(front, w);
      assert cs == front + [last];
      assert multiset(cs) == multiset(front) + multiset{last};
      if last == w {
        assert multiset(Copies(w, n + 1)) == multiset(Copies(w, n)) + multiset{w};
        n := n + 1;
      } else {
        assert multiset(others + [last]) == multiset(others) + multiset{last};
        others := others + [last];
      }
    }
  }

  lemma OneOfThem(cs: seq<Candidate>, w: Candidate, n: nat, others: seq<Candidate>, c: Candidate)
    requires multiset(cs) == multiset(Copies(w, n)) + multiset(others) && w !in others && c in cs
    ensures if c == w then n > 0 else c in others
  {
    hide Copies;
    assert c in multiset(cs);
    assert c in multiset(Copies(w, n)) || c in multiset(others);
    CopiesAreCopies(w, n);
    assert c in Copies(w, n) || c in others;
  }

  lemma {:induction false} CopiesAreCopies(w: Candidate, n: nat)
    ensures forall c :: c in Copies(w, n) ==> c == w
    ensures n == 0 ==> Copies(w, n) == []
  {
    if n > 0 { CopiesAreCopies(w, n - 1); }
  }

  /** Copies of one candidate leave the holder in place if they do not displace it. */
  lemma {:induction false} CopiesChangeNothing(rank: VersionOrder, c: Candidate, w: Candidate, n: nat)
    requires !PreferNew(rank, w, c)
    ensures Best(rank, [c] + Copies(w, n)) == c
  {
    hide PreferNew, Best;
    if n == 0 {
      BestSnoc(rank, [], c);
      assert [c] + Copies(w, 0) == [] + [c];
    } else {
      CopiesChangeNothing(rank, c, w, n - 1);
      BestSnoc(rank, [c] + Copies(w, n - 1), w);
      assert [c] + Copies(w, n) == ([c] + Copies(w, n - 1)) + [w];
    }
  }

  lemma {:induction false} BestOfCopies(rank: VersionOrder, w: Candidate, n: nat)
    requires n > 0
    ensures Copies(w, n) != [] && Best(rank, Copies(w, n)) == w
  {
    hide PreferNew, Best;
    if n == 1 {
      BestSnoc(rank, [], w);
      assert [] + [w] == Copies(w, 1) by { assert Copies(w, 0) == []; }
    } else {
      BestOfCopies(rank, w, n - 1);
      BestSnoc(rank, Copies(w, n - 1), w);
    }
  }

  /** Take one element out. */
  lemma TakeOut(cs: seq<Candidate>, c: Candidate) returns (rest: seq<Candidate>)
    requires c in cs
    ensures multiset(cs) == multiset{c} + multiset(rest)
  {
    var k :| 0 <= k < |cs| && cs[k] == c;
    rest := cs[..k] + cs[k + 1..];
    assert cs == (cs[..k] + [cs[k]]) + cs[k + 1..];
  }

  /**
   The choice does not depend on the order in which the candidates are read if and only if one of them
   displaces all that differ from it and is displaced by none. The same candidate may come from several
   lists.
   */
  lemma OrderFreeIffDominated(rank: VersionOrder, cs: seq<Candidate>)
    requires cs != []
    ensures (forall cs' :: multiset(cs') == multiset(cs) && cs' != [] ==> Best(rank, cs') == Best(rank, cs))
            <==> exists w :: Dominates(rank, w, cs)
  {
    hide PreferNew, Best;
    if w :| Dominates(rank, w, cs) {
      DominatorWins(rank, w, cs);
      forall cs' | multiset(cs') == multiset(cs) && cs' != []
        ensures Best(rank, cs') == Best(rank, cs)
      {
        assert forall c :: c in cs' <==> c in multiset(cs');
        assert forall c :: c in cs <==> c in multiset(cs);
        DominatorWins(rank, w, cs');
      }
    } else {
      var w := Best(rank, cs);
      BestIsOneOf(rank, cs);
      assert !Dominates(rank, w, cs);
      var c :| c in cs && c != w && !(PreferNew(rank, w, c) && !PreferNew(rank, c, w));
      var cs' := OtherWinner(rank, cs, w, c);
    }
  }

  /** Reading all copies of the winner first, or right after a candidate it does not displace, makes it lose. */
  lemma {:induction false} OtherWinner(rank: VersionOrder, cs: seq<Candidate>, w: Candidate,
                                       c: Candidate) returns (cs': seq<Candidate>)
    requires w in cs && c in cs && c != w && !(PreferNew(rank, w, c) && !PreferNew(rank, c, w))
    ensures multiset(cs') == multiset(cs) && cs' != [] && Best(rank, cs') != w
  {
    hide PreferNew, Best, Copies;
    var n, others := CopiesAndOthers(cs, w);
    OneOfThem(cs, w, n, others, w);
    OneOfThem(cs, w, n, others, c);
    var rest := TakeOut(others, c);
    NotAmong(others, c, rest, w);
    var early;
    if PreferNew(rank, c, w) {
      early := Copies(w, n) + [c];
      BestOfCopies(rank, w, n);
      BestSnoc(rank, Copies(w, n), c);
    } else {
      early := [c] + Copies(w, n);
      CopiesChangeNothing(rank, c, w, n);
    }
    LoserIsOut(rank, early, rest, w);
    cs' := early + rest;
    assert multiset(early) == multiset(Copies(w, n)) + multiset{c};
  }

  lemma NotAmong(others: seq<Candidate>, c: Candidate, rest: seq<Candidate>, w: Candidate)
    requires multiset(others) == multiset{c} + multiset(rest) && w !in others
    ensures w !in rest
  {
    assert w !in multiset(others);
    assert w !in multiset(rest);
  }

  /** Without a priority on every candidate the preference is circular and the order decides. */
  lemma MissingPriorityMakesOrderMatter(rank: VersionOrder)
    requires rank("1") == Some(1.0) && rank("2") == Some(2.0) && rank("3") == Some(3.0)
    ensures var a, b, c := Candidate("3", Some(1)), Candidate("2", None), Candidate("1", Some(2));
            && PreferNew(rank, a, b) && PreferNew(rank, b, c) && PreferNew(rank, c, a)
            && CollectAll(rank, [("p", a), ("p", b), ("p", c)]) == map["p" := c]
            && CollectAll(rank, [("p", b), ("p", c), ("p", a)]) == map["p" := a]
  {
    var a, b, c := Candidate("3", Some(1)), Candidate("2", None), Candidate("1", Some(2));
    var abc, bca := [("p", a), ("p", b), ("p", c)], [("p", b), ("p", c), ("p", a)];
    assert abc[..2] == [("p", a), ("p", b)] && abc[..2][..1] == [("p", a)] && abc[..1][..0] == [];
    assert bca[..2] == [("p", b), ("p", c)] && bca[..2][..1] == [("p", b)] && bca[..1][..0] == [];
    assert CollectAll(rank, [("p", a)]) == map["p" := a];
    assert CollectAll(rank, [("p", b)]) == map["p" := b];
    assert CollectAll(rank, abc[..2]) == map["p" := a];
    assert CollectAll(rank, bca[..2]) == map["p" := b];
  }

  /**
   Of two candidates of a package the second is chosen if and only if both have a priority, they differ and
   its is higher; or else both versions parse and its is newer, or one does not parse and its text is greater.
   */
  lemma {:induction false} TwoCandidates(rank: VersionOrder, name: string, a: Candidate, b: Candidate)
    ensures var m := CollectAll(rank, [(name, a), (name, b)]);
            var ranked := a.priority.Some? && b.priority.Some? && a.priority != b.priority;
            var parsed := rank(a.version).Some? && rank(b.version).Some?;
            m == map[name :=
              if ranked then (if b.priority.value > a.priority.value then b else a)
              else if parsed then (if rank(b.version).value > rank(a.version).value then b else a)
              else if LexLeq(a.version, b.version) && a.version != b.version then b else a]
  {
    var both := [(name, a), (name, b)];
    assert both[..1] == [(name, a)] && both[..1][..0] == [];
    assert CollectAll(rank, [(name, a)]) == map[name := a];
  }
}
