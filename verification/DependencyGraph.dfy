/**
 Dependency graphs and the smallest-ready-first order. Both topological sorts
 of the repository (the workflow compiler's and the work-package graph's) run
 the same Kahn loop over an indegree table and a sorted ready list; here that
 loop is proved to compute the lexicographically least topological order, and
 to stop short exactly when there is none.
 */
module DependencyGraph {
  import opened Lex
  import opened Outcomes

  /** Each node with the list of nodes it depends on, repetitions allowed. */
  type Graph = map<string, seq<string>>

  ghost predicate Closed(g: Graph) {
    forall n :: n in g ==> Elems(g[n]) <= g.Keys
  }

  /** A cycle: each node depends on the next one, the last on the first. */
  ghost predicate IsCycle(g: Graph, p: seq<string>) {
    |p| > 0 && IsWalk(g, p) && p[0] in g[p[|p| - 1]]
  }

  ghost predicate Acyclic(g: Graph) {
    forall p :: !IsCycle(g, p)
  }

  ghost predicate IsTopological(g: Graph, order: seq<string>) {
    && Distinct(order)
    && Elems(order) == g.Keys
    && forall i :: 0 <= i < |order| ==> Elems(g[order[i]]) <= Elems(order[..i])
  }

  /** n is not done and everything it depends on is. */
  ghost predicate Available(g: Graph, done: set<string>, n: string) {
    n in g && n !in done && Elems(g[n]) <= done
  }

  ghost predicate IsLeastAvailable(g: Graph, done: set<string>, n: string) {
    Available(g, done, n) && forall m :: Available(g, done, m) ==> Le(n, m)
  }

  /** Every element is the least node available after those before it. */
  ghost predicate IsGreedy(g: Graph, order: seq<string>) {
    forall i :: 0 <= i < |order| ==> IsLeastAvailable(g, Elems(order[..i]), order[i])
  }

  ghost predicate IsStuck(g: Graph, order: seq<string>) {
    forall n :: !Available(g, Elems(order), n)
  }

  /** Lexicographic order on sequences of identifiers of equal length. */
  ghost predicate Precedes(a: seq<string>, b: seq<string>) {
    a == b ||
    exists i :: 0 <= i < |a| && i < |b| && a[..i] == b[..i] && Lt(a[i], b[i])
  }

  // ----- the greedy order

  lemma GreedyDistinct(g: Graph, order: seq<string>)
    requires IsGreedy(g, order)
    ensures Distinct(order) && Elems(order) <= g.Keys
  {
    forall i, j | 0 <= i < j < |order| ensures order[i] != order[j] {
      assert IsLeastAvailable(g, Elems(order[..j]), order[j]);
      assert order[..j][i] == order[i];
    }
    forall x | x in order ensures x in g.Keys {
      var i :| 0 <= i < |order| && order[i] == x;
      assert IsLeastAvailable(g, Elems(order[..i]), order[i]);
    }
  }

  lemma GreedyExtend(g: Graph, order: seq<string>, n: string)
    requires IsGreedy(g, order) && IsLeastAvailable(g, Elems(order), n)
    ensures IsGreedy(g, order + [n])
  {
    var longer := order + [n];
    forall i | 0 <= i < |longer| ensures IsLeastAvailable(g, Elems(longer[..i]), longer[i]) {
      assert longer[..i] == order[..i];
      if i < |order| {
        assert IsLeastAvailable(g, Elems(order[..i]), order[i]);
      } else {
        assert order[..i] == order;
      }
    }
  }

  /** Two greedy orders agree as far as both go. */
  lemma {:induction false} GreedyAgree(g: Graph, a: seq<string>, b: seq<string>, k: nat)
    requires IsGreedy(g, a) && IsGreedy(g, b)
    requires k <= |a| && k <= |b|
    ensures a[..k] == b[..k]
  {
    if k > 0 {
      GreedyAgree(g, a, b, k - 1);
      assert IsLeastAvailable(g, Elems(a[..k - 1]), a[k - 1]);
      assert IsLeastAvailable(g, Elems(b[..k - 1]), b[k - 1]);
      LeAntisymmetric(a[k - 1], b[k - 1]);
      assert a[..k] == a[..k - 1] + [a[k - 1]];
      assert b[..k] == b[..k - 1] + [b[k - 1]];
    }
  }

  lemma GreedyNext(g: Graph, a: seq<string>, b: seq<string>)
    requires IsGreedy(g, a) && IsGreedy(g, b) && |a| < |b|
    ensures Available(g, Elems(a), b[|a|])
  {
    GreedyAgree(g, a, b, |a|);
    assert a == a[..|a|];
    assert IsLeastAvailable(g, Elems(b[..|a|]), b[|a|]);
  }

  lemma StuckIsLongest(g: Graph, a: seq<string>, b: seq<string>)
    requires IsGreedy(g, a) && IsStuck(g, a) && IsGreedy(g, b)
    ensures |b| <= |a|
  {
    if |b| > |a| {
      GreedyNext(g, a, b);
      assert false;
    }
  }

  /** The maximal greedy order is determined by the graph alone. */
  lemma GreedyUnique(g: Graph, a: seq<string>, b: seq<string>)
    requires IsGreedy(g, a) && IsStuck(g, a)
    requires IsGreedy(g, b) && IsStuck(g, b)
    ensures a == b
  {
    StuckIsLongest(g, a, b);
    StuckIsLongest(g, b, a);
    GreedyAgree(g, a, b, |a|);
    assert a == a[..|a|] && b == b[..|b|];
  }

  /** Repetitions in a dependency list do not affect the order. */
  lemma GreedySameDependencies(g: Graph, h: Graph, order: seq<string>)
    requires g.Keys == h.Keys && forall n :: n in g ==> Elems(g[n]) == Elems(h[n])
    ensures IsGreedy(g, order) <==> IsGreedy(h, order)
    ensures IsStuck(g, order) <==> IsStuck(h, order)
  {
    forall done, n ensures Available(g, done, n) <==> Available(h, done, n) {}
    forall done, n ensures IsLeastAvailable(g, done, n) <==> IsLeastAvailable(h, done, n) {}
  }

  // ----- completeness: all nodes are emitted iff the graph can be ordered

  lemma GreedyCompleteIsTopological(g: Graph, order: seq<string>)
    requires IsGreedy(g, order) && |order| == |g.Keys|
    ensures IsTopological(g, order)
  {
    GreedyDistinct(g, order);
    DistinctSize(order);
    SubsetSameSize(Elems(order), g.Keys);
    forall i | 0 <= i < |order| ensures Elems(g[order[i]]) <= Elems(order[..i]) {
      assert IsLeastAvailable(g, Elems(order[..i]), order[i]);
    }
  }

  lemma SubsetSameSize<T>(a: set<T>, b: set<T>)
    requires a <= b && |a| == |b|
    ensures a == b
  {
    assert b == a + (b - a);
    assert |b| == |a| + |b - a|;
  }

  /** The greedy order comes before, or is, any other topological order. */
  lemma GreedyIsLeast(g: Graph, order: seq<string>, other: seq<string>)
    requires IsGreedy(g, order) && |order| == |g.Keys|
    requires IsTopological(g, other)
    ensures Precedes(order, other)
  {
    GreedyCompleteIsTopological(g, order);
    DistinctSize(order);
    DistinctSize(other);
    if order != other {
      var i := FirstDifference(order, other);
      assert IsLeastAvailable(g, Elems(order[..i]), order[i]);
      assert Available(g, Elems(order[..i]), other[i]) by {
        assert other[i] in Elems(other);
        assert other[i] !in other[..i];
      }
    }
  }

  lemma FirstDifference(a: seq<string>, b: seq<string>) returns (i: nat)
    requires |a| == |b| && a != b
    ensures i < |a| && a[..i] == b[..i] && a[i] != b[i]
  {
    var d :| 0 <= d < |a| && a[d] != b[d];
    i := 0;
    while a[i] == b[i]
      invariant i <= d && a[..i] == b[..i]
      decreases d - i
    {
      i := i + 1;
    }
  }

  lemma TopologicalAcyclic(g: Graph, order: seq<string>)
    requires IsTopological(g, order)
    ensures Closed(g) && Acyclic(g)
  {
    forall n | n in g ensures Elems(g[n]) <= g.Keys {
      assert n in Elems(order);
      var i :| 0 <= i < |order| && order[i] == n;
      assert Elems(order[..i]) <= Elems(order);
    }
    forall p | |p| > 0 && IsWalk(g, p) ensures !IsCycle(g, p) {
      assert p[0] in Elems(order);
      var at :| 0 <= at < |order| && order[at] == p[0];
      WalkDescends(g, order, p, at, |p| - 1);
      var i :| 0 <= i <= at && order[i] == p[|p| - 1];
      NotEarlier(order, i, at);
      assert p[0] !in Elems(g[order[i]]);
    }
  }

  /** Each node depends on the next one. */
  ghost predicate IsWalk(g: Graph, p: seq<string>) {
    && (forall i :: 0 <= i < |p| ==> p[i] in g)
    && (forall i :: 0 <= i < |p| - 1 ==> p[i + 1] in g[p[i]])
  }

  /** A walk never leaves the part of a topological order up to its start. */
  lemma {:induction false} WalkDescends(g: Graph, order: seq<string>, p: seq<string>, at: nat, k: nat)
    requires IsTopological(g, order) && IsWalk(g, p)
    requires k < |p| && at < |order| && order[at] == p[0]
    ensures exists i :: 0 <= i <= at && order[i] == p[k]
  {
    if k > 0 {
      WalkDescends(g, order, p, at, k - 1);
      var i :| 0 <= i <= at && order[i] == p[k - 1];
      assert p[k] in Elems(g[order[i]]);
      var j :| 0 <= j < i && order[..i][j] == p[k];
      assert order[j] == p[k];
    }
  }

  lemma NotEarlier(order: seq<string>, i: nat, at: nat)
    requires Distinct(order) && i <= at < |order|
    ensures order[at] !in order[..i]
  {
  }

  /** Where the greedy order stops short, the nodes left over each wait for
      another one left over, and a long enough walk among them closes a cycle. */
  lemma StuckHasCycle(g: Graph, order: seq<string>)
    requires IsGreedy(g, order) && IsStuck(g, order) && |order| != |g.Keys|
    requires Closed(g)
    ensures !Acyclic(g)
  {
    var rest := g.Keys - Elems(order);
    assert rest != {} by {
      GreedyDistinct(g, order);
      DistinctSize(order);
      assert g.Keys == rest + Elems(order);
    }
    forall n | n in rest ensures WaitsWithin(g, rest, n) {
      LeftoverWaits(g, order, n);
    }
    var first :| first in rest;
    WalkFindsCycle(g, rest, [first]);
  }

  lemma LeftoverWaits(g: Graph, order: seq<string>, n: string)
    requires IsStuck(g, order) && Closed(g) && n in g.Keys - Elems(order)
    ensures WaitsWithin(g, g.Keys - Elems(order), n)
  {
    assert !Available(g, Elems(order), n);
    var d :| d in Elems(g[n]) && d !in Elems(order);
    assert d in g[n] && d in g.Keys - Elems(order);
  }

  ghost predicate WaitsWithin(g: Graph, rest: set<string>, n: string)
    requires n in g
  {
    exists d :: d in g[n] && d in rest
  }

  lemma {:induction false} WalkFindsCycle(g: Graph, rest: set<string>, walk: seq<string>)
    requires rest <= g.Keys && forall n {:trigger WaitsWithin(g, rest, n)} :: n in rest ==> WaitsWithin(g, rest, n)
    requires |walk| > 0 && Elems(walk) <= rest && Distinct(walk)
    requires IsWalk(g, walk)
    ensures !Acyclic(g)
    decreases |rest| - |walk|
  {
    var last := walk[|walk| - 1];
    assert last in Elems(walk);
    assert WaitsWithin(g, rest, last);
    var d :| d in g[last] && d in rest;
    if d in walk {
      WalkCloses(g, walk, d);
    } else {
      var longer := walk + [d];
      assert Distinct(longer);
      assert Elems(longer) == Elems(walk) + {d};
      DistinctSize(longer);
      SubsetSize(Elems(longer), rest);
      assert IsWalk(g, longer);
      WalkFindsCycle(g, rest, longer);
    }
  }

  /** A set of nodes that all wait for one another holds a cycle. */
  lemma WaitingSetCycles(g: Graph, rest: set<string>, n: string)
    requires n in rest && rest <= g.Keys && forall n {:trigger WaitsWithin(g, rest, n)} :: n in rest ==>
             WaitsWithin(g, rest, n)
    ensures !Acyclic(g)
  {
    WalkFindsCycle(g, rest, [n]);
  }

  lemma WalkCloses(g: Graph, walk: seq<string>, d: string)
    requires IsWalk(g, walk) && d in walk && d in g[walk[|walk| - 1]]
    ensures !Acyclic(g)
  {
    var i :| 0 <= i < |walk| && walk[i] == d;
    var p := walk[i..];
    assert IsWalk(g, p);
    assert IsCycle(g, p);
  }

  lemma SubsetSize<T>(a: set<T>, b: set<T>)
    requires a <= b
    ensures |a| <= |b|
  {
    assert b == a + (b - a);
  }

  /** What either sort reports: an order exactly when the graph has no dangling
      dependency and no cycle, and then the least one. */
  ghost predicate SortOutcome(g: Graph, r: Option<seq<string>>) {
    && (r.Some? <==> Closed(g) && Acyclic(g))
    && (r.Some? ==>
          && IsTopological(g, r.value)
          && IsGreedy(g, r.value)
          && forall other :: IsTopological(g, other) ==> Precedes(r.value, other))
  }

  lemma GreedyOutcome(g: Graph, order: seq<string>)
    requires IsGreedy(g, order) && IsStuck(g, order)
    ensures SortOutcome(g, if |order| == |g.Keys| then Some(order) else None)
  {
    if |order| == |g.Keys| {
      GreedyCompleteIsTopological(g, order);
      TopologicalAcyclic(g, order);
      forall other | IsTopological(g, other) ensures Precedes(order, other) {
        GreedyIsLeast(g, order, other);
      }
    } else if Closed(g) {
      StuckHasCycle(g, order);
    }
  }

  lemma OutcomeUnique(g: Graph, h: Graph, a: Option<seq<string>>, b: Option<seq<string>>)
    requires SortOutcome(g, a) && SortOutcome(h, b)
    requires g.Keys == h.Keys && forall n :: n in g ==> Elems(g[n]) == Elems(h[n])
    ensures a == b
  {
    forall p ensures IsCycle(g, p) <==> IsCycle(h, p) {
      forall n, d | n in g ensures d in g[n] <==> d in h[n] { assert d in Elems(g[n]) <==> d in Elems(h[n]); }
    }
    if a.Some? {
      GreedySameDependencies(g, h, b.value);
      DistinctSize(a.value);
      DistinctSize(b.value);
      GreedyAgree(g, a.value, b.value, |a.value|);
      assert a.value == a.value[..|a.value|] && b.value == b.value[..|b.value|];
    }
  }

  // ----- the Kahn loop

  /** How many entries of a dependency list are still open. */
  function Open(deps: seq<string>, done: set<string>): nat {
    if deps == [] then 0
    else (if deps[0] in done then 0 else 1) + Open(deps[1..], done)
  }

  lemma {:induction false} OpenZero(deps: seq<string>, done: set<string>)
    ensures Open(deps, done) == 0 <==> Elems(deps) <= done
  {
    if deps != [] {
      OpenZero(deps[1..], done);
      assert deps == [deps[0]] + deps[1..];
      assert Elems(deps) == {deps[0]} + Elems(deps[1..]);
    }
  }

  lemma {:induction false} OpenNone(deps: seq<string>)
    ensures Open(deps, {}) == |deps|
  {
    if deps != [] { OpenNone(deps[1..]); }
  }

  /** Finishing n closes as many entries as n has occurrences. */
  lemma {:induction false} OpenStep(deps: seq<string>, done: set<string>, n: string)
    requires n !in done
    ensures Open(deps, done + {n}) == Open(deps, done) - multiset(deps)[n]
  {
    if deps != [] {
      OpenStep(deps[1..], done, n);
      assert deps == [deps[0]] + deps[1..];
    }
  }

  /** dependents lists, for each node, who waits for it, once per occurrence. */
  ghost predicate Inverts(g: Graph, dependents: map<string, seq<string>>) {
    && (forall d, n :: d in dependents && n in dependents[d] ==> n in g)
    && (forall d, n :: n in g ==>
          multiset(g[n])[d] == if d in dependents then multiset(dependents[d])[n] else 0)
  }

  /** The state between two rounds of the loop. */
  ghost predicate LoopInvariant(g: Graph, indegree: map<string, int>, ready: seq<string>, order: seq<string>) {
    && indegree.Keys == g.Keys
    && (forall n :: n in g ==> indegree[n] == Open(g[n], Elems(order)))
    && ReadyIs(g, indegree, ready, Elems(order))
    && Sorted(ready)
    && IsGreedy(g, order)
  }

  ghost predicate ReadyIs(g: Graph, indegree: map<string, int>, ready: seq<string>, done: set<string>) {
    && indegree.Keys == g.Keys
    && Distinct(ready)
    && forall n :: n in ready <==> n in g && n !in done && indegree[n] == 0
  }

  /** One decrement pass: every dependent of the emitted node loses one open
      entry per occurrence and joins the ready list when none is left. */
  method Release(ghost g: Graph, indegree0: map<string, int>, ready0: seq<string>, ghost done: set<string>,
      next: seq<string>)
    returns (indegree: map<string, int>, ready: seq<string>)
    requires indegree0.Keys == g.Keys
    requires forall n :: n in next ==> n in g && n !in done
    requires forall n :: n in g ==> indegree0[n] >= multiset(next)[n]
    requires ReadyIs(g, indegree0, ready0, done)
    ensures indegree.Keys == g.Keys
    ensures forall n :: n in g ==> indegree[n] == indegree0[n] - multiset(next)[n]
    ensures ReadyIs(g, indegree, ready, done)
  {
    hide ReadyIs;
    indegree, ready := indegree0, ready0;
    for j := 0 to |next|
      invariant indegree.Keys == g.Keys
      invariant forall n :: n in g ==> indegree[n] == indegree0[n] - multiset(next[..j])[n]
      invariant ReadyIs(g, indegree, ready, done)
    {
      var n := next[j];
      PrefixCounts(next, j);
      assert n in next;
      ReleaseOne(g, indegree, ready, done, n);
      indegree := indegree[n := indegree[n] - 1];
      if indegree[n] == 0 {
        ready := ready + [n];
      }
    }
    assert next[..|next|] == next;
  }

  lemma PrefixCounts(s: seq<string>, j: nat)
    requires j < |s|
    ensures multiset(s[..j + 1]) == multiset(s[..j]) + multiset{s[j]}
    ensures multiset(s)[s[j]] > multiset(s[..j])[s[j]]
  {
    assert s[..j + 1] == s[..j] + [s[j]];
    assert s == s[..j + 1] + s[j + 1..];
  }

  /** A decremented node joins the ready list exactly when it reaches zero. */
  lemma ReleaseOne(g: Graph, indegree: map<string, int>, ready: seq<string>, done: set<string>, n: string)
    requires ReadyIs(g, indegree, ready, done)
    requires n in g && n !in done && indegree[n] > 0
    ensures ReadyIs(g, indegree[n := indegree[n] - 1], if indegree[n] == 1 then ready + [n] else ready, done)
  {
    assert n !in ready;
  }

  /** The main loop of both sorts: emit the smallest ready node, release its
      dependents, sort the ready list again. */
  method Drain(g: Graph, indegree0: map<string, int>, dependents: map<string, seq<string>>, ready0: seq<string>)
    returns (order: seq<string>)
    requires Inverts(g, dependents)
    requires LoopInvariant(g, indegree0, ready0, [])
    ensures IsGreedy(g, order) && IsStuck(g, order)
  {
    var indegree, ready := indegree0, ready0;
    order := [];
    while |ready| > 0
      invariant LoopInvariant(g, indegree, ready, order)
      decreases |g.Keys| - |order|
    {
      var id := ready[0];
      ghost var before := order;
      EmitHead(g, indegree, ready, order);
      ready := ready[1..];
      order := order + [id];
      var next := Sort(if id in dependents then dependents[id] else []);
      NextFacts(g, dependents, before, id, next);
      ghost var indegree1 := indegree;
      indegree, ready := Release(g, indegree, ready, Elems(order), next);
      SortFacts(ready);
      EndOfRound(g, indegree1, indegree, ready, before, id, next);
      ready := Sort(ready);
    }
    forall n ensures !Available(g, Elems(order), n) {
      if n in g { OpenZero(g[n], Elems(order)); }
    }
  }

  lemma ReadyHeadIsLeast(g: Graph, indegree: map<string, int>, ready: seq<string>, order: seq<string>)
    requires LoopInvariant(g, indegree, ready, order) && |ready| > 0
    ensures IsLeastAvailable(g, Elems(order), ready[0])
  {
    assert ready[0] in ready;
    OpenZero(g[ready[0]], Elems(order));
    forall m | Available(g, Elems(order), m) ensures Le(ready[0], m) {
      OpenZero(g[m], Elems(order));
      assert m in ready;
      LeTotal(m, m);
    }
  }

  /** Taking the head of the ready list keeps the order greedy. */
  lemma EmitHead(g: Graph, indegree: map<string, int>, ready: seq<string>, order: seq<string>)
    requires LoopInvariant(g, indegree, ready, order) && |ready| > 0
    ensures IsGreedy(g, order + [ready[0]])
    ensures ready[0] !in order && |order| + 1 <= |g.Keys|
    ensures ReadyIs(g, indegree, ready[1..], Elems(order + [ready[0]]))
  {
    var id := ready[0];
    ReadyHeadIsLeast(g, indegree, ready, order);
    GreedyExtend(g, order, id);
    GreedyDistinct(g, order + [id]);
    DistinctSize(order + [id]);
    SubsetSize(Elems(order + [id]), g.Keys);
    DistinctTail(ready);
    assert Elems(order + [id]) == Elems(order) + {id};
    forall n ensures n in ready[1..] <==> n in g && n !in Elems(order + [id]) && indegree[n] == 0 {
      assert n in ready[1..] <==> n in Elems(ready[1..]);
      assert n in ready <==> n in Elems(ready);
    }
  }

  /** The dependents of id, as Release needs them: none emitted yet, each
      listed once per open entry naming id. */
  lemma NextFacts(g: Graph, dependents: map<string, seq<string>>, order: seq<string>, id: string, next: seq<string>)
    requires Inverts(g, dependents) && IsGreedy(g, order + [id]) && id !in order
    requires multiset(next) == multiset(if id in dependents then dependents[id] else [])
    ensures forall n :: n in next ==> n in g && n !in Elems(order + [id])
    ensures forall n :: n in g ==> multiset(next)[n] == multiset(g[n])[id] <= Open(g[n], Elems(order))
  {
    forall n | n in g ensures multiset(next)[n] == multiset(g[n])[id] <= Open(g[n], Elems(order)) {
      OpenStep(g[n], Elems(order), id);
    }
    forall n | n in next ensures n in g && n !in Elems(order + [id]) {
      assert n in multiset(next);
      assert id in dependents && n in dependents[id];
      assert multiset(g[n])[id] > 0;
      assert id in g[n];
      NotYetEmitted(g, order + [id], n, id);
    }
  }

  /** Whoever depends on the last node of a greedy order is not in it. */
  lemma NotYetEmitted(g: Graph, order: seq<string>, n: string, id: string)
    requires IsGreedy(g, order) && order != [] && order[|order| - 1] == id
    requires n in g && id in g[n]
    ensures n !in order
  {
    GreedyDistinct(g, order);
    forall i | 0 <= i < |order| ensures order[i] != n {
      assert IsLeastAvailable(g, Elems(order[..i]), order[i]);
      NotEarlier(order, i, |order| - 1);
      assert id !in Elems(g[order[i]]);
    }
  }

  lemma EndOfRound(g: Graph, indegree0: map<string, int>, indegree: map<string, int>, ready: seq<string>,
                   order: seq<string>, id: string, next: seq<string>)
    requires IsGreedy(g, order + [id]) && id !in order
    requires indegree0.Keys == g.Keys && forall n :: n in g ==> indegree0[n] == Open(g[n], Elems(order))
    requires forall n :: n in g ==> multiset(next)[n] == multiset(g[n])[id]
    requires indegree.Keys == g.Keys && forall n :: n in g ==> indegree[n] == indegree0[n] - multiset(next)[n]
    requires ReadyIs(g, indegree, ready, Elems(order + [id]))
    ensures LoopInvariant(g, indegree, Sort(ready), order + [id])
  {
    SortFacts(ready);
    assert Elems(order + [id]) == Elems(order) + {id};
    forall n | n in g ensures indegree[n] == Open(g[n], Elems(order + [id])) {
      OpenStep(g[n], Elems(order), id);
    }
    forall n ensures n in Sort(ready) <==> n in ready {
      assert n in Sort(ready) <==> n in Elems(Sort(ready));
      assert n in ready <==> n in Elems(ready);
    }
  }

  // ----- filling the dependents table

  function Count(dependents: map<string, seq<string>>, d: string, n: string): nat {
    if d in dependents then multiset(dependents[d])[n] else 0
  }

  /** Registers id once under every entry of its dependency list. */
  method AddDependents(dependents0: map<string, seq<string>>, id: string, deps: seq<string>)
    returns (dependents: map<string, seq<string>>)
    ensures Adds(dependents0, dependents, id, deps)
  {
    dependents := dependents0;
    for j := 0 to |deps|
      invariant forall d, n :: Count(dependents, d, n) == Count(dependents0, d, n) +
                  if n == id then multiset(deps[..j])[d] else 0
    {
      assert deps[..j + 1] == deps[..j] + [deps[j]];
      dependents := dependents[deps[j] := (if deps[j] in dependents then dependents[deps[j]] else []) + [id]];
    }
    assert deps[..|deps|] == deps;
  }

  /** The table once the nodes in seen have been registered. */
  ghost predicate Registered(g: Graph, dependents: map<string, seq<string>>, seen: set<string>) {
    && (forall d, n :: n !in seen ==> Count(dependents, d, n) == 0)
    && (forall d, n :: n in seen && n in g ==> Count(dependents, d, n) == multiset(g[n])[d])
  }

  /** id has been entered once for each of its dependencies. */
  ghost predicate Adds(before: map<string, seq<string>>, after: map<string, seq<string>>, id: string,
      deps: seq<string>) {
    forall d, n :: Count(after, d, n) == Count(before, d, n) + if n == id then multiset(deps)[d] else 0
  }

  lemma RegisterOne(g: Graph, before: map<string, seq<string>>, after: map<string, seq<string>>, seen: set<string>,
      id: string)
    requires id in g && id !in seen && Registered(g, before, seen) && Adds(before, after, id, g[id])
    ensures Registered(g, after, seen + {id})
  {
    hide Count;
  }

  lemma NoneRegistered(g: Graph)
    ensures Registered(g, map[], {})
  {
  }

  lemma RegisteredAll(g: Graph, dependents: map<string, seq<string>>)
    requires Registered(g, dependents, g.Keys)
    ensures Inverts(g, dependents)
  {
    forall d, n | d in dependents && n in dependents[d] ensures n in g {
      assert Count(dependents, d, n) > 0;
    }
    forall d, n | n in g
      ensures multiset(g[n])[d] == if d in dependents then multiset(dependents[d])[n] else 0
    {
      assert Count(dependents, d, n) == multiset(g[n])[d];
    }
  }

  /** The state before the first round: all lists open, the free nodes ready. */
  lemma FirstRound(g: Graph, indegree: map<string, int>, free: seq<string>)
    requires indegree.Keys == g.Keys && forall n :: n in g ==> indegree[n] == |g[n]|
    requires Distinct(free) && forall n :: n in free <==> n in g && indegree[n] == 0
    ensures LoopInvariant(g, indegree, Sort(free), [])
  {
    SortFacts(free);
    assert Elems<string>([]) == {};
    forall n | n in g ensures indegree[n] == Open(g[n], {}) { OpenNone(g[n]); }
    forall n ensures n in Sort(free) <==> n in free {
      assert n in Sort(free) <==> n in Elems(Sort(free));
      assert n in free <==> n in Elems(free);
    }
  }
}
