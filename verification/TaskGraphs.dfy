/**
 Task graphs (sifter/src/aa_sifter/tasks/graph.py): the two status sweeps, the
 descendants of a task and the depth-first order.
 */
module TaskGraphs {
  import opened Lex
  import opened Outcomes
  import opened DependencyGraph

  datatype Status = Pending | Ready | Running | BlockedApproval | BlockedDependency | Done | Failed | Skipped

  type Statuses = map<string, Status>

  predicate Terminal(s: Status) {
    s.Done? || s.Failed? || s.Skipped?
  }

  /** Not yet given to a worker and not given up. */
  predicate Undecided(s: Status) {
    s.Pending? || s.Ready?
  }

  predicate Bad(s: Status) {
    s.Failed? || s.Skipped?
  }

  predicate SomeBad(st: Statuses, deps: seq<string>) {
    exists d :: d in deps && d in st && Bad(st[d])
  }

  predicate AllDone(st: Statuses, deps: seq<string>) {
    forall d :: d in deps ==> d in st && st[d].Done?
  }

  /** Insertion order, dependencies and statuses belong together. */
  ghost predicate Fits(g: Graph, order: seq<string>, st: Statuses) {
    Distinct(order) && Elems(order) == g.Keys && st.Keys == g.Keys
  }

  // ----- ready_tasks

  function ReadyVisit(g: Graph, st: Statuses, t: string): (r: Statuses)
    requires t in g && t in st
    ensures r.Keys == st.Keys
  {
    if !Undecided(st[t]) then st
    else if SomeBad(st, g[t]) then st[t := Skipped]
    else if !AllDone(st, g[t]) then st
    else st[t := Ready]
  }

  /** One pass in insertion order; a skip counts for the tasks after it. */
  function ReadySweep(g: Graph, order: seq<string>, st: Statuses): (r: Statuses)
    requires forall t :: t in order ==> t in g && t in st
    ensures r.Keys == st.Keys
  {
    if order == [] then st
    else ReadyVisit(g, ReadySweep(g, order[..|order| - 1], st), order[|order| - 1])
  }

  function ReadyList(g: Graph, order: seq<string>, st: Statuses): seq<string>
    requires forall t :: t in order ==> t in g && t in st
  {
    if order == [] then []
    else
      var init, t := order[..|order| - 1], order[|order| - 1];
      var before := ReadySweep(g, init, st);
      var picked := ReadyList(g, init, st);
      if Undecided(before[t]) && !SomeBad(before, g[t]) && AllDone(before, g[t]) then picked + [t] else picked
  }

  // ----- invalidate_dependencies

  function InvalidateVisit(g: Graph, st: Statuses, t: string): (r: Statuses)
    requires t in g && t in st
    ensures r.Keys == st.Keys
  {
    if st[t].Pending? && SomeBad(st, g[t]) then st[t := Skipped] else st
  }

  function InvalidateSweep(g: Graph, order: seq<string>, st: Statuses): (r: Statuses)
    requires forall t :: t in order ==> t in g && t in st
    ensures r.Keys == st.Keys
  {
    if order == [] then st
    else InvalidateVisit(g, InvalidateSweep(g, order[..|order| - 1], st), order[|order| - 1])
  }

  // ----- what the sweeps do

  /** Decided tasks keep their status and nobody becomes done. */
  ghost predicate Quiet(st: Statuses, after: Statuses) {
    && after.Keys == st.Keys
    && forall d :: d in st ==> (!Undecided(st[d]) ==> after[d] == st[d]) && (after[d].Done? ==> st[d].Done?)
  }

  lemma QuietTransitive(a: Statuses, b: Statuses, c: Statuses)
    requires Quiet(a, b) && Quiet(b, c)
    ensures Quiet(a, c)
  {
  }

  lemma QuietKeeps(st: Statuses, after: Statuses, deps: seq<string>)
    requires Quiet(st, after)
    ensures AllDone(after, deps) <==> AllDone(st, deps)
    ensures SomeBad(st, deps) ==> SomeBad(after, deps)
  {
  }

  /** What ready_tasks did about one task: keep a decided one, skip it for a bad
      dependency, offer it because all its dependencies are done, or let it wait. */
  ghost predicate Triaged(g: Graph, st: Statuses, after: Statuses, ready: seq<string>, t: string)
    requires t in g && t in st && t in after
  {
    if !Undecided(st[t]) then after[t] == st[t] && t !in ready
    else if t in ready then after[t].Ready? && AllDone(after, g[t])
    else if after[t].Skipped? then SomeBad(after, g[t])
    else after[t] == st[t] && !AllDone(after, g[t])
  }

  /** One visit of the sweep, seen from any task. */
  lemma VisitTriages(g: Graph, st: Statuses, before: Statuses, ready: seq<string>, t: string, other: string)
    requires t in g && t in before && other in g && other in before && Quiet(st, before)
    requires t != other ==> Triaged(g, st, before, ready, other)
    requires t == other ==> before[t] == st[t] && t !in ready
    ensures var after := ReadyVisit(g, before, t);
            var picked := if Undecided(before[t]) && !SomeBad(before, g[t]) && AllDone(before, g[t]) then ready + [t]
                else ready;
            Quiet(st, after) && Triaged(g, st, after, picked, other)
  {
    var after := ReadyVisit(g, before, t);
    VisitQuiet(g, before, t);
    QuietTransitive(st, before, after);
    QuietKeeps(before, after, g[other]);
  }

  lemma VisitQuiet(g: Graph, st: Statuses, t: string)
    requires t in g && t in st
    ensures Quiet(st, ReadyVisit(g, st, t))
  {
  }

  lemma {:induction false} ReadySweepTriages(g: Graph, order: seq<string>, st: Statuses, t: string)
    requires st.Keys == g.Keys && Distinct(order) && Elems(order) <= g.Keys && t in g
    requires forall x :: x in order ==> x in g && x in st
    ensures Quiet(st, ReadySweep(g, order, st))
    ensures t in order ==> Triaged(g, st, ReadySweep(g, order, st), ReadyList(g, order, st), t)
    ensures t !in order ==> ReadySweep(g, order, st)[t] == st[t] && t !in ReadyList(g, order, st)
    decreases |order|
  {
    if order != [] {
      var init, last := order[..|order| - 1], order[|order| - 1];
      assert order == init + [last];
      assert last !in init;
      assert Elems(init) <= Elems(order);
      ReadySweepTriages(g, init, st, t);
      var before, ready := ReadySweep(g, init, st), ReadyList(g, init, st);
      hide *;
      SweepLast(g, init, last, st);
      if t == last || t in init {
        VisitTriages(g, st, before, ready, last, t);
      } else {
        VisitElsewhere(g, before, last, t);
        VisitQuiet(g, before, last);
        QuietTransitive(st, before, ReadyVisit(g, before, last));
      }
    }
  }

  lemma VisitElsewhere(g: Graph, st: Statuses, t: string, other: string)
    requires t in g && t in st && other in st && t != other
    ensures ReadyVisit(g, st, t)[other] == st[other]
  {
  }

  /** The sweep over one task more. */
  lemma SweepLast(g: Graph, init: seq<string>, t: string, st: Statuses)
    requires forall x :: x in init + [t] ==> x in g && x in st
    ensures var before := ReadySweep(g, init, st);
            && ReadySweep(g, init + [t], st) == ReadyVisit(g, before, t)
            && ReadyList(g, init + [t], st) ==
                 if Undecided(before[t]) && !SomeBad(before, g[t]) && AllDone(before, g[t])
                 then ReadyList(g, init, st) + [t] else ReadyList(g, init, st)
  {
    assert (init + [t])[..|init|] == init;
  }

  lemma {:induction false} ReadyListDistinct(g: Graph, order: seq<string>, st: Statuses)
    requires Distinct(order)
    requires forall x :: x in order ==> x in g && x in st
    ensures Distinct(ReadyList(g, order, st)) && Elems(ReadyList(g, order, st)) <= Elems(order)
  {
    if order != [] {
      var init := order[..|order| - 1];
      assert order == init + [order[|order| - 1]];
      ReadyListDistinct(g, init, st);
      assert Elems(order) == Elems(init) + {order[|order| - 1]};
      assert order[|order| - 1] !in Elems(init);
    }
  }

  lemma {:induction false} InvalidateSkips(g: Graph, order: seq<string>, st: Statuses, t: string)
    requires forall x :: x in order ==> x in g && x in st
    requires t in g && t in st
    ensures var after := InvalidateSweep(g, order, st);
            && Quiet(st, after)
            && (after[t] == st[t] || (st[t].Pending? && after[t].Skipped? && SomeBad(after, g[t])))
  {
    if order != [] {
      var init, last := order[..|order| - 1], order[|order| - 1];
      InvalidateSkips(g, init, st, t);
      var before := InvalidateSweep(g, init, st);
      var after := InvalidateVisit(g, before, last);
      assert Quiet(before, after);
      QuietTransitive(st, before, after);
      QuietKeeps(before, after, g[t]);
      QuietKeeps(before, after, g[last]);
    }
  }

  // ----- dependency-ordered insertion

  /** Every task is inserted after the tasks it depends on. */
  ghost predicate DependencyOrdered(g: Graph, order: seq<string>) {
    forall i :: 0 <= i < |order| ==> order[i] in g && Elems(g[order[i]]) <= Elems(order[..i])
  }

  /** In dependency order one sweep carries a skip all the way. */
  lemma {:induction false} SweepLeavesNoneBehind(g: Graph, order: seq<string>, st: Statuses, t: string)
    requires st.Keys == g.Keys && Distinct(order) && Elems(order) <= g.Keys && DependencyOrdered(g, order) && t in order
    requires forall x :: x in order ==> x in g && x in st
    ensures Undecided(ReadySweep(g, order, st)[t]) ==> !SomeBad(ReadySweep(g, order, st), g[t])
    decreases |order|
  {
    var init, last := order[..|order| - 1], order[|order| - 1];
    assert order == init + [last] && last !in init;
    OrderedInit(g, order);
    ReadySweepTriages(g, init, st, last);
    SweepLast(g, init, last, st);
    if t != last {
      assert t in init;
      DepsBefore(g, init, t);
      SweepLeavesNoneBehind(g, init, st, t);
    }
    var before := ReadySweep(g, init, st);
    hide *;
    VisitLeavesNone(g, init, last, before, t);
  }

  /** A visit leaves the tasks before it, and its own, behind nothing bad. */
  lemma VisitLeavesNone(g: Graph, init: seq<string>, last: string, before: Statuses, t: string)
    requires last in g && last in before && t in g && t in before && last !in init && Elems(g[t]) <= Elems(init)
    requires t != last && Undecided(before[t]) ==> !SomeBad(before, g[t])
    ensures Undecided(ReadyVisit(g, before, last)[t]) ==> !SomeBad(ReadyVisit(g, before, last), g[t])
  {
    OthersUnchanged(g, before, last);
    NotAmong(g[t], init, last);
    SameForDeps(before, ReadyVisit(g, before, last), g[t], last);
    hide SomeBad, AllDone;
  }

  lemma NotAmong(deps: seq<string>, init: seq<string>, last: string)
    requires Elems(deps) <= Elems(init) && last !in init
    ensures last !in deps
  {
    assert forall d :: d in deps ==> d in Elems(init);
  }

  lemma OrderedInit(g: Graph, order: seq<string>)
    requires order != [] && DependencyOrdered(g, order) && Distinct(order)
    ensures DependencyOrdered(g, order[..|order| - 1]) && Distinct(order[..|order| - 1])
    ensures Elems(g[order[|order| - 1]]) <= Elems(order[..|order| - 1])
    ensures Elems(order[..|order| - 1]) <= Elems(order)
  {
    var init := order[..|order| - 1];
    forall i | 0 <= i < |init| ensures init[i] in g && Elems(g[init[i]]) <= Elems(init[..i]) {
      assert init[..i] == order[..i] && init[i] == order[i];
    }
  }

  lemma DepsBefore(g: Graph, order: seq<string>, t: string)
    requires DependencyOrdered(g, order) && t in order
    ensures t in g && Elems(g[t]) <= Elems(order)
  {
    var i :| 0 <= i < |order| && order[i] == t;
    assert Elems(order[..i]) <= Elems(order);
  }

  lemma OthersUnchanged(g: Graph, st: Statuses, t: string)
    requires t in g && t in st
    ensures forall d :: d in st && d != t ==> ReadyVisit(g, st, t)[d] == st[d]
  {
  }

  lemma SameForDeps(a: Statuses, b: Statuses, deps: seq<string>, except: string)
    requires a.Keys == b.Keys && except !in deps
    requires forall d :: d in a && d != except ==> b[d] == a[d]
    ensures SomeBad(a, deps) <==> SomeBad(b, deps)
    ensures AllDone(a, deps) <==> AllDone(b, deps)
  {
  }

  // ----- depth-first order

  datatype OrderError = Cycle | MissingTask

  /** Tasks placed so far come after everything they depend on. */
  ghost predicate Placed(g: Graph, ordered: seq<string>) {
    Distinct(ordered) && DependencyOrdered(g, ordered)
  }

  /** The tasks being visited: each depends on the next, the last one on t. */
  ghost predicate Path(g: Graph, path: seq<string>, temp: set<string>, t: string) {
    IsWalk(g, path) && Elems(path) == temp && (path != [] ==> t in g[path[|path| - 1]])
  }

  lemma PathCloses(g: Graph, path: seq<string>, temp: set<string>, t: string)
    requires Path(g, path, temp, t) && t in temp
    ensures exists c :: IsCycle(g, c)
  {
    var i :| 0 <= i < |path| && path[i] == t;
    var c := path[i..];
    assert c[|c| - 1] == path[|path| - 1] && c[0] == t;
    forall j | 0 <= j < |c| - 1 ensures c[j + 1] in g[c[j]] {
      assert c[j + 1] == path[i + j + 1] && c[j] == path[i + j];
    }
    assert IsCycle(g, c);
  }

  lemma PathExtends(g: Graph, path: seq<string>, temp: set<string>, t: string, d: string)
    requires Path(g, path, temp, t) && t in g && d in g[t]
    ensures Path(g, path + [t], temp + {t}, d)
  {
    var longer := path + [t];
    forall j | 0 <= j < |longer| - 1 ensures longer[j + 1] in g[longer[j]] {
      assert longer[j] == path[j];
    }
  }

  lemma PlaceOne(g: Graph, ordered: seq<string>, t: string)
    requires Placed(g, ordered) && t in g && t !in ordered && Elems(g[t]) <= Elems(ordered)
    ensures Placed(g, ordered + [t]) && Elems(ordered + [t]) == Elems(ordered) + {t}
  {
    var longer := ordered + [t];
    forall i | 0 <= i < |longer| ensures longer[i] in g && Elems(g[longer[i]]) <= Elems(longer[..i]) {
      assert longer[..i] == ordered[..i];
      if i < |ordered| { assert longer[i] == ordered[i]; } else { assert ordered[..i] == ordered; }
    }
  }

  /** visit(t): places t after its dependencies, or finds the cycle it is on.
      Tasks already on the path are never placed underneath it. */
  method Visit(g: Graph, t: string, visited0: set<string>, temp: set<string>, ordered0: seq<string>,
      ghost path: seq<string>)
    returns (r: Result<(set<string>, seq<string>), OrderError>)
    requires Placed(g, ordered0) && Elems(ordered0) == visited0 && visited0 !! temp && temp <= g.Keys
    requires Path(g, path, temp, t)
    ensures r.Ok? ==>
            Placed(g, r.value.1) && Elems(r.value.1) == r.value.0 && visited0 + {t} <= r.value.0 && r.value.0 !! temp
    ensures r == Err(Cycle) ==> exists c :: IsCycle(g, c)
    ensures r == Err(MissingTask) ==> t !in g || !Closed(g)
    decreases |g.Keys - temp|
  {
    hide Placed, Path, IsCycle, Closed, IsWalk;
    if t in visited0 {
      return Ok((visited0, ordered0));
    }
    if t in temp {
      PathCloses(g, path, temp, t);
      return Err(Cycle);
    }
    if t !in g {
      return Err(MissingTask);
    }
    ClosedMeans(g, t);
    var visited, ordered := visited0, ordered0;
    var deps := g[t];
    SmallerRest(g.Keys, temp, t);
    for i := 0 to |deps|
      invariant Placed(g, ordered) && Elems(ordered) == visited && visited !! temp + {t}
      invariant visited0 <= visited && Elems(deps[..i]) <= visited
    {
      PathExtends(g, path, temp, t, deps[i]);
      var sub := Visit(g, deps[i], visited, temp + {t}, ordered, path + [t]);
      if sub.Err? {
        return sub;
      }
      visited, ordered := sub.value.0, sub.value.1;
      assert deps[..i + 1] == deps[..i] + [deps[i]];
    }
    assert deps[..|deps|] == deps;
    PlaceOne(g, ordered, t);
    return Ok((visited + {t}, ordered + [t]));
  }

  lemma ClosedMeans(g: Graph, t: string)
    requires t in g
    ensures forall d :: d in g[t] && d !in g ==> !Closed(g)
  {
    forall d | d in g[t] && d !in g ensures !Closed(g) {
      assert d in Elems(g[t]);
    }
  }

  lemma SmallerRest<T>(all: set<T>, temp: set<T>, t: T)
    requires t in all && t !in temp
    ensures |all - (temp + {t})| < |all - temp|
  {
    assert all - temp == (all - (temp + {t})) + {t};
  }

  /** topological_order: an order exactly when every dependency names a task and
      there is no cycle. */
  method TopologicalOrder(g: Graph, order: seq<string>) returns (r: Result<seq<string>, OrderError>)
    requires Elems(order) == g.Keys
    ensures r.Ok? <==> Closed(g) && Acyclic(g)
    ensures r.Ok? ==> IsTopological(g, r.value)
    ensures r == Err(Cycle) ==> !Acyclic(g)
    ensures r == Err(MissingTask) ==> !Closed(g)
  {
    var visited: set<string>, ordered: seq<string> := {}, [];
    for i := 0 to |order|
      invariant Placed(g, ordered) && Elems(ordered) == visited && Elems(order[..i]) <= visited
    {
      assert order[i] in Elems(order);
      var sub := Visit(g, order[i], visited, {}, ordered, []);
      if sub.Err? {
        match sub.error {
          case Cycle =>
            assert !Acyclic(g);
            return Err(Cycle);
          case MissingTask =>
            return Err(MissingTask);
        }
      }
      visited, ordered := sub.value.0, sub.value.1;
      assert order[..i + 1] == order[..i] + [order[i]];
    }
    assert order[..|order|] == order;
    PlacedIsTopological(g, ordered);
    return Ok(ordered);
  }

  lemma PlacedIsTopological(g: Graph, ordered: seq<string>)
    requires Placed(g, ordered) && g.Keys <= Elems(ordered)
    ensures IsTopological(g, ordered) && Closed(g) && Acyclic(g)
  {
    forall x | x in ordered ensures x in g {
      var i :| 0 <= i < |ordered| && ordered[i] == x;
    }
    forall n | n in g ensures Elems(g[n]) <= g.Keys {
      assert n in Elems(ordered);
      DepsBefore(g, ordered, n);
    }
    TopologicalAcyclic(g, ordered);
  }

  // ----- descendants

  /** t reaches target along one or more dependencies. */
  ghost predicate DependsOn(g: Graph, t: string, target: string) {
    exists p :: Chain(g, p, t, target)
  }

  ghost predicate Chain(g: Graph, p: seq<string>, t: string, target: string) {
    |p| > 0 && IsWalk(g, p) && p[0] == t && target in g[p[|p| - 1]]
  }

  lemma DirectlyDepends(g: Graph, t: string, target: string)
    requires t in g && target in g[t]
    ensures DependsOn(g, t, target)
  {
    assert Chain(g, [t], t, target);
  }

  lemma DependsThrough(g: Graph, t: string, middle: string, target: string)
    requires t in g && middle in g[t] && DependsOn(g, middle, target)
    ensures DependsOn(g, t, target)
  {
    var p :| Chain(g, p, middle, target);
    var longer := [t] + p;
    forall i | 0 <= i < |longer| - 1 ensures longer[i + 1] in g[longer[i]] {
      if i > 0 { assert longer[i] == p[i - 1] && longer[i + 1] == p[i]; }
    }
    assert longer[|longer| - 1] == p[|p| - 1];
    assert Chain(g, longer, t, target);
  }

  /** Everything that depends on c is in seen. */
  ghost predicate Expanded(g: Graph, seen: set<string>, c: string) {
    forall t :: t in g && c in g[t] ==> t in seen
  }

  lemma {:induction false} ClosedSeenHasAll(g: Graph, seen: set<string>, target: string, p: seq<string>, t: string)
    requires Expanded(g, seen, target) && forall c :: c in seen ==> Expanded(g, seen, c)
    requires Chain(g, p, t, target)
    ensures t in seen
    decreases |p|
  {
    if |p| > 1 {
      var rest := p[1..];
      forall i | 0 <= i < |rest| - 1 ensures rest[i + 1] in g[rest[i]] {
        assert rest[i] == p[i + 1] && rest[i + 1] == p[i + 2];
      }
      assert rest[|rest| - 1] == p[|p| - 1];
      ClosedSeenHasAll(g, seen, target, rest, rest[0]);
      assert rest[0] in g[t];
    }
  }

  ghost predicate Exploring(g: Graph, target: string, seen: set<string>, stack: seq<string>) {
    && (forall t :: t in seen ==> t in g && DependsOn(g, t, target))
    && (forall c :: c in stack ==> c == target || c in seen)
    && (forall c :: (c == target || c in seen) && c !in stack ==> Expanded(g, seen, c))
  }

  /** descendants: the tasks that reach the given one by a non-empty path of
      dependencies, itself included when it is on a cycle. */
  method Descendants(g: Graph, order: seq<string>, target: string) returns (seen: set<string>)
    requires Elems(order) == g.Keys
    ensures forall t :: t in seen <==> DependsOn(g, t, target)
  {
    seen := {};
    var stack := [target];
    while stack != []
      invariant Exploring(g, target, seen, stack)
      decreases |g.Keys - seen|, |stack|
    {
      ghost var seen0 := seen;
      var current := stack[|stack| - 1];
      assert current in stack;
      seen, stack := Expand(g, order, target, current, seen, stack[..|stack| - 1]);
    }
    forall t | DependsOn(g, t, target) ensures t in seen {
      var p :| Chain(g, p, t, target);
      ClosedSeenHasAll(g, seen, target, p, t);
    }
  }

  /** The loop over all tasks for one popped task. */
  method Expand(g: Graph, order: seq<string>, ghost target: string, current: string, seen0: set<string>,
      stack0: seq<string>)
    returns (seen: set<string>, stack: seq<string>)
    requires Elems(order) == g.Keys && Exploring(g, target, seen0, stack0 + [current])
    ensures Exploring(g, target, seen, stack)
    ensures |g.Keys - seen| < |g.Keys - seen0| || (seen == seen0 && stack == stack0)
  {
    seen, stack := seen0, stack0;
    assert current in stack0 + [current];
    for i := 0 to |order|
      invariant seen0 <= seen <= g.Keys && (seen == seen0 ==> stack == stack0)
      invariant Growing(g, target, current, seen0, stack0, seen, stack)
      invariant forall t :: t in order[..i] && current in g[t] ==> t in seen
    {
      var t := order[i];
      assert t in Elems(order);
      if current in g[t] && t !in seen {
        Reaches(g, target, current, t, seen0);
        seen := seen + {t};
        stack := stack + [t];
      }
      assert order[..i + 1] == order[..i] + [t];
    }
    assert order[..|order|] == order;
    FullyExpanded(g, target, current, seen0, stack0, seen, stack, order);
    if seen != seen0 {
      SmallerSet(g.Keys, seen0, seen);
    }
  }

  ghost predicate Growing(g: Graph, target: string, current: string, seen0: set<string>, stack0: seq<string>,
      seen: set<string>, stack: seq<string>) {
    && (forall t :: t in seen ==> t in g && DependsOn(g, t, target))
    && (forall c :: c in stack ==> c == target || c in seen)
    && (forall c :: c in stack0 ==> c in stack)
    && (forall c :: c in seen && c !in seen0 ==> c in stack)
  }

  lemma Reaches(g: Graph, target: string, current: string, t: string, seen0: set<string>)
    requires t in g && current in g[t]
    requires current == target || DependsOn(g, current, target)
    ensures DependsOn(g, t, target)
  {
    if current == target {
      DirectlyDepends(g, t, target);
    } else {
      DependsThrough(g, t, current, target);
    }
  }

  lemma FullyExpanded(g: Graph, target: string, current: string, seen0: set<string>, stack0: seq<string>,
      seen: set<string>, stack: seq<string>, order: seq<string>)
    requires Elems(order) == g.Keys && Exploring(g, target, seen0, stack0 + [current])
    requires seen0 <= seen && Growing(g, target, current, seen0, stack0, seen, stack)
    requires forall t :: t in order && current in g[t] ==> t in seen
    ensures Exploring(g, target, seen, stack)
  {
    forall c | (c == target || c in seen) && c !in stack ensures Expanded(g, seen, c) {
      if c == current {
        forall t | t in g && c in g[t] ensures t in seen { assert t in Elems(order); }
      } else {
        assert c !in stack0 + [current];
        assert Expanded(g, seen0, c);
      }
    }
  }

  lemma SmallerSet<T>(all: set<T>, a: set<T>, b: set<T>)
    requires a < b <= all
    ensures |all - b| < |all - a|
  {
    var x :| x in b && x !in a;
    SubsetSize(all - b, all - a - {x});
    assert all - a == (all - a - {x}) + {x};
  }
}
