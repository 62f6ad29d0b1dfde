/**
 Work packages and their dependency graph (kernel/plan/graph.go): insertion,
 validation, the deterministic order and dispatch readiness.
 */
module WorkPlan {
  import opened Lex
  import opened Outcomes
  import opened DependencyGraph

  /** OtherState is any further text a caller puts into a package. */
  datatype PackageState = Proposed | Ready | Running | Completed | Deficient | OtherState(name: string)

  predicate Undispatched(p: PackageState) {
    p.Proposed? || p.Ready?
  }

  /** state is None when the caller leaves it to default. */
  datatype WorkPackage = WorkPackage(id: string, dependsOn: seq<string>, state: Option<PackageState>)

  type States = map<string, PackageState>

  /** Not dispatched yet, and every dependency completed. */
  predicate IsReady(g: Graph, states: States, id: string) {
    && id in g && id in states
    && Undispatched(states[id])
    && forall d :: d in g[id] ==> d in states && states[d].Completed?
  }

  class WorkGraph {
    var depends: Graph
    var states: States
    var order: seq<string>

    ghost predicate Valid()
      reads this
    {
      depends.Keys == states.Keys == Elems(order) && Distinct(order) && "" !in depends
    }

    constructor ()
      ensures Valid() && depends == map[] && states == map[]
    {
      depends, states, order := map[], map[], [];
    }

    /** Refuses an empty or repeated identifier; the state defaults to PROPOSED. */
    method Add(wp: WorkPackage) returns (ok: bool)
      requires Valid()
      modifies this
      ensures Valid()
      ensures ok <==> wp.id != "" && wp.id !in old(states)
      ensures !ok ==> unchanged(this)
      ensures ok ==>
                && depends == old(depends)[wp.id := wp.dependsOn]
                && states == old(states)[wp.id := if wp.state.None? then Proposed else wp.state.value]
                && order == old(order) + [wp.id]
    {
      if wp.id == "" || wp.id in states {
        return false;
      }
      assert wp.id !in order by { assert wp.id !in Elems(order); }
      depends := depends[wp.id := wp.dependsOn];
      states := states[wp.id := if wp.state.None? then Proposed else wp.state.value];
      order := order + [wp.id];
      assert Elems(order) == old(Elems(order)) + {wp.id};
      return true;
    }

    /** Kahn's sort over the insertion order. Dependency lists are counted with
        repetitions, which changes nothing. */
    method Topological() returns (r: Option<seq<string>>)
      requires Valid()
      ensures SortOutcome(depends, r)
    {
      hide SortOutcome, Registered, IsGreedy, IsStuck, Sort, ReadyIs;
      var indegree, children := Register();
      var queue := FreeNodes(indegree);
      RegisteredAll(depends, children);
      FirstRound(depends, indegree, queue);
      var sorted := Drain(depends, indegree, children, Sort(queue));
      GreedyOutcome(depends, sorted);
      if |sorted| != |depends| {
        return None;
      }
      return Some(sorted);
    }

    /** Counts every dependency, and enters each node with those it depends on. */
    method Register() returns (indegree: map<string, int>, children: map<string, seq<string>>)
      requires Valid()
      ensures indegree.Keys == Elems(order)
      ensures forall n :: n in indegree ==> n in depends && indegree[n] == |depends[n]|
      ensures Registered(depends, children, depends.Keys)
    {
      hide Registered, Adds;
      indegree, children := map[], map[];
      NoneRegistered(depends);
      assert Elems(order[..0]) == {};
      for i := 0 to |order|
        invariant indegree.Keys == Elems(order[..i])
        invariant forall n :: n in indegree ==> n in depends && indegree[n] == |depends[n]|
        invariant Registered(depends, children, Elems(order[..i]))
      {
        var id := order[i];
        PrefixElems(order, i);
        assert id in Elems(order);
        indegree := indegree[id := |depends[id]|];
        ghost var before := children;
        children := AddDependents(children, id, depends[id]);
        RegisterOne(depends, before, children, Elems(order[..i]), id);
      }
      assert order[..|order|] == order;
    }

    /** The nodes without dependencies, in insertion order. */
    method FreeNodes(indegree: map<string, int>) returns (queue: seq<string>)
      requires Valid() && indegree.Keys == Elems(order)
      ensures Distinct(queue) && forall n :: n in queue <==> n in indegree && indegree[n] == 0
    {
      queue := [];
      for i := 0 to |order|
        invariant Distinct(queue)
        invariant forall n :: n in queue <==> n in order[..i] && n in indegree && indegree[n] == 0
      {
        assert order[i] in Elems(order);
        assert order[..i + 1] == order[..i] + [order[i]];
        if indegree[order[i]] == 0 {
          queue := queue + [order[i]];
        }
      }
      assert order[..|order|] == order;
      forall n | n in indegree ensures n in order { assert n in Elems(order); }
    }

    /** No dangling dependency, no self-dependency, no cycle. */
    method Validate() returns (ok: bool)
      requires Valid()
      ensures ok <==> Closed(depends) && Acyclic(depends)
    {
      for i := 0 to |order|
        invariant forall k :: 0 <= k < i ==> Elems(depends[order[k]]) <= depends.Keys
      {
        assert order[i] in Elems(order);
        var deps := depends[order[i]];
        for j := 0 to |deps|
          invariant forall d :: d in deps[..j] ==> d in depends
        {
          assert deps[..j + 1] == deps[..j] + [deps[j]];
          if deps[j] == order[i] {
            assert IsCycle(depends, [order[i]]);
            return false;
          }
          if deps[j] !in depends {
            assert deps[j] in Elems(deps);
            return false;
          }
        }
        assert deps[..|deps|] == deps;
      }
      forall n | n in depends ensures Elems(depends[n]) <= depends.Keys {
        assert n in Elems(order);
        var k :| 0 <= k < |order| && order[k] == n;
      }
      var sorted := Topological();
      return sorted.Some?;
    }

    method SetState(id: string, state: PackageState) returns (ok: bool)
      requires Valid()
      modifies this`states
      ensures Valid()
      ensures ok <==> id in old(states)
      ensures states == if ok then old(states)[id := state] else old(states)
    {
      if id !in states {
        return false;
      }
      states := states[id := state];
      return true;
    }

    /** The identifiers that may be dispatched, least first. */
    method ReadyPackages() returns (ready: seq<string>)
      requires Valid()
      ensures Sorted(ready) && Distinct(ready)
      ensures forall id :: id in ready <==> IsReady(depends, states, id)
    {
      ready := [];
      for i := 0 to |order|
        invariant Distinct(ready)
        invariant forall id :: id in ready <==> id in order[..i] && IsReady(depends, states, id)
      {
        var id := order[i];
        assert id in Elems(order);
        assert order[..i + 1] == order[..i] + [id];
        assert id !in order[..i];
        if !states[id].Proposed? && !states[id].Ready? {
          continue;
        }
        var blocked := false;
        var deps := depends[id];
        for j := 0 to |deps|
          invariant blocked <==> exists k :: 0 <= k < j && !(deps[k] in states && states[deps[k]].Completed?)
        {
          if deps[j] !in states || !states[deps[j]].Completed? {
            blocked := true;
            break;
          }
        }
        assert blocked <==> !IsReady(depends, states, id);
        if !blocked {
          ready := ready + [id];
        }
      }
      assert order[..|order|] == order;
      assert forall id :: id in depends <==> id in order by {
        assert forall id :: id in Elems(order) <==> id in order;
      }
      SortFacts(ready);
      var unsorted := ready;
      ready := Sort(ready);
      assert forall id :: id in ready <==> id in Elems(ready);
      assert forall id :: id in unsorted <==> id in Elems(unsorted);
    }
  }
}
