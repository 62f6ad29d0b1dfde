/**
 The workflow compiler: structural checks, then a deterministic topological
 plan (toolbox/workflow/compile.go).
 */
module WorkflowCompiler {
  import opened Lex
  import opened Outcomes
  import opened DependencyGraph
  import opened Contracts

  /** Step kinds; UnknownKind stands for every string the contract rejects. */
  datatype StepKind = Task | Tool | Gate | HumanApproval | Parallel | Conditional | UnknownKind(text: string)

  /** Failure policies; Unset is the empty string, UnknownPolicy a rejected one. */
  datatype FailurePolicy = Unset | Fail | Retry | Skip | Compensate | UnknownPolicy(text: string)

  datatype Step = Step(
    id: string,
    kind: StepKind,
    toolId: string,
    dependsOn: seq<string>,
    retries: Option<int>,
    gates: seq<string>,
    onFailure: FailurePolicy)

  /** headerValid: the shared envelope passes its own contract. */
  datatype Workflow = Workflow(id: string, headerValid: bool, version: string, steps: seq<Step>)

  datatype Plan = Plan(
    workflowId: string,
    version: string,
    order: seq<string>,
    steps: map<string, Step>,
    dependsOn: Graph)

  datatype CompileError = Invalid | Cyclic

  function Ids(steps: seq<Step>): seq<string> {
    seq(|steps|, i requires 0 <= i < |steps| => steps[i].id)
  }

  /** The workflow contract. */
  predicate MeetsContract(w: Workflow) {
    && w.headerValid
    && w.version != ""
    && w.steps != []
    && Distinct(Ids(w.steps))
    && forall s :: s in w.steps ==>
         IsIdentifier(s.id) && !s.kind.UnknownKind? && !s.onFailure.UnknownPolicy?
  }

  /** What the compiler asks of one step beyond the contract. */
  predicate StepAcceptable(w: Workflow, s: Step) {
    && (s.kind.Tool? ==> s.toolId != "")
    && (s.kind.Gate? ==> s.gates != [])
    && (s.retries.Some? ==> s.retries.value >= 0)
    && s.id !in s.dependsOn
    && forall d :: d in s.dependsOn ==> d in Ids(w.steps)
  }

  predicate StructureAcceptable(w: Workflow) {
    MeetsContract(w) && forall s :: s in w.steps ==> StepAcceptable(w, s)
  }

  /** What is asked of the step at position i, said of its own fields. */
  predicate StepFits(w: Workflow, i: nat)
    requires i < |w.steps|
  {
    var s := w.steps[i];
    && IsIdentifier(s.id) && s.kind in {Task, Tool, Gate, HumanApproval, Parallel, Conditional}
    && s.onFailure in {Unset, Fail, Retry, Skip, Compensate}
    && (s.kind == Tool ==> s.toolId != "") && (s.kind == Gate ==> |s.gates| > 0)
    && (s.retries == None || s.retries.value >= 0)
    && forall k :: 0 <= k < |s.dependsOn| ==> s.dependsOn[k] != s.id && Names(w, s.dependsOn[k])
  }

  predicate Names(w: Workflow, id: string) {
    exists j :: 0 <= j < |w.steps| && w.steps[j].id == id
  }

  /** When the structure of a workflow is accepted. */
  lemma StructureExactly(w: Workflow)
    ensures StructureAcceptable(w) <==>
              && w.headerValid && w.version != "" && |w.steps| > 0
              && (forall i, j :: 0 <= i < j < |w.steps| ==> w.steps[i].id != w.steps[j].id)
              && forall i :: 0 <= i < |w.steps| ==> StepFits(w, i)
  {
    forall i | 0 <= i < |w.steps|
      ensures StepFits(w, i) <==>
                && IsIdentifier(w.steps[i].id) && !w.steps[i].kind.UnknownKind? && !w.steps[i].onFailure.UnknownPolicy?
                && StepAcceptable(w, w.steps[i])
    {
      StepFitsMeans(w, i);
    }
    assert forall i :: 0 <= i < |w.steps| ==> Ids(w.steps)[i] == w.steps[i].id && w.steps[i] in w.steps;
    hide StepFits, StepAcceptable, IsIdentifier;
  }

  lemma StepFitsMeans(w: Workflow, i: nat)
    requires i < |w.steps|
    ensures StepFits(w, i) <==>
              && IsIdentifier(w.steps[i].id) && !w.steps[i].kind.UnknownKind? && !w.steps[i].onFailure.UnknownPolicy?
              && StepAcceptable(w, w.steps[i])
  {
    hide IsIdentifier;
    forall id ensures id in Ids(w.steps) <==> Names(w, id) {
      if Names(w, id) {
        var j :| 0 <= j < |w.steps| && w.steps[j].id == id;
        assert Ids(w.steps)[j] == id;
      }
    }
    hide Names, Ids;
    var s := w.steps[i];
    assert forall k :: 0 <= k < |s.dependsOn| ==> s.dependsOn[k] in s.dependsOn;
  }

  /** The steps by identifier, a later one replacing an earlier one. */
  function StepMap(steps: seq<Step>): map<string, Step> {
    if steps == [] then map[]
    else
      var last := steps[|steps| - 1];
      StepMap(steps[..|steps| - 1])[last.id := last]
  }

  lemma StepMapFacts(steps: seq<Step>)
    ensures StepMap(steps).Keys == Elems(Ids(steps))
    ensures forall n :: n in StepMap(steps) ==> StepMap(steps)[n].id == n && StepMap(steps)[n] in steps
    ensures Distinct(Ids(steps)) ==> forall s :: s in steps ==> s.id in StepMap(steps) && StepMap(steps)[s.id] == s
  {
    StepMapNames(steps);
    if Distinct(Ids(steps)) {
      StepMapHolds(steps);
    }
    hide StepMap, Ids, Elems, Distinct;
  }

  lemma {:induction false} StepMapNames(steps: seq<Step>)
    ensures StepMap(steps).Keys == Elems(Ids(steps))
    ensures forall n :: n in StepMap(steps) ==> StepMap(steps)[n].id == n && StepMap(steps)[n] in steps
  {
    if steps != [] {
      var init, last := steps[..|steps| - 1], steps[|steps| - 1];
      StepMapNames(init);
      assert Ids(steps) == Ids(init) + [last.id];
      assert steps == init + [last];
    }
  }

  lemma {:induction false} StepMapHolds(steps: seq<Step>)
    requires Distinct(Ids(steps))
    ensures forall s :: s in steps ==> s.id in StepMap(steps) && StepMap(steps)[s.id] == s
  {
    if steps != [] {
      var init, last := steps[..|steps| - 1], steps[|steps| - 1];
      assert Distinct(Ids(init)) by {
        assert forall i :: 0 <= i < |init| ==> Ids(init)[i] == Ids(steps)[i];
      }
      StepMapHolds(init);
      assert steps == init + [last];
      forall s | s in init ensures s.id != last.id {
        var i :| 0 <= i < |init| && init[i] == s;
        assert Ids(steps)[i] == s.id && Ids(steps)[|init|] == last.id;
      }
      hide Ids, Distinct;
    }
  }

  /** The dependencies as the workflow declares them. */
  function Declared(w: Workflow): Graph {
    var steps := StepMap(w.steps);
    map n | n in steps :: steps[n].dependsOn
  }

  /** A plan says the same as its workflow: the steps themselves, their
      dependencies sorted and without repetition, and the least order that puts
      every dependency first. */
  ghost predicate PlanFor(w: Workflow, p: Plan) {
    && p.workflowId == w.id && p.version == w.version
    && p.steps == StepMap(w.steps)
    && p.dependsOn.Keys == p.steps.Keys
    && (forall n :: n in p.steps ==>
          && Elems(p.dependsOn[n]) == Elems(p.steps[n].dependsOn)
          && Sorted(p.dependsOn[n]) && Distinct(p.dependsOn[n]))
    && IsTopological(p.dependsOn, p.order)
    && (forall other :: IsTopological(p.dependsOn, other) ==> Precedes(p.order, other))
  }

  /** Kahn's sort over the compiled maps. The two map walks pick their keys in
      no particular order, as Go does; the outcome does not depend on it. */
  method TopoOrder(steps: map<string, Step>, depends: Graph) returns (r: Option<seq<string>>)
    requires steps.Keys == depends.Keys
    ensures SortOutcome(depends, r)
  {
    hide SortOutcome, Registered, Adds, IsGreedy, IsStuck, Sort, ReadyIs;
    var indegree: map<string, int> := map id | id in steps.Keys :: 0;
    var dependents: map<string, seq<string>> := map[];
    NoneRegistered(depends);
    assert depends.Keys - depends.Keys == {};
    var left := depends.Keys;
    while left != {}
      invariant left <= depends.Keys && indegree.Keys == depends.Keys
      invariant forall n :: n in depends.Keys - left ==> indegree[n] == |depends[n]|
      invariant Registered(depends, dependents, depends.Keys - left)
      decreases left
    {
      var id :| id in left;
      indegree := indegree[id := |depends[id]|];
      ghost var before := dependents;
      dependents := AddDependents(dependents, id, depends[id]);
      RegisterOne(depends, before, dependents, depends.Keys - left, id);
      assert depends.Keys - (left - {id}) == depends.Keys - left + {id};
      left := left - {id};
    }
    var ready: seq<string> := [];
    left := indegree.Keys;
    while left != {}
      invariant left <= indegree.Keys
      invariant Distinct(ready)
      invariant forall n :: n in ready <==> n in indegree.Keys - left && indegree[n] == 0
      decreases left
    {
      var id :| id in left;
      if indegree[id] == 0 {
        ready := ready + [id];
      }
      left := left - {id};
    }
    assert depends.Keys - {} == depends.Keys;
    RegisteredAll(depends, dependents);
    FirstRound(depends, indegree, ready);
    var order := Drain(depends, indegree, dependents, Sort(ready));
    GreedyOutcome(depends, order);
    if |order| != |steps.Keys| {
      return None;
    }
    return Some(order);
  }

  /** One step's dependency list without repetition; None when an entry is the
      step itself or unknown. */
  method CollectDependencies(s: Step, steps: map<string, Step>) returns (r: Option<seq<string>>)
    ensures r.Some? <==> s.id !in s.dependsOn && forall d :: d in s.dependsOn ==> d in steps
    ensures r.Some? ==> Distinct(r.value) && Elems(r.value) == Elems(s.dependsOn)
  {
    var deps: seq<string> := [];
    for j := 0 to |s.dependsOn|
      invariant s.id !in s.dependsOn[..j] && forall d :: d in s.dependsOn[..j] ==> d in steps
      invariant Distinct(deps) && Elems(deps) == Elems(s.dependsOn[..j])
    {
      var dep := s.dependsOn[j];
      assert s.dependsOn[..j + 1] == s.dependsOn[..j] + [dep];
      if dep == s.id || dep !in steps {
        assert dep in s.dependsOn;
        return None;
      }
      assert dep in deps <==> dep in Elems(deps);
      assert Elems(s.dependsOn[..j + 1]) == Elems(s.dependsOn[..j]) + {dep};
      if dep !in deps {
        assert Elems(deps + [dep]) == Elems(deps) + {dep};
        deps := deps + [dep];
      }
    }
    assert s.dependsOn[..|s.dependsOn|] == s.dependsOn;
    return Some(deps);
  }

  /** The per-step checks, in the order the compiler makes them. */
  method CompileStep(w: Workflow, s: Step, steps: map<string, Step>) returns (r: Option<seq<string>>)
    requires steps.Keys == Elems(Ids(w.steps))
    ensures r.Some? <==> StepAcceptable(w, s)
    ensures r.Some? ==> CompiledList(s.dependsOn, r.value)
  {
    assert forall d :: d in Ids(w.steps) <==> d in steps;
    if s.kind.Tool? && s.toolId == "" {
      return None;
    }
    if s.kind.Gate? && s.gates == [] {
      return None;
    }
    if s.retries.Some? && s.retries.value < 0 {
      return None;
    }
    var deps := CollectDependencies(s, steps);
    if deps.None? {
      return None;
    }
    SortFacts(deps.value);
    return Some(Sort(deps.value));
  }

  method CompileDependencies(w: Workflow, steps: map<string, Step>) returns (r: Option<Graph>)
    requires Distinct(Ids(w.steps)) && steps == StepMap(w.steps)
    ensures r.Some? <==> forall s :: s in w.steps ==> StepAcceptable(w, s)
    ensures r.Some? ==> CompiledGraph(w, r.value)
  {
    assert steps.Keys == Elems(Ids(w.steps)) by { StepMapFacts(w.steps); }
    var depends: Graph := map[];
    for i := 0 to |w.steps|
      invariant forall k :: 0 <= k < i ==> StepAcceptable(w, w.steps[k])
      invariant CompiledSoFar(w, depends, i)
    {
      var s := w.steps[i];
      var deps := CompileStep(w, s, steps);
      if deps.None? {
        assert s in w.steps;
        return None;
      }
      CompiledOneMore(w, depends, i, deps.value);
      depends := depends[s.id := deps.value];
    }
    CompiledAll(w, depends);
    return Some(depends);
  }

  /** The lists of the first i steps are in place. */
  ghost predicate CompiledSoFar(w: Workflow, depends: Graph, i: nat)
    requires i <= |w.steps|
  {
    && depends.Keys == Elems(Ids(w.steps[..i]))
    && forall k :: 0 <= k < i ==>
         w.steps[k].id in depends && CompiledList(w.steps[k].dependsOn, depends[w.steps[k].id])
  }

  lemma CompiledOneMore(w: Workflow, depends: Graph, i: nat, deps: seq<string>)
    requires Distinct(Ids(w.steps)) && i < |w.steps| && CompiledSoFar(w, depends, i)
    requires CompiledList(w.steps[i].dependsOn, deps)
    ensures CompiledSoFar(w, depends[w.steps[i].id := deps], i + 1)
  {
    forall k | 0 <= k < i ensures w.steps[k].id != w.steps[i].id {
      assert Ids(w.steps)[k] == w.steps[k].id && Ids(w.steps)[i] == w.steps[i].id;
    }
    assert Ids(w.steps[..i + 1]) == Ids(w.steps[..i]) + [w.steps[i].id];
    assert Elems(Ids(w.steps[..i + 1])) == Elems(Ids(w.steps[..i])) + {w.steps[i].id};
  }

  lemma CompiledAll(w: Workflow, depends: Graph)
    requires Distinct(Ids(w.steps)) && CompiledSoFar(w, depends, |w.steps|)
    ensures CompiledGraph(w, depends)
  {
    StepMapFacts(w.steps);
    assert w.steps[..|w.steps|] == w.steps;
    forall n | n in depends ensures CompiledList(StepMap(w.steps)[n].dependsOn, depends[n]) {
      var k :| 0 <= k < |w.steps| && w.steps[k] == StepMap(w.steps)[n];
    }
  }

  /** Compiles a workflow. It succeeds exactly when the structure is acceptable
      and the declared dependencies have no cycle; the error tells which of the
      two is missing. */
  method Compile(w: Workflow) returns (r: Result<Plan, CompileError>)
    ensures r.Ok? <==> StructureAcceptable(w) && Acyclic(Declared(w))
    ensures r == Err(Cyclic) <==> StructureAcceptable(w) && !Acyclic(Declared(w))
    ensures r.Ok? ==> PlanFor(w, r.value)
  {
    if !MeetsContract(w) {
      return Err(Invalid);
    }
    var steps: map<string, Step> := map[];
    for i := 0 to |w.steps|
      invariant steps == StepMap(w.steps[..i])
    {
      assert w.steps[..i + 1][..i] == w.steps[..i];
      steps := steps[w.steps[i].id := w.steps[i]];
    }
    assert w.steps[..|w.steps|] == w.steps;
    var depends := CompileDependencies(w, steps);
    if depends.None? {
      return Err(Invalid);
    }
    var order := TopoOrder(steps, depends.value);
    CompiledSameShape(w, depends.value);
    if order.None? {
      return Err(Cyclic);
    }
    return Ok(Plan(w.id, w.version, order.value, steps, depends.value));
  }

  ghost predicate CompiledList(declared: seq<string>, compiled: seq<string>) {
    Elems(compiled) == Elems(declared) && Sorted(compiled) && Distinct(compiled)
  }

  ghost predicate CompiledGraph(w: Workflow, depends: Graph) {
    && depends.Keys == StepMap(w.steps).Keys
    && forall n :: n in depends ==> CompiledList(StepMap(w.steps)[n].dependsOn, depends[n])
  }

  /** Sorting and removing repetitions keeps every dependency and every cycle. */
  lemma CompiledSameShape(w: Workflow, depends: Graph)
    requires StructureAcceptable(w)
    requires CompiledGraph(w, depends)
    ensures Closed(depends)
    ensures Acyclic(depends) <==> Acyclic(Declared(w))
  {
    StepMapFacts(w.steps);
    forall n | n in depends ensures Elems(depends[n]) <= depends.Keys {
      assert StepAcceptable(w, StepMap(w.steps)[n]);
      forall d | d in Elems(depends[n]) ensures d in depends.Keys {
        assert d in Elems(StepMap(w.steps)[n].dependsOn);
        assert d in Elems(Ids(w.steps));
      }
    }
    SameCycles(depends, Declared(w));
  }

  lemma SameCycles(g: Graph, h: Graph)
    requires g.Keys == h.Keys && forall n :: n in g ==> Elems(g[n]) == Elems(h[n])
    ensures Acyclic(g) <==> Acyclic(h)
  {
    forall n, d | n in g ensures d in g[n] <==> d in h[n] {
      assert d in Elems(g[n]) <==> d in Elems(h[n]);
    }
    forall p ensures IsCycle(g, p) <==> IsCycle(h, p) {}
  }
}
