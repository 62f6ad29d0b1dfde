/**
 What every run of a compiled plan keeps, when a run can crash, and that
 stopping at gates and resuming is invisible in the final state.
 */
module WorkflowGuarantees {
  import opened Lex
  import opened Outcomes
  import opened DependencyGraph
  import opened WorkflowCompiler
  import opened WorkflowRuntime

  /** What a compiled plan offers the runtime. */
  ghost predicate PlanReady(plan: Plan) {
    && plan.steps.Keys == plan.dependsOn.Keys
    && (forall n :: n in plan.steps ==> plan.steps[n].id == n)
    && IsTopological(plan.dependsOn, plan.order)
  }

  lemma CompiledPlanReady(w: Workflow, plan: Plan)
    requires PlanFor(w, plan)
    ensures PlanReady(plan)
  {
    StepMapFacts(w.steps);
  }

  ghost predicate PrefixTerminal(plan: Plan, results: Results, k: nat)
    requires k <= |plan.order|
  {
    forall i :: 0 <= i < k ==> TerminalIn(results, plan.order[i])
  }

  /** b differs from a at most at id. */
  ghost predicate SameBut(a: Results, b: Results, id: string) {
    forall x :: x != id ==> (x in a <==> x in b) && (x in a ==> a[x] == b[x])
  }

  lemma OrderFacts(plan: Plan, k: nat)
    requires PlanReady(plan) && k < |plan.order|
    ensures plan.order[k] in plan.steps && plan.steps[plan.order[k]].id == plan.order[k]
    ensures forall d :: d in plan.dependsOn[plan.order[k]] ==> exists i :: 0 <= i < k && plan.order[i] == d
  {
    assert plan.order[k] in Elems(plan.order);
    forall d | d in plan.dependsOn[plan.order[k]] ensures exists i :: 0 <= i < k && plan.order[i] == d {
      assert d in Elems(plan.dependsOn[plan.order[k]]);
      var i :| 0 <= i < k && plan.order[..k][i] == d;
      assert plan.order[i] == d;
    }
  }

  // ----- one step

  /** Attempts a+1, ..., a+n of step id. */
  function AttemptLog(id: string, a: int, n: nat): seq<Call> {
    seq(n, i => Ran(id, a + 1 + i))
  }

  lemma {:induction false} TryFacts(run: (Step, int) -> Result<Output, string>, step: Step, a: int, max: int,
      lastErr: Option<string>)
    ensures var t := TryFrom(run, step, a, max, lastErr);
            && t.log == AttemptLog(step.id, a, |t.log|)
            && t.attempt == a + |t.log|
            && (|t.log| > 0 ==> t.attempt <= max)
            && (t.Exhausted? && a < max ==> t.attempt == max && t.lastErr.Some?)
            && (a >= max ==> t == Exhausted(a, lastErr, []))
    decreases max - a
  {
    if a < max && run(step, a + 1).Err? {
      TryFacts(run, step, a + 1, max, Some(run(step, a + 1).error));
    }
  }

  /** The calls one step makes: consecutive attempts after the recorded ones, at
      most retries+1 in all, then possibly one undo. */
  ghost predicate StepLogOk(id: string, a: int, max: int, log: seq<Call>) {
    exists n: nat :: (n > 0 ==> a + n <= max) &&
      (log == AttemptLog(id, a, n) || log == AttemptLog(id, a, n) + [Undone(id)])
  }

  ghost predicate StepEnd(plan: Plan, results: Results, id: string, end: End)
    requires id in plan.steps
  {
    && (TerminalIn(results, id) ==> end == Advance(results, []))
    && (end.Advance? ==> SameBut(results, end.results, id) && TerminalIn(end.results, id))
    && (end.Halt? ==>
        SameBut(results, end.results, id) && id in end.results && !end.results[id].Terminal() && end.error.step == id)
  }

  lemma PolicyFacts(runner: Option<Runner>, results: Results, step: Step)
    ensures var end := RunPolicy(runner, results, step);
            && (end.Advance? ==> SameBut(results, end.results, step.id) && TerminalIn(end.results, step.id))
            && (end.Halt? ==>
                  && SameBut(results, end.results, step.id)
                  && step.id in end.results && !end.results[step.id].Terminal()
                  && end.status == RunFailed && end.error.StepFailed? && end.error.step == step.id)
            && (end.Crash? ==> PriorOf(results, step.id).attempts >= MaxAttempts(step))
  {
    if runner.Some? {
      TryFacts(runner.value.run, step, PriorOf(results, step.id).attempts, MaxAttempts(step), None);
    }
  }

  lemma PolicyCalls(runner: Option<Runner>, results: Results, step: Step)
    ensures StepLogOk(step.id, PriorOf(results, step.id).attempts, MaxAttempts(step),
            RunPolicy(runner, results, step).log)
  {
    var a, max := PriorOf(results, step.id).attempts, MaxAttempts(step);
    if runner.None? {
      assert RunPolicy(runner, results, step).log == AttemptLog(step.id, a, 0);
    } else {
      TryFacts(runner.value.run, step, a, max, None);
      var t := TryFrom(runner.value.run, step, a, max, None);
      assert t.log + [] == t.log;
      assert t.log == AttemptLog(step.id, a, |t.log|);
    }
  }

  lemma StepFacts(runner: Option<Runner>, gates: Gates, plan: Plan, results: Results, id: string)
    requires id in plan.steps && plan.steps[id].id == id
    ensures StepEnd(plan, results, id, StepAt(runner, gates, plan, results, id))
  {
    hide RunPolicy;
    PolicyFacts(runner, results, plan.steps[id]);
  }

  lemma StepCalls(runner: Option<Runner>, gates: Gates, plan: Plan, results: Results, id: string)
    requires id in plan.steps && plan.steps[id].id == id
    ensures var log := StepAt(runner, gates, plan, results, id).log;
            && StepLogOk(id, PriorOf(results, id).attempts, MaxAttempts(plan.steps[id]), log)
            && (forall c :: c in log ==> c.step == id)
  {
    hide RunPolicy;
    PolicyCalls(runner, results, plan.steps[id]);
    assert AttemptLog(id, PriorOf(results, id).attempts, 0) == [];
  }

  // ----- a whole pass

  /** What a pass from position k keeps and reaches. */
  ghost predicate PassOk(plan: Plan, k: nat, results: Results, end: End)
    requires k <= |plan.order|
  {
    && (end.Advance? ==> PrefixTerminal(plan, end.results, |plan.order|))
    && (end.Halt? ==>
          && !end.error.DependenciesUnmet?
          && exists m :: k <= m < |plan.order| && end.error.step == plan.order[m]
               && plan.order[m] in end.results && !TerminalIn(end.results, plan.order[m])
               && PrefixTerminal(plan, end.results, m))
    && (!end.Crash? ==> forall x :: TerminalIn(results, x) ==> x in end.results && end.results[x] == results[x])
    && (forall c :: c in end.log ==> !TerminalIn(results, c.step))
  }

  /** The "dependencies not satisfied" exit is never taken: a pass only moves on
      from terminal steps, and the order puts dependencies first. */
  lemma {:induction false} PassFacts(runner: Option<Runner>, gates: Gates, plan: Plan, k: nat, results: Results)
    requires PlanReady(plan) && k <= |plan.order| && PrefixTerminal(plan, results, k)
    ensures PassOk(plan, k, results, RunFrom(runner, gates, plan, k, results))
    decreases |plan.order| - k
  {
    hide StepAt;
    if k < |plan.order| {
      var id := plan.order[k];
      OrderFacts(plan, k);
      DepsHold(plan, k, results);
      StepFacts(runner, gates, plan, results, id);
      StepCalls(runner, gates, plan, results, id);
      var end := StepAt(runner, gates, plan, results, id);
      if end.Advance? {
        PassFacts(runner, gates, plan, k + 1, end.results);
        PassStep(plan, k, results, end, RunFrom(runner, gates, plan, k + 1, end.results));
      } else {
        NotForDependencies(runner, gates, plan, k, results);
        PassStops(plan, k, results, end);
      }
    }
  }

  lemma NotForDependencies(runner: Option<Runner>, gates: Gates, plan: Plan, k: nat, results: Results)
    requires PlanReady(plan) && k < |plan.order| && plan.order[k] in plan.steps
    requires DepsSatisfied(plan, results, plan.order[k])
    ensures var end := StepAt(runner, gates, plan, results, plan.order[k]); end.Halt? ==> !end.error.DependenciesUnmet?
  {
    hide RunPolicy;
    PolicyFacts(runner, results, plan.steps[plan.order[k]]);
  }

  lemma PassStep(plan: Plan, k: nat, results: Results, end: End, rest: End)
    requires k < |plan.order| && plan.order[k] in plan.steps
    requires StepEnd(plan, results, plan.order[k], end) && end.Advance?
    requires forall c :: c in end.log ==> c.step == plan.order[k]
    requires PassOk(plan, k + 1, end.results, rest)
    ensures PassOk(plan, k, results, rest.After(end.log))
  {
    forall x | TerminalIn(results, x) ensures TerminalIn(end.results, x) && end.results[x] == results[x] {}
  }

  lemma PassStops(plan: Plan, k: nat, results: Results, end: End)
    requires k < |plan.order| && plan.order[k] in plan.steps && PrefixTerminal(plan, results, k)
    requires StepEnd(plan, results, plan.order[k], end) && !end.Advance?
    requires end.Halt? ==> !end.error.DependenciesUnmet?
    requires forall c :: c in end.log ==> c.step == plan.order[k]
    requires Distinct(plan.order)
    ensures PassOk(plan, k, results, end)
  {
    if end.Halt? {
      assert PrefixTerminal(plan, end.results, k);
    }
  }

  lemma DepsHold(plan: Plan, k: nat, results: Results)
    requires PlanReady(plan) && k < |plan.order| && PrefixTerminal(plan, results, k)
    ensures DepsSatisfied(plan, results, plan.order[k])
  {
    OrderFacts(plan, k);
  }

  ghost predicate AllTerminal(plan: Plan, results: Results) {
    forall id :: id in plan.steps ==> TerminalIn(results, id)
  }

  /** Every run, from whatever prior state: finished results come out as they
      went in and are not run again, no step is refused for its dependencies,
      and the run reports completion exactly when every step is terminal. */
  lemma RunGuarantees(runner: Option<Runner>, gates: Gates, plan: Plan, prior: Option<RunState>)
    requires PlanReady(plan)
    ensures var o := RunResult(runner, gates, plan, prior);
            var before := Start(plan, prior).results;
            && (o.Returned? ==>
                  && (o.state.status == RunComplete <==> AllTerminal(plan, o.state.results))
                  && (o.state.status == RunComplete <==> o.error.None?)
                  && (o.error.Some? ==> !o.error.value.DependenciesUnmet?)
                  && (forall x :: TerminalIn(before, x) ==> x in o.state.results && o.state.results[x] == before[x]))
            && (forall c :: c in o.log ==> !TerminalIn(before, c.step))
  {
    var before := Start(plan, prior).results;
    PassFacts(runner, gates, plan, 0, before);
    HaltStatus(runner, gates, plan, 0, before);
    var end := RunFrom(runner, gates, plan, 0, before);
    if end.Advance? {
      forall id | id in plan.steps ensures TerminalIn(end.results, id) {
        assert id in Elems(plan.order);
      }
    } else if end.Halt? {
      var m :| 0 <= m < |plan.order| && end.error.step == plan.order[m] && !TerminalIn(end.results, plan.order[m]);
      assert plan.order[m] in Elems(plan.order);
    }
  }

  lemma {:induction false} HaltStatus(runner: Option<Runner>, gates: Gates, plan: Plan, k: nat, results: Results)
    requires k <= |plan.order|
    ensures var end := RunFrom(runner, gates, plan, k, results); end.Halt? ==> end.status != RunComplete
    decreases |plan.order| - k
  {
    if k < |plan.order| {
      var end := StepAt(runner, gates, plan, results, plan.order[k]);
      if end.Advance? { HaltStatus(runner, gates, plan, k + 1, end.results); }
    }
  }

  // ----- the order of calls

  /** Calls follow the plan: no step is called once something depending on it
      has been, attempts continue the recorded count one by one and never pass
      retries+1, and nothing is called twice. */
  ghost predicate LogOk(plan: Plan, results: Results, log: seq<Call>) {
    && DependenciesFirst(plan, log)
    && Distinct(log)
    && forall i :: 0 <= i < |log| ==> AttemptOk(plan, results, log, i)
  }

  ghost predicate DependenciesFirst(plan: Plan, log: seq<Call>) {
    forall i, j :: 0 <= i < j < |log| && log[i].step in plan.dependsOn ==> log[j].step !in plan.dependsOn[log[i].step]
  }

  ghost predicate AttemptOk(plan: Plan, results: Results, log: seq<Call>, i: nat)
    requires i < |log|
  {
    && log[i].step in plan.steps
    && (log[i].Ran? ==>
          var recorded := PriorOf(results, log[i].step).attempts;
          && recorded < log[i].attempt <= MaxAttempts(plan.steps[log[i].step])
          && (log[i].attempt == recorded + 1 || (i > 0 && log[i - 1] == Ran(log[i].step, log[i].attempt - 1))))
  }

  ghost predicate LogWithin(plan: Plan, k: nat, log: seq<Call>)
    requires k <= |plan.order|
  {
    forall c :: c in log ==> c.step in plan.order[k..]
  }

  lemma StepLogIsOk(plan: Plan, k: nat, results: Results, log: seq<Call>)
    requires PlanReady(plan) && k < |plan.order|
    requires plan.order[k] in plan.steps
    requires StepLogOk(plan.order[k], PriorOf(results, plan.order[k]).attempts,
             MaxAttempts(plan.steps[plan.order[k]]), log)
    ensures LogOk(plan, results, log) && LogWithin(plan, k, log)
  {
    var id := plan.order[k];
    var a := PriorOf(results, id).attempts;
    assert plan.order[k..][0] == id;
    NotOwnDependency(plan, k, k);
    var n := StepLogShape(id, a, MaxAttempts(plan.steps[id]), log);
    hide PlanReady, MaxAttempts, PriorOf;
    forall i | 0 <= i < |log| ensures AttemptOk(plan, results, log, i) {}
  }

  lemma StepLogShape(id: string, a: int, max: int, log: seq<Call>) returns (n: nat)
    requires StepLogOk(id, a, max, log)
    ensures n <= |log| && (n > 0 ==> a + n <= max)
    ensures forall i :: 0 <= i < |log| ==> log[i] == if i < n then Ran(id, a + 1 + i) else Undone(id)
    ensures Distinct(log)
  {
    n :| (n > 0 ==> a + n <= max) && (log == AttemptLog(id, a, n) || log == AttemptLog(id, a, n) + [Undone(id)]);
  }

  lemma NotOwnDependency(plan: Plan, k: nat, m: nat)
    requires PlanReady(plan) && k <= m < |plan.order|
    ensures plan.order[m] in plan.dependsOn && plan.order[k] in plan.dependsOn
    ensures plan.order[m] !in plan.dependsOn[plan.order[k]]
  {
    assert plan.order[k] in Elems(plan.order) && plan.order[m] in Elems(plan.order);
    NotEarlier(plan.order, k, m);
    assert plan.order[m] !in Elems(plan.dependsOn[plan.order[k]]);
  }

  lemma LogJoin(plan: Plan, k: nat, results: Results, later: Results, log: seq<Call>, rest: seq<Call>)
    requires PlanReady(plan) && k < |plan.order|
    requires LogOk(plan, results, log) && forall c :: c in log ==> c.step == plan.order[k]
    requires LogOk(plan, later, rest) && LogWithin(plan, k + 1, rest)
    requires SameBut(results, later, plan.order[k])
    ensures LogOk(plan, results, log + rest) && LogWithin(plan, k, log + rest)
  {
    LaterCalls(plan, k, rest);
    assert plan.order[k..][0] == plan.order[k];
    JoinedOrder(plan, plan.order[k], log, rest);
    JoinedAttempts(plan, results, later, plan.order[k], log, rest);
    hide PlanReady, DependenciesFirst, AttemptOk, SameBut;
  }

  /** Calls of later positions are of other steps, none of which the step at k
      waits for. */
  lemma LaterCalls(plan: Plan, k: nat, rest: seq<Call>)
    requires PlanReady(plan) && k < |plan.order| && LogWithin(plan, k + 1, rest)
    ensures plan.order[k] in plan.dependsOn && LogWithin(plan, k, rest)
    ensures forall c :: c in rest ==> c.step != plan.order[k] && c.step !in plan.dependsOn[plan.order[k]]
  {
    NotOwnDependency(plan, k, k);
    forall c | c in rest
      ensures c.step != plan.order[k] && c.step in plan.order[k..] && c.step !in plan.dependsOn[plan.order[k]]
    {
      var m :| 0 <= m < |plan.order[k + 1..]| && plan.order[k + 1..][m] == c.step;
      assert plan.order[k + 1 + m] == c.step && plan.order[k..][m + 1] == c.step;
      NotOwnDependency(plan, k, k + 1 + m);
    }
  }

  lemma JoinedOrder(plan: Plan, id: string, log: seq<Call>, rest: seq<Call>)
    requires DependenciesFirst(plan, log) && DependenciesFirst(plan, rest) && id in plan.dependsOn
    requires forall c :: c in log ==> c.step == id
    requires forall c :: c in rest ==> c.step !in plan.dependsOn[id]
    ensures DependenciesFirst(plan, log + rest)
  {
    var whole := log + rest;
    forall i, j | 0 <= i < |log| <= j < |whole| ensures whole[i] in log && whole[j] in rest {}
    forall i | |log| <= i < |whole| ensures whole[i] == rest[i - |log|] {}
  }

  lemma JoinedAttempts(plan: Plan, results: Results, later: Results, id: string, log: seq<Call>, rest: seq<Call>)
    requires forall i :: 0 <= i < |log| ==> AttemptOk(plan, results, log, i)
    requires forall i :: 0 <= i < |rest| ==> AttemptOk(plan, later, rest, i)
    requires SameBut(results, later, id) && forall c :: c in rest ==> c.step != id
    ensures forall i :: 0 <= i < |log + rest| ==> AttemptOk(plan, results, log + rest, i)
  {
    var whole := log + rest;
    forall i | 0 <= i < |whole| ensures AttemptOk(plan, results, whole, i) {
      if i < |log| {
        assert AttemptOk(plan, results, log, i);
      } else {
        assert AttemptOk(plan, later, rest, i - |log|);
        assert rest[i - |log|] in rest;
        assert PriorOf(results, whole[i].step) == PriorOf(later, whole[i].step);
      }
    }
  }

  /** Nothing is called twice, and nothing a step depends on is called after it. */
  lemma {:induction false} RunnerCalls(runner: Option<Runner>, gates: Gates, plan: Plan, k: nat, results: Results)
    requires PlanReady(plan) && k <= |plan.order|
    ensures var log := RunFrom(runner, gates, plan, k, results).log;
            LogOk(plan, results, log) && LogWithin(plan, k, log)
    decreases |plan.order| - k
  {
    if k < |plan.order| {
      var id := plan.order[k];
      OrderFacts(plan, k);
      StepFacts(runner, gates, plan, results, id);
      StepCalls(runner, gates, plan, results, id);
      var end := StepAt(runner, gates, plan, results, id);
      StepLogIsOk(plan, k, results, end.log);
      if end.Advance? {
        RunnerCalls(runner, gates, plan, k + 1, end.results);
        LogJoin(plan, k, results, end.results, end.log, RunFrom(runner, gates, plan, k + 1, end.results).log);
      }
    }
  }

  // ----- what a call finds done

  /** The results when a pass from position k comes to position m, if it does. */
  ghost function Reaching(runner: Option<Runner>, gates: Gates, plan: Plan, k: nat, m: nat, results: Results)
    : Option<Results>
    requires k <= m <= |plan.order|
    decreases m - k
  {
    if k == m then Some(results)
    else
      var end := StepAt(runner, gates, plan, results, plan.order[k]);
      if end.Advance? then Reaching(runner, gates, plan, k + 1, m, end.results) else None
  }

  /** The call is one of those for the step at position m, and when the pass comes
      there all that the step depends on is terminal. */
  ghost predicate CalledAt(runner: Option<Runner>, gates: Gates, plan: Plan, k: nat, m: nat, results: Results, c: Call)
    requires k <= m < |plan.order|
  {
    var reached := Reaching(runner, gates, plan, k, m, results);
    && reached.Some? && plan.order[m] == c.step && c in StepAt(runner, gates, plan, reached.value, c.step).log
    && c.step in plan.dependsOn && forall d :: d in plan.dependsOn[c.step] ==> TerminalIn(reached.value, d)
  }

  /** Every call of the runner comes when all dependencies of its step are terminal. */
  lemma {:induction false} CallsAfterDependencies(runner: Option<Runner>, gates: Gates, plan: Plan, k: nat,
      results: Results, c: Call)
    requires PlanReady(plan) && k <= |plan.order| && c in RunFrom(runner, gates, plan, k, results).log
    ensures exists m :: k <= m < |plan.order| && CalledAt(runner, gates, plan, k, m, results, c)
    decreases |plan.order| - k
  {
    var id := plan.order[k];
    OrderFacts(plan, k);
    var end := StepAt(runner, gates, plan, results, id);
    if c in end.log {
      StepCalls(runner, gates, plan, results, id);
      LogMeansSatisfied(runner, gates, plan, results, id);
      hide StepAt, RunFrom;
      assert CalledAt(runner, gates, plan, k, k, results, c);
    } else {
      hide StepAt;
      CallsAfterDependencies(runner, gates, plan, k + 1, end.results, c);
      var m :| k + 1 <= m < |plan.order| && CalledAt(runner, gates, plan, k + 1, m, end.results, c);
      assert Reaching(runner, gates, plan, k, m, results) == Reaching(runner, gates, plan, k + 1, m, end.results);
      assert CalledAt(runner, gates, plan, k, m, results, c);
    }
  }

  lemma LogMeansSatisfied(runner: Option<Runner>, gates: Gates, plan: Plan, results: Results, id: string)
    ensures StepAt(runner, gates, plan, results, id).log != [] ==> DepsSatisfied(plan, results, id)
  {
    hide RunPolicy;
  }
}
