/**
 The resumable workflow runtime (toolbox/workflow/runtime.go): one pass over a
 plan with bounded retries, failure policies and gates, started from scratch or
 from the state an earlier run returned.

 The runner is a function of step and attempt. A run calls it at most once for
 each pair (WorkflowGuarantees.RunnerCalls), so every behaviour a runner can show within
 one run, however stateful, is some such function.
 */
module WorkflowRuntime {
  import opened Lex
  import opened Outcomes
  import opened DependencyGraph
  import opened WorkflowCompiler

  type Output = map<string, string>

  datatype StepState = Pending | Running | Complete | Skipped | Compensated | Failed | AwaitingGate

  datatype StepResult = StepResult(id: string, state: StepState, attempts: int, output: Option<Output>,
      reason: string) {
    predicate Terminal() {
      state.Complete? || state.Skipped? || state.Compensated?
    }
  }

  type Results = map<string, StepResult>

  datatype RunStatus = RunRunning | RunComplete | RunFailed | RunAwaitingApproval

  datatype RunState = RunState(workflowId: string, version: string, status: RunStatus, order: seq<string>,
      results: Results)

  /** compensate is None when the runner cannot undo; otherwise it returns the
      error of the undo, if any. */
  datatype Runner = Runner(
    run: (Step, int) -> Result<Output, string>,
    compensate: Option<(Step, Option<Output>) -> Option<string>>)

  /** A nil evaluator leaves every gate unpassed. */
  type Gates = Option<Step -> Result<bool, string>>

  datatype RunError = DependenciesUnmet(step: string) | AwaitingApproval(step: string,
      reason: string) | StepFailed(step: string, reason: string)

  /** What the runner is asked to do, in order. */
  datatype Call = Ran(step: string, attempt: int) | Undone(step: string)

  /** How one step, or a whole pass, ends. Crash is Go's nil dereference when a
      failure is reported before any attempt has failed. */
  datatype End =
    | Advance(results: Results, log: seq<Call>)
    | Halt(results: Results, status: RunStatus, error: RunError, log: seq<Call>)
    | Crash(log: seq<Call>)
  {
    function After(earlier: seq<Call>): End {
      this.(log := earlier + log)
    }
  }

  function MaxAttempts(step: Step): int {
    var retries := if step.retries.Some? then step.retries.value else 0;
    (if retries < 0 then 0 else retries) + 1
  }

  predicate IsGate(step: Step) {
    step.kind.Gate? || step.kind.HumanApproval?
  }

  predicate TerminalIn(results: Results, id: string) {
    id in results && results[id].Terminal()
  }

  predicate DepsSatisfied(plan: Plan, results: Results, id: string) {
    id in plan.dependsOn ==> forall d :: d in plan.dependsOn[id] ==> TerminalIn(results, d)
  }

  function EvaluateGate(gates: Gates, step: Step): Result<bool, string> {
    if gates.None? then Err("no gate evaluator") else gates.value(step)
  }

  /** The zero result when the step has none yet. */
  function PriorOf(results: Results, id: string): StepResult {
    if id in results then results[id] else StepResult("", Pending, 0, None, "")
  }

  // ----- the reference: what a pass computes

  datatype Tried =
    | Succeeded(attempt: int, output: Output, log: seq<Call>)
    | Exhausted(attempt: int, lastErr: Option<string>, log: seq<Call>)
  {
    function After(call: Call): Tried {
      this.(log := [call] + log)
    }
  }

  /** Attempts attempt+1, attempt+2, ... up to max, until one succeeds. */
  function TryFrom(run: (Step, int) -> Result<Output, string>, step: Step, attempt: int, max: int,
      lastErr: Option<string>): Tried
    decreases max - attempt
  {
    if attempt >= max then Exhausted(attempt, lastErr, [])
    else
      match run(step, attempt + 1)
      case Ok(output) => Succeeded(attempt + 1, output, [Ran(step.id, attempt + 1)])
      case Err(e) => TryFrom(run, step, attempt + 1, max, Some(e)).After(Ran(step.id, attempt + 1))
  }

  /** The failure policy once the attempts are used up. */
  function Settle(runner: Runner, results: Results, step: Step, prior: StepResult, attempt: int,
      lastErr: Option<string>): End {
    var failed := (reason: string) =>
      Halt(results[step.id := StepResult(step.id, Failed, attempt, None, reason)], RunFailed,
          StepFailed(step.id, reason), []);
    if step.onFailure.Skip? then
      if lastErr.None? then Crash([])
      else Advance(results[step.id := StepResult(step.id, Skipped, attempt, None, lastErr.value)], [])
    else if step.onFailure.Compensate? && runner.compensate.Some? then
      var undo := runner.compensate.value(step, prior.output);
      if undo.Some? then failed(undo.value).After([Undone(step.id)])
      else if lastErr.None? then Crash([Undone(step.id)])
      else Advance(results[step.id := StepResult(step.id, Compensated, attempt, None, lastErr.value)],
          [Undone(step.id)])
    else
      if lastErr.None? then Crash([]) else failed(lastErr.value)
  }

  function RunPolicy(runner: Option<Runner>, results: Results, step: Step): End {
    if runner.None? then
      Halt(results[step.id := StepResult(step.id, Failed, 0, None, "no runner configured")],
           RunFailed, StepFailed(step.id, "no runner"), [])
    else
      var prior := PriorOf(results, step.id);
      match TryFrom(runner.value.run, step, prior.attempts, MaxAttempts(step), None)
      case Succeeded(attempt, output, log) =>
        Advance(results[step.id := StepResult(step.id, Complete, attempt, Some(output), "")], log)
      case Exhausted(attempt, lastErr, log) =>
        Settle(runner.value, results, step, prior, attempt, lastErr).After(log)
  }

  function PassGate(gates: Gates, results: Results, step: Step, id: string): End {
    match EvaluateGate(gates, step)
    case Err(e) =>
      Halt(results[id := StepResult(id, StepState.AwaitingGate, 0, None, e)], RunAwaitingApproval,
          AwaitingApproval(id, e), [])
    case Ok(passed) =>
      if passed then Advance(results[id := StepResult(id, Complete, 0, None, "")], [])
      else Halt(results[id := StepResult(id, StepState.AwaitingGate, 0, None, "gate not passed")],
                RunAwaitingApproval, AwaitingApproval(id, "gate not passed"), [])
  }

  function StepAt(runner: Option<Runner>, gates: Gates, plan: Plan, results: Results, id: string): End {
    if id !in plan.steps then Advance(results, [])
    else if TerminalIn(results, id) then Advance(results, [])
    else if !DepsSatisfied(plan, results, id) then
      Halt(results[id := StepResult(id, StepState.AwaitingGate, 0, None, "dependencies not satisfied")],
           RunFailed, DependenciesUnmet(id), [])
    else if IsGate(plan.steps[id]) then PassGate(gates, results, plan.steps[id], id)
    else RunPolicy(runner, results, plan.steps[id])
  }

  /** The pass from position k of the plan's order. */
  function RunFrom(runner: Option<Runner>, gates: Gates, plan: Plan, k: nat, results: Results): End
    requires k <= |plan.order|
    decreases |plan.order| - k
  {
    if k == |plan.order| then Advance(results, [])
    else
      var end := StepAt(runner, gates, plan, results, plan.order[k]);
      if end.Advance? then RunFrom(runner, gates, plan, k + 1, end.results).After(end.log) else end
  }

  // ----- the code

  /** At most the entry of id has been rewritten. */
  ghost predicate Rewrites(a: Results, b: Results, id: string) {
    a == b || (id in a && a == b[id := a[id]])
  }

  lemma RewritesAgain(a: Results, b: Results, id: string, r: StepResult)
    requires Rewrites(a, b, id)
    ensures a[id := r] == b[id := r]
  {
  }

  lemma PrefixedAfter(log: seq<Call>, call: Call, t: Tried)
    ensures Prefixed(log, t.After(call)) == Prefixed(log + [call], t)
  {
    assert log + ([call] + t.log) == log + [call] + t.log;
  }

  /** The retry loop. */
  method RunAttempts(run: (Step, int) -> Result<Output, string>, results0: Results, step: Step, prior: int, max: int)
    returns (tried: Tried, results: Results)
    ensures tried == TryFrom(run, step, prior, max, None)
    ensures tried.Succeeded? ==>
              results == results0[step.id := StepResult(step.id, Complete, tried.attempt, Some(tried.output), "")]
    ensures Rewrites(results, results0, step.id)
  {
    results := results0;
    var attempt := prior;
    var lastErr: Option<string> := None;
    var log: seq<Call> := [];
    while attempt < max
      invariant Rewrites(results, results0, step.id)
      invariant TryFrom(run, step, prior, max, None) == Prefixed(log, TryFrom(run, step, attempt, max, lastErr))
      decreases max - attempt
    {
      ghost var before := log;
      ghost var rest := TryFrom(run, step, attempt, max, lastErr);
      attempt := attempt + 1;
      var r := run(step, attempt);
      log := log + [Ran(step.id, attempt)];
      if r.Ok? {
        var entry := StepResult(step.id, Complete, attempt, Some(r.value), "");
        RewritesAgain(results, results0, step.id, entry);
        results := results[step.id := entry];
        assert rest == Succeeded(attempt, r.value, [Ran(step.id, attempt)]);
        return Succeeded(attempt, r.value, log), results;
      }
      lastErr := Some(r.error);
      var entry := StepResult(step.id, Running, attempt, None, r.error);
      RewritesAgain(results, results0, step.id, entry);
      results := results[step.id := entry];
      PrefixedAfter(before, Ran(step.id, attempt), TryFrom(run, step, attempt, max, lastErr));
    }
    assert log + [] == log;
    return Tried.Exhausted(attempt, lastErr, log), results;
  }

  function Prefixed(log: seq<Call>, t: Tried): Tried {
    t.(log := log + t.log)
  }

  /** Retries, then the failure policy. */
  method RunWithPolicy(runner: Option<Runner>, results0: Results, step: Step) returns (end: End)
    ensures end == RunPolicy(runner, results0, step)
  {
    if runner.None? {
      var results := results0[step.id := StepResult(step.id, Failed, 0, None, "no runner configured")];
      return Halt(results, RunFailed, StepFailed(step.id, "no runner"), []);
    }
    var prior := PriorOf(results0, step.id);
    var tried, results := RunAttempts(runner.value.run, results0, step, prior.attempts, MaxAttempts(step));
    if tried.Succeeded? {
      return Advance(results, tried.log);
    }
    SettleOverwrites(runner.value, results, results0, step, prior, tried.attempt, tried.lastErr);
    end := GiveUp(runner.value, results, step, prior, tried.attempt, tried.lastErr);
    end := end.After(tried.log);
  }

  /** The policy switch. */
  method GiveUp(runner: Runner, results0: Results, step: Step, prior: StepResult, attempt: int,
      lastErr: Option<string>) returns (end: End)
    ensures end == Settle(runner, results0, step, prior, attempt, lastErr)
  {
    var results := results0;
    match step.onFailure {
      case Skip =>
        if lastErr.None? { return Crash([]); }
        return Advance(results[step.id := StepResult(step.id, Skipped, attempt, None, lastErr.value)], []);
      case Compensate =>
        if runner.compensate.Some? {
          var undo := runner.compensate.value(step, prior.output);
          if undo.Some? {
            results := results[step.id := StepResult(step.id, Failed, attempt, None, undo.value)];
            return Halt(results, RunFailed, StepFailed(step.id, undo.value), [Undone(step.id)]);
          }
          if lastErr.None? { return Crash([Undone(step.id)]); }
          return Advance(results[step.id := StepResult(step.id, Compensated, attempt, None, lastErr.value)],
              [Undone(step.id)]);
        }
      case _ =>
    }
    if lastErr.None? { return Crash([]); }
    results := results[step.id := StepResult(step.id, Failed, attempt, None, lastErr.value)];
    return Halt(results, RunFailed, StepFailed(step.id, lastErr.value), []);
  }

  /** Only the step's own entry is written, whatever it held before. */
  lemma SettleOverwrites(runner: Runner, a: Results, b: Results, step: Step, prior: StepResult, attempt: int,
      lastErr: Option<string>)
    requires Rewrites(a, b, step.id)
    ensures Settle(runner, a, step, prior, attempt, lastErr) == Settle(runner, b, step, prior, attempt, lastErr)
  {
    if lastErr.Some? {
      assert a[step.id := StepResult(step.id, Skipped, attempt, None, lastErr.value)]
          == b[step.id := StepResult(step.id, Skipped, attempt, None, lastErr.value)];
      assert a[step.id := StepResult(step.id, Compensated, attempt, None, lastErr.value)]
          == b[step.id := StepResult(step.id, Compensated, attempt, None, lastErr.value)];
    }
    assert forall reason :: a[step.id := StepResult(step.id, Failed, attempt, None, reason)]
                         == b[step.id := StepResult(step.id, Failed, attempt, None, reason)];
  }

  /** What Run hands back: the state and the error, or nothing when it crashed. */
  datatype Outcome =
    | Returned(state: RunState, error: Option<RunError>, log: seq<Call>)
    | Crashed(log: seq<Call>)

  function Start(plan: Plan, prior: Option<RunState>): RunState {
    match prior
    case None => RunState(plan.workflowId, plan.version, RunRunning, plan.order, map[])
    case Some(s) =>
      s.(workflowId := if s.workflowId == "" then plan.workflowId else s.workflowId,
         version := if s.version == "" then plan.version else s.version,
         status := RunRunning)
  }

  /** The outcome of a run in terms of the pass over its starting results. */
  function OutcomeOf(start: RunState, end: End): Outcome {
    match end
    case Advance(results, log) => Returned(start.(status := RunComplete, results := results), None, log)
    case Halt(results, status, error, log) => Returned(start.(status := status, results := results), Some(error), log)
    case Crash(log) => Crashed(log)
  }

  function RunResult(runner: Option<Runner>, gates: Gates, plan: Plan, prior: Option<RunState>): Outcome {
    var start := Start(plan, prior);
    OutcomeOf(start, RunFrom(runner, gates, plan, 0, start.results))
  }

  /** The body of the run loop. */
  method VisitStep(runner: Option<Runner>, gates: Gates, plan: Plan, results: Results, id: string) returns (end: End)
    ensures end == StepAt(runner, gates, plan, results, id)
  {
    if id !in plan.steps || TerminalIn(results, id) {
      return Advance(results, []);
    }
    if !DepsSatisfied(plan, results, id) {
      return Halt(results[id := StepResult(id, StepState.AwaitingGate, 0, None, "dependencies not satisfied")],
                  RunFailed, DependenciesUnmet(id), []);
    }
    if IsGate(plan.steps[id]) {
      return PassGate(gates, results, plan.steps[id], id);
    }
    end := RunWithPolicy(runner, results, plan.steps[id]);
  }

  lemma AfterAfter(e: End, a: seq<Call>, b: seq<Call>)
    ensures e.After(b).After(a) == e.After(a + b)
  {
    assert a + (b + e.log) == (a + b) + e.log;
  }

  /** One round of the run loop, with the calls made so far. */
  lemma RunUnfolds(runner: Option<Runner>, gates: Gates, plan: Plan, k: nat, results: Results, log: seq<Call>)
    requires k < |plan.order|
    ensures var end := StepAt(runner, gates, plan, results, plan.order[k]);
            RunFrom(runner, gates, plan, k, results).After(log) ==
            if end.Advance? then RunFrom(runner, gates, plan, k + 1, end.results).After(log + end.log)
            else end.After(log)
  {
    hide StepAt;
    var end := StepAt(runner, gates, plan, results, plan.order[k]);
    if end.Advance? {
      AfterAfter(RunFrom(runner, gates, plan, k + 1, end.results), log, end.log);
    }
  }

  lemma RunEnds(runner: Option<Runner>, gates: Gates, plan: Plan, results: Results, log: seq<Call>)
    ensures RunFrom(runner, gates, plan, |plan.order|, results).After(log) == Advance(results, log)
  {
    assert log + [] == log;
  }

  /** The run loop. */
  method Run(runner: Option<Runner>, gates: Gates, plan: Plan, prior: Option<RunState>) returns (outcome: Outcome)
    ensures outcome == RunResult(runner, gates, plan, prior)
  {
    var state := Start(plan, prior);
    var log: seq<Call> := [];
    ghost var whole := RunFrom(runner, gates, plan, 0, state.results);
    assert [] + whole.log == whole.log;
    hide RunFrom, StepAt, Start;
    for k := 0 to |plan.order|
      invariant state == Start(plan, prior).(results := state.results)
      invariant whole == RunFrom(runner, gates, plan, k, state.results).After(log)
    {
      var end := VisitStep(runner, gates, plan, state.results, plan.order[k]);
      RunUnfolds(runner, gates, plan, k, state.results, log);
      log := log + end.log;
      match end {
        case Crash(_) =>
          return Crashed(log);
        case Halt(results, status, error, _) =>
          return Returned(state.(status := status, results := results), Some(error), log);
        case Advance(results, _) =>
          state := state.(results := results);
      }
    }
    RunEnds(runner, gates, plan, state.results, log);
    return Returned(state.(status := RunComplete), None, log);
  }
}
