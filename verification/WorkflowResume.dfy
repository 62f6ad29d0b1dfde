/**
 Resuming a run: when it is safe, when it crashes, and that a series of runs
 stopped at gates amounts to one run in which those gates pass at once.
 */
module WorkflowResume {
  import opened Lex
  import opened Outcomes
  import opened DependencyGraph
  import opened WorkflowCompiler
  import opened WorkflowRuntime
  import opened WorkflowGuarantees

  // ----- crashes

  /** Every unfinished step that will be run has an attempt left. */
  ghost predicate AttemptsLeft(plan: Plan, results: Results) {
    forall n :: n in plan.steps && !IsGate(plan.steps[n]) && !TerminalIn(results, n) ==>
      PriorOf(results, n).attempts < MaxAttempts(plan.steps[n])
  }

  lemma {:induction false} NoCrash(runner: Option<Runner>, gates: Gates, plan: Plan, k: nat, results: Results)
    requires PlanReady(plan) && k <= |plan.order| && AttemptsLeft(plan, results)
    ensures !RunFrom(runner, gates, plan, k, results).Crash?
    decreases |plan.order| - k
  {
    hide RunPolicy;
    if k < |plan.order| {
      var id := plan.order[k];
      OrderFacts(plan, k);
      StepFacts(runner, gates, plan, results, id);
      PolicyFacts(runner, results, plan.steps[id]);
      var end := StepAt(runner, gates, plan, results, id);
      if end.Advance? {
        forall n | n in plan.steps && !IsGate(plan.steps[n]) && !TerminalIn(end.results, n)
          ensures PriorOf(end.results, n).attempts < MaxAttempts(plan.steps[n])
        {
          assert PriorOf(end.results, n) == PriorOf(results, n);
        }
        NoCrash(runner, gates, plan, k + 1, end.results);
      }
    }
  }

  /** The most cooperative environment: every attempt and every gate passes. */
  const ALWAYS_SUCCEEDS: Runner := Runner((step: Step, attempt: int) => Ok(map[]), None)

  const ALWAYS_PASSES: Gates := Some((step: Step) => Ok(true))

  /** Even there, a step without attempts left is reached and crashes the run. */
  lemma {:induction false} ReachesCrash(plan: Plan, k: nat, results: Results, m: nat)
    requires PlanReady(plan) && k <= m < |plan.order| && PrefixTerminal(plan, results, k)
    requires !TerminalIn(results, plan.order[m]) && plan.order[m] in plan.steps && !IsGate(plan.steps[plan.order[m]])
    requires PriorOf(results, plan.order[m]).attempts >= MaxAttempts(plan.steps[plan.order[m]])
    ensures RunFrom(Some(ALWAYS_SUCCEEDS), ALWAYS_PASSES, plan, k, results).Crash?
    decreases m - k
  {
    hide StepAt;
    var id := plan.order[k];
    OrderFacts(plan, k);
    DepsHold(plan, k, results);
    StepFacts(Some(ALWAYS_SUCCEEDS), ALWAYS_PASSES, plan, results, id);
    CooperativeStep(plan, results, id);
    var end := StepAt(Some(ALWAYS_SUCCEEDS), ALWAYS_PASSES, plan, results, id);
    if k < m && end.Advance? {
      ReachesCrash(plan, k + 1, end.results, m);
    }
  }

  lemma CooperativeStep(plan: Plan, results: Results, id: string)
    requires id in plan.steps && DepsSatisfied(plan, results, id)
    ensures var end := StepAt(Some(ALWAYS_SUCCEEDS), ALWAYS_PASSES, plan, results, id);
            && !end.Halt?
            && (!TerminalIn(results, id) && !IsGate(plan.steps[id]) ==>
                  PriorOf(results, plan.steps[id].id).attempts >= MaxAttempts(plan.steps[id]) ==> end.Crash?)
  {
    var step := plan.steps[id];
    TryFacts(ALWAYS_SUCCEEDS.run, step, PriorOf(results, step.id).attempts, MaxAttempts(step), None);
  }

  /** A state can be resumed safely, whatever runner and gates are used next,
      exactly when every unfinished step has an attempt left. */
  lemma ResumeSafeExactly(plan: Plan, results: Results)
    requires PlanReady(plan)
    ensures AttemptsLeft(plan, results) <==>
            forall runner: Option<Runner>, gates: Gates :: !RunFrom(runner, gates, plan, 0, results).Crash?
  {
    if AttemptsLeft(plan, results) {
      forall runner: Option<Runner>, gates: Gates ensures !RunFrom(runner, gates, plan, 0, results).Crash? {
        NoCrash(runner, gates, plan, 0, results);
      }
    } else {
      var n :| n in plan.steps && !IsGate(plan.steps[n]) && !TerminalIn(results, n) &&
        PriorOf(results, n).attempts >= MaxAttempts(plan.steps[n]);
      assert n in Elems(plan.order);
      var m :| 0 <= m < |plan.order| && plan.order[m] == n;
      ReachesCrash(plan, 0, results, m);
    }
  }

  ghost predicate Exhausted(plan: Plan, results: Results, id: string) {
    && id in plan.steps && !IsGate(plan.steps[id]) && !TerminalIn(results, id)
    && PriorOf(results, id).attempts >= MaxAttempts(plan.steps[id])
  }

  lemma {:induction false} FailedAtMax(runner: Runner, gates: Gates, plan: Plan, k: nat, results: Results)
    requires PlanReady(plan) && k <= |plan.order| && PrefixTerminal(plan, results, k)
    requires RunFrom(Some(runner), gates, plan, k, results).Halt?
    requires RunFrom(Some(runner), gates, plan, k, results).status == RunFailed
    ensures var end := RunFrom(Some(runner), gates, plan, k, results); Exhausted(plan, end.results, end.error.step)
    decreases |plan.order| - k
  {
    hide RunPolicy;
    var id := plan.order[k];
    OrderFacts(plan, k);
    DepsHold(plan, k, results);
    StepFacts(Some(runner), gates, plan, results, id);
    var end := StepAt(Some(runner), gates, plan, results, id);
    if end.Advance? {
      FailedAtMax(runner, gates, plan, k + 1, end.results);
    } else {
      HaltedAtMax(runner, results, plan.steps[id]);
    }
  }

  /** Nothing but an undo is attempted, and unless that fails the run crashes. */
  ghost predicate Hopeless(plan: Plan, id: string, again: End)
    requires id in plan.steps
  {
    again.Crash? ||
    (again.Halt? && plan.steps[id].onFailure.Compensate? && again.error.step == id && again.log == [Undone(id)])
  }

  lemma {:induction false} ExhaustedRun(runner: Runner, gates: Gates, plan: Plan, k: nat, results: Results, m: nat)
    requires PlanReady(plan) && k <= m < |plan.order| && PrefixTerminal(plan, results, m)
    requires Exhausted(plan, results, plan.order[m])
    ensures Hopeless(plan, plan.order[m], RunFrom(Some(runner), gates, plan, k, results))
    decreases m - k
  {
    OrderFacts(plan, k);
    if k < m {
      ExhaustedRun(runner, gates, plan, k + 1, results, m);
      var rest := RunFrom(Some(runner), gates, plan, k + 1, results);
      assert [] + rest.log == rest.log;
    } else {
      DepsHold(plan, k, results);
      ExhaustedAgain(runner, results, plan.steps[plan.order[k]]);
    }
  }

  /** Where the requirement is lost: the state a failed step leaves has none, so
      resuming it with the same plan never runs the step again. It crashes,
      unless an undo fails once more. */
  lemma FailedStateIsHopeless(runner: Runner, gates: Gates, plan: Plan, results: Results, runner2: Runner,
      gates2: Gates)
    requires PlanReady(plan)
    requires var end := RunFrom(Some(runner), gates, plan, 0, results); end.Halt? && end.status == RunFailed
    ensures var end := RunFrom(Some(runner), gates, plan, 0, results);
            && !AttemptsLeft(plan, end.results)
            && end.error.step in plan.steps
            && Hopeless(plan, end.error.step, RunFrom(Some(runner2), gates2, plan, 0, end.results))
  {
    var end := RunFrom(Some(runner), gates, plan, 0, results);
    FailedAtMax(runner, gates, plan, 0, results);
    PassFacts(Some(runner), gates, plan, 0, results);
    var m :| 0 <= m < |plan.order| && end.error.step == plan.order[m] && PrefixTerminal(plan, end.results, m);
    ExhaustedRun(runner2, gates2, plan, 0, end.results, m);
  }

  lemma HaltedAtMax(runner: Runner, results: Results, step: Step)
    requires RunPolicy(Some(runner), results, step).Halt?
    ensures PriorOf(RunPolicy(Some(runner), results, step).results, step.id).attempts >= MaxAttempts(step)
  {
    TryFacts(runner.run, step, PriorOf(results, step.id).attempts, MaxAttempts(step), None);
  }

  lemma ExhaustedAgain(runner: Runner, results: Results, step: Step)
    requires PriorOf(results, step.id).attempts >= MaxAttempts(step)
    ensures var again := RunPolicy(Some(runner), results, step);
            again.Crash? ||
            (again.Halt? && step.onFailure.Compensate? && again.error.step == step.id && again.log == [Undone(step.id)])
  {
    TryFacts(runner.run, step, PriorOf(results, step.id).attempts, MaxAttempts(step), None);
  }

  // ----- gates

  ghost predicate SameGate(a: Gates, b: Gates, step: Step) {
    EvaluateGate(a, step) == EvaluateGate(b, step)
  }

  /** A pass only asks about gates that are not terminal yet. */
  lemma {:induction false} GatesAsked(runner: Option<Runner>, a: Gates, b: Gates, plan: Plan, k: nat, results: Results)
    requires PlanReady(plan) && k <= |plan.order|
    requires forall i | k <= i < |plan.order| && plan.order[i] in plan.steps ::
               IsGate(plan.steps[plan.order[i]]) && !TerminalIn(results, plan.order[i]) ==>
                   SameGate(a, b, plan.steps[plan.order[i]])
    ensures RunFrom(runner, a, plan, k, results) == RunFrom(runner, b, plan, k, results)
    decreases |plan.order| - k
  {
    hide RunPolicy;
    if k < |plan.order| {
      OrderFacts(plan, k);
      StepFacts(runner, a, plan, results, plan.order[k]);
      var end := StepAt(runner, a, plan, results, plan.order[k]);
      assert end == StepAt(runner, b, plan, results, plan.order[k]);
      if end.Advance? {
        GatesAsked(runner, a, b, plan, k + 1, end.results);
      }
    }
  }

  /** The gates that are terminal in results pass; the others are as given. */
  function PassedBefore(results: Results, gates: Gates): Gates {
    Some((step: Step) => if TerminalIn(results, step.id) then Ok(true) else EvaluateGate(gates, step))
  }

  /** Stopping at an unpassed gate and resuming the returned results with other
      gates continues exactly where the first run stopped: together the two
      runs make the calls, and reach the end, of one run in which the gates
      passed so far pass at once. */
  lemma {:induction false} ResumeOnce(runner: Option<Runner>, g0: Gates, g1: Gates, plan: Plan, k: nat,
      results: Results)
    requires PlanReady(plan) && k <= |plan.order| && PrefixTerminal(plan, results, k)
    requires RunFrom(runner, g0, plan, k, results).Halt?
    requires RunFrom(runner, g0, plan, k, results).status == RunAwaitingApproval
    ensures var first := RunFrom(runner, g0, plan, k, results);
            RunFrom(runner, PassedBefore(first.results, g1), plan, k, results) ==
              RunFrom(runner, g1, plan, k, first.results).After(first.log)
    decreases |plan.order| - k
  {
    hide StepAt;
    var id := plan.order[k];
    OrderFacts(plan, k);
    DepsHold(plan, k, results);
    StepFacts(runner, g0, plan, results, id);
    var end := StepAt(runner, g0, plan, results, id);
    if end.Advance? {
      ResumeOnce(runner, g0, g1, plan, k + 1, end.results);
      PassFacts(runner, g0, plan, k + 1, end.results);
      ResumePast(runner, g0, g1, plan, k, results, RunFrom(runner, g0, plan, k + 1, end.results));
    } else {
      WaitsAtGate(runner, g0, plan, k, results);
      ResumeAtGate(runner, g0, g1, plan, k, results);
    }
  }

  lemma WaitsAtGate(runner: Option<Runner>, g0: Gates, plan: Plan, k: nat, results: Results)
    requires k < |plan.order| && plan.order[k] in plan.steps
    requires DepsSatisfied(plan, results, plan.order[k])
    requires var end := StepAt(runner, g0, plan, results, plan.order[k]); end.Halt? && end.status == RunAwaitingApproval
    ensures IsGate(plan.steps[plan.order[k]]) && !TerminalIn(results, plan.order[k])
  {
    PolicyFacts(runner, results, plan.steps[plan.order[k]]);
  }

  /** One step that the first run got past: the single run takes it the same
      way, the resumed run skips it. */
  lemma ResumePast(runner: Option<Runner>, g0: Gates, g1: Gates, plan: Plan, k: nat, results: Results, rest: End)
    requires PlanReady(plan) && k < |plan.order| && plan.order[k] in plan.steps
    requires DepsSatisfied(plan, results, plan.order[k])
    requires StepAt(runner, g0, plan, results, plan.order[k]).Advance? && rest.Halt?
    requires TerminalIn(rest.results, plan.order[k])
    requires RunFrom(runner, PassedBefore(rest.results, g1), plan, k + 1,
             StepAt(runner, g0, plan, results, plan.order[k]).results) ==
               RunFrom(runner, g1, plan, k + 1, rest.results).After(rest.log)
    ensures RunFrom(runner, PassedBefore(rest.results, g1), plan, k, results) ==
              RunFrom(runner, g1, plan, k,
                  rest.results).After(StepAt(runner, g0, plan, results, plan.order[k]).log + rest.log)
  {
    hide RunPolicy;
    var id := plan.order[k];
    var end := StepAt(runner, g0, plan, results, id);
    assert StepAt(runner, PassedBefore(rest.results, g1), plan, results, id) == end;
    var later := RunFrom(runner, g1, plan, k + 1, rest.results);
    assert [] + later.log == later.log;
    AfterAfter(later, end.log, rest.log);
  }

  lemma ResumeAtGate(runner: Option<Runner>, g0: Gates, g1: Gates, plan: Plan, k: nat, results: Results)
    requires PlanReady(plan) && k < |plan.order| && PrefixTerminal(plan, results, k)
    requires plan.order[k] in plan.steps && IsGate(plan.steps[plan.order[k]]) && !TerminalIn(results, plan.order[k])
    requires StepAt(runner, g0, plan, results, plan.order[k]).Halt?
    ensures var first := StepAt(runner, g0, plan, results, plan.order[k]);
            RunFrom(runner, PassedBefore(first.results, g1), plan, k, results) ==
              RunFrom(runner, g1, plan, k, first.results).After(first.log)
  {
    hide RunPolicy;
    var id := plan.order[k];
    OrderFacts(plan, k);
    DepsHold(plan, k, results);
    StepFacts(runner, g0, plan, results, id);
    var first := StepAt(runner, g0, plan, results, id);
    var both := PassedBefore(first.results, g1);
    assert PrefixTerminal(plan, first.results, k);
    DepsHold(plan, k, first.results);
    GateOverwrites(g1, both, first.results, results, plan.steps[id], id);
    var end := StepAt(runner, g1, plan, first.results, id);
    assert end == StepAt(runner, both, plan, results, id);
    if end.Advance? {
      StepFacts(runner, g1, plan, first.results, id);
      forall i | k + 1 <= i < |plan.order| && plan.order[i] in plan.steps && !TerminalIn(end.results, plan.order[i])
        ensures SameGate(both, g1, plan.steps[plan.order[i]])
      {
        assert plan.order[i] != id;
      }
      GatesAsked(runner, both, g1, plan, k + 1, end.results);
    }
    var again := RunFrom(runner, g1, plan, k, first.results);
    assert [] + again.log == again.log;
  }

  lemma GateOverwrites(g: Gates, h: Gates, a: Results, b: Results, step: Step, id: string)
    requires SameGate(g, h, step)
    requires id in a && a == b[id := a[id]]
    ensures PassGate(g, a, step, id) == PassGate(h, b, step, id)
  {
    assert a[id := StepResult(id, Complete, 0, None, "")] == b[id := StepResult(id, Complete, 0, None, "")];
    assert forall reason :: a[id := StepResult(id, StepState.AwaitingGate, 0, None, reason)]
                         == b[id := StepResult(id, StepState.AwaitingGate, 0, None, reason)];
  }

  // ----- any number of stops

  /** Run after run from the returned states, all but the last stopped at an
      unpassed gate. */
  ghost predicate StopsAtGates(runner: Option<Runner>, gs: seq<Gates>, plan: Plan, prior: Option<RunState>) {
    && gs != []
    && (|gs| > 1 ==>
          var o := RunResult(runner, gs[0], plan, prior);
          && o.Returned? && o.state.status == RunAwaitingApproval
          && StopsAtGates(runner, gs[1..], plan, Some(o.state)))
  }

  /** The last outcome, with the calls of all the runs. */
  ghost function Series(runner: Option<Runner>, gs: seq<Gates>, plan: Plan, prior: Option<RunState>): Outcome
    requires StopsAtGates(runner, gs, plan, prior)
  {
    var o := RunResult(runner, gs[0], plan, prior);
    if |gs| == 1 then o else Logged(o.log, Series(runner, gs[1..], plan, Some(o.state)))
  }

  function Logged(log: seq<Call>, o: Outcome): Outcome {
    o.(log := log + o.log)
  }

  /** The gates of the single run: each as when it was last asked. */
  ghost function LastAnswers(runner: Option<Runner>, gs: seq<Gates>, plan: Plan, prior: Option<RunState>): Gates
    requires StopsAtGates(runner, gs, plan, prior)
  {
    if |gs| == 1 then gs[0]
    else
      var o := RunResult(runner, gs[0], plan, prior);
      PassedBefore(o.state.results, LastAnswers(runner, gs[1..], plan, Some(o.state)))
  }

  lemma ResumeRun(runner: Option<Runner>, g0: Gates, g1: Gates, plan: Plan, prior: Option<RunState>)
    requires PlanReady(plan)
    requires var o := RunResult(runner, g0, plan, prior); o.Returned? && o.state.status == RunAwaitingApproval
    ensures var o := RunResult(runner, g0, plan, prior);
            RunResult(runner, PassedBefore(o.state.results, g1), plan, prior) ==
              Logged(o.log, RunResult(runner, g1, plan, Some(o.state)))
  {
    ResumeOnce(runner, g0, g1, plan, 0, Start(plan, prior).results);
  }

  /** Resume is transparent: the state, the error and the runner calls of a
      series of resumed runs are those of one run. */
  lemma {:induction false} SeriesIsOneRun(runner: Option<Runner>, gs: seq<Gates>, plan: Plan, prior: Option<RunState>)
    requires PlanReady(plan) && StopsAtGates(runner, gs, plan, prior)
    ensures Series(runner, gs, plan, prior) == RunResult(runner, LastAnswers(runner, gs, plan, prior), plan, prior)
    decreases |gs|
  {
    if |gs| > 1 {
      var o := RunResult(runner, gs[0], plan, prior);
      SeriesIsOneRun(runner, gs[1..], plan, Some(o.state));
      ResumeRun(runner, gs[0], LastAnswers(runner, gs[1..], plan, Some(o.state)), plan, prior);
    }
  }

  /** A gate that turned terminal during a run has passed in it. */
  lemma {:induction false} TurnedTerminal(runner: Option<Runner>, gates: Gates, plan: Plan, k: nat, results: Results,
      id: string)
    requires PlanReady(plan) && k <= |plan.order|
    requires id in plan.steps && IsGate(plan.steps[id]) && !TerminalIn(results, id)
    ensures var end := RunFrom(runner, gates, plan, k, results);
            !end.Crash? && TerminalIn(end.results, id) ==> EvaluateGate(gates, plan.steps[id]) == Ok(true)
    decreases |plan.order| - k
  {
    hide RunPolicy;
    if k < |plan.order| {
      OrderFacts(plan, k);
      StepFacts(runner, gates, plan, results, plan.order[k]);
      var end := StepAt(runner, gates, plan, results, plan.order[k]);
      if end.Advance? && !TerminalIn(end.results, id) {
        TurnedTerminal(runner, gates, plan, k + 1, end.results, id);
      }
    }
  }

  /** No gate that passed in an earlier run is refused by the last one. */
  ghost predicate NotWithdrawn(gs: seq<Gates>, plan: Plan)
    requires gs != []
  {
    forall i, id :: 0 <= i < |gs| && id in plan.steps && EvaluateGate(gs[i], plan.steps[id]) == Ok(true) ==>
      EvaluateGate(gs[|gs| - 1], plan.steps[id]) == Ok(true)
  }

  /** When approvals stand, the single run is simply a run with the last gates:
      as if everything had been approved before the work began. */
  lemma {:induction false} SeriesAsIfApprovedAtOnce(runner: Option<Runner>, gs: seq<Gates>, plan: Plan,
      prior: Option<RunState>)
    requires PlanReady(plan) && StopsAtGates(runner, gs, plan, prior) && NotWithdrawn(gs, plan)
    ensures Series(runner, gs, plan, prior) == RunResult(runner, gs[|gs| - 1], plan, prior)
    decreases |gs|
  {
    if |gs| > 1 {
      var o := RunResult(runner, gs[0], plan, prior);
      var last := gs[|gs| - 1];
      var before := Start(plan, prior).results;
      assert NotWithdrawn(gs[1..], plan) by {
        assert forall i :: 0 <= i < |gs[1..]| ==> gs[1..][i] == gs[i + 1];
      }
      SeriesAsIfApprovedAtOnce(runner, gs[1..], plan, Some(o.state));
      ResumeRun(runner, gs[0], last, plan, prior);
      forall i | 0 <= i < |plan.order| && plan.order[i] in plan.steps && IsGate(plan.steps[plan.order[i]])
                 && !TerminalIn(before, plan.order[i])
        ensures SameGate(PassedBefore(o.state.results, last), last, plan.steps[plan.order[i]])
      {
        TurnedTerminal(runner, gs[0], plan, 0, before, plan.order[i]);
      }
      GatesAsked(runner, PassedBefore(o.state.results, last), last, plan, 0, before);
    }
  }
}
