/**
 What becomes of the steps of a run (toolbox/workflow/runtime.go), said step by step
 and without the pass itself: how each step can pass, how each can end the run, and
 that every run is the history these rules give.
 */
module WorkflowHistory {
  import opened Lex
  import opened Outcomes
  import opened DependencyGraph
  import opened WorkflowCompiler
  import opened WorkflowRuntime
  import opened WorkflowGuarantees

  // ----- how a step's attempts go

  /** Attempts already recorded. */
  function Recorded(results: Results, id: string): int {
    if id in results then results[id].attempts else 0
  }

  /** One attempt, and one more for each retry. */
  function Allowed(step: Step): int {
    match step.retries
    case None => 1
    case Some(retries) => if retries > 0 then 1 + retries else 1
  }

  /** After a attempts the n-th is the first to succeed. */
  ghost predicate SucceedsAt(runner: Runner, step: Step, a: int, n: int) {
    a < n <= Allowed(step) && runner.run(step, n).Ok? && forall i :: a < i < n ==> runner.run(step, i).Err?
  }

  /** After a attempts all those left fail, the last one with this error. */
  ghost predicate FailsWith(runner: Runner, step: Step, a: int, error: string) {
    a < Allowed(step) && (forall i :: a < i <= Allowed(step) ==> runner.run(step, i).Err?)
    && runner.run(step, Allowed(step)) == Err(error)
  }

  /** The undo of a step, given what an earlier run recorded as its output. */
  function Undo(runner: Runner, results: Results, step: Step): Option<string>
    requires runner.compensate.Some?
  {
    runner.compensate.value(step, if step.id in results then results[step.id].output else None)
  }

  predicate Undoes(runner: Runner, step: Step) {
    step.onFailure == Compensate && runner.compensate.Some?
  }

  // ----- how a step passes, or ends the run

  /** The results with a new entry for id. */
  predicate Enters(before: Results, after: Results, id: string, state: StepState, attempts: int, output: Option<Output>,
      reason: string) {
    after == before[id := StepResult(id, state, attempts, output, reason)]
  }

  predicate Finished(results: Results, id: string) {
    id in results && results[id].state in {Complete, Skipped, Compensated}
  }

  predicate AsksGate(step: Step) {
    step.kind == Gate || step.kind == HumanApproval
  }

  /** A step that ran passes: complete at its first success; skipped after its last
      error; or compensated after it, its undo having gone well. */
  ghost predicate RunPasses(runner: Runner, before: Results, step: Step, after: Results) {
    var a := Recorded(before, step.id);
    || (exists n :: SucceedsAt(runner, step, a, n)
          && Enters(before, after, step.id, Complete, n, Some(runner.run(step, n).value), ""))
    || (exists error :: FailsWith(runner, step, a, error)
          && step.onFailure == Skip && Enters(before, after, step.id, Skipped, Allowed(step), None, error))
    || (exists error :: FailsWith(runner, step, a, error)
          && Undoes(runner, step) && Undo(runner, before, step).None?
          && Enters(before, after, step.id, Compensated, Allowed(step), None, error))
  }

  /** How a step lets the run go on. */
  ghost predicate Passes(runner: Option<Runner>, gates: Gates, before: Results, step: Step, after: Results) {
    if Finished(before, step.id) then after == before
    else if AsksGate(step) then
      gates.Some? && gates.value(step) == Ok(true) && Enters(before, after, step.id, Complete, 0, None, "")
    else
      runner.Some? && RunPasses(runner.value, before, step, after)
  }

  /** How a run stops at a step: waiting for a gate; failed there, after so many
      attempts, with the reason recorded and the error returned; or crashed. */
  datatype Stop = Waits(why: string) | Fails(attempts: int, reason: string, error: string) | Crashes

  /** A step fails without its run: there is no runner, its undo fails, or its last
      attempt does and it is neither skipped nor undone. */
  ghost predicate RunFails(runner: Runner, before: Results, step: Step, attempts: int, reason: string) {
    var a := Recorded(before, step.id);
    || (a < Allowed(step) && attempts == Allowed(step) && Undoes(runner, step)
        && (exists error :: FailsWith(runner, step, a, error)) && Undo(runner, before, step) == Some(reason))
    || (a >= Allowed(step) && attempts == a && Undoes(runner, step) && Undo(runner, before, step) == Some(reason))
    || (attempts == Allowed(step) && FailsWith(runner, step, a, reason)
        && step.onFailure != Skip && !Undoes(runner, step))
  }

  ghost predicate Stops(runner: Option<Runner>, gates: Gates, before: Results, step: Step, stop: Stop) {
    && !Finished(before, step.id)
    && match stop
       case Waits(why) =>
         AsksGate(step)
         && (if gates.None? then why == "no gate evaluator"
             else if gates.value(step).Err? then why == gates.value(step).error
             else !gates.value(step).value && why == "gate not passed")
       case Fails(attempts, reason, error) =>
         !AsksGate(step)
         && (if runner.None? then attempts == 0 && reason == "no runner configured" && error == "no runner"
             else error == reason && RunFails(runner.value, before, step, attempts, reason))
       case Crashes =>
         // no attempt is left, and the missing error is asked for
         && !AsksGate(step) && runner.Some? && Recorded(before, step.id) >= Allowed(step)
         && (Undoes(runner.value, step) ==> Undo(runner.value, before, step).None?)
  }

  // ----- the attempts of the loop

  lemma AllowedIsMax(step: Step)
    ensures Allowed(step) == MaxAttempts(step)
  {
  }

  lemma {:induction false} TriesUntil(runner: Runner, step: Step, a: int, n: int, lastErr: Option<string>)
    requires SucceedsAt(runner, step, a, n)
    ensures var t := TryFrom(runner.run, step, a, MaxAttempts(step), lastErr);
            && t.Succeeded? && t.attempt == n && t.output == runner.run(step, n).value
            && t.log == AttemptLog(step.id, a, n - a)
    decreases n - a
  {
    AllowedIsMax(step);
    if n > a + 1 {
      TriesUntil(runner, step, a + 1, n, Some(runner.run(step, a + 1).error));
    }
    assert AttemptLog(step.id, a, n - a) == [Ran(step.id, a + 1)] + AttemptLog(step.id, a + 1, n - (a + 1));
  }

  lemma {:induction false} TriesAll(runner: Runner, step: Step, a: int, error: string, lastErr: Option<string>)
    requires FailsWith(runner, step, a, error)
    ensures var t := TryFrom(runner.run, step, a, MaxAttempts(step), lastErr);
            && t.Exhausted? && t.attempt == Allowed(step) && t.lastErr == Some(error)
            && t.log == AttemptLog(step.id, a, Allowed(step) - a)
    decreases Allowed(step) - a
  {
    AllowedIsMax(step);
    if a + 1 < Allowed(step) {
      TriesAll(runner, step, a + 1, error, Some(runner.run(step, a + 1).error));
    }
    assert AttemptLog(step.id, a, Allowed(step) - a) ==
           [Ran(step.id, a + 1)] + AttemptLog(step.id, a + 1, Allowed(step) - (a + 1));
  }

  lemma TriesNone(runner: Runner, step: Step, a: int)
    requires a >= Allowed(step)
    ensures TryFrom(runner.run, step, a, MaxAttempts(step), None) == Exhausted(a, None, [])
  {
    AllowedIsMax(step);
  }

  /** Either some attempt is the first to succeed, or all fail, or none is left. */
  lemma {:induction false} HowItGoes(runner: Runner, step: Step, a: int)
    ensures || a >= Allowed(step)
            || (exists n :: SucceedsAt(runner, step, a, n))
            || (exists error :: FailsWith(runner, step, a, error))
    decreases Allowed(step) - a
  {
    if a < Allowed(step) {
      if runner.run(step, a + 1).Ok? {
        assert SucceedsAt(runner, step, a, a + 1);
      } else if a + 1 == Allowed(step) {
        assert FailsWith(runner, step, a, runner.run(step, a + 1).error);
      } else {
        var next := a + 1;
        HowItGoes(runner, step, next);
        if n :| SucceedsAt(runner, step, next, n) {
          assert SucceedsAt(runner, step, a, n);
        } else {
          var error :| FailsWith(runner, step, next, error);
          assert FailsWith(runner, step, a, error);
        }
      }
    }
  }

  // ----- one step

  lemma RunPassesDecides(runner: Runner, before: Results, step: Step, after: Results)
    requires RunPasses(runner, before, step, after)
    ensures var end := RunPolicy(Some(runner), before, step); end.Advance? && end.results == after
  {
    var a := Recorded(before, step.id);
    if n :| (SucceedsAt(runner, step, a, n)
             && Enters(before, after, step.id, Complete, n, Some(runner.run(step, n).value), "")) {
      TriesUntil(runner, step, a, n, None);
    } else {
      var error :| FailsWith(runner, step, a, error)
        && (Enters(before, after, step.id, Skipped, Allowed(step), None, error)
            || Enters(before, after, step.id, Compensated, Allowed(step), None, error))
        && ((step.onFailure == Skip && Enters(before, after, step.id, Skipped, Allowed(step), None, error))
            || (Undoes(runner, step) && Undo(runner, before, step).None?
                && Enters(before, after, step.id, Compensated, Allowed(step), None, error)));
      TriesAll(runner, step, a, error, None);
    }
    hide TryFrom, SucceedsAt, FailsWith;
  }

  lemma RunFailsDecides(runner: Runner, before: Results, step: Step, attempts: int, reason: string)
    requires RunFails(runner, before, step, attempts, reason)
    ensures var end := RunPolicy(Some(runner), before, step);
            && end.Halt? && end.status == RunFailed && end.error == StepFailed(step.id, reason)
            && Enters(before, end.results, step.id, Failed, attempts, None, reason)
  {
    var a := Recorded(before, step.id);
    if a >= Allowed(step) {
      TriesNone(runner, step, a);
    } else {
      var error :| FailsWith(runner, step, a, error);
      TriesAll(runner, step, a, error, None);
    }
    hide TryFrom;
  }

  lemma RunCrashes(runner: Runner, before: Results, step: Step)
    requires Recorded(before, step.id) >= Allowed(step)
    requires Undoes(runner, step) ==> Undo(runner, before, step).None?
    ensures RunPolicy(Some(runner), before, step).Crash?
  {
    TriesNone(runner, step, Recorded(before, step.id));
    hide TryFrom;
  }

  /** How the pass shows that the run stopped. */
  ghost predicate ShowsStop(before: Results, id: string, stop: Stop, end: End) {
    match stop
    case Waits(why) =>
      && end.Halt? && end.status == RunAwaitingApproval && end.error == AwaitingApproval(id, why)
      && Enters(before, end.results, id, StepState.AwaitingGate, 0, None, why)
    case Fails(attempts, reason, error) =>
      && end.Halt? && end.status == RunFailed && end.error == StepFailed(id, error)
      && Enters(before, end.results, id, Failed, attempts, None, reason)
    case Crashes => end.Crash?
  }

  lemma PassDecides(runner: Option<Runner>, gates: Gates, plan: Plan, before: Results, id: string, after: Results)
    requires id in plan.steps && plan.steps[id].id == id && DepsSatisfied(plan, before, id)
    requires Passes(runner, gates, before, plan.steps[id], after)
    ensures var end := StepAt(runner, gates, plan, before, id); end.Advance? && end.results == after
  {
    hide RunPolicy, RunPasses, DepsSatisfied;
    if !Finished(before, id) && !AsksGate(plan.steps[id]) {
      RunPassesDecides(runner.value, before, plan.steps[id], after);
    }
  }

  lemma StopDecides(runner: Option<Runner>, gates: Gates, plan: Plan, before: Results, id: string, stop: Stop)
    requires id in plan.steps && plan.steps[id].id == id && DepsSatisfied(plan, before, id)
    requires Stops(runner, gates, before, plan.steps[id], stop)
    ensures ShowsStop(before, id, stop, StepAt(runner, gates, plan, before, id))
  {
    var step := plan.steps[id];
    if runner.Some? && stop.Fails? {
      RunFailsDecides(runner.value, before, step, stop.attempts, stop.reason);
      hide RunPolicy;
    } else if stop.Crashes? {
      RunCrashes(runner.value, before, step);
      hide RunPolicy;
    }
    hide RunFails, DepsSatisfied;
  }

  /** Every step passes or stops the run. */
  lemma StepGoes(runner: Option<Runner>, gates: Gates, before: Results, step: Step)
    ensures (exists after :: Passes(runner, gates, before, step, after))
            || (exists stop :: Stops(runner, gates, before, step, stop))
  {
    if Finished(before, step.id) {
      assert Passes(runner, gates, before, step, before);
    } else if AsksGate(step) {
      if gates.Some? && gates.value(step) == Ok(true) {
        assert Passes(runner, gates, before, step, before[step.id := StepResult(step.id, Complete, 0, None, "")]);
      } else {
        var why := if gates.None? then "no gate evaluator"
                   else if gates.value(step).Err? then gates.value(step).error else "gate not passed";
        assert Stops(runner, gates, before, step, Waits(why));
      }
    } else if runner.None? {
      assert Stops(runner, gates, before, step, Fails(0, "no runner configured", "no runner"));
    } else {
      RunGoes(runner.value, before, step);
      hide RunPasses, RunFails;
      if after :| RunPasses(runner.value, before, step, after) {
        assert Passes(runner, gates, before, step, after);
      } else if attempts, reason :| RunFails(runner.value, before, step, attempts, reason) {
        assert Stops(runner, gates, before, step, Fails(attempts, reason, reason));
      } else {
        assert Stops(runner, gates, before, step, Crashes);
      }
    }
  }

  lemma RunGoes(runner: Runner, before: Results, step: Step)
    ensures || (exists after :: RunPasses(runner, before, step, after))
            || (exists attempts, reason :: RunFails(runner, before, step, attempts, reason))
            || (Recorded(before, step.id) >= Allowed(step)
                && (Undoes(runner, step) ==> Undo(runner, before, step).None?))
  {
    var id, a, max := step.id, Recorded(before, step.id), Allowed(step);
    HowItGoes(runner, step, a);
    if a >= max {
      if Undoes(runner, step) && Undo(runner, before, step).Some? {
        assert RunFails(runner, before, step, a, Undo(runner, before, step).value);
      }
    } else if n :| SucceedsAt(runner, step, a, n) {
      var after := before[id := StepResult(id, Complete, n, Some(runner.run(step, n).value), "")];
      assert RunPasses(runner, before, step, after);
    } else {
      var error :| FailsWith(runner, step, a, error);
      if step.onFailure == Skip {
        assert RunPasses(runner, before, step, before[id := StepResult(id, Skipped, max, None, error)]);
      } else if !Undoes(runner, step) {
        assert RunFails(runner, before, step, max, error);
      } else if Undo(runner, before, step).None? {
        assert RunPasses(runner, before, step, before[id := StepResult(id, Compensated, max, None, error)]);
      } else {
        assert RunFails(runner, before, step, max, Undo(runner, before, step).value);
      }
    }
  }

  /** The calls a step takes: its attempts up to the first success or the last one
      allowed, then its undo if they all failed and it is to be undone. */
  lemma CallsExactly(runner: Runner, before: Results, step: Step)
    ensures var a, log := Recorded(before, step.id), RunPolicy(Some(runner), before, step).log;
            var undone := if Undoes(runner, step) then [Undone(step.id)] else [];
            && (forall n :: SucceedsAt(runner, step, a, n) ==> log == AttemptLog(step.id, a, n - a))
            && (forall error :: FailsWith(runner, step, a, error) ==>
                  log == AttemptLog(step.id, a, Allowed(step) - a) + undone)
            && (a >= Allowed(step) ==> log == undone)
  {
    var a := Recorded(before, step.id);
    AllowedIsMax(step);
    forall n | SucceedsAt(runner, step, a, n)
      ensures RunPolicy(Some(runner), before, step).log == AttemptLog(step.id, a, n - a)
    {
      TriesUntil(runner, step, a, n, None);
      hide TryFrom;
    }
    forall error | FailsWith(runner, step, a, error)
      ensures RunPolicy(Some(runner), before, step).log ==
              AttemptLog(step.id, a, Allowed(step) - a) + if Undoes(runner, step) then [Undone(step.id)] else []
    {
      TriesAll(runner, step, a, error, None);
      hide TryFrom;
    }
    if a >= Allowed(step) {
      TriesNone(runner, step, a);
    }
    hide TryFrom, SucceedsAt, FailsWith;
  }

  // ----- whole runs

  /** The results between the first steps of the plan's order, each of which passed. */
  ghost predicate History(runner: Option<Runner>, gates: Gates, plan: Plan, rs: seq<Results>) {
    && 0 < |rs| <= |plan.order| + 1
    && forall i :: 0 <= i < |rs| - 1 ==>
         plan.order[i] in plan.steps && Passes(runner, gates, rs[i], plan.steps[plan.order[i]], rs[i + 1])
  }

  /** The history goes through the whole plan, or to a step that stops the run. */
  ghost predicate IsOver(runner: Option<Runner>, gates: Gates, plan: Plan, rs: seq<Results>, stop: Option<Stop>)
    requires History(runner, gates, plan, rs)
  {
    var m := |rs| - 1;
    if m == |plan.order| then stop.None?
    else
      stop.Some? && plan.order[m] in plan.steps && Stops(runner, gates, rs[m], plan.steps[plan.order[m]], stop.value)
  }

  function PriorResults(prior: Option<RunState>): Results {
    if prior.None? then map[] else prior.value.results
  }

  /** What the caller of a run gets: results and status where the history ends. */
  ghost predicate Answers(plan: Plan, prior: Option<RunState>, last: Results, m: nat, stop: Option<Stop>, o: Outcome)
    requires m < |plan.order| || stop.None?
  {
    match stop
    case None => o.Returned? && o.error.None? && o.state.status == RunComplete && o.state.results == last
    case Some(Waits(why)) =>
      && o.Returned? && o.error == Some(AwaitingApproval(plan.order[m], why)) && o.state.status == RunAwaitingApproval
      && Enters(last, o.state.results, plan.order[m], StepState.AwaitingGate, 0, None, why)
    case Some(Fails(attempts, reason, error)) =>
      && o.Returned? && o.error == Some(StepFailed(plan.order[m], error)) && o.state.status == RunFailed
      && Enters(last, o.state.results, plan.order[m], Failed, attempts, None, reason)
    case Some(Crashes) => o.Crashed?
  }

  /** Where the state of a run came from: the plan, or the state before. */
  predicate Carries(plan: Plan, prior: Option<RunState>, s: RunState) {
    match prior
    case None => s.workflowId == plan.workflowId && s.version == plan.version && s.order == plan.order
    case Some(p) =>
      && s.workflowId == (if p.workflowId == "" then plan.workflowId else p.workflowId)
      && s.version == (if p.version == "" then plan.version else p.version)
      && s.order == p.order
  }

  lemma {:induction false} FromHistory(runner: Option<Runner>, gates: Gates, plan: Plan, rs: seq<Results>,
      stop: Option<Stop>, k: nat)
    requires PlanReady(plan) && History(runner, gates, plan, rs) && IsOver(runner, gates, plan, rs, stop)
    requires k < |rs| && PrefixTerminal(plan, rs[k], k)
    ensures var m := |rs| - 1;
            var end := RunFrom(runner, gates, plan, k, rs[k]);
            if stop.None? then end.Advance? && end.results == rs[m]
            else ShowsStop(rs[m], plan.order[m], stop.value, end)
    decreases |rs| - k
  {
    var m := |rs| - 1;
    if k < |plan.order| {
      OrderFacts(plan, k);
      DepsHold(plan, k, rs[k]);
      var id := plan.order[k];
      hide Stops, Passes, ShowsStop, DepsSatisfied;
      if k < m {
        assert Passes(runner, gates, rs[k], plan.steps[id], rs[k + 1]);
        PassDecides(runner, gates, plan, rs[k], id, rs[k + 1]);
        StepFacts(runner, gates, plan, rs[k], id);
        PrefixGrows(plan, rs[k], rs[k + 1], k);
        FromHistory(runner, gates, plan, rs, stop, k + 1);
      } else {
        StopDecides(runner, gates, plan, rs[k], id, stop.value);
      }
      hide StepAt, History, IsOver, PlanReady, PrefixTerminal, Stops, Passes;
    }
  }

  lemma PrefixGrows(plan: Plan, a: Results, b: Results, k: nat)
    requires PlanReady(plan) && k < |plan.order| && PrefixTerminal(plan, a, k)
    requires SameBut(a, b, plan.order[k]) && TerminalIn(b, plan.order[k])
    ensures PrefixTerminal(plan, b, k + 1)
  {
  }

  /** A run from any prior state is decided by its history: it completes, waits, fails
      or crashes exactly where and as the rules for steps say. */
  lemma HistoryDecides(runner: Option<Runner>, gates: Gates, plan: Plan, prior: Option<RunState>, rs: seq<Results>,
      stop: Option<Stop>)
    requires PlanReady(plan) && History(runner, gates, plan, rs) && IsOver(runner, gates, plan, rs, stop)
    requires rs[0] == PriorResults(prior)
    ensures var o := RunResult(runner, gates, plan, prior);
            && Answers(plan, prior, rs[|rs| - 1], |rs| - 1, stop, o)
            && (o.Returned? ==> Carries(plan, prior, o.state))
  {
    assert 0 < |rs| && (|rs| - 1 < |plan.order| || stop.None?);
    hide RunFrom, History, IsOver, ShowsStop, Enters;
    FromHistory(runner, gates, plan, rs, stop, 0);
    StopAnswers(plan, prior, rs[|rs| - 1], |rs| - 1, stop, RunFrom(runner, gates, plan, 0, rs[0]));
  }

  lemma StopAnswers(plan: Plan, prior: Option<RunState>, last: Results, m: nat, stop: Option<Stop>, end: End)
    requires m < |plan.order| || stop.None?
    requires if stop.None? then end.Advance? && end.results == last
             else ShowsStop(last, plan.order[m], stop.value, end)
    ensures Answers(plan, prior, last, m, stop, OutcomeOf(Start(plan, prior), end))
  {
    hide Start;
  }

  lemma HistoryGrows(runner: Option<Runner>, gates: Gates, plan: Plan, rs: seq<Results>, after: Results)
    requires History(runner, gates, plan, rs) && |rs| <= |plan.order| && plan.order[|rs| - 1] in plan.steps
    requires Passes(runner, gates, rs[|rs| - 1], plan.steps[plan.order[|rs| - 1]], after)
    ensures History(runner, gates, plan, rs + [after]) && |rs + [after]| == |rs| + 1 && (rs + [after])[0] == rs[0]
  {
    hide Passes;
    var longer := rs + [after];
    forall i | 0 <= i < |longer| - 1 ensures longer[i] == rs[i] {}
  }

  /** And every run has a history. */
  lemma {:induction false} SomeHistory(runner: Option<Runner>, gates: Gates, plan: Plan, rs: seq<Results>)
    returns (whole: seq<Results>, stop: Option<Stop>)
    requires PlanReady(plan) && History(runner, gates, plan, rs)
    ensures History(runner, gates, plan, whole) && IsOver(runner, gates, plan, whole, stop) && whole[0] == rs[0]
    decreases |plan.order| + 1 - |rs|
  {
    var m := |rs| - 1;
    if m == |plan.order| {
      whole, stop := rs, None;
    } else {
      OrderFacts(plan, m);
      var step := plan.steps[plan.order[m]];
      StepGoes(runner, gates, rs[m], step);
      hide Passes, Stops;
      if after :| Passes(runner, gates, rs[m], step, after) {
        HistoryGrows(runner, gates, plan, rs, after);
        hide History, IsOver;
        whole, stop := SomeHistory(runner, gates, plan, rs + [after]);
      } else {
        var s :| Stops(runner, gates, rs[m], step, s);
        whole, stop := rs, Some(s);
      }
    }
  }

  /** So a run fails exactly when its history comes to a step that fails. */
  lemma RunFailsExactly(runner: Option<Runner>, gates: Gates, plan: Plan, prior: Option<RunState>)
    requires PlanReady(plan)
    ensures var o := RunResult(runner, gates, plan, prior);
            o.Returned? && o.state.status == RunFailed <==>
            exists rs, stop :: ComesTo(runner, gates, plan, prior, rs, Some(stop)) && stop.Fails?
    ensures var o := RunResult(runner, gates, plan, prior);
            o.Returned? && o.state.status == RunComplete <==>
            exists rs :: ComesTo(runner, gates, plan, prior, rs, None)
  {
    var first := [PriorResults(prior)];
    var rs, stop := SomeHistory(runner, gates, plan, first);
    assert ComesTo(runner, gates, plan, prior, rs, stop);
    HistoryDecides(runner, gates, plan, prior, rs, stop);
    hide History, IsOver, RunResult;
    forall rs', stop' | ComesTo(runner, gates, plan, prior, rs', stop')
      ensures Answers(plan, prior, rs'[|rs'| - 1], |rs'| - 1, stop', RunResult(runner, gates, plan, prior))
    {
      HistoryDecides(runner, gates, plan, prior, rs', stop');
    }
  }

  ghost predicate ComesTo(runner: Option<Runner>, gates: Gates, plan: Plan, prior: Option<RunState>, rs: seq<Results>,
      stop: Option<Stop>) {
    History(runner, gates, plan, rs) && IsOver(runner, gates, plan, rs, stop) && rs[0] == PriorResults(prior)
  }
}
