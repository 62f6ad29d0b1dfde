/**
 A run of the sifter with its human approvals
 (sifter/src/aa_sifter/app.py, sifter/src/aa_sifter/routing/budget.py,
 sifter/src/aa_sifter/routing/escalation.py, sifter/src/aa_sifter/decisions/gate.py).
 Humans, models and the verifier answer from an environment that may look at
 everything that happened so far.
 */
module ApprovalProtocol {
  import opened Outcomes
  import opened RoutingPolicy

  datatype Action =
    | Approve
    | Reject
    | Modify
    | ChooseOption
    | MoreLocalAnalysis
    | AllowExpertAnalysis
    | ContinueCurrent
    | StopTask

  datatype Decision = Decision(action: Action, selected: seq<string>, constraints: seq<string>)

  predicate Authorized(a: Action) {
    a.Approve? || a.ChooseOption? || a.AllowExpertAnalysis? || a.ContinueCurrent?
  }

  datatype Stage = Analysis | Implementation | Escalation

  datatype Purpose = ExpertAnalysis | CloudExecute | CloudPlan | LocalExecute | CloudReview | CloudEscalation

  /** What happened: a human was asked, a model was called (with the human
      constraints in its messages), an answer was verified. */
  datatype Event =
    | Asked(stage: Stage, action: Action)
    | Called(tier: Tier, purpose: Purpose, constraints: seq<string>)
    | Verified(passed: bool)

  datatype Reply = Answer(tokens: nat, cost: real) | Fails

  datatype Env = Env(
    decide: (seq<Event>, Stage) -> Decision,
    estimate: (seq<Event>, Purpose) -> (nat, real),
    reply: seq<Event> -> Reply,
    passes: seq<Event> -> bool)

  datatype Config = Config(
    cloudAllowed: bool,
    localIsCloud: bool,
    localMaxRetries: int,
    routingPolicy: string,
    askSignificant: bool)

  datatype Budget = Budget(maxCalls: int, maxTokens: int, maxCost: real, calls: nat, tokens: nat, cost: real,
      exhausted: bool)

  predicate WouldExceed(b: Budget, tokens: nat, cost: real) {
    b.calls + 1 > b.maxCalls || b.tokens + tokens > b.maxTokens || b.cost + cost > b.maxCost
  }

  function Recorded(b: Budget, r: Reply): Budget
    requires r.Answer?
  {
    b.(calls := b.calls + 1, tokens := b.tokens + r.tokens, cost := b.cost + r.cost)
  }

  datatype St = St(trace: seq<Event>, budget: Budget)

  // ----- reference run

  datatype CallResult = Got | ProviderFailed | OverBudget

  /** _call_tier: what leaves the machine needs the cloud to be allowed, and the
      expert tier needs budget. */
  function CallTier(cfg: Config, env: Env, st: St, tier: Tier, purpose: Purpose,
      constraints: seq<string>): (CallResult, St) {
    if (tier == Expert || cfg.localIsCloud) && !cfg.cloudAllowed then (ProviderFailed, st)
    else if tier == Expert && (var e := env.estimate(st.trace, purpose); WouldExceed(st.budget, e.0, e.1)) then
      (OverBudget, st.(budget := st.budget.(exhausted := true)))
    else
      var called := st.(trace := st.trace + [Called(tier, purpose, constraints)]);
      var r := env.reply(called.trace);
      if r.Fails? then (ProviderFailed, called)
      else (Got, if tier == Expert then called.(budget := Recorded(st.budget, r)) else called)
  }

  function Ask(env: Env, st: St, stage: Stage): (Decision, St) {
    var d := env.decide(st.trace, stage);
    (d, st.(trace := st.trace + [Asked(stage, d.action)]))
  }

  function Verify(env: Env, st: St): (bool, St) {
    var passed := env.passes(st.trace);
    (passed, st.(trace := st.trace + [Verified(passed)]))
  }

  function SelectedOptions(selected: seq<string>): seq<string> {
    if selected == [] then []
    else SelectedOptions(selected[..|selected| - 1]) + ["Selected option " + selected[|selected| - 1]]
  }

  /** How the major-decision stage ends. */
  datatype Handled =
    | Stopped
    | Proceed(constraints: seq<string>, allowCloud: bool, forceLocal: bool)
    | Broke(how: CallResult)

  function HandleMajor(cfg: Config, env: Env, st: St): (Handled, St) {
    var (d, asked) := Ask(env, st, Analysis);
    match d.action
    case StopTask => (Stopped, asked)
    case Reject => (Stopped, asked)
    case Modify => (Stopped, asked)
    case MoreLocalAnalysis => (Proceed(d.constraints, false, true), asked)
    case ContinueCurrent => (Proceed(d.constraints, false, true), asked)
    case Approve => (Proceed(d.constraints + SelectedOptions(d.selected), true, false), asked)
    case ChooseOption => (Proceed(d.constraints + SelectedOptions(d.selected), true, false), asked)
    case AllowExpertAnalysis => AfterAnalysis(cfg, env, asked, d.constraints)
  }

  /** The permitted analysis and the separate question whether to implement it. */
  function AfterAnalysis(cfg: Config, env: Env, st: St, constraints: seq<string>): (Handled, St) {
    var (got, analysed) := CallTier(cfg, env, st, Expert, ExpertAnalysis, constraints);
    if !got.Got? then (Broke(got), analysed)
    else
      var (d, asked) := Ask(env, analysed, Implementation);
      if d.action.Approve? || d.action.ChooseOption? then (Proceed(constraints + d.constraints, true, false), asked)
      else (Stopped, asked)
  }

  datatype Executed = Finished(passed: bool, failedAttempts: nat) | Crashed(how: CallResult)

  function ExecuteCloud(cfg: Config, env: Env, st: St, constraints: seq<string>): (Executed, St) {
    var (got, called) := CallTier(cfg, env, st, Expert, CloudExecute, constraints);
    if !got.Got? then (Crashed(got), called)
    else
      var (passed, verified) := Verify(env, called);
      (Finished(passed, 0), verified)
  }

  /** Plan, execute locally, and review what passed; a review over budget is
      skipped. The constraints go into the execution messages only. */
  function ExecuteHybrid(cfg: Config, env: Env, st: St, constraints: seq<string>): (Executed, St) {
    var (planned, s1) := CallTier(cfg, env, st, Expert, CloudPlan, []);
    if !planned.Got? then (Crashed(planned), s1)
    else
      var (executed, s2) := CallTier(cfg, env, s1, Local, LocalExecute, constraints);
      if !executed.Got? then (Crashed(executed), s2)
      else
        var (passed, s3) := Verify(env, s2);
        if !passed then (Finished(false, 1), s3)
        else
          var (reviewed, s4) := CallTier(cfg, env, s3, Expert, CloudReview, []);
          if reviewed.ProviderFailed? then (Crashed(reviewed), s4) else (Finished(true, 0), s4)
  }

  /** Local attempts until one passes; a failing provider counts as an attempt. */
  function ExecuteLocal(cfg: Config, env: Env, st: St, constraints: seq<string>, left: nat, failed: nat): (Executed, St)
    decreases left
  {
    if left == 0 then (Finished(false, failed), st)
    else
      var (got, called) := CallTier(cfg, env, st, Local, LocalExecute, constraints);
      if !got.Got? then ExecuteLocal(cfg, env, called, constraints, left - 1, failed + 1)
      else
        var (passed, verified) := Verify(env, called);
        if passed then (Finished(true, failed), verified)
        else ExecuteLocal(cfg, env, verified, constraints, left - 1, failed + 1)
  }

  function Attempts(cfg: Config): nat {
    if cfg.localMaxRetries + 1 > 0 then cfg.localMaxRetries + 1 else 0
  }

  function ExecuteRoute(cfg: Config, env: Env, st: St, kind: RouteKind, constraints: seq<string>): (Executed, St) {
    match kind
    case CloudRoute => ExecuteCloud(cfg, env, st, constraints)
    case HybridRoute => ExecuteHybrid(cfg, env, st, constraints)
    case LocalRoute => ExecuteLocal(cfg, env, st, constraints, Attempts(cfg), 0)
  }

  datatype Escalated = Resolved(resolved: bool) | Failed(how: CallResult)

  /** After failed verification: an architectural failure of a major task goes back
      to the human unless a standing grant covers it; whatever is allowed then may
      call the expert once. */
  function Escalate(cfg: Config, env: Env, st: St, level: Level, architectureLike: bool, constraints: seq<string>,
      allowed: bool, grant: bool): (Escalated, St) {
    if architectureLike && IsMajor(level) && !grant then
      var (d, asked) := Ask(env, st, Escalation);
      if !Authorized(d.action) then (Resolved(false), asked)
      else EscalateIf(cfg, env, asked, d.action.AllowExpertAnalysis?, constraints)
    else EscalateIf(cfg, env, st, allowed, constraints)
  }

  function EscalateIf(cfg: Config, env: Env, st: St, allowed: bool, constraints: seq<string>): (Escalated, St) {
    if !allowed then (Resolved(false), st)
    else
      var (got, called) := CallTier(cfg, env, st, Expert, CloudEscalation, constraints);
      match got
      case Got => (Resolved(true), called)
      case OverBudget => (Resolved(false), called)
      case ProviderFailed => (Failed(got), called)
  }

  /** What a run is given besides its environment. */
  datatype Task = Task(level: Level, assessment: Assessment, architectureLike: bool, policy: string, grant: bool)

  datatype Status = StoppedByHuman | Completed | FailedRun | Blocked | ProviderErrorRun

  /** Approval is asked at major and critical level always, at significant level on
      request. */
  predicate NeedsApproval(cfg: Config, level: Level) {
    IsMajor(level) || (level.Significant? && cfg.askSignificant)
  }

  function EndedBy(how: CallResult): Status {
    if how.OverBudget? then Blocked else ProviderErrorRun
  }

  /** An empty policy name falls back to the configured one. */
  function PolicyName(cfg: Config, task: Task, forceLocal: bool): string {
    if forceLocal || !cfg.cloudAllowed then "local_only"
    else if task.policy == "" then cfg.routingPolicy else task.policy
  }

  function CloudBudget(b: Budget): bool {
    b.calls < b.maxCalls && !b.exhausted
  }

  /** Routing, execution and escalation. */
  function Perform(cfg: Config, env: Env, st: St, task: Task, constraints: seq<string>, allowCloud: bool,
      forceLocal: bool): (Status, St) {
    var policy := PolicyName(cfg, task, forceLocal);
    var route := Decide(Coerce(policy), task.assessment, 0, CloudBudget(st.budget));
    var (done, executed) := ExecuteRoute(cfg, env, st, route.kind, constraints);
    match done
    case Crashed(how) => (EndedBy(how), executed)
    case Finished(true, _) => (Completed, executed)
    case Finished(false, _) =>
      var allowed := policy != "local_only" && (allowCloud || !IsMajor(task.level) || task.grant);
      var (end, after) :=
          Escalate(cfg, env, executed, task.level, task.architectureLike, constraints, allowed, task.grant);
      match end
      case Failed(how) => (EndedBy(how), after)
      case Resolved(resolved) => (if resolved then Completed else FailedRun, after)
  }

  function Run(cfg: Config, env: Env, task: Task, budget: Budget): (Status, St) {
    var start := St([], budget);
    if !NeedsApproval(cfg, task.level) then Perform(cfg, env, start, task, [], false, false)
    else
      var (handled, st) := HandleMajor(cfg, env, start);
      match handled
      case Stopped => (StoppedByHuman, st)
      case Broke(how) => (EndedBy(how), st)
      case Proceed(constraints, allowCloud, forceLocal) =>
          Perform(cfg, env, st, task, constraints, allowCloud, forceLocal)
  }

  // ----- the code

  class Sifter {
    const cfg: Config
    const env: Env
    var trace: seq<Event>
    var budget: Budget

    function View(): St
      reads this
    {
      St(trace, budget)
    }

    constructor (cfg: Config, env: Env, budget: Budget)
      ensures this.cfg == cfg && this.env == env && View() == St([], budget)
    {
      this.cfg, this.env := cfg, env;
      trace, this.budget := [], budget;
    }

    method Call(tier: Tier, purpose: Purpose, constraints: seq<string>) returns (r: CallResult)
      modifies this
      ensures (r, View()) == CallTier(cfg, env, old(View()), tier, purpose, constraints)
    {
      var outbound := tier == Expert || cfg.localIsCloud;
      if outbound {
        if !cfg.cloudAllowed {
          return ProviderFailed;
        }
      }
      if tier == Expert {
        var estimate := env.estimate(trace, purpose);
        if WouldExceed(budget, estimate.0, estimate.1) {
          budget := budget.(exhausted := true);
          return OverBudget;
        }
      }
      trace := trace + [Called(tier, purpose, constraints)];
      var reply := env.reply(trace);
      if reply.Fails? {
        return ProviderFailed;
      }
      if tier == Expert {
        budget := Recorded(budget, reply);
      }
      return Got;
    }

    method RequireApproval(stage: Stage) returns (d: Decision)
      modifies this`trace
      ensures (d, View()) == Ask(env, old(View()), stage)
    {
      d := env.decide(trace, stage);
      trace := trace + [Asked(stage, d.action)];
    }

    method VerifyAnswer() returns (passed: bool)
      modifies this`trace
      ensures (passed, View()) == Verify(env, old(View()))
    {
      passed := env.passes(trace);
      trace := trace + [Verified(passed)];
    }

    method HandleMajorDecision() returns (r: Handled)
      modifies this
      ensures (r, View()) == HandleMajor(cfg, env, old(View()))
    {
      hide CallTier;
      var decision := RequireApproval(Analysis);
      if decision.action == StopTask || decision.action == Reject {
        return Stopped;
      }
      if decision.action == Modify {
        return Stopped;
      }
      if decision.action == MoreLocalAnalysis {
        return Proceed(decision.constraints, false, true);
      }
      if decision.action == ContinueCurrent {
        return Proceed(decision.constraints, false, true);
      }
      var constraints := decision.constraints;
      if decision.action == Approve || decision.action == ChooseOption {
        assert constraints == constraints + SelectedOptions([]);
        if |decision.selected| > 0 {
          for i := 0 to |decision.selected|
            invariant constraints == decision.constraints + SelectedOptions(decision.selected[..i])
          {
            assert decision.selected[..i + 1][..i] == decision.selected[..i];
            constraints := constraints + ["Selected option " + decision.selected[i]];
          }
          assert decision.selected[..|decision.selected|] == decision.selected;
        }
        return Proceed(constraints, true, false);
      }
      var got := Call(Expert, ExpertAnalysis, constraints);
      if !got.Got? {
        return Broke(got);
      }
      var second := RequireApproval(Implementation);
      if second.action != Approve && second.action != ChooseOption {
        return Stopped;
      }
      return Proceed(constraints + second.constraints, true, false);
    }

    method Execute(kind: RouteKind, constraints: seq<string>) returns (r: Executed)
      modifies this
      ensures (r, View()) == ExecuteRoute(cfg, env, old(View()), kind, constraints)
    {
      if kind == CloudRoute {
        var got := Call(Expert, CloudExecute, constraints);
        if !got.Got? {
          return Crashed(got);
        }
        var passed := VerifyAnswer();
        return Finished(passed, 0);
      }
      if kind == HybridRoute {
        r := ExecuteWithPlan(constraints);
        return;
      }
      r := ExecuteWithRetries(constraints);
    }

    method ExecuteWithPlan(constraints: seq<string>) returns (r: Executed)
      modifies this
      ensures (r, View()) == ExecuteHybrid(cfg, env, old(View()), constraints)
    {
      hide CallTier;
      var planned := Call(Expert, CloudPlan, []);
      if !planned.Got? {
        return Crashed(planned);
      }
      var executed := Call(Local, LocalExecute, constraints);
      if !executed.Got? {
        return Crashed(executed);
      }
      var passed := VerifyAnswer();
      if !passed {
        return Finished(false, 1);
      }
      var reviewed := Call(Expert, CloudReview, []);
      if reviewed.ProviderFailed? {
        return Crashed(reviewed);
      }
      return Finished(true, 0);
    }

    method ExecuteWithRetries(constraints: seq<string>) returns (r: Executed)
      modifies this
      ensures (r, View()) == ExecuteLocal(cfg, env, old(View()), constraints, Attempts(cfg), 0)
    {
      hide CallTier;
      var failed := 0;
      ghost var start := View();
      for attempt := 1 to Attempts(cfg) + 1
        invariant ExecuteLocal(cfg, env, start, constraints, Attempts(cfg), 0) ==
                  ExecuteLocal(cfg, env, View(), constraints, Attempts(cfg) + 1 - attempt, failed)
      {
        var got := Call(Local, LocalExecute, constraints);
        if !got.Got? {
          failed := failed + 1;
          continue;
        }
        var passed := VerifyAnswer();
        if passed {
          return Finished(true, failed);
        }
        failed := failed + 1;
      }
      return Finished(false, failed);
    }

    method EscalateAfterFailure(level: Level, architectureLike: bool, constraints: seq<string>, allowed0: bool,
        grant: bool)
      returns (r: Escalated)
      modifies this
      ensures (r, View()) == Escalate(cfg, env, old(View()), level, architectureLike, constraints, allowed0, grant)
    {
      hide CallTier;
      var allowed := allowed0;
      var requiresApproval := architectureLike && IsMajor(level);
      if requiresApproval && !grant {
        var decision := RequireApproval(Escalation);
        if !Authorized(decision.action) {
          return Resolved(false);
        }
        allowed := decision.action == AllowExpertAnalysis;
      }
      if !allowed {
        return Resolved(false);
      }
      var got := Call(Expert, CloudEscalation, constraints);
      match got {
        case Got => return Resolved(true);
        case OverBudget => return Resolved(false);
        case ProviderFailed => return Failed(got);
      }
    }

    /** A whole run. */
    method RunTask(task: Task) returns (status: Status)
      requires trace == []
      modifies this
      ensures (status, View()) == Run(cfg, env, task, old(budget))
    {
      hide HandleMajor, ExecuteRoute, Escalate;
      var constraints: seq<string> := [];
      var allowCloud, forceLocal := false, false;
      if NeedsApproval(cfg, task.level) {
        var outcome := HandleMajorDecision();
        match outcome {
          case Stopped =>
            return StoppedByHuman;
          case Broke(how) =>
            return EndedBy(how);
          case Proceed(c, a, f) =>
            constraints, allowCloud, forceLocal := c, a, f;
        }
      }
      status := PerformTask(task, constraints, allowCloud, forceLocal);
    }

    method PerformTask(task: Task, constraints: seq<string>, allowCloud: bool, forceLocal: bool)
        returns (status: Status)
      modifies this
      ensures (status, View()) == Perform(cfg, env, old(View()), task, constraints, allowCloud, forceLocal)
    {
      hide ExecuteRoute, Escalate, Decide;
      var policy := PolicyName(cfg, task, forceLocal);
      var route := Decide(Coerce(policy), task.assessment, 0, CloudBudget(budget));
      var permitted := policy != "local_only";
      var done := Execute(route.kind, constraints);
      if done.Crashed? {
        return EndedBy(done.how);
      }
      if done.passed {
        return Completed;
      }
      var end := EscalateAfterFailure(task.level, task.architectureLike, constraints,
                                      permitted && (allowCloud || !IsMajor(task.level) || task.grant), task.grant);
      match end {
        case Failed(how) => return EndedBy(how);
        case Resolved(resolved) => return if resolved then Completed else FailedRun;
      }
    }
  }
}
