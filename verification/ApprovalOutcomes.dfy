/**
 What an approval run does next, and how it ends (sifter/src/aa_sifter/app.py,
 sifter/src/aa_sifter/routing/policy.py), read off its trace and what humans, models
 and verifier answer: each event follows the rules, and each status belongs to its own
 endings of the trace.
 */
module ApprovalOutcomes {
  import opened Outcomes
  import opened RoutingPolicy
  import opened ApprovalProtocol

  // ----- what a run was admitted to

  predicate Major(level: Level) {
    level == Level.Major || level == Critical
  }

  /** A human is asked first. */
  predicate AsksFirst(cfg: Config, task: Task) {
    Major(task.level) || (task.level == Significant && cfg.askSignificant)
  }

  /** Where routing starts in the trace, under which constraints, whether the cloud was
      allowed, and whether the work was kept local. */
  datatype Permit = Permit(at: nat, constraints: seq<string>, allowCloud: bool, forceLocal: bool)

  function Options(selected: seq<string>): seq<string> {
    seq(|selected|, i requires 0 <= i < |selected| => "Selected option " + selected[i])
  }

  function Admitted(cfg: Config, env: Env, task: Task, t: seq<Event>): Option<Permit> {
    if !AsksFirst(cfg, task) then Some(Permit(0, [], false, false))
    else if t == [] then None
    else
      var d := env.decide([], Analysis);
      match d.action
      case MoreLocalAnalysis => Some(Permit(1, d.constraints, false, true))
      case ContinueCurrent => Some(Permit(1, d.constraints, false, true))
      case Approve => Some(Permit(1, d.constraints + Options(d.selected), true, false))
      case ChooseOption => Some(Permit(1, d.constraints + Options(d.selected), true, false))
      case AllowExpertAnalysis =>
        if |t| < 3 then None
        else
          var e := env.decide(t[..2], Implementation);
          if e.action == Approve || e.action == ChooseOption
          then Some(Permit(3, d.constraints + e.constraints, true, false)) else None
      case _ => None
  }

  // ----- the route

  function PolicyInForce(cfg: Config, task: Task, p: Permit): string {
    if p.forceLocal || !cfg.cloudAllowed then "local_only"
    else if task.policy == "" then cfg.routingPolicy else task.policy
  }

  /** Budget is left for the cloud: one call is gone after an analysis. */
  predicate CloudLeft(start: Budget, p: Permit) {
    !start.exhausted && start.calls + (if p.at == 3 then 1 else 0) < start.maxCalls
  }

  /** The route, policy by policy. */
  function RouteOf(cfg: Config, task: Task, start: Budget, p: Permit): RouteKind {
    var name, able, left := PolicyInForce(cfg, task, p), task.assessment.localViable, CloudLeft(start, p);
    if name == "local_only" then LocalRoute
    else if name == "cloud_only" || name == "expert_first" then CloudRoute
    else if !left then LocalRoute
    else if name == "local_first" then if able then LocalRoute else CloudRoute
    else if name == "budget_constrained" then if able then LocalRoute else HybridRoute
    else if able && !task.assessment.requiresCloud then LocalRoute else HybridRoute
  }

  /** After a failure the expert may be called without asking. */
  predicate EscalationPermitted(cfg: Config, task: Task, p: Permit) {
    PolicyInForce(cfg, task, p) != "local_only" && (p.allowCloud || !Major(task.level) || task.grant)
  }

  predicate EscalationAsks(task: Task) {
    task.architectureLike && Major(task.level) && !task.grant
  }

  // ----- what may come next

  predicate EndsIn(t: seq<Event>, e: Event) {
    t != [] && t[|t| - 1] == e
  }

  /** The trace ends in a call for this purpose, and the model answered, or did not. */
  predicate EndsInAnswered(env: Env, t: seq<Event>, tier: Tier, purpose: Purpose) {
    t != [] && t[|t| - 1].Called? && t[|t| - 1].tier == tier && t[|t| - 1].purpose == purpose && env.reply(t).Answer?
  }

  predicate EndsInFailed(env: Env, t: seq<Event>, tier: Tier) {
    t != [] && t[|t| - 1].Called? && t[|t| - 1].tier == tier && env.reply(t).Fails?
  }

  /** The work has been tried and has not passed: the last verification failed, or on
      the local route the model did, or could not be tried at all. */
  predicate Missed(env: Env, kind: RouteKind, p: Permit, t: seq<Event>) {
    EndsIn(t, Verified(false)) || (kind == LocalRoute && (|t| == p.at || EndsInFailed(env, t, Local)))
  }

  /** The local calls for execution in a trace. */
  function Tries(t: seq<Event>): nat {
    if t == [] then 0
    else Tries(t[..|t| - 1]) + (if t[|t| - 1].Called? && t[|t| - 1].purpose == LocalExecute then 1 else 0)
  }

  /** What is called local is not, and may not be called. */
  predicate LocalBarred(cfg: Config) {
    cfg.localIsCloud && !cfg.cloudAllowed
  }

  /** The work missed and is not tried again: on the local route after the first try
      and every retry, or because the model may not be called. */
  predicate GivenUp(cfg: Config, env: Env, kind: RouteKind, p: Permit, t: seq<Event>) {
    Missed(env, kind, p, t)
    && (kind == LocalRoute ==> LocalBarred(cfg) || Tries(t) >= cfg.localMaxRetries + 1)
  }

  /** A call of an admitted run, after trace t. */
  predicate CallFollows(cfg: Config, env: Env, task: Task, kind: RouteKind, p: Permit, t: seq<Event>, tier: Tier,
      purpose: Purpose, carried: seq<string>) {
    match purpose
    case CloudExecute => tier == Expert && kind == CloudRoute && |t| == p.at && carried == p.constraints
    case CloudPlan => tier == Expert && kind == HybridRoute && |t| == p.at && carried == []
    case LocalExecute =>
      tier == Local && carried == p.constraints
      && ((kind == LocalRoute && Missed(env, kind, p, t) && Tries(t) < cfg.localMaxRetries + 1)
          || (kind == HybridRoute && EndsInAnswered(env, t, Expert, CloudPlan)))
    case CloudReview => tier == Expert && kind == HybridRoute && EndsIn(t, Verified(true)) && carried == []
    case CloudEscalation =>
      tier == Expert && carried == p.constraints
      && if EscalationAsks(task) then EndsIn(t, Asked(Escalation, AllowExpertAnalysis))
         else EscalationPermitted(cfg, task, p) && GivenUp(cfg, env, kind, p, t)
    case ExpertAnalysis => false
  }

  /** The event may come after trace t. */
  predicate Follows(cfg: Config, env: Env, task: Task, start: Budget, t: seq<Event>, e: Event) {
    var permit := Admitted(cfg, env, task, t);
    match e
    case Asked(Analysis, action) => t == [] && AsksFirst(cfg, task) && action == env.decide(t, Analysis).action
    case Called(Expert, ExpertAnalysis, carried) =>
      AsksFirst(cfg, task) && t == [Asked(Analysis, AllowExpertAnalysis)]
      && carried == env.decide([], Analysis).constraints
    case Asked(Implementation, action) =>
      |t| == 2 && EndsInAnswered(env, t, Expert, ExpertAnalysis) && action == env.decide(t, Implementation).action
    case Verified(passed) =>
      (EndsInAnswered(env, t, Expert, CloudExecute) || EndsInAnswered(env, t, Local, LocalExecute))
      && passed == env.passes(t)
    case Asked(Escalation, action) =>
      permit.Some? && |t| >= permit.value.at && EscalationAsks(task)
      && GivenUp(cfg, env, RouteOf(cfg, task, start, permit.value), permit.value, t)
      && action == env.decide(t, Escalation).action
    case Called(tier, purpose, carried) =>
      permit.Some? && |t| >= permit.value.at
      && CallFollows(cfg, env, task, RouteOf(cfg, task, start, permit.value), permit.value, t, tier, purpose, carried)
  }

  ghost predicate AllFollow(cfg: Config, env: Env, task: Task, start: Budget, t: seq<Event>) {
    forall i :: 0 <= i < |t| ==> Follows(cfg, env, task, start, t[..i], t[i])
  }

  lemma OneMoreFollows(cfg: Config, env: Env, task: Task, start: Budget, t: seq<Event>, e: Event)
    requires AllFollow(cfg, env, task, start, t) && Follows(cfg, env, task, start, t, e)
    ensures AllFollow(cfg, env, task, start, t + [e])
  {
    hide Follows;
    forall i | 0 <= i < |t| + 1 ensures Follows(cfg, env, task, start, (t + [e])[..i], (t + [e])[i]) {
      if i < |t| {
        assert (t + [e])[..i] == t[..i];
      } else {
        assert (t + [e])[..i] == t;
      }
    }
  }

  // ----- how a run ends

  /** A call with this estimate would pass some limit. */
  predicate Unaffordable(env: Env, b: Budget, t: seq<Event>, purpose: Purpose) {
    var estimate := env.estimate(t, purpose);
    b.calls >= b.maxCalls || b.tokens + estimate.0 > b.maxTokens || b.cost + estimate.1 > b.maxCost
  }

  /** The human ended the run. */
  predicate HumanStops(t: seq<Event>) {
    t != [] && t[|t| - 1].Asked?
    && match t[|t| - 1].stage
       case Analysis => t[|t| - 1].action in {StopTask, Reject, Modify}
       case Implementation => t[|t| - 1].action !in {Approve, ChooseOption}
       case Escalation => false
  }

  /** The human or the limits are no reason: routing was reached, under this permit and
      with this route. */
  predicate Routed(cfg: Config, env: Env, task: Task, start: Budget, t: seq<Event>, p: Permit, kind: RouteKind) {
    Admitted(cfg, env, task, t) == Some(p) && |t| >= p.at && RouteOf(cfg, task, start, p) == kind
  }

  /** The answer passed verification, with no review due or affordable, or the expert
      reviewed or replaced it. */
  ghost predicate Succeeds(cfg: Config, env: Env, task: Task, start: Budget, end: St) {
    var t := end.trace;
    || EndsInAnswered(env, t, Expert, CloudReview)
    || EndsInAnswered(env, t, Expert, CloudEscalation)
    || (EndsIn(t, Verified(true))
        && exists p, kind ::
          Routed(cfg, env, task, start, t, p, kind)
          && (kind == HybridRoute ==> Unaffordable(env, end.budget, t, CloudReview)))
  }

  /** An analysis, a plan or an execution by the expert is due, and unaffordable. */
  ghost predicate StopsForBudget(cfg: Config, env: Env, task: Task, start: Budget, end: St) {
    var t := end.trace;
    || (cfg.cloudAllowed && t == [Asked(Analysis, AllowExpertAnalysis)]
        && Unaffordable(env, end.budget, t, ExpertAnalysis))
    || (exists p, kind ::
          && Routed(cfg, env, task, start, t, p, kind) && |t| == p.at
          && ((kind == CloudRoute && Unaffordable(env, end.budget, t, CloudExecute))
              || (kind == HybridRoute && Unaffordable(env, end.budget, t, CloudPlan))))
  }

  /** A call that ends the run was refused or failed: any expert call, or local work
      under the expert's plan. */
  ghost predicate StopsForProvider(cfg: Config, env: Env, task: Task, start: Budget, t: seq<Event>) {
    || (!cfg.cloudAllowed && (t == [Asked(Analysis, AllowExpertAnalysis)]
                              || EndsIn(t, Asked(Escalation, AllowExpertAnalysis))))
    || EndsInFailed(env, t, Expert)
    || (EndsInFailed(env, t, Local) && exists p :: Routed(cfg, env, task, start, t, p, HybridRoute))
  }

  /** The work did not pass and the expert is not called in its place: the human asked
      does not allow it, or, with nobody to ask, it is not permitted; or it is
      unaffordable. */
  ghost predicate StaysFailed(cfg: Config, env: Env, task: Task, start: Budget, end: St) {
    var t := end.trace;
    exists p, kind ::
      && Routed(cfg, env, task, start, t, p, kind)
      && (if t != [] && t[|t| - 1].Asked? && t[|t| - 1].stage == Escalation then
            t[|t| - 1].action == AllowExpertAnalysis ==>
              cfg.cloudAllowed && Unaffordable(env, end.budget, t, CloudEscalation)
          else
            && GivenUp(cfg, env, kind, p, t) && !EscalationAsks(task)
            && (EscalationPermitted(cfg, task, p) ==> Unaffordable(env, end.budget, t, CloudEscalation)))
  }

  ghost predicate EndsWith(cfg: Config, env: Env, task: Task, start: Budget, status: Status, end: St) {
    match status
    case StoppedByHuman => HumanStops(end.trace)
    case Completed => Succeeds(cfg, env, task, start, end)
    case Blocked => StopsForBudget(cfg, env, task, start, end)
    case ProviderErrorRun => StopsForProvider(cfg, env, task, start, end.trace)
    case FailedRun => StaysFailed(cfg, env, task, start, end)
  }

  // ----- one step

  lemma RoutedOn(cfg: Config, env: Env, task: Task, start: Budget, t: seq<Event>, e: Event, p: Permit, kind: RouteKind)
    requires Routed(cfg, env, task, start, t, p, kind)
    ensures Routed(cfg, env, task, start, t + [e], p, kind)
  {
    hide RouteOf, AsksFirst;
    if |t| >= 2 {
      assert (t + [e])[..2] == t[..2];
    }
  }

  lemma TriesOn(t: seq<Event>, e: Event)
    ensures Tries(t + [e]) == Tries(t) + (if e.Called? && e.purpose == LocalExecute then 1 else 0)
  {
    assert (t + [e])[..|t|] == t;
  }

  /** Where a run is after routing. */
  ghost predicate At(cfg: Config, env: Env, task: Task, start: Budget, st: St, p: Permit, kind: RouteKind) {
    AllFollow(cfg, env, task, start, st.trace) && Routed(cfg, env, task, start, st.trace, p, kind)
  }

  lemma CallGoesOn(cfg: Config, env: Env, task: Task, start: Budget, st: St, p: Permit, kind: RouteKind, tier: Tier,
      purpose: Purpose, carried: seq<string>)
    requires At(cfg, env, task, start, st, p, kind)
    requires CallFollows(cfg, env, task, kind, p, st.trace, tier, purpose, carried)
    ensures var after := CallTier(cfg, env, st, tier, purpose, carried).1;
            At(cfg, env, task, start, after, p, kind)
  {
    hide AllFollow, RouteOf, Admitted, GivenUp, Missed;
    var e := Called(tier, purpose, carried);
    assert purpose != ExpertAnalysis;
    assert Follows(cfg, env, task, start, st.trace, e);
    hide Follows, Routed;
    OneMoreFollows(cfg, env, task, start, st.trace, e);
    RoutedOn(cfg, env, task, start, st.trace, e, p, kind);
  }

  lemma VerifyGoesOn(cfg: Config, env: Env, task: Task, start: Budget, st: St, p: Permit, kind: RouteKind)
    requires At(cfg, env, task, start, st, p, kind)
    requires EndsInAnswered(env, st.trace, Expert, CloudExecute) || EndsInAnswered(env, st.trace, Local, LocalExecute)
    ensures At(cfg, env, task, start, Verify(env, st).1, p, kind)
  {
    hide AllFollow, RouteOf, Admitted, EndsInAnswered;
    var e := Verified(env.passes(st.trace));
    assert Follows(cfg, env, task, start, st.trace, e);
    hide Follows, Routed;
    OneMoreFollows(cfg, env, task, start, st.trace, e);
    RoutedOn(cfg, env, task, start, st.trace, e, p, kind);
  }

  /** How a call ends. */
  lemma CallEnds(cfg: Config, env: Env, st: St, tier: Tier, purpose: Purpose, carried: seq<string>)
    ensures var (r, after) := CallTier(cfg, env, st, tier, purpose, carried);
            var t := after.trace;
            && (r.Got? ==> t == st.trace + [Called(tier, purpose, carried)] && EndsInAnswered(env, t, tier, purpose))
            && (r.OverBudget? ==> tier == Expert && t == st.trace && cfg.cloudAllowed
                                  && Unaffordable(env, after.budget, t, purpose))
            && (r.ProviderFailed? ==>
                  || (t == st.trace && after == st && !cfg.cloudAllowed && (tier == Local ==> cfg.localIsCloud))
                  || (t == st.trace + [Called(tier, purpose, carried)] && EndsInFailed(env, t, tier)
                      && (tier == Local ==> !LocalBarred(cfg))))
            && (r.Got? && tier == Local ==> !LocalBarred(cfg))
  {
  }

  // ----- the work

  /** How the work ends: what is in the trace then. */
  ghost predicate DoneWith(cfg: Config, env: Env, task: Task, start: Budget, done: Executed, end: St, p: Permit,
      kind: RouteKind) {
    && At(cfg, env, task, start, end, p, kind)
    && (match done
        case Crashed(OverBudget) => StopsForBudget(cfg, env, task, start, end)
        case Crashed(ProviderFailed) => StopsForProvider(cfg, env, task, start, end.trace)
        case Crashed(Got) => false
        case Finished(true, _) => Succeeds(cfg, env, task, start, end)
        case Finished(false, _) => GivenUp(cfg, env, kind, p, end.trace) && NotAsked(end.trace))
  }

  /** The trace does not end at the escalation question. */
  predicate NotAsked(t: seq<Event>) {
    t != [] && t[|t| - 1].Asked? ==> t[|t| - 1].stage != Escalation
  }

  lemma CloudDone(cfg: Config, env: Env, task: Task, start: Budget, st: St, p: Permit)
    requires At(cfg, env, task, start, st, p, CloudRoute) && |st.trace| == p.at && cfg.cloudAllowed
    ensures var (done, end) := ExecuteCloud(cfg, env, st, p.constraints);
            DoneWith(cfg, env, task, start, done, end, p, CloudRoute)
  {
    hide AllFollow, RouteOf, Admitted, Follows, CallTier;
    CallGoesOn(cfg, env, task, start, st, p, CloudRoute, Expert, CloudExecute, p.constraints);
    CallEnds(cfg, env, st, Expert, CloudExecute, p.constraints);
    var (got, called) := CallTier(cfg, env, st, Expert, CloudExecute, p.constraints);
    if got.Got? {
      VerifyGoesOn(cfg, env, task, start, called, p, CloudRoute);
    }
  }

  lemma HybridDone(cfg: Config, env: Env, task: Task, start: Budget, st: St, p: Permit)
    requires At(cfg, env, task, start, st, p, HybridRoute) && |st.trace| == p.at && cfg.cloudAllowed
    ensures var (done, end) := ExecuteHybrid(cfg, env, st, p.constraints);
            DoneWith(cfg, env, task, start, done, end, p, HybridRoute)
  {
    hide AllFollow, RouteOf, Admitted, Follows, CallTier;
    CallGoesOn(cfg, env, task, start, st, p, HybridRoute, Expert, CloudPlan, []);
    CallEnds(cfg, env, st, Expert, CloudPlan, []);
    var (planned, s1) := CallTier(cfg, env, st, Expert, CloudPlan, []);
    if planned.Got? {
      CallGoesOn(cfg, env, task, start, s1, p, HybridRoute, Local, LocalExecute, p.constraints);
      CallEnds(cfg, env, s1, Local, LocalExecute, p.constraints);
      var (executed, s2) := CallTier(cfg, env, s1, Local, LocalExecute, p.constraints);
      if executed.Got? {
        VerifyGoesOn(cfg, env, task, start, s2, p, HybridRoute);
        var (passed, s3) := Verify(env, s2);
        if passed {
          CallGoesOn(cfg, env, task, start, s3, p, HybridRoute, Expert, CloudReview, []);
          CallEnds(cfg, env, s3, Expert, CloudReview, []);
        }
      }
    }
  }

  /** Between two local attempts. */
  ghost predicate Trying(cfg: Config, env: Env, task: Task, start: Budget, st: St, p: Permit, left: nat) {
    && At(cfg, env, task, start, st, p, LocalRoute) && NotAsked(st.trace)
    && Missed(env, LocalRoute, p, st.trace)
    && (LocalBarred(cfg) || Tries(st.trace) + left == Attempts(cfg))
  }

  lemma LocalCall(cfg: Config, env: Env, task: Task, start: Budget, st: St, p: Permit, left: nat)
    requires Trying(cfg, env, task, start, st, p, left) && left > 0
    ensures var (got, called) := CallTier(cfg, env, st, Local, LocalExecute, p.constraints);
            && At(cfg, env, task, start, called, p, LocalRoute)
            && (!got.Got? ==> Trying(cfg, env, task, start, called, p, left - 1))
            && (got.Got? ==>
                  EndsInAnswered(env, called.trace, Local, LocalExecute)
                      && Tries(called.trace) + left - 1 == Attempts(cfg))
  {
    hide AllFollow, RouteOf, Admitted, Follows, CallTier, Tries, Routed;
    CallEnds(cfg, env, st, Local, LocalExecute, p.constraints);
    var (got, called) := CallTier(cfg, env, st, Local, LocalExecute, p.constraints);
    if called != st {
      CallGoesOn(cfg, env, task, start, st, p, LocalRoute, Local, LocalExecute, p.constraints);
      TriesOn(st.trace, Called(Local, LocalExecute, p.constraints));
    }
  }

  lemma LocalVerified(cfg: Config, env: Env, task: Task, start: Budget, called: St, p: Permit, left: nat)
    requires At(cfg, env, task, start, called, p, LocalRoute) && EndsInAnswered(env, called.trace, Local, LocalExecute)
    requires Tries(called.trace) + left == Attempts(cfg)
    ensures var (passed, verified) := Verify(env, called);
            && At(cfg, env, task, start, verified, p, LocalRoute)
            && if passed then Succeeds(cfg, env, task, start, verified)
               else Trying(cfg, env, task, start, verified, p, left)
  {
    hide AllFollow, RouteOf, Admitted, Follows, Tries, EndsInAnswered;
    VerifyGoesOn(cfg, env, task, start, called, p, LocalRoute);
    TriesOn(called.trace, Verified(Verify(env, called).0));
    hide Routed;
  }

  lemma LocalGivenUp(cfg: Config, env: Env, task: Task, start: Budget, st: St, p: Permit, failed: nat)
    requires Trying(cfg, env, task, start, st, p, 0)
    ensures DoneWith(cfg, env, task, start, Finished(false, failed), st, p, LocalRoute)
  {
    hide At, Missed, Tries;
  }

  lemma {:induction false} LocalDone(cfg: Config, env: Env, task: Task, start: Budget, st: St, p: Permit, left: nat,
      failed: nat)
    requires Trying(cfg, env, task, start, st, p, left)
    ensures var (done, end) := ExecuteLocal(cfg, env, st, p.constraints, left, failed);
            DoneWith(cfg, env, task, start, done, end, p, LocalRoute)
    decreases left
  {
    hide Trying, At, CallTier, Verify, Tries, EndsInAnswered, GivenUp, NotAsked, Succeeds, Attempts;
    if left == 0 {
      LocalGivenUp(cfg, env, task, start, st, p, failed);
    } else {
      LocalCall(cfg, env, task, start, st, p, left);
      var (got, called) := CallTier(cfg, env, st, Local, LocalExecute, p.constraints);
      if !got.Got? {
        LocalDone(cfg, env, task, start, called, p, left - 1, failed + 1);
      } else {
        LocalVerified(cfg, env, task, start, called, p, left - 1);
        var (passed, verified) := Verify(env, called);
        if !passed {
          LocalDone(cfg, env, task, start, verified, p, left - 1, failed + 1);
        }
      }
    }
  }

  /** After work that missed. */
  lemma EscalationEnds(cfg: Config, env: Env, task: Task, start: Budget, st: St, p: Permit, kind: RouteKind)
    requires At(cfg, env, task, start, st, p, kind) && GivenUp(cfg, env, kind, p, st.trace) && NotAsked(st.trace)
    ensures var (end, after) := Escalate(cfg, env, st, task.level, task.architectureLike, p.constraints,
                                         EscalationPermitted(cfg, task, p), task.grant);
            && AllFollow(cfg, env, task, start, after.trace)
            && (match end
                case Failed(how) => how == ProviderFailed && StopsForProvider(cfg, env, task, start, after.trace)
                case Resolved(true) => Succeeds(cfg, env, task, start, after)
                case Resolved(false) => StaysFailed(cfg, env, task, start, after))
  {
    hide AllFollow, RouteOf, Admitted, Follows, CallTier, GivenUp, Unaffordable;
    if EscalationAsks(task) {
      var (d, asked) := Ask(env, st, Escalation);
      QuestionGoesOn(cfg, env, task, start, st, p, kind);
      if d.action == AllowExpertAnalysis {
        EscalationCallEnds(cfg, env, task, start, asked, p, kind);
      }
    } else if EscalationPermitted(cfg, task, p) {
      EscalationCallEnds(cfg, env, task, start, st, p, kind);
    }
  }

  lemma QuestionGoesOn(cfg: Config, env: Env, task: Task, start: Budget, st: St, p: Permit, kind: RouteKind)
    requires At(cfg, env, task, start, st, p, kind) && GivenUp(cfg, env, kind, p, st.trace) && EscalationAsks(task)
    ensures At(cfg, env, task, start, Ask(env, st, Escalation).1, p, kind)
  {
    hide AllFollow, RouteOf, Admitted, GivenUp, EscalationAsks;
    var e := Asked(Escalation, env.decide(st.trace, Escalation).action);
    assert Follows(cfg, env, task, start, st.trace, e);
    hide Follows, Routed;
    OneMoreFollows(cfg, env, task, start, st.trace, e);
    RoutedOn(cfg, env, task, start, st.trace, e, p, kind);
  }

  lemma EscalationCallEnds(cfg: Config, env: Env, task: Task, start: Budget, st: St, p: Permit, kind: RouteKind)
    requires At(cfg, env, task, start, st, p, kind)
    requires CallFollows(cfg, env, task, kind, p, st.trace, Expert, CloudEscalation, p.constraints)
    requires !EscalationAsks(task) ==> cfg.cloudAllowed
    ensures var (r, after) := CallTier(cfg, env, st, Expert, CloudEscalation, p.constraints);
            && At(cfg, env, task, start, after, p, kind)
            && (match r
                case Got => Succeeds(cfg, env, task, start, after)
                case OverBudget => after.trace == st.trace && cfg.cloudAllowed
                                   && Unaffordable(env, after.budget, st.trace, CloudEscalation)
                case ProviderFailed => StopsForProvider(cfg, env, task, start, after.trace))
  {
    CallGoesOn(cfg, env, task, start, st, p, kind, Expert, CloudEscalation, p.constraints);
    CallEnds(cfg, env, st, Expert, CloudEscalation, p.constraints);
    hide AllFollow, RouteOf, Admitted, Follows, CallTier, EscalationPermitted, GivenUp, Unaffordable, At;
  }

  // ----- routing

  lemma RouteIs(cfg: Config, task: Task, start: Budget, b: Budget, p: Permit)
    requires CloudLeft(start, p) == CloudBudget(b)
    ensures Decide(Coerce(PolicyName(cfg, task, p.forceLocal)), task.assessment, 0, CloudBudget(b)).kind
            == RouteOf(cfg, task, start, p)
    ensures RouteOf(cfg, task, start, p) != LocalRoute ==> cfg.cloudAllowed
  {
  }

  lemma PermittedIs(cfg: Config, task: Task, p: Permit)
    ensures EscalationPermitted(cfg, task, p)
            == (PolicyName(cfg, task, p.forceLocal) != "local_only"
                && (p.allowCloud || !IsMajor(task.level) || task.grant))
  {
  }

  lemma WorkEnds(cfg: Config, env: Env, task: Task, start: Budget, st: St, p: Permit, kind: RouteKind)
    requires At(cfg, env, task, start, st, p, kind) && |st.trace| == p.at && NotAsked(st.trace)
    requires Tries(st.trace) == 0 && (kind != LocalRoute ==> cfg.cloudAllowed)
    ensures var (done, end) := ExecuteRoute(cfg, env, st, kind, p.constraints);
            DoneWith(cfg, env, task, start, done, end, p, kind)
  {
    hide At, DoneWith, ExecuteCloud, ExecuteHybrid, ExecuteLocal;
    assert kind == LocalRoute ==> Trying(cfg, env, task, start, st, p, Attempts(cfg));
    hide Trying;
    match kind
    case CloudRoute => CloudDone(cfg, env, task, start, st, p);
    case HybridRoute => HybridDone(cfg, env, task, start, st, p);
    case LocalRoute => LocalDone(cfg, env, task, start, st, p, Attempts(cfg), 0);
  }

  lemma PerformEnds(cfg: Config, env: Env, task: Task, start: Budget, st: St, p: Permit)
    requires At(cfg, env, task, start, st, p, RouteOf(cfg, task, start, p)) && |st.trace| == p.at
    requires NotAsked(st.trace) && Tries(st.trace) == 0 && CloudLeft(start, p) == CloudBudget(st.budget)
    ensures var (status, end) := Perform(cfg, env, st, task, p.constraints, p.allowCloud, p.forceLocal);
            && AllFollow(cfg, env, task, start, end.trace)
            && EndsWith(cfg, env, task, start, status, end)
  {
    hide RouteOf, Admitted, Follows, Decide, AllFollow, ExecuteRoute, Escalate, StopsForBudget, StopsForProvider,
         Succeeds, StaysFailed, GivenUp, Tries, PolicyName, EscalationPermitted, Coerce, Routed, IsMajor, CloudLeft;
    var kind := RouteOf(cfg, task, start, p);
    RouteIs(cfg, task, start, st.budget, p);
    PermittedIs(cfg, task, p);
    WorkEnds(cfg, env, task, start, st, p, kind);
    var (done, end) := ExecuteRoute(cfg, env, st, kind, p.constraints);
    if done.Finished? && !done.passed {
      EscalationEnds(cfg, env, task, start, end, p, kind);
    }
  }

  // ----- the questions before

  lemma OptionsAre(selected: seq<string>)
    ensures SelectedOptions(selected) == Options(selected)
  {
    if selected != [] {
      OptionsAre(selected[..|selected| - 1]);
    }
  }

  /** What handling hands to routing is what the trace was admitted to. */
  ghost predicate HandledWith(cfg: Config, env: Env, task: Task, start: Budget, handled: Handled, st: St) {
    && AllFollow(cfg, env, task, start, st.trace)
    && (match handled
        case Stopped => HumanStops(st.trace)
        case Broke(OverBudget) => StopsForBudget(cfg, env, task, start, st)
        case Broke(ProviderFailed) => StopsForProvider(cfg, env, task, start, st.trace)
        case Broke(Got) => false
        case Proceed(constraints, allowCloud, forceLocal) =>
          exists p ::
            && Admitted(cfg, env, task, st.trace) == Some(p) && |st.trace| == p.at
            && p.constraints == constraints && p.allowCloud == allowCloud && p.forceLocal == forceLocal
            && NotAsked(st.trace) && Tries(st.trace) == 0 && CloudLeft(start, p) == CloudBudget(st.budget))
  }

  lemma FirstFollows(cfg: Config, env: Env, task: Task, start: Budget)
    requires AsksFirst(cfg, task)
    ensures AllFollow(cfg, env, task, start, [Asked(Analysis, env.decide([], Analysis).action)])
  {
    var e := Asked(Analysis, env.decide([], Analysis).action);
    assert Follows(cfg, env, task, start, [], e);
    assert AllFollow(cfg, env, task, start, []);
    hide Follows;
    OneMoreFollows(cfg, env, task, start, [], e);
    assert [] + [e] == [e];
  }

  lemma FirstAnswer(cfg: Config, env: Env, task: Task, start: Budget, handled: Handled)
    requires AsksFirst(cfg, task)
    requires AllFollow(cfg, env, task, start, [Asked(Analysis, env.decide([], Analysis).action)])
    requires var d := env.decide([], Analysis);
             match d.action
             case MoreLocalAnalysis => handled == Proceed(d.constraints, false, true)
             case ContinueCurrent => handled == Proceed(d.constraints, false, true)
             case Approve => handled == Proceed(d.constraints + Options(d.selected), true, false)
             case ChooseOption => handled == Proceed(d.constraints + Options(d.selected), true, false)
             case AllowExpertAnalysis => false
             case _ => handled == Stopped
    ensures HandledWith(cfg, env, task, start, handled, St([Asked(Analysis, env.decide([], Analysis).action)], start))
  {
    hide RouteOf, Follows, AllFollow, AsksFirst, Options, StopsForBudget, StopsForProvider, Admitted, Tries;
    var t := [Asked(Analysis, env.decide([], Analysis).action)];
    NoTries(t);
    if handled.Proceed? {
      var p := Permit(1, handled.constraints, handled.allowCloud, handled.forceLocal);
      FirstAdmits(cfg, env, task, t, p);
      assert CloudLeft(start, p) == CloudBudget(start);
    }
  }

  lemma FirstAdmits(cfg: Config, env: Env, task: Task, t: seq<Event>, p: Permit)
    requires AsksFirst(cfg, task) && |t| == 1
    requires var d := env.decide([], Analysis);
             match d.action
             case MoreLocalAnalysis => p == Permit(1, d.constraints, false, true)
             case ContinueCurrent => p == Permit(1, d.constraints, false, true)
             case Approve => p == Permit(1, d.constraints + Options(d.selected), true, false)
             case ChooseOption => p == Permit(1, d.constraints + Options(d.selected), true, false)
             case _ => false
    ensures Admitted(cfg, env, task, t) == Some(p)
  {
    hide AsksFirst, Options;
  }

  lemma HandlingEnds(cfg: Config, env: Env, task: Task, start: Budget)
    requires AsksFirst(cfg, task)
    ensures var (handled, st) := HandleMajor(cfg, env, St([], start));
            HandledWith(cfg, env, task, start, handled, st)
  {
    hide RouteOf, Follows, CallTier, AllFollow, AfterAnalysis, StopsForBudget, StopsForProvider, AsksFirst,
         HandledWith, Options, Admitted, Tries;
    FirstFollows(cfg, env, task, start);
    var d := env.decide([], Analysis);
    var asked := St([Asked(Analysis, d.action)], start);
    assert [] + asked.trace == asked.trace;
    assert Ask(env, St([], start), Analysis) == (d, asked);
    OptionsAre(d.selected);
    if d.action == AllowExpertAnalysis {
      AnalysisEnds(cfg, env, task, start, asked);
    } else {
      FirstAnswer(cfg, env, task, start, HandleMajor(cfg, env, St([], start)).0);
    }
  }

  lemma AnalysisEnds(cfg: Config, env: Env, task: Task, start: Budget, asked: St)
    requires AsksFirst(cfg, task) && env.decide([], Analysis).action == AllowExpertAnalysis
    requires asked == St([Asked(Analysis, AllowExpertAnalysis)], start)
    requires AllFollow(cfg, env, task, start, asked.trace)
    ensures var (handled, st) := AfterAnalysis(cfg, env, asked, env.decide([], Analysis).constraints);
            HandledWith(cfg, env, task, start, handled, st)
  {
    hide RouteOf, CallTier, AllFollow, AsksFirst;
    var constraints := env.decide([], Analysis).constraints;
    var e := Called(Expert, ExpertAnalysis, constraints);
    var (got, analysed) := CallTier(cfg, env, asked, Expert, ExpertAnalysis, constraints);
    CallEnds(cfg, env, asked, Expert, ExpertAnalysis, constraints);
    assert Follows(cfg, env, task, start, asked.trace, e);
    OneMoreFollows(cfg, env, task, start, asked.trace, e);
    if got.Got? {
      ChargedOnce(cfg, env, asked, ExpertAnalysis, constraints);
      ImplementationEnds(cfg, env, task, start, analysed);
    }
  }

  lemma ChargedOnce(cfg: Config, env: Env, st: St, purpose: Purpose, carried: seq<string>)
    requires CallTier(cfg, env, st, Expert, purpose, carried).0.Got?
    ensures CloudBudget(CallTier(cfg, env, st, Expert, purpose, carried).1.budget)
            == (!st.budget.exhausted && st.budget.calls + 1 < st.budget.maxCalls)
  {
  }

  lemma ImplementationEnds(cfg: Config, env: Env, task: Task, start: Budget, analysed: St)
    requires AsksFirst(cfg, task) && env.decide([], Analysis).action == AllowExpertAnalysis
    requires |analysed.trace| == 2 && EndsInAnswered(env, analysed.trace, Expert, ExpertAnalysis)
    requires analysed.trace[0].Asked? && analysed.trace[1].Called? && analysed.trace[1].purpose == ExpertAnalysis
    requires AllFollow(cfg, env, task, start, analysed.trace)
    requires CloudBudget(analysed.budget) == (!start.exhausted && start.calls + 1 < start.maxCalls)
    ensures var (e, asked) := Ask(env, analysed, Implementation);
            && AllFollow(cfg, env, task, start, asked.trace)
            && HandledWith(cfg, env, task, start,
                if e.action.Approve? || e.action.ChooseOption?
                then Proceed(env.decide([], Analysis).constraints + e.constraints, true, false) else Stopped, asked)
  {
    hide RouteOf, CallTier, AllFollow, AsksFirst, Follows, Admitted, Tries, EndsInAnswered, StopsForBudget,
         StopsForProvider;
    var t, action := analysed.trace, env.decide(analysed.trace, Implementation).action;
    SecondFollows(cfg, env, task, start, t);
    NoTries(t + [Asked(Implementation, action)]);
    SecondAdmits(cfg, env, task, t);
  }

  lemma SecondFollows(cfg: Config, env: Env, task: Task, start: Budget, t: seq<Event>)
    requires |t| == 2 && EndsInAnswered(env, t, Expert, ExpertAnalysis) && AllFollow(cfg, env, task, start, t)
    ensures AllFollow(cfg, env, task, start, t + [Asked(Implementation, env.decide(t, Implementation).action)])
  {
    hide AllFollow, Admitted, RouteOf;
    var e := Asked(Implementation, env.decide(t, Implementation).action);
    assert Follows(cfg, env, task, start, t, e);
    OneMoreFollows(cfg, env, task, start, t, e);
  }

  lemma {:induction false} NoTries(t: seq<Event>)
    requires forall i :: 0 <= i < |t| ==> !(t[i].Called? && t[i].purpose == LocalExecute)
    ensures Tries(t) == 0
  {
    if t != [] {
      NoTries(t[..|t| - 1]);
    }
  }

  lemma SecondAdmits(cfg: Config, env: Env, task: Task, t: seq<Event>)
    requires AsksFirst(cfg, task) && env.decide([], Analysis).action == AllowExpertAnalysis && |t| == 2
    ensures var d := env.decide(t, Implementation);
            (d.action == Approve || d.action == ChooseOption) ==>
              Admitted(cfg, env, task, t + [Asked(Implementation, d.action)])
              == Some(Permit(3, env.decide([], Analysis).constraints + d.constraints, true, false))
  {
    hide AsksFirst, Options;
    var u := t + [Asked(Implementation, env.decide(t, Implementation).action)];
    assert u[..2] == t;
  }

  lemma NothingYet(cfg: Config, env: Env, task: Task, start: Budget)
    requires !AsksFirst(cfg, task)
    ensures Admitted(cfg, env, task, []) == Some(Permit(0, [], false, false))
    ensures AllFollow(cfg, env, task, start, []) && CloudLeft(start, Permit(0, [], false, false)) == CloudBudget(start)
  {
  }

  /** Every event of a run follows the rules, and the status belongs to the end of the
      trace. */
  lemma RunEnds(cfg: Config, env: Env, task: Task, start: Budget)
    ensures var (status, end) := Run(cfg, env, task, start);
            AllFollow(cfg, env, task, start, end.trace) && EndsWith(cfg, env, task, start, status, end)
  {
    hide RouteOf, Admitted, Follows, AllFollow, HandleMajor, Perform, StopsForBudget, StopsForProvider, Succeeds,
         StaysFailed, HumanStops, CloudLeft, CloudBudget;
    assert AsksFirst(cfg, task) == NeedsApproval(cfg, task.level);
    if !AsksFirst(cfg, task) {
      NothingYet(cfg, env, task, start);
      PerformEnds(cfg, env, task, start, St([], start), Permit(0, [], false, false));
    } else {
      HandlingEnds(cfg, env, task, start);
      var (handled, st) := HandleMajor(cfg, env, St([], start));
      if handled.Proceed? {
        var p :| Admitted(cfg, env, task, st.trace) == Some(p) && |st.trace| == p.at
            && p.constraints == handled.constraints && p.allowCloud == handled.allowCloud
            && p.forceLocal == handled.forceLocal
            && NotAsked(st.trace) && Tries(st.trace) == 0 && CloudLeft(start, p) == CloudBudget(st.budget);
        PerformEnds(cfg, env, task, start, st, p);
      }
    }
  }

  // ----- each status has its own endings

  lemma LastFollows(cfg: Config, env: Env, task: Task, start: Budget, t: seq<Event>)
    requires AllFollow(cfg, env, task, start, t) && t != []
    ensures Follows(cfg, env, task, start, t[..|t| - 1], t[|t| - 1])
  {
    hide Follows;
  }

  /** A human who ends the run admits it to nothing. */
  lemma StoppedUnrouted(cfg: Config, env: Env, task: Task, start: Budget, t: seq<Event>)
    requires AllFollow(cfg, env, task, start, t) && HumanStops(t)
    ensures Admitted(cfg, env, task, t).None?
  {
    hide RouteOf, AllFollow, GivenUp, EscalationAsks;
    LastFollows(cfg, env, task, start, t);
    if t[|t| - 1].stage == Implementation {
      SecondAfterAnalysis(cfg, env, task, start, t);
    }
  }

  /** Allowing the analysis is no admission yet. */
  lemma AllowedUnrouted(cfg: Config, env: Env, task: Task, start: Budget, t: seq<Event>)
    requires AllFollow(cfg, env, task, start, t) && t == [Asked(Analysis, AllowExpertAnalysis)]
    ensures Admitted(cfg, env, task, t).None?
  {
    hide RouteOf, AllFollow, AsksFirst;
    LastFollows(cfg, env, task, start, t);
  }

  lemma SecondAfterAnalysis(cfg: Config, env: Env, task: Task, start: Budget, t: seq<Event>)
    requires AllFollow(cfg, env, task, start, t)
    requires |t| == 3 && EndsInAnswered(env, t[..2], Expert, ExpertAnalysis)
    ensures AsksFirst(cfg, task) && env.decide([], Analysis).action == AllowExpertAnalysis
  {
    hide RouteOf, GivenUp, EscalationAsks, AsksFirst, CallFollows;
    assert Follows(cfg, env, task, start, t[..1], t[1]);
    assert Follows(cfg, env, task, start, t[..0], t[0]);
    assert t[..1][0] == t[0] && t[..0] == [];
    assert t[..2][1] == t[1];
  }

  lemma NotYetAdmitted(cfg: Config, env: Env, task: Task, start: Budget, t: seq<Event>, p: Permit)
    requires Admitted(cfg, env, task, t) == Some(p) && |t| == p.at && t != []
    ensures Admitted(cfg, env, task, t[..|t| - 1]).None?
    ensures |t| == 1 || (|t| == 3 && Admitted(cfg, env, task, t[..1]).None?)
  {
  }

  /** Routing comes right after a question, unless nobody is asked. */
  lemma AskedAtRouting(cfg: Config, env: Env, task: Task, start: Budget, t: seq<Event>, p: Permit, kind: RouteKind)
    requires AllFollow(cfg, env, task, start, t) && Routed(cfg, env, task, start, t, p, kind) && |t| == p.at
    ensures t == [] || (t[|t| - 1].Asked? && NotAsked(t))
  {
    hide RouteOf, EscalationAsks, Admitted, CallFollows, GivenUp;
    if t != [] {
      NotYetAdmitted(cfg, env, task, start, t, p);
      assert Follows(cfg, env, task, start, t[..|t| - 1], t[|t| - 1]);
      if |t| == 3 {
        assert Follows(cfg, env, task, start, t[..1], t[1]);
        assert t[..2][1] == t[1];
      }
    }
  }

  lemma EndingsApart(cfg: Config, env: Env, task: Task, start: Budget, end: St, a: Status, b: Status)
    requires AllFollow(cfg, env, task, start, end.trace)
    requires EndsWith(cfg, env, task, start, a, end) && EndsWith(cfg, env, task, start, b, end)
    ensures a == b
  {
    hide AllFollow, RouteOf, Admitted, Unaffordable, EscalationPermitted, EscalationAsks, Tries;
    if HumanStops(end.trace) {
      StoppedUnrouted(cfg, env, task, start, end.trace);
    }
    if end.trace == [Asked(Analysis, AllowExpertAnalysis)] {
      AllowedUnrouted(cfg, env, task, start, end.trace);
    }
    forall p, kind | Routed(cfg, env, task, start, end.trace, p, kind) && |end.trace| == p.at
      ensures end.trace == [] || (end.trace[|end.trace| - 1].Asked? && NotAsked(end.trace))
    {
      AskedAtRouting(cfg, env, task, start, end.trace, p, kind);
    }
  }

  /** How a run ends, read off its trace and the answers: exactly which endings stop it
      by hand, complete it, block it, break it and fail it. */
  lemma EndsExactly(cfg: Config, env: Env, task: Task, start: Budget)
    ensures var (status, end) := Run(cfg, env, task, start);
            && AllFollow(cfg, env, task, start, end.trace)
            && (status == StoppedByHuman <==> HumanStops(end.trace))
            && (status == Completed <==> Succeeds(cfg, env, task, start, end))
            && (status == Blocked <==> StopsForBudget(cfg, env, task, start, end))
            && (status == ProviderErrorRun <==> StopsForProvider(cfg, env, task, start, end.trace))
            && (status == FailedRun <==> StaysFailed(cfg, env, task, start, end))
  {
    hide *;
    RunEnds(cfg, env, task, start);
    EachApart(cfg, env, task, start, Run(cfg, env, task, start).0, Run(cfg, env, task, start).1);
  }

  lemma EachApart(cfg: Config, env: Env, task: Task, start: Budget, status: Status, end: St)
    requires AllFollow(cfg, env, task, start, end.trace)
    requires EndsWith(cfg, env, task, start, status, end)
    ensures status == StoppedByHuman <==> HumanStops(end.trace)
    ensures status == Completed <==> Succeeds(cfg, env, task, start, end)
    ensures status == Blocked <==> StopsForBudget(cfg, env, task, start, end)
    ensures status == ProviderErrorRun <==> StopsForProvider(cfg, env, task, start, end.trace)
    ensures status == FailedRun <==> StaysFailed(cfg, env, task, start, end)
  {
    hide AllFollow, HumanStops, Succeeds, StopsForBudget, StopsForProvider, StaysFailed;
    if HumanStops(end.trace) { EndingsApart(cfg, env, task, start, end, status, StoppedByHuman); }
    if Succeeds(cfg, env, task, start, end) { EndingsApart(cfg, env, task, start, end, status, Completed); }
    if StopsForBudget(cfg, env, task, start, end) { EndingsApart(cfg, env, task, start, end, status, Blocked); }
    if StopsForProvider(cfg, env, task, start, end.trace) {
      EndingsApart(cfg, env, task, start, end, status, ProviderErrorRun);
    }
    if StaysFailed(cfg, env, task, start, end) { EndingsApart(cfg, env, task, start, end, status, FailedRun); }
  }
}
