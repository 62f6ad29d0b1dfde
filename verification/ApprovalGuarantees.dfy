/**
 What the approval protocol guarantees over every run, whatever the humans, the
 models and the verifier answer.
 */
module ApprovalGuarantees {
  import opened Outcomes
  import opened RoutingPolicy
  import opened ApprovalProtocol

  // ----- traces

  predicate ExpertCall(e: Event) {
    e.Called? && e.tier == Expert
  }

  /** A human said that the expert may be used. */
  predicate LetsExpertIn(e: Event) {
    e.Asked? && (e.action.Approve? || e.action.ChooseOption? || e.action.AllowExpertAnalysis?)
  }

  /** A human approved the implementation of an analysis. */
  predicate ApprovesImplementation(e: Event) {
    e.Asked? && e.stage.Implementation? && (e.action.Approve? || e.action.ChooseOption?)
  }

  ghost predicate Has(p: Event -> bool, trace: seq<Event>) {
    exists i :: 0 <= i < |trace| && p(trace[i])
  }

  /** Every q-event comes after some p-event. */
  ghost predicate Precedes(p: Event -> bool, q: Event -> bool, trace: seq<Event>) {
    forall i :: 0 <= i < |trace| && q(trace[i]) ==> Has(p, trace[..i])
  }

  /** after is before with more events, none of them a q-event. */
  ghost predicate ExtendsWithout(q: Event -> bool, before: seq<Event>, after: seq<Event>) {
    before <= after && forall i :: |before| <= i < |after| ==> !q(after[i])
  }

  lemma HasMore(p: Event -> bool, a: seq<Event>, b: seq<Event>)
    requires Has(p, a) && a <= b
    ensures Has(p, b)
  {
    var i :| 0 <= i < |a| && p(a[i]);
    assert b[i] == a[i];
  }

  /** Once a p-event has happened anything may follow. */
  lemma PrecedesOnceHad(p: Event -> bool, q: Event -> bool, a: seq<Event>, b: seq<Event>)
    requires Precedes(p, q, a) && Has(p, a) && a <= b
    ensures Precedes(p, q, b)
  {
    forall i | 0 <= i < |b| && q(b[i]) ensures Has(p, b[..i]) {
      if i < |a| {
        assert q(a[i]) && a[..i] == b[..i];
      } else {
        HasMore(p, a, b[..i]);
      }
    }
  }

  lemma PrecedesWithout(p: Event -> bool, q: Event -> bool, a: seq<Event>, b: seq<Event>)
    requires Precedes(p, q, a) && ExtendsWithout(q, a, b)
    ensures Precedes(p, q, b)
  {
    forall i | 0 <= i < |b| && q(b[i]) ensures Has(p, b[..i]) {
      assert i < |a| && q(a[i]) && a[..i] == b[..i];
    }
  }

  lemma PrecedesNothing(p: Event -> bool, q: Event -> bool)
    ensures Precedes(p, q, [])
  {
  }

  lemma ExtendsTransitive(q: Event -> bool, a: seq<Event>, b: seq<Event>, c: seq<Event>)
    requires ExtendsWithout(q, a, b) && ExtendsWithout(q, b, c)
    ensures ExtendsWithout(q, a, c)
  {
    forall i | |a| <= i < |c| ensures !q(c[i]) {
      if i < |b| { assert c[i] == b[i]; }
    }
  }

  // ----- what each part of a run adds to the trace

  /** The expert's plan and review are asked for without the human's constraints. */
  predicate Unconstrained(p: Purpose) {
    p.CloudPlan? || p.CloudReview?
  }

  /** after is before with calls of these tiers and purposes and verifications, but
      no questions; the calls carry the given constraints. */
  ghost predicate CallsOnly(before: seq<Event>, after: seq<Event>, tiers: set<Tier>, purposes: set<Purpose>,
      constraints: seq<string>) {
    && before <= after
    && forall i :: |before| <= i < |after| ==> Fits(after[i], tiers, purposes, constraints)
  }

  predicate Fits(e: Event, tiers: set<Tier>, purposes: set<Purpose>, constraints: seq<string>) {
    match e
    case Asked(_, _) => false
    case Called(tier, purpose, carried) =>
        tier in tiers && purpose in purposes && (Unconstrained(purpose) || carried == constraints)
    case Verified(_) => true
  }

  lemma CallsOnlyTransitive(a: seq<Event>, b: seq<Event>, c: seq<Event>, tiers: set<Tier>, purposes: set<Purpose>,
      constraints: seq<string>)
    requires CallsOnly(a, b, tiers, purposes, constraints) && CallsOnly(b, c, tiers, purposes, constraints)
    ensures CallsOnly(a, c, tiers, purposes, constraints)
  {
    forall i | |a| <= i < |c| ensures Fits(c[i], tiers, purposes, constraints) {
      if i < |b| { assert c[i] == b[i]; }
    }
  }

  lemma CallAdds(cfg: Config, env: Env, st: St, tier: Tier, purpose: Purpose, carried: seq<string>, tiers: set<Tier>,
      purposes: set<Purpose>, constraints: seq<string>)
    requires tier in tiers && purpose in purposes && (Unconstrained(purpose) || carried == constraints)
    ensures CallsOnly(st.trace, CallTier(cfg, env, st, tier, purpose, carried).1.trace, tiers, purposes, constraints)
  {
  }

  lemma VerifyAdds(env: Env, st: St, tiers: set<Tier>, purposes: set<Purpose>, constraints: seq<string>)
    ensures CallsOnly(st.trace, Verify(env, st).1.trace, tiers, purposes, constraints)
  {
  }

  function RoutePurposes(): set<Purpose> {
    {CloudExecute, CloudPlan, LocalExecute, CloudReview}
  }

  function RouteTiers(kind: RouteKind): set<Tier> {
    if kind.LocalRoute? then {Local} else {Local, Expert}
  }

  lemma {:induction false} LocalAdds(cfg: Config, env: Env, st: St, constraints: seq<string>, left: nat, failed: nat)
    ensures CallsOnly(st.trace, ExecuteLocal(cfg, env, st, constraints, left, failed).1.trace, {Local},
            RoutePurposes(), constraints)
    decreases left
  {
    if left > 0 {
      var (got, called) := CallTier(cfg, env, st, Local, LocalExecute, constraints);
      CallAdds(cfg, env, st, Local, LocalExecute, constraints, {Local}, RoutePurposes(), constraints);
      var verified := Verify(env, called).1;
      VerifyAdds(env, called, {Local}, RoutePurposes(), constraints);
      hide CallTier, Verify, CallsOnly;
      CallsOnlyTransitive(st.trace, called.trace, verified.trace, {Local}, RoutePurposes(), constraints);
      var next := if got.Got? then verified else called;
      LocalAdds(cfg, env, next, constraints, left - 1, failed + 1);
      CallsOnlyTransitive(st.trace, next.trace,
          ExecuteLocal(cfg, env, next, constraints, left - 1, failed + 1).1.trace, {Local}, RoutePurposes(),
              constraints);
    }
  }

  lemma HybridAdds(cfg: Config, env: Env, st: St, constraints: seq<string>)
    ensures CallsOnly(st.trace, ExecuteHybrid(cfg, env, st, constraints).1.trace, {Local, Expert}, RoutePurposes(),
            constraints)
  {
    var t, p := {Local, Expert}, RoutePurposes();
    CallAdds(cfg, env, st, Expert, CloudPlan, [], t, p, constraints);
    var s1 := CallTier(cfg, env, st, Expert, CloudPlan, []).1;
    CallAdds(cfg, env, s1, Local, LocalExecute, constraints, t, p, constraints);
    var s2 := CallTier(cfg, env, s1, Local, LocalExecute, constraints).1;
    VerifyAdds(env, s2, t, p, constraints);
    var s3 := Verify(env, s2).1;
    CallAdds(cfg, env, s3, Expert, CloudReview, [], t, p, constraints);
    var s4 := CallTier(cfg, env, s3, Expert, CloudReview, []).1;
    hide CallTier, Verify, CallsOnly;
    CallsOnlyTransitive(st.trace, s1.trace, s2.trace, t, p, constraints);
    CallsOnlyTransitive(st.trace, s2.trace, s3.trace, t, p, constraints);
    CallsOnlyTransitive(st.trace, s3.trace, s4.trace, t, p, constraints);
  }

  /** Executing a route asks nobody, never repeats the analysis, and stays off the
      expert tier when it is the local route. */
  lemma RouteAdds(cfg: Config, env: Env, st: St, kind: RouteKind, constraints: seq<string>)
    ensures CallsOnly(st.trace, ExecuteRoute(cfg, env, st, kind, constraints).1.trace, RouteTiers(kind),
            RoutePurposes(), constraints)
  {
    match kind
    case LocalRoute => LocalAdds(cfg, env, st, constraints, Attempts(cfg), 0);
    case HybridRoute => HybridAdds(cfg, env, st, constraints);
    case CloudRoute =>
      var t, p := {Local, Expert}, RoutePurposes();
      CallAdds(cfg, env, st, Expert, CloudExecute, constraints, t, p, constraints);
      var s1 := CallTier(cfg, env, st, Expert, CloudExecute, constraints).1;
      VerifyAdds(env, s1, t, p, constraints);
      CallsOnlyTransitive(st.trace, s1.trace, Verify(env, s1).1.trace, t, p, constraints);
  }

  /** Escalation: nothing, or a question, then at most one expert call; without the
      question the call needs to be allowed beforehand, with it the answer has to
      be to allow the expert. */
  lemma EscalationAdds(cfg: Config, env: Env, st: St, level: Level, architectureLike: bool, constraints: seq<string>,
      allowed: bool, grant: bool)
    ensures var asks := architectureLike && IsMajor(level) && !grant;
            var (d, asked) := Ask(env, st, Escalation);
            var after := Escalate(cfg, env, st, level, architectureLike, constraints, allowed, grant).1.trace;
            && (asks ==> asked.trace <= after)
            && (asks && !d.action.AllowExpertAnalysis? ==> after == asked.trace)
            && (!asks && !allowed ==> after == st.trace)
            && CallsOnly(if asks then asked.trace else st.trace, after, {Expert}, {CloudEscalation}, constraints)
  {
    CallAdds(cfg, env, st, Expert, CloudEscalation, constraints, {Expert}, {CloudEscalation}, constraints);
    CallAdds(cfg, env, Ask(env, st, Escalation).1, Expert, CloudEscalation, constraints, {Expert}, {CloudEscalation},
        constraints);
    hide CallTier;
  }

  // ----- no expert without a human

  /** Execution and escalation keep the rule, given that the human let the expert
      in already or the run is forced to stay local. */
  lemma PerformKeepsHuman(cfg: Config, env: Env, st: St, task: Task, constraints: seq<string>, allowCloud: bool,
      forceLocal: bool)
    requires Precedes(LetsExpertIn, ExpertCall, st.trace)
    requires forceLocal || Has(LetsExpertIn, st.trace)
    ensures st.trace <= Perform(cfg, env, st, task, constraints, allowCloud, forceLocal).1.trace
    ensures Precedes(LetsExpertIn, ExpertCall, Perform(cfg, env, st, task, constraints, allowCloud, forceLocal).1.trace)
  {
    var policy := PolicyName(cfg, task, forceLocal);
    var route := Decide(Coerce(policy), task.assessment, 0, CloudBudget(st.budget));
    var executed := ExecuteRoute(cfg, env, st, route.kind, constraints).1;
    RouteAdds(cfg, env, st, route.kind, constraints);
    if Has(LetsExpertIn, st.trace) {
      PrecedesOnceHad(LetsExpertIn, ExpertCall, st.trace, executed.trace);
      HasMore(LetsExpertIn, st.trace, executed.trace);
    } else {
      LocalOnlyRoutes(task.assessment, CloudBudget(st.budget));
      NoExpert(st.trace, executed.trace, RoutePurposes(), constraints);
      PrecedesWithout(LetsExpertIn, ExpertCall, st.trace, executed.trace);
    }
    var allowed := policy != "local_only" && (allowCloud || !IsMajor(task.level) || task.grant);
    EscalationKeepsHuman(cfg, env, executed, task, constraints, allowed);
    hide ExecuteRoute, Escalate, Precedes, Has, Decide;
  }

  lemma LocalOnlyRoutes(a: Assessment, cloudBudget: bool)
    ensures Decide(Coerce("local_only"), a, 0, cloudBudget).kind == LocalRoute
  {
  }

  lemma NoExpert(a: seq<Event>, b: seq<Event>, purposes: set<Purpose>, constraints: seq<string>)
    requires CallsOnly(a, b, {Local}, purposes, constraints)
    ensures ExtendsWithout(ExpertCall, a, b)
  {
  }

  lemma EscalationKeepsHuman(cfg: Config, env: Env, st: St, task: Task, constraints: seq<string>, allowed: bool)
    requires Precedes(LetsExpertIn, ExpertCall, st.trace)
    requires allowed ==> Has(LetsExpertIn, st.trace)
    ensures st.trace <= Escalate(cfg, env, st, task.level, task.architectureLike, constraints, allowed,
            task.grant).1.trace
    ensures Precedes(LetsExpertIn, ExpertCall,
            Escalate(cfg, env, st, task.level, task.architectureLike, constraints, allowed, task.grant).1.trace)
  {
    var after := Escalate(cfg, env, st, task.level, task.architectureLike, constraints, allowed, task.grant).1.trace;
    EscalationAdds(cfg, env, st, task.level, task.architectureLike, constraints, allowed, task.grant);
    if task.architectureLike && IsMajor(task.level) && !task.grant {
      var (d, asked) := Ask(env, st, Escalation);
      PrecedesWithout(LetsExpertIn, ExpertCall, st.trace, asked.trace);
      if d.action.AllowExpertAnalysis? {
        assert LetsExpertIn(asked.trace[|st.trace|]);
        PrecedesOnceHad(LetsExpertIn, ExpertCall, asked.trace, after);
      }
    } else if allowed {
      PrecedesOnceHad(LetsExpertIn, ExpertCall, st.trace, after);
    }
  }

  /** Handling asks once; only a permitted analysis goes further. */
  lemma HandlingUnfolds(cfg: Config, env: Env, start: St)
    ensures var (d, asked) := Ask(env, start, Analysis);
            var (handled, st) := HandleMajor(cfg, env, start);
            && (d.action.AllowExpertAnalysis? ==> (handled, st) == AfterAnalysis(cfg, env, asked, d.constraints))
            && (!d.action.AllowExpertAnalysis? ==> st == asked && !handled.Broke?)
            && (handled.Proceed? && !handled.forceLocal ==> LetsExpertIn(Asked(Analysis, d.action)))
  {
    hide AfterAnalysis;
  }

  lemma HandlingKeepsHuman(cfg: Config, env: Env, budget: Budget)
    ensures var (handled, st) := HandleMajor(cfg, env, St([], budget));
            && Precedes(LetsExpertIn, ExpertCall, st.trace)
            && (handled.Proceed? && !handled.forceLocal ==> Has(LetsExpertIn, st.trace))
  {
    var start := St([], budget);
    var (d, asked) := Ask(env, start, Analysis);
    assert asked.trace == [Asked(Analysis, d.action)];
    AnalysisExtends(cfg, env, asked, d.constraints);
    HandlingUnfolds(cfg, env, start);
    OneQuestion(Analysis, d.action);
    PrecedesNothing(LetsExpertIn, ExpertCall);
    var (handled, st) := HandleMajor(cfg, env, start);
    hide AfterAnalysis, HandleMajor, Precedes, Has, ExtendsWithout;
    PrecedesWithout(LetsExpertIn, ExpertCall, [], asked.trace);
    if LetsExpertIn(asked.trace[0]) {
      HasFirst(LetsExpertIn, asked.trace);
      PrecedesOnceHad(LetsExpertIn, ExpertCall, asked.trace, st.trace);
      HasMore(LetsExpertIn, asked.trace, st.trace);
    }
  }

  lemma OneQuestion(stage: Stage, action: Action)
    ensures ExtendsWithout(ExpertCall, [], [Asked(stage, action)])
  {
  }

  lemma HasFirst(p: Event -> bool, trace: seq<Event>)
    requires trace != [] && p(trace[0])
    ensures Has(p, trace)
  {
  }

  lemma AnalysisExtends(cfg: Config, env: Env, st: St, constraints: seq<string>)
    ensures st.trace <= AfterAnalysis(cfg, env, st, constraints).1.trace
  {
  }

  /** In a run that needs approval (every major or critical one) each expert-tier
      call comes after a human decision to approve, to choose an option or to allow
      the expert. A standing autonomy grant is no exception. */
  lemma ExpertOnlyAfterHuman(cfg: Config, env: Env, task: Task, budget: Budget)
    requires NeedsApproval(cfg, task.level)
    ensures Precedes(LetsExpertIn, ExpertCall, Run(cfg, env, task, budget).1.trace)
  {
    HandlingKeepsHuman(cfg, env, budget);
    var (handled, st) := HandleMajor(cfg, env, St([], budget));
    hide HandleMajor, Perform, Precedes, Has;
    if handled.Proceed? {
      PerformKeepsHuman(cfg, env, st, task, handled.constraints, handled.allowCloud, handled.forceLocal);
    }
  }

  // ----- nothing after an analysis without a second approval

  predicate AnyCall(e: Event) {
    e.Called?
  }

  predicate AnalysisCall(e: Event) {
    e.Called? && e.purpose.ExpertAnalysis?
  }

  /** Between an analysis and any later model call the implementation was approved. */
  ghost predicate ApprovedSince(trace: seq<Event>, i: int, k: int)
    requires 0 <= i < k < |trace|
  {
    exists j :: i < j < k && ApprovesImplementation(trace[j])
  }

  ghost predicate AnalysisWaits(trace: seq<Event>) {
    forall i, k :: 0 <= i < k < |trace| && AnalysisCall(trace[i]) && AnyCall(trace[k]) ==> ApprovedSince(trace, i, k)
  }

  /** How a handled decision leaves the trace: no analysis at all, or question,
      analysis and perhaps the second question. */
  lemma HandledTrace(cfg: Config, env: Env, budget: Budget)
    ensures var (handled, st) := HandleMajor(cfg, env, St([], budget));
            && 1 <= |st.trace| <= 3
            && st.trace[0].Asked?
            && (|st.trace| >= 2 ==> AnalysisCall(st.trace[1]))
            && (|st.trace| == 3 ==> st.trace[2].Asked?)
            && (|st.trace| == 2 ==> !handled.Proceed?)
            && (|st.trace| == 3 && handled.Proceed? ==> ApprovesImplementation(st.trace[2]))
  {
  }

  lemma PerformNeverAnalyses(cfg: Config, env: Env, st: St, task: Task, constraints: seq<string>, allowCloud: bool,
      forceLocal: bool)
    ensures ExtendsWithout(AnalysisCall, st.trace,
            Perform(cfg, env, st, task, constraints, allowCloud, forceLocal).1.trace)
  {
    var policy := PolicyName(cfg, task, forceLocal);
    var route := Decide(Coerce(policy), task.assessment, 0, CloudBudget(st.budget));
    var executed := ExecuteRoute(cfg, env, st, route.kind, constraints).1;
    RouteAdds(cfg, env, st, route.kind, constraints);
    NoAnalysis(st.trace, executed.trace, RouteTiers(route.kind), RoutePurposes(), constraints);
    var allowed := policy != "local_only" && (allowCloud || !IsMajor(task.level) || task.grant);
    EscalationNeverAnalyses(cfg, env, executed, task, constraints, allowed);
    hide ExecuteRoute, Escalate, Decide, ExtendsWithout;
    ExtendsTransitive(AnalysisCall, st.trace, executed.trace,
                      Escalate(cfg, env, executed, task.level, task.architectureLike, constraints, allowed,
                          task.grant).1.trace);
  }

  lemma NoAnalysis(a: seq<Event>, b: seq<Event>, tiers: set<Tier>, purposes: set<Purpose>, constraints: seq<string>)
    requires CallsOnly(a, b, tiers, purposes, constraints) && ExpertAnalysis !in purposes
    ensures ExtendsWithout(AnalysisCall, a, b)
  {
  }

  lemma EscalationNeverAnalyses(cfg: Config, env: Env, st: St, task: Task, constraints: seq<string>, allowed: bool)
    ensures ExtendsWithout(AnalysisCall, st.trace,
            Escalate(cfg, env, st, task.level, task.architectureLike, constraints, allowed, task.grant).1.trace)
  {
    var after := Escalate(cfg, env, st, task.level, task.architectureLike, constraints, allowed, task.grant).1.trace;
    EscalationAdds(cfg, env, st, task.level, task.architectureLike, constraints, allowed, task.grant);
    if task.architectureLike && IsMajor(task.level) && !task.grant {
      var asked := Ask(env, st, Escalation).1;
      NoAnalysis(asked.trace, after, {Expert}, {CloudEscalation}, constraints);
      ExtendsTransitive(AnalysisCall, st.trace, asked.trace, after);
    } else {
      NoAnalysis(st.trace, after, {Expert}, {CloudEscalation}, constraints);
    }
  }

  /** Permission to analyse is not permission to go on: in every run, no model of
      either tier is called after an expert analysis unless the human approves the
      implementation, or chooses an option for it, in between. */
  lemma AnalysisIsNotPermission(cfg: Config, env: Env, task: Task, budget: Budget)
    ensures AnalysisWaits(Run(cfg, env, task, budget).1.trace)
  {
    var trace := Run(cfg, env, task, budget).1.trace;
    if NeedsApproval(cfg, task.level) {
      var (handled, st) := HandleMajor(cfg, env, St([], budget));
      HandledTrace(cfg, env, budget);
      hide HandleMajor, Perform;
      if handled.Proceed? {
        PerformNeverAnalyses(cfg, env, st, task, handled.constraints, handled.allowCloud, handled.forceLocal);
        forall i, k | 0 <= i < k < |trace| && AnalysisCall(trace[i]) && AnyCall(trace[k])
          ensures ApprovedSince(trace, i, k) {
          assert i < |st.trace| && trace[i] == st.trace[i];
          assert i == 1 && |st.trace| == 3;
          assert trace[2] == st.trace[2];
          assert ApprovesImplementation(trace[2]);
        }
      }
    } else {
      hide Perform;
      PerformNeverAnalyses(cfg, env, St([], budget), task, [], false, false);
    }
  }

  // ----- staying local, stopping

  /** Where the human stops, rejects or asks for something else, no model is called. */
  lemma StoppingCallsNothing(cfg: Config, env: Env, task: Task, budget: Budget)
    requires NeedsApproval(cfg, task.level)
    requires var a := env.decide([], Analysis).action; a.StopTask? || a.Reject? || a.Modify?
    ensures Run(cfg, env, task, budget) ==
            (StoppedByHuman, St([Asked(Analysis, env.decide([], Analysis).action)], budget))
  {
    assert [] + [Asked(Analysis, env.decide([], Analysis).action)] ==
           [Asked(Analysis, env.decide([], Analysis).action)];
  }

  /** Where the human wants the work kept local, the expert is called only if the
      human lets it in at the escalation question. */
  lemma KeptLocal(cfg: Config, env: Env, task: Task, budget: Budget)
    requires NeedsApproval(cfg, task.level)
    requires var a := env.decide([], Analysis).action; a.MoreLocalAnalysis? || a.ContinueCurrent?
    ensures Precedes(e => e == Asked(Escalation, AllowExpertAnalysis), ExpertCall, Run(cfg, env, task, budget).1.trace)
  {
    var allow := (e: Event) => e == Asked(Escalation, AllowExpertAnalysis);
    var (handled, st) := HandleMajor(cfg, env, St([], budget));
    var c := handled.constraints;
    var route := Decide(Coerce("local_only"), task.assessment, 0, CloudBudget(st.budget));
    var executed := ExecuteRoute(cfg, env, st, route.kind, c).1;
    LocalOnlyRoutes(task.assessment, CloudBudget(st.budget));
    RouteAdds(cfg, env, st, route.kind, c);
    NoExpert(st.trace, executed.trace, RoutePurposes(), c);
    PrecedesNothing(allow, ExpertCall);
    PrecedesWithout(allow, ExpertCall, [], st.trace);
    PrecedesWithout(allow, ExpertCall, st.trace, executed.trace);
    LocalEscalation(cfg, env, executed, task, c, allow);
    hide ExecuteRoute, Escalate, Decide, Precedes;
  }

  lemma LocalEscalation(cfg: Config, env: Env, st: St, task: Task, constraints: seq<string>, allow: Event -> bool)
    requires allow == (e => e == Asked(Escalation, AllowExpertAnalysis))
    requires Precedes(allow, ExpertCall, st.trace)
    ensures Precedes(allow, ExpertCall,
            Escalate(cfg, env, st, task.level, task.architectureLike, constraints, false, task.grant).1.trace)
  {
    var after := Escalate(cfg, env, st, task.level, task.architectureLike, constraints, false, task.grant).1.trace;
    EscalationAdds(cfg, env, st, task.level, task.architectureLike, constraints, false, task.grant);
    if task.architectureLike && IsMajor(task.level) && !task.grant {
      var (d, asked) := Ask(env, st, Escalation);
      PrecedesWithout(allow, ExpertCall, st.trace, asked.trace);
      if d.action.AllowExpertAnalysis? {
        assert allow(asked.trace[|st.trace|]);
        PrecedesOnceHad(allow, ExpertCall, asked.trace, after);
      }
    }
  }

  // ----- constraints

  /** Every call but a plan or a review carries these constraints. */
  ghost predicate Carries(trace: seq<Event>, start: nat, constraints: seq<string>) {
    forall i :: start <= i < |trace| && trace[i].Called? && !Unconstrained(trace[i].purpose) ==>
        trace[i].constraints == constraints
  }

  lemma PerformCarries(cfg: Config, env: Env, st: St, task: Task, constraints: seq<string>, allowCloud: bool,
      forceLocal: bool)
    ensures st.trace <= Perform(cfg, env, st, task, constraints, allowCloud, forceLocal).1.trace
    ensures Carries(Perform(cfg, env, st, task, constraints, allowCloud, forceLocal).1.trace, |st.trace|, constraints)
  {
    var policy := PolicyName(cfg, task, forceLocal);
    var route := Decide(Coerce(policy), task.assessment, 0, CloudBudget(st.budget));
    var executed := ExecuteRoute(cfg, env, st, route.kind, constraints).1;
    RouteAdds(cfg, env, st, route.kind, constraints);
    var allowed := policy != "local_only" && (allowCloud || !IsMajor(task.level) || task.grant);
    var after :=
        Escalate(cfg, env, executed, task.level, task.architectureLike, constraints, allowed, task.grant).1.trace;
    EscalationAdds(cfg, env, executed, task.level, task.architectureLike, constraints, allowed, task.grant);
    assert executed.trace <= after;
    CarriesOn(st.trace, executed.trace, executed.trace, RouteTiers(route.kind), RoutePurposes(), constraints);
    if task.architectureLike && IsMajor(task.level) && !task.grant {
      CarriesOn(st.trace, executed.trace, Ask(env, executed, Escalation).1.trace, RouteTiers(route.kind),
          RoutePurposes(), constraints);
      CarriesFurther(|st.trace|, Ask(env, executed, Escalation).1.trace, after, {Expert}, {CloudEscalation},
          constraints);
    } else {
      CarriesFurther(|st.trace|, executed.trace, after, {Expert}, {CloudEscalation}, constraints);
    }
    hide ExecuteRoute, Escalate, Decide, Carries;
  }

  lemma CarriesOn(a: seq<Event>, b: seq<Event>, c: seq<Event>, tiers: set<Tier>, purposes: set<Purpose>,
      constraints: seq<string>)
    requires CallsOnly(a, b, tiers, purposes, constraints)
    requires b <= c && forall i :: |b| <= i < |c| ==> !c[i].Called?
    ensures Carries(c, |a|, constraints)
  {
    forall i | |a| <= i < |c| && c[i].Called? && !Unconstrained(c[i].purpose) ensures c[i].constraints == constraints {
      assert c[i] == b[i] && Fits(b[i], tiers, purposes, constraints);
    }
  }

  lemma CarriesFurther(start: nat, b: seq<Event>, c: seq<Event>, tiers: set<Tier>, purposes: set<Purpose>,
      constraints: seq<string>)
    requires Carries(b, start, constraints) && CallsOnly(b, c, tiers, purposes, constraints)
    ensures Carries(c, start, constraints)
  {
    forall i | start <= i < |c| && c[i].Called? && !Unconstrained(c[i].purpose)
      ensures c[i].constraints == constraints {
      if i < |b| {
        assert c[i] == b[i];
      } else {
        assert Fits(c[i], tiers, purposes, constraints);
      }
    }
  }

  /** The constraints the humans gave when they let the run go on are in every
      later execution and escalation message; those of an escalation decision are
      not, and plan and review go without any. */
  lemma ConstraintsReachExecution(cfg: Config, env: Env, task: Task, budget: Budget)
    requires NeedsApproval(cfg, task.level)
    ensures var (handled, st) := HandleMajor(cfg, env, St([], budget));
            handled.Proceed? ==>
                st.trace <= Run(cfg, env, task, budget).1.trace
                    && Carries(Run(cfg, env, task, budget).1.trace, |st.trace|, handled.constraints)
  {
    var (handled, st) := HandleMajor(cfg, env, St([], budget));
    hide HandleMajor, Perform, Carries;
    if handled.Proceed? {
      PerformCarries(cfg, env, st, task, handled.constraints, handled.allowCloud, handled.forceLocal);
    }
  }

  // ----- budget

  function ExpertCalls(trace: seq<Event>): nat {
    if trace == [] then 0 else ExpertCalls(trace[..|trace| - 1]) + if ExpertCall(trace[|trace| - 1]) then 1 else 0
  }

  /** What the expert calls of a trace were answered with: their tokens and cost. */
  function Spent(env: Env, trace: seq<Event>): (int, real) {
    if trace == [] then (0, 0.0)
    else
      var before := Spent(env, trace[..|trace| - 1]);
      if ExpertCall(trace[|trace| - 1]) && env.reply(trace).Answer?
      then (before.0 + env.reply(trace).tokens, before.1 + env.reply(trace).cost)
      else before
  }

  /** Within the limits, when a call with this estimate comes next. */
  predicate Affordable(start: Budget, spent: (int, real), estimate: (nat, real)) {
    start.tokens + spent.0 + estimate.0 <= start.maxTokens && start.cost + spent.1 + estimate.1 <= start.maxCost
  }

  /** At the i-th event, if it is an expert call, what was spent so far and the
      estimate for the call were within the limits. */
  predicate AffordedAt(env: Env, start: Budget, trace: seq<Event>, i: nat)
    requires i < |trace|
  {
    ExpertCall(trace[i]) ==> Affordable(start, Spent(env, trace[..i]), env.estimate(trace[..i], trace[i].purpose))
  }

  ghost predicate Afforded(env: Env, start: Budget, trace: seq<Event>) {
    forall i :: 0 <= i < |trace| ==> AffordedAt(env, start, trace, i)
  }

  predicate SameLimits(start: Budget, b: Budget) {
    b.maxCalls == start.maxCalls && b.maxTokens == start.maxTokens && b.maxCost == start.maxCost
  }

  /** No more expert calls than were left, and while the run goes on all are counted. */
  predicate Counted(start: Budget, st: St, goesOn: bool) {
    && ExpertCalls(st.trace) <= (if start.maxCalls > start.calls then start.maxCalls - start.calls else 0)
    && (goesOn ==> st.budget.calls == start.calls + ExpertCalls(st.trace))
  }

  /** The budget was charged exactly what the expert calls were answered with. */
  predicate Paid(env: Env, start: Budget, st: St) {
    && st.budget.tokens == start.tokens + Spent(env, st.trace).0
    && st.budget.cost == start.cost + Spent(env, st.trace).1
  }

  /** The expert calls of this run are within what the budget had left, each of them
      was affordable when it was made, and while the run goes on they are exactly
      what the budget was charged for. */
  ghost predicate Charged(env: Env, start: Budget, st: St, goesOn: bool) {
    && SameLimits(start, st.budget) && Counted(start, st, goesOn) && Paid(env, start, st)
    && Afforded(env, start, st.trace)
  }

  lemma CallsOneMore(trace: seq<Event>, e: Event)
    ensures ExpertCalls(trace + [e]) == ExpertCalls(trace) + if ExpertCall(e) then 1 else 0
  {
    assert (trace + [e])[..|trace|] == trace;
  }

  lemma SpentOneMore(env: Env, trace: seq<Event>, e: Event)
    ensures Spent(env, trace + [e]) ==
            if ExpertCall(e) && env.reply(trace + [e]).Answer?
            then
              (Spent(env, trace).0 + env.reply(trace + [e]).tokens, Spent(env, trace).1 + env.reply(trace + [e]).cost)
            else Spent(env, trace)
  {
    assert (trace + [e])[..|trace|] == trace;
  }

  lemma AffordedOneMore(env: Env, start: Budget, trace: seq<Event>, e: Event)
    requires Afforded(env, start, trace)
    requires ExpertCall(e) ==> Affordable(start, Spent(env, trace), env.estimate(trace, e.purpose))
    ensures Afforded(env, start, trace + [e])
  {
    hide Spent, Affordable;
    forall i | 0 <= i < |trace| + 1 ensures AffordedAt(env, start, trace + [e], i) {
      assert (trace + [e])[..i] == trace[..i];
      if i < |trace| {
        assert AffordedAt(env, start, trace, i);
      } else {
        assert trace[..i] == trace;
      }
    }
  }

  lemma NoteCharged(env: Env, start: Budget, st: St, e: Event, goesOn: bool)
    requires Charged(env, start, st, goesOn) && !ExpertCall(e)
    ensures Charged(env, start, st.(trace := st.trace + [e]), goesOn)
  {
    hide Afforded, Spent, ExpertCalls, Affordable;
    CallsOneMore(st.trace, e);
    SpentOneMore(env, st.trace, e);
    AffordedOneMore(env, start, st.trace, e);
  }

  lemma WithinBudget(env: Env, start: Budget, st: St, estimate: (nat, real))
    requires SameLimits(start, st.budget) && Counted(start, st, true) && Paid(env, start, st)
    requires !WouldExceed(st.budget, estimate.0, estimate.1)
    ensures Affordable(start, Spent(env, st.trace), estimate)
    ensures start.calls + ExpertCalls(st.trace) < start.maxCalls
  {
    hide Spent, ExpertCalls;
  }

  lemma ExpertCharged(env: Env, start: Budget, st: St, e: Event)
    requires Charged(env, start, st, true) && ExpertCall(e)
    requires var estimate := env.estimate(st.trace, e.purpose); !WouldExceed(st.budget, estimate.0, estimate.1)
    ensures var called := st.(trace := st.trace + [e]);
            var r := env.reply(called.trace);
            if r.Fails? then Charged(env, start, called, false)
            else Charged(env, start, called.(budget := Recorded(st.budget, r)), true)
  {
    hide Afforded, Spent, ExpertCalls, WouldExceed, Affordable;
    WithinBudget(env, start, st, env.estimate(st.trace, e.purpose));
    CallsOneMore(st.trace, e);
    SpentOneMore(env, st.trace, e);
    AffordedOneMore(env, start, st.trace, e);
  }

  lemma CallCharged(start: Budget, cfg: Config, env: Env, st: St, tier: Tier, purpose: Purpose,
      constraints: seq<string>)
    requires Charged(env, start, st, true)
    ensures var (got, after) := CallTier(cfg, env, st, tier, purpose, constraints);
            Charged(env, start, after, tier == Local || !got.ProviderFailed?)
  {
    var e := Called(tier, purpose, constraints);
    var estimate := env.estimate(st.trace, purpose);
    if tier == Local {
      NoteCharged(env, start, st, e, true);
    } else if !WouldExceed(st.budget, estimate.0, estimate.1) {
      ExpertCharged(env, start, st, e);
    }
    RefusedCharged(env, start, st);
    hide Charged, WouldExceed, Recorded;
  }

  lemma RefusedCharged(env: Env, start: Budget, st: St)
    requires Charged(env, start, st, true)
    ensures Charged(env, start, st.(budget := st.budget.(exhausted := true)), true)
    ensures Charged(env, start, st, false)
  {
    hide Afforded, Spent, ExpertCalls;
  }

  lemma {:induction false} LocalCharged(start: Budget, cfg: Config, env: Env, st: St, constraints: seq<string>,
      left: nat, failed: nat)
    requires Charged(env, start, st, true)
    ensures var (done, after) := ExecuteLocal(cfg, env, st, constraints, left, failed);
            Charged(env, start, after, true) && done.Finished?
    decreases left
  {
    if left > 0 {
      CallCharged(start, cfg, env, st, Local, LocalExecute, constraints);
      var (got, called) := CallTier(cfg, env, st, Local, LocalExecute, constraints);
      var (passed, verified) := Verify(env, called);
      NoteCharged(env, start, called, Verified(passed), true);
      hide CallTier, Charged;
      LocalCharged(start, cfg, env, if got.Got? then verified else called, constraints, left - 1, failed + 1);
    }
  }

  lemma HybridCharged(start: Budget, cfg: Config, env: Env, st: St, constraints: seq<string>)
    requires Charged(env, start, st, true)
    ensures var (done, after) := ExecuteHybrid(cfg, env, st, constraints);
            Charged(env, start, after, done.Finished?)
  {
    CallCharged(start, cfg, env, st, Expert, CloudPlan, []);
    var (planned, s1) := CallTier(cfg, env, st, Expert, CloudPlan, []);
    if planned.Got? {
      ReviewedCharged(start, cfg, env, s1, constraints);
    }
    ChargedEither();
    hide CallTier, Charged, Verify;
  }

  /** Local execution, verification and review. */
  lemma ReviewedCharged(start: Budget, cfg: Config, env: Env, s1: St, constraints: seq<string>)
    requires Charged(env, start, s1, true)
    ensures var (executed, s2) := CallTier(cfg, env, s1, Local, LocalExecute, constraints);
            var s3 := Verify(env, s2).1;
            var (reviewed, s4) := CallTier(cfg, env, s3, Expert, CloudReview, []);
            && Charged(env, start, s2, true) && Charged(env, start, s3, true)
            && Charged(env, start, s4, !reviewed.ProviderFailed?)
  {
    CallCharged(start, cfg, env, s1, Local, LocalExecute, constraints);
    var s2 := CallTier(cfg, env, s1, Local, LocalExecute, constraints).1;
    var (passed, s3) := Verify(env, s2);
    NoteCharged(env, start, s2, Verified(passed), true);
    CallCharged(start, cfg, env, s3, Expert, CloudReview, []);
    hide CallTier, Charged;
  }

  lemma ChargedEither()
    ensures forall env: Env, start: Budget, st: St :: Charged(env, start, st, true) ==> Charged(env, start, st, false)
  {
  }

  lemma RouteCharged(start: Budget, cfg: Config, env: Env, st: St, kind: RouteKind, constraints: seq<string>)
    requires Charged(env, start, st, true)
    ensures var (done, after) := ExecuteRoute(cfg, env, st, kind, constraints);
            Charged(env, start, after, done.Finished?)
  {
    match kind
    case LocalRoute => LocalCharged(start, cfg, env, st, constraints, Attempts(cfg), 0);
    case HybridRoute => HybridCharged(start, cfg, env, st, constraints);
    case CloudRoute =>
      CallCharged(start, cfg, env, st, Expert, CloudExecute, constraints);
      var (got, called) := CallTier(cfg, env, st, Expert, CloudExecute, constraints);
      if got.Got? {
        NoteCharged(env, start, called, Verified(Verify(env, called).0), true);
      }
      ChargedEither();
      hide CallTier, Charged;
  }

  lemma EscalationCharged(start: Budget, cfg: Config, env: Env, st: St, level: Level, architectureLike: bool,
      constraints: seq<string>, allowed: bool, grant: bool)
    requires Charged(env, start, st, true)
    ensures Charged(env, start, Escalate(cfg, env, st, level, architectureLike, constraints, allowed, grant).1, false)
  {
    var (d, asked) := Ask(env, st, Escalation);
    NoteCharged(env, start, st, Asked(Escalation, d.action), true);
    CallCharged(start, cfg, env, st, Expert, CloudEscalation, constraints);
    CallCharged(start, cfg, env, asked, Expert, CloudEscalation, constraints);
    ChargedEither();
    hide CallTier, Charged;
  }

  lemma AnalysisCharged(start: Budget, cfg: Config, env: Env, st: St, constraints: seq<string>)
    requires Charged(env, start, st, true)
    ensures var (handled, after) := AfterAnalysis(cfg, env, st, constraints);
            Charged(env, start, after, !handled.Broke?)
  {
    CallCharged(start, cfg, env, st, Expert, ExpertAnalysis, constraints);
    var (got, analysed) := CallTier(cfg, env, st, Expert, ExpertAnalysis, constraints);
    ChargedEither();
    hide CallTier, Charged;
    if got.Got? {
      NoteCharged(env, start, analysed, Asked(Implementation, env.decide(analysed.trace, Implementation).action), true);
    }
  }

  lemma HandlingCharged(cfg: Config, env: Env, budget: Budget)
    ensures var (handled, st) := HandleMajor(cfg, env, St([], budget));
            Charged(env, budget, st, !handled.Broke?)
  {
    var start := St([], budget);
    var (d, asked) := Ask(env, start, Analysis);
    NoteCharged(env, budget, start, Asked(Analysis, d.action), true);
    AnalysisCharged(budget, cfg, env, asked, d.constraints);
    HandlingUnfolds(cfg, env, start);
    hide AfterAnalysis, Charged, HandleMajor;
  }

  lemma PerformCharged(start: Budget, cfg: Config, env: Env, st: St, task: Task, constraints: seq<string>,
      allowCloud: bool, forceLocal: bool)
    requires Charged(env, start, st, true)
    ensures Charged(env, start, Perform(cfg, env, st, task, constraints, allowCloud, forceLocal).1, false)
  {
    var policy := PolicyName(cfg, task, forceLocal);
    var route := Decide(Coerce(policy), task.assessment, 0, CloudBudget(st.budget));
    RouteCharged(start, cfg, env, st, route.kind, constraints);
    var (done, executed) := ExecuteRoute(cfg, env, st, route.kind, constraints);
    if done.Finished? {
      EscalationCharged(start, cfg, env, executed, task.level, task.architectureLike, constraints,
                        policy != "local_only" && (allowCloud || !IsMajor(task.level) || task.grant), task.grant);
    }
    ChargedEither();
    hide ExecuteRoute, Escalate, Decide, Charged;
  }

  lemma RunCharged(cfg: Config, env: Env, task: Task, budget: Budget)
    ensures Charged(env, budget, Run(cfg, env, task, budget).1, false)
  {
    var start := St([], budget);
    ChargedEither();
    if NeedsApproval(cfg, task.level) {
      HandlingCharged(cfg, env, budget);
      var (handled, st) := HandleMajor(cfg, env, start);
      if handled.Proceed? {
        PerformCharged(budget, cfg, env, st, task, handled.constraints, handled.allowCloud, handled.forceLocal);
      }
    } else {
      PerformCharged(budget, cfg, env, start, task, [], false, false);
    }
    hide HandleMajor, Perform, Charged;
  }

  /** A run never calls the expert more often than its call budget allows, failed
      calls included; and it makes no expert call unless what it has spent, with the
      estimate for the call, is within the token and cost limits. So each limit is
      passed by at most what the last reply exceeds its estimate. */
  lemma ExpertCallsWithinBudget(cfg: Config, env: Env, task: Task, budget: Budget)
    ensures ExpertCalls(Run(cfg, env, task, budget).1.trace) <=
            if budget.maxCalls > budget.calls then budget.maxCalls - budget.calls else 0
    ensures Afforded(env, budget, Run(cfg, env, task, budget).1.trace)
    ensures var end := Run(cfg, env, task, budget).1;
            end.budget.tokens == budget.tokens + Spent(env, end.trace).0
                && end.budget.cost == budget.cost + Spent(env, end.trace).1
  {
    RunCharged(cfg, env, task, budget);
    hide Run, Afforded;
  }

  /** The tokens and the cost of the reply to the last call of a trace. */
  function ReplyUse(env: Env, trace: seq<Event>): (int, real) {
    if env.reply(trace).Answer? then (env.reply(trace).tokens, env.reply(trace).cost) else (0, 0.0)
  }

  /** The i-th event is the last expert call, and each limit is passed by at most
      what its reply exceeds its estimate. */
  ghost predicate LastOvershoots(env: Env, start: Budget, trace: seq<Event>, i: nat)
    requires i < |trace|
  {
    && ExpertCall(trace[i]) && (forall k :: i < k < |trace| ==> !ExpertCall(trace[k]))
    && var used, estimate := ReplyUse(env, trace[..i + 1]), env.estimate(trace[..i], trace[i].purpose);
       && start.tokens + Spent(env, trace).0 <= start.maxTokens + used.0 - estimate.0
       && start.cost + Spent(env, trace).1 <= start.maxCost + used.1 - estimate.1
  }

  /** Only the reply to the last expert call can take what was spent past a limit. */
  lemma {:induction false} AffordedOvershoots(env: Env, start: Budget, trace: seq<Event>)
    requires Afforded(env, start, trace)
    ensures ExpertCalls(trace) == 0 ==> Spent(env, trace) == (0, 0.0)
    ensures ExpertCalls(trace) > 0 ==> exists i :: 0 <= i < |trace| && LastOvershoots(env, start, trace, i)
  {
    if trace != [] {
      var n := |trace| - 1;
      var init := trace[..n];
      assert AffordedAt(env, start, trace, n);
      if ExpertCall(trace[n]) {
        assert trace[..n + 1] == trace;
        assert LastOvershoots(env, start, trace, n);
      } else {
        forall i | 0 <= i < n ensures AffordedAt(env, start, init, i) {
          assert AffordedAt(env, start, trace, i) && init[..i] == trace[..i];
        }
        AffordedOvershoots(env, start, init);
        if i :| 0 <= i < n && LastOvershoots(env, start, init, i) {
          assert init[..i + 1] == trace[..i + 1] && init[..i] == trace[..i];
          assert LastOvershoots(env, start, trace, i);
        }
      }
    }
  }

  /** The i-th event of a finished run is its last expert call, and what was spent
      passes each limit by at most what the reply to it exceeds its estimate. */
  ghost predicate EndsWithinReply(env: Env, budget: Budget, end: St, i: nat)
    requires i < |end.trace|
  {
    && ExpertCall(end.trace[i]) && (forall k :: i < k < |end.trace| ==> !ExpertCall(end.trace[k]))
    && end.budget.tokens <= budget.maxTokens + ReplyUse(env, end.trace[..i + 1]).0
                            - env.estimate(end.trace[..i], end.trace[i].purpose).0
    && end.budget.cost <= budget.maxCost + ReplyUse(env, end.trace[..i + 1]).1
                          - env.estimate(end.trace[..i], end.trace[i].purpose).1
  }

  /** A run passes its token and cost limits by at most what the reply to its last
      expert call exceeds its estimate; without an expert call it spends nothing. */
  lemma OvershootsByOneReply(cfg: Config, env: Env, task: Task, budget: Budget)
    ensures var end := Run(cfg, env, task, budget).1;
            ExpertCalls(end.trace) == 0 ==> end.budget.tokens == budget.tokens && end.budget.cost == budget.cost
    ensures var end := Run(cfg, env, task, budget).1;
            ExpertCalls(end.trace) > 0 ==> exists i :: 0 <= i < |end.trace| && EndsWithinReply(env, budget, end, i)
  {
    var end := Run(cfg, env, task, budget).1;
    ExpertCallsWithinBudget(cfg, env, task, budget);
    AffordedOvershoots(env, budget, end.trace);
    hide Run, Afforded, Spent, ReplyUse;
    if ExpertCalls(end.trace) != 0 {
      var i :| 0 <= i < |end.trace| && LastOvershoots(env, budget, end.trace, i);
      assert EndsWithinReply(env, budget, end, i);
    }
  }

  // ----- the route taken

  /** An expert call made in executing a route, as opposed to analysing or escalating. */
  predicate RouteExpertCall(e: Event) {
    ExpertCall(e) && e.purpose in RoutePurposes()
  }

  /** The policy in force and the budget at routing lead to the expert. */
  predicate RoutedToExpert(policy: Policy, task: Task, budget: Budget) {
    && UsesCloud(Decide(policy, task.assessment, 0, CloudBudget(budget)))
    && policy != LocalOnly
    && (policy == CloudOnly || policy == ExpertFirst ||
        (CloudBudget(budget) && (!task.assessment.localViable || task.assessment.requiresCloud)))
  }

  /** What a task's performance adds: the expert plans, executes or reviews only if the
      route uses the cloud. */
  lemma PerformedByRoute(cfg: Config, env: Env, st: St, task: Task, constraints: seq<string>,
      allowCloud: bool, forceLocal: bool)
    ensures var after := Perform(cfg, env, st, task, constraints, allowCloud, forceLocal).1.trace;
            var policy := Coerce(PolicyName(cfg, task, forceLocal));
            && st.trace <= after
            && forall i :: |st.trace| <= i < |after| && RouteExpertCall(after[i]) ==>
                 RoutedToExpert(policy, task, st.budget)
  {
    var name := PolicyName(cfg, task, forceLocal);
    var route := Decide(Coerce(name), task.assessment, 0, CloudBudget(st.budget));
    KindTellsTiers(Coerce(name), task.assessment, 0, CloudBudget(st.budget));
    UsesCloudExactly(Coerce(name), task.assessment, 0, CloudBudget(st.budget));
    var executed := ExecuteRoute(cfg, env, st, route.kind, constraints).1;
    RouteAdds(cfg, env, st, route.kind, constraints);
    var allowed := name != "local_only" && (allowCloud || !IsMajor(task.level) || task.grant);
    var after :=
        Escalate(cfg, env, executed, task.level, task.architectureLike, constraints, allowed, task.grant).1.trace;
    EscalationAdds(cfg, env, executed, task.level, task.architectureLike, constraints, allowed, task.grant);
    assert executed.trace <= after;
    hide ExecuteRoute, Escalate, Decide, Coerce;
    forall i | |st.trace| <= i < |after| && RouteExpertCall(after[i]) ensures UsesCloud(route) {
      if i < |executed.trace| {
        assert after[i] == executed.trace[i]
               && Fits(executed.trace[i], RouteTiers(route.kind), RoutePurposes(), constraints);
      } else {
        NotEscalation(env, executed, after, i, task, constraints);
      }
    }
  }

  /** What a run brings to its routing: the constraints and permissions, the trace and
      the budget. */
  function BeforeRouting(cfg: Config, env: Env, task: Task, budget: Budget): (Handled, St) {
    if NeedsApproval(cfg, task.level) then HandleMajor(cfg, env, St([], budget))
    else (Proceed([], false, false), St([], budget))
  }

  /** Before routing the expert is at most called for an analysis. */
  lemma OnlyAnalysisBefore(cfg: Config, env: Env, task: Task, budget: Budget)
    ensures var trace := BeforeRouting(cfg, env, task, budget).1.trace;
            forall i :: 0 <= i < |trace| ==> !RouteExpertCall(trace[i])
  {
  }

  /** Routing decides, over whole runs: the expert plans, executes or reviews only if
      the run came to its routing and the policy in force there, with the assessment and
      the budget left, leads to the expert. */
  lemma ExpertExecutesOnlyByRoute(cfg: Config, env: Env, task: Task, budget: Budget, i: nat)
    requires i < |Run(cfg, env, task, budget).1.trace| && RouteExpertCall(Run(cfg, env, task, budget).1.trace[i])
    ensures var (handled, st) := BeforeRouting(cfg, env, task, budget);
            && handled.Proceed?
            && RoutedToExpert(Coerce(PolicyName(cfg, task, handled.forceLocal)), task, st.budget)
  {
    OnlyAnalysisBefore(cfg, env, task, budget);
    hide HandleMajor, Perform, RoutedToExpert, Coerce;
    var (handled, st) := BeforeRouting(cfg, env, task, budget);
    if handled.Proceed? {
      PerformedByRoute(cfg, env, st, task, handled.constraints, handled.allowCloud, handled.forceLocal);
    }
  }

  /** What escalation adds is a question and calls for escalation. */
  lemma NotEscalation(env: Env, st: St, after: seq<Event>, i: nat, task: Task, constraints: seq<string>)
    requires |st.trace| <= i < |after|
    requires var asks := task.architectureLike && IsMajor(task.level) && !task.grant;
             var asked := Ask(env, st, Escalation).1.trace;
             (asks ==> asked <= after)
                 && CallsOnly(if asks then asked else st.trace, after, {Expert}, {CloudEscalation}, constraints)
    ensures !RouteExpertCall(after[i])
  {
    var asked := Ask(env, st, Escalation).1.trace;
    if task.architectureLike && IsMajor(task.level) && !task.grant && i < |asked| {
      assert after[i] == asked[i];
    } else {
      assert Fits(after[i], {Expert}, {CloudEscalation}, constraints);
    }
  }

  // ----- no cloud

  /** A call that leaves the machine: to the expert, or to a local model that is
      really hosted. */
  predicate Leaves(cfg: Config, e: Event) {
    e.Called? && (e.tier == Expert || cfg.localIsCloud)
  }

  ghost predicate StaysHome(cfg: Config, trace: seq<Event>) {
    forall i :: 0 <= i < |trace| ==> !Leaves(cfg, trace[i])
  }

  lemma CallStaysHome(cfg: Config, env: Env, st: St, tier: Tier, purpose: Purpose, constraints: seq<string>)
    requires !cfg.cloudAllowed && StaysHome(cfg, st.trace)
    ensures StaysHome(cfg, CallTier(cfg, env, st, tier, purpose, constraints).1.trace)
    ensures tier == Expert ==> CallTier(cfg, env, st, tier, purpose, constraints) == (ProviderFailed, st)
  {
  }

  lemma {:induction false} LocalStaysHome(cfg: Config, env: Env, st: St, constraints: seq<string>, left: nat,
      failed: nat)
    requires !cfg.cloudAllowed && StaysHome(cfg, st.trace)
    ensures StaysHome(cfg, ExecuteLocal(cfg, env, st, constraints, left, failed).1.trace)
    decreases left
  {
    if left > 0 {
      CallStaysHome(cfg, env, st, Local, LocalExecute, constraints);
      var (got, called) := CallTier(cfg, env, st, Local, LocalExecute, constraints);
      var verified := Verify(env, called).1;
      hide CallTier;
      LocalStaysHome(cfg, env, if got.Got? then verified else called, constraints, left - 1, failed + 1);
    }
  }

  /** With the cloud disabled nothing leaves the machine in any run, whatever the
      human, the policy or a grant says; and the run stays on the local route. */
  lemma NothingLeavesWithoutCloud(cfg: Config, env: Env, task: Task, budget: Budget)
    requires !cfg.cloudAllowed
    ensures StaysHome(cfg, Run(cfg, env, task, budget).1.trace)
  {
    var start := St([], budget);
    if NeedsApproval(cfg, task.level) {
      var (d, asked) := Ask(env, start, Analysis);
      CallStaysHome(cfg, env, asked, Expert, ExpertAnalysis, d.constraints);
      var (handled, st) := HandleMajor(cfg, env, start);
      assert StaysHome(cfg, st.trace);
      hide HandleMajor, Perform;
      if handled.Proceed? {
        PerformStaysHome(cfg, env, st, task, handled.constraints, handled.allowCloud, handled.forceLocal);
      }
    } else {
      hide Perform;
      PerformStaysHome(cfg, env, start, task, [], false, false);
    }
  }

  lemma PerformStaysHome(cfg: Config, env: Env, st: St, task: Task, constraints: seq<string>, allowCloud: bool,
      forceLocal: bool)
    requires !cfg.cloudAllowed && StaysHome(cfg, st.trace)
    ensures StaysHome(cfg, Perform(cfg, env, st, task, constraints, allowCloud, forceLocal).1.trace)
  {
    LocalOnlyRoutes(task.assessment, CloudBudget(st.budget));
    LocalStaysHome(cfg, env, st, constraints, Attempts(cfg), 0);
    var executed := ExecuteLocal(cfg, env, st, constraints, Attempts(cfg), 0).1;
    CallStaysHome(cfg, env, executed, Expert, CloudEscalation, constraints);
    var asked := Ask(env, executed, Escalation).1;
    CallStaysHome(cfg, env, asked, Expert, CloudEscalation, constraints);
    hide CallTier, ExecuteLocal, Decide;
  }

  // ----- completion

  /** The answer passed verification (and was at most reviewed since), or the
      expert was called in after the failure. */
  predicate Earned(trace: seq<Event>) {
    var n := |trace|;
    || (n > 0 && trace[n - 1] == Verified(true))
    || (n > 1 && trace[n - 2] == Verified(true) && trace[n - 1].Called? && trace[n - 1].purpose.CloudReview?)
    || (n > 0 && trace[n - 1].Called? && trace[n - 1].purpose.CloudEscalation?)
  }

  lemma {:induction false} LocalEarns(cfg: Config, env: Env, st: St, constraints: seq<string>, left: nat, failed: nat)
    ensures var (done, after) := ExecuteLocal(cfg, env, st, constraints, left, failed);
            done.Finished? && (done.passed ==> Earned(after.trace))
    decreases left
  {
    if left > 0 {
      var (got, called) := CallTier(cfg, env, st, Local, LocalExecute, constraints);
      var verified := Verify(env, called).1;
      hide CallTier;
      LocalEarns(cfg, env, if got.Got? then verified else called, constraints, left - 1, failed + 1);
    }
  }

  lemma RouteEarns(cfg: Config, env: Env, st: St, kind: RouteKind, constraints: seq<string>)
    ensures var (done, after) := ExecuteRoute(cfg, env, st, kind, constraints);
            done.Finished? && done.passed ==> Earned(after.trace)
  {
    match kind
    case LocalRoute => LocalEarns(cfg, env, st, constraints, Attempts(cfg), 0);
    case HybridRoute =>
    case CloudRoute =>
  }

  /** A run is reported completed only if its answer passed verification or the
      expert answered the escalation. */
  lemma CompletionIsEarned(cfg: Config, env: Env, task: Task, budget: Budget)
    requires Run(cfg, env, task, budget).0 == Completed
    ensures Earned(Run(cfg, env, task, budget).1.trace)
  {
    var start := St([], budget);
    if NeedsApproval(cfg, task.level) {
      var (handled, st) := HandleMajor(cfg, env, start);
      PerformEarns(cfg, env, st, task, handled.constraints, handled.allowCloud, handled.forceLocal);
    } else {
      PerformEarns(cfg, env, start, task, [], false, false);
    }
    hide HandleMajor, Perform;
  }

  lemma PerformEarns(cfg: Config, env: Env, st: St, task: Task, constraints: seq<string>, allowCloud: bool,
      forceLocal: bool)
    requires Perform(cfg, env, st, task, constraints, allowCloud, forceLocal).0 == Completed
    ensures Earned(Perform(cfg, env, st, task, constraints, allowCloud, forceLocal).1.trace)
  {
    var policy := PolicyName(cfg, task, forceLocal);
    var route := Decide(Coerce(policy), task.assessment, 0, CloudBudget(st.budget));
    RouteEarns(cfg, env, st, route.kind, constraints);
    var executed := ExecuteRoute(cfg, env, st, route.kind, constraints).1;
    EscalationEarns(cfg, env, executed, task, constraints, policy != "local_only"
        && (allowCloud || !IsMajor(task.level) || task.grant));
    hide ExecuteRoute, Escalate, Decide;
  }

  lemma EscalationEarns(cfg: Config, env: Env, st: St, task: Task, constraints: seq<string>, allowed: bool)
    ensures var (end, after) :=
            Escalate(cfg, env, st, task.level, task.architectureLike, constraints, allowed, task.grant);
            end == Resolved(true) ==> Earned(after.trace)
  {
  }
}
