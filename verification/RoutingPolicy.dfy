/**
 The routing policy (sifter/src/aa_sifter/routing/policy.py) and which of its
 routes use the expert tier.
 */
module RoutingPolicy {
  import opened Outcomes

  datatype Level = Routine | Significant | Major | Critical

  predicate IsMajor(l: Level) {
    l.Major? || l.Critical?
  }

  datatype Tier = Local | Expert

  datatype RouteKind = LocalRoute | HybridRoute | CloudRoute

  datatype Route = Route(kind: RouteKind, planner: Option<Tier>, executor: Tier, review: Option<Tier>)

  predicate UsesCloud(r: Route) {
    r.executor == Expert || r.planner == Some(Expert) || r.review == Some(Expert)
  }

  datatype Policy = LocalOnly | CloudOnly | LocalFirst | ExpertFirst | Adaptive | BudgetConstrained

  /** Names the engine does not know mean adaptive. */
  function Coerce(name: string): Policy {
    if name == "local_only" then LocalOnly
    else if name == "cloud_only" then CloudOnly
    else if name == "local_first" then LocalFirst
    else if name == "expert_first" then ExpertFirst
    else if name == "budget_constrained" then BudgetConstrained
    else Adaptive
  }

  /** What preflight found: whether the local model is up to it, whether the
      work requires the cloud, whether it is hard, whether it is architectural. */
  datatype Assessment = Assessment(level: Level, localViable: bool, requiresCloud: bool, difficult: bool,
      architectural: bool)

  function AdaptiveRoute(a: Assessment, failedAttempts: nat): Route {
    if failedAttempts > 0 then
      if a.architectural && IsMajor(a.level) then Route(CloudRoute, Some(Expert), Expert, Some(Expert))
      else Route(CloudRoute, Some(Expert), Expert, None)
    else if a.localViable && !a.requiresCloud then Route(LocalRoute, None, Local, None)
    else if a.difficult || !a.localViable then Route(HybridRoute, Some(Expert), Local, Some(Expert))
    else Route(HybridRoute, Some(Expert), Local, Some(Expert))
  }

  function Decide(policy: Policy, a: Assessment, failedAttempts: nat, cloudBudget: bool): Route {
    var decision :=
      match policy
      case LocalOnly => Route(LocalRoute, None, Local, None)
      case CloudOnly => Route(CloudRoute, Some(Expert), Expert, Some(Expert))
      case ExpertFirst => Route(CloudRoute, Some(Expert), Expert, None)
      case BudgetConstrained =>
        if !cloudBudget || a.localViable then Route(LocalRoute, None, Local, None)
        else Route(HybridRoute, Some(Expert), Local, None)
      case LocalFirst =>
        if a.localViable && failedAttempts == 0 then Route(LocalRoute, None, Local, None)
        else Route(CloudRoute, Some(Expert), Expert, None)
      case Adaptive => AdaptiveRoute(a, failedAttempts);
    if !cloudBudget && UsesCloud(decision) && (policy.Adaptive? || policy.LocalFirst? || policy.BudgetConstrained?)
    then Route(LocalRoute, None, Local, None)
    else decision
  }

  /** The route kinds tell the truth about the tiers. */
  lemma KindTellsTiers(policy: Policy, a: Assessment, failedAttempts: nat, cloudBudget: bool)
    ensures var r := Decide(policy, a, failedAttempts, cloudBudget);
            && (r.kind.LocalRoute? <==> !UsesCloud(r))
            && (r.kind.CloudRoute? <==> r.executor == Expert)
            && (r.kind.HybridRoute? <==> r.planner == Some(Expert) && r.executor == Local)
  {
  }

  /** When a route uses the expert tier: difficulty and architecture do not enter,
      and two policies ignore the budget. */
  lemma UsesCloudExactly(policy: Policy, a: Assessment, failedAttempts: nat, cloudBudget: bool)
    ensures UsesCloud(Decide(policy, a, failedAttempts, cloudBudget)) <==>
            match policy
            case LocalOnly => false
            case CloudOnly => true
            case ExpertFirst => true
            case BudgetConstrained => cloudBudget && !a.localViable
            case LocalFirst => cloudBudget && !(a.localViable && failedAttempts == 0)
            case Adaptive => cloudBudget && (failedAttempts > 0 || !a.localViable || a.requiresCloud)
  {
  }
}
