/**
 What a call of the control cycle answers (kernel/orchestrator/orchestrator.go,
 kernel/gate/gate.go, kernel/intake/intake.go), said of what worker, intake and gates
 report: over every step of every run.
 */
module ControlVerdicts {
  import opened Lex
  import opened Outcomes
  import opened DependencyGraph
  import opened WorkPlan
  import opened Assignments
  import opened Gates
  import opened ControlState
  import opened ControlInvariant
  import opened ControlRuns

  // ----- gates and intake

  /** The gate lets a result of the package through. */
  predicate Lets(gate: Gate, id: string, r: RunResult) {
    match gate
    case TestsGate => |r.tests| > 0 && forall i :: 0 <= i < |r.tests| ==> r.tests[i].outcome == "passed"
    case HumanGate(approved) => id in approved
    case OtherGate(_, decide) => decide(Subject(id, r.status, r.tests)) == (true, false)
  }

  /** The gate has not made up its mind. */
  predicate Holds(gate: Gate, id: string, r: RunResult) {
    match gate
    case TestsGate => false
    case HumanGate(approved) => id !in approved
    case OtherGate(_, decide) => decide(Subject(id, r.status, r.tests)).1
  }

  ghost predicate AllLet(gates: seq<Gate>, id: string, r: RunResult) {
    forall gate :: gate in gates ==> Lets(gate, id, r)
  }

  ghost predicate SomeHold(gates: seq<Gate>, id: string, r: RunResult) {
    exists gate :: gate in gates && Holds(gate, id, r)
  }

  lemma GatesSay(gates: seq<Gate>, id: string, r: RunResult)
    ensures AllPass(gates, SubjectOf(id, r)) <==> AllLet(gates, id, r)
    ensures SomePending(gates, SubjectOf(id, r)) <==> SomeHold(gates, id, r)
  {
    forall gate: Gate
      ensures Gates.Passes(gate.Decide(SubjectOf(id, r))) <==> Lets(gate, id, r)
      ensures gate.Decide(SubjectOf(id, r)).pending <==> Holds(gate, id, r)
    {
      GateSays(gate, id, r);
    }
    hide Lets, Holds, Gate.Decide;
  }

  lemma GateSays(gate: Gate, id: string, r: RunResult)
    ensures Gates.Passes(gate.Decide(SubjectOf(id, r))) <==> Lets(gate, id, r)
    ensures gate.Decide(SubjectOf(id, r)).pending <==> Holds(gate, id, r)
  {
    if gate.TestsGate? {
      assert forall i :: 0 <= i < |r.tests| ==> r.tests[i] in r.tests;
    }
  }

  /** A result the intake records: of a known status, and with a failure record if it
      is a failed or blocked one. */
  predicate Recordable(r: RunResult) {
    match r.status
    case Succeeded => true
    case Partial => true
    case Cancelled => true
    case ResultFailed => r.hasFailure
    case Blocked => r.hasFailure
    case UnknownStatus(_) => false
  }

  /** Only these results go to the gates. */
  predicate GoesToGates(r: RunResult) {
    r.status == Succeeded || r.status == Partial
  }

  // ----- what a call does

  /** The gates' part, for dispatch and resolve alike: the package succeeds exactly when
      every gate lets its result through, stays pending exactly when some gate has not
      made up its mind, and fails exactly when none is undecided and some refuses. */
  ghost predicate GatesDecide(s: KState, s': KState, id: string, r: RunResult, o: Outcome) {
    && (o == Reported(id, WorkSucceeded) <==> AllLet(s.gates, id, r))
    && (o == Reported(id, WorkPending) <==> SomeHold(s.gates, id, r))
    && (o == Reported(id, WorkFailed) <==>
          !SomeHold(s.gates, id, r) && exists gate :: gate in s.gates && !Lets(gate, id, r))
    && (o == Reported(id, WorkSucceeded) ==> Ends(s, s', id, AssignmentState.Accepted, Completed, [WorkAccepted(id)]))
    && (o == Reported(id, WorkPending) ==> s' == s.(assignments := s.assignments[id := AwaitingGates]))
    && (o == Reported(id, WorkFailed) ==> Ends(s, s', id, AssignmentState.Failed, Deficient, []))
    && o in {Reported(id, WorkSucceeded), Reported(id, WorkPending), Reported(id, WorkFailed)}
  }

  /** Assignment and package change together; what happened is logged. */
  ghost predicate Ends(s: KState, s': KState, id: string, a: AssignmentState, p: PackageState, events: seq<Event>) {
    s' == s.(assignments := s.assignments[id := a], packages := s.packages[id := p], log := s'.log)
    && s'.log == s.log + seq(|events|, i requires 0 <= i < |events| => Entry(|s.log| + i + 1, events[i]))
  }

  /** A worker took the package on. */
  function Begun(s: KState, id: string, worker: string): KState {
    s.(packages := s.packages[id := PackageState.Running],
       log := s.log + [Entry(|s.log| + 1, ExecutionStarted(id, worker))])
  }

  /** The result was recorded under the package's submission id. */
  function Taken(digest: RunResult -> string, s: KState, id: string, r: RunResult): KState {
    s.(results := s.results[id := r], seen := s.seen["res_asg_" + id := digest(r.(hasFailure := false))])
  }

  /** A dispatch of package id, given the worker selected, whether a contract can be
      built, and what the adapter answers. */
  ghost predicate DispatchRule(digest: RunResult -> string, s: KState, s': KState, id: string, worker: Option<string>,
      contract: bool, answer: Option<RunResult>, o: Outcome) {
    if worker.None? then s' == s && o == NoWorker(id)
    else if !contract then s' == s && o == ContractRefused(id)
    else
      var begun := Begun(s, id, worker.value);
      match answer
      case None =>
        o == Reported(id, WorkFailed) && Ends(begun, s', id, AssignmentState.Failed, Deficient, [])
      case Some(r) =>
        if !Recordable(r) then s' == begun && o == IntakeRefused(id)
        else if GoesToGates(r) then GatesDecide(Taken(digest, begun, id, r), s', id, r, o)
        else
          o == Reported(id, WorkFailed)
          && Ends(Taken(digest, begun, id, r), s', id, AssignmentState.Failed, Deficient, [])
  }

  /** What the adapter answers; the disabled one reports every package blocked. */
  function Answered(enabled: bool, env: Env, id: string): Option<RunResult> {
    if enabled then env.run(id) else Some(RunResult(Blocked, "", [], [], true))
  }

  /** Not taken on yet, and every dependency completed. */
  predicate MayStart(g: Graph, s: KState, id: string) {
    && id in g && id in s.packages && (s.packages[id] == Proposed || s.packages[id] == PackageState.Ready)
    && forall i :: 0 <= i < |g[id]| ==> g[id][i] in s.packages && s.packages[g[id][i]] == Completed
  }

  lemma MayStartIsReady(g: Graph, s: KState, id: string)
    ensures MayStart(g, s, id) <==> IsReady(g, s.packages, id)
  {
    if id in g {
      assert forall i :: 0 <= i < |g[id]| ==> g[id][i] in g[id];
    }
  }

  // ----- over runs

  lemma JudgeDecides(s: KState, id: string, r: RunResult)
    ensures GatesDecide(s, Judge(s, id, r).0, id, r, Judge(s, id, r).1)
  {
    GatesSay(s.gates, id, r);
    hide AllPass, SomePending, Lets, Holds, SubjectOf;
    LetMeansNotHeld(s.gates, id, r);
    assert Accept(s, id).log == s.log + [Entry(|s.log| + 1, WorkAccepted(id))];
    assert s.log + [] == s.log;
  }

  lemma LetMeansNotHeld(gates: seq<Gate>, id: string, r: RunResult)
    ensures AllLet(gates, id, r) ==> !SomeHold(gates, id, r)
  {
    assert forall gate: Gate :: Lets(gate, id, r) ==> !Holds(gate, id, r);
    hide Lets, Holds;
  }

  lemma RunObeys(digest: RunResult -> string, s: KState, env: Env, enabled: bool, id: string)
    requires id != "" && SubmissionId(id) !in s.seen
    ensures var (s', o) := RunPackage(digest, s, Effective(enabled, env), id);
            DispatchRule(digest, s, s', id, env.select(id), env.contract(id), Answered(enabled, env, id), o)
  {
    if env.select(id).Some? && env.contract(id) {
      var begun, answer := Begun(s, id, env.select(id).value), Answered(enabled, env, id);
      assert begun == Start(s, id, env.select(id).value);
      assert begun.log + [] == begun.log;
      if answer.Some? && Recordable(answer.value) {
        SameSubmission(digest, begun, id, answer.value);
        JudgeDecides(Taken(digest, begun, id, answer.value), id, answer.value);
      }
    }
    hide Judge, GatesDecide, Hashed;
  }

  lemma SameSubmission(digest: RunResult -> string, s: KState, id: string, r: RunResult)
    ensures "res_" + ("asg_" + id) == "res_asg_" + id
    ensures Taken(digest, s, id, r) ==
            s.(seen := s.seen[SubmissionOf(id, r).id := digest(Hashed(r))], results := s.results[id := r])
  {
    assert "res_" + "asg_" == "res_asg_";
    assert "res_" + ("asg_" + id) == ("res_" + "asg_") + id;
  }

  /** Every dispatch of every run: nothing is done when no package may start, and
      otherwise the least one that may is handled by the rule. */
  lemma DispatchesObey(g: Graph, digest: RunResult -> string, enabled: bool, states: seq<KState>, steps: seq<Step>,
      i: nat, o: Outcome)
    requires IsRun(g, digest, enabled, states, steps) && i < |steps| && steps[i].Dispatching?
    requires Dispatched(g, digest, states[i], Effective(enabled, steps[i].env), states[i + 1], o)
    ensures var s, s', env := states[i], states[i + 1], steps[i].env;
            if forall id :: !MayStart(g, s, id) then s' == s && o == NoWork
            else
              exists id :: MayStart(g, s, id) && (forall m :: MayStart(g, s, m) ==> Le(id, m)) &&
                DispatchRule(digest, s, s', id, env.select(id), env.contract(id), Answered(enabled, env, id), o)
  {
    RunInvariant(g, digest, enabled, states, steps, i);
    var s, env := states[i], steps[i].env;
    forall id ensures MayStart(g, s, id) <==> IsReady(g, s.packages, id) { MayStartIsReady(g, s, id); }
    hide MayStart, IsReady, RunPackage, DispatchRule, Answered, IsRun;
    if exists id :: IsReady(g, s.packages, id) {
      var id :| IsNext(g, s, id) && (states[i + 1], o) == RunPackage(digest, s, Effective(enabled, env), id);
      ReadyIsNew(g, states[0].packages, s, id);
      RunObeys(digest, s, env, enabled, id);
    }
  }

  lemma ReadyIsNew(g: Graph, preset: States, s: KState, id: string)
    requires Invariant(g, preset, s) && IsReady(g, s.packages, id)
    ensures id != "" && SubmissionId(id) !in s.seen
  {
    ReadyUntouched(g, preset, s, id);
  }

  /** Every resolution of every run: unknown and other assignments are refused and
      nothing changes; for one that awaits its gates they are asked again. */
  lemma ResolutionsObey(g: Graph, digest: RunResult -> string, enabled: bool, states: seq<KState>, steps: seq<Step>,
      i: nat, o: Outcome)
    requires IsRun(g, digest, enabled, states, steps) && i < |steps| && steps[i].Resolving?
    requires (states[i + 1], o) == ResolveStep(states[i], steps[i].id)
    ensures var s, s', id := states[i], states[i + 1], steps[i].id;
            if id !in s.assignments then s' == s && o == UnknownAssignment
            else if s.assignments[id] != AwaitingGates then s' == s && o == NotAwaiting
            else id in s.results && GoesToGates(s.results[id]) && GatesDecide(s, s', id, s.results[id], o)
  {
    RunInvariant(g, digest, enabled, states, steps, i);
    var s, id := states[i], steps[i].id;
    hide IsRun, GatesDecide, Judge;
    if id in s.assignments && s.assignments[id] == AwaitingGates {
      AwaitingDelivered(g, states[0].packages, s, id);
      JudgeDecides(s, id, s.results[id]);
    }
  }

  lemma AwaitingDelivered(g: Graph, preset: States, s: KState, id: string)
    requires Invariant(g, preset, s) && id in s.assignments && s.assignments[id] == AwaitingGates
    ensures id in s.results && GoesToGates(s.results[id])
  {
    assert PackageOk(s, id, preset[id]);
    hide StartedIn, AcceptedIn, LogOk, AllPass;
  }

  /** Every approval of every run adds the package to the human gates, and does
      nothing else. */
  lemma ApprovalsObey(g: Graph, digest: RunResult -> string, enabled: bool, states: seq<KState>, steps: seq<Step>,
      i: nat)
    requires IsRun(g, digest, enabled, states, steps) && i < |steps| && steps[i].Approving?
    ensures var s, s', id := states[i], states[i + 1], steps[i].id;
            && s' == s.(gates := s'.gates) && |s'.gates| == |s.gates|
            && forall j :: 0 <= j < |s.gates| ==>
                 s'.gates[j] == if s.gates[j].HumanGate? then HumanGate(s.gates[j].approved + {id}) else s.gates[j]
  {
    assert Next(g, digest, enabled, states[i], steps[i], states[i + 1]);
  }
}
