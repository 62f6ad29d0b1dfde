/**
 The supervised control cycle as a state machine (kernel/orchestrator): what
 dispatch, approval and resolution do to package states, assignments, recorded
 results, human approvals and the event log.
 */
module ControlState {
  import opened Lex
  import opened Outcomes
  import opened DependencyGraph
  import opened WorkPlan
  import opened Assignments
  import opened Gates

  datatype Event = ExecutionStarted(id: string, worker: string) | WorkAccepted(id: string)

  datatype Entry = Entry(sequence: nat, event: Event)

  /** What the surroundings answer for a package: the selected worker if one is
      eligible, whether a contract can be built, and the worker's result or
      None when the adapter fails. */
  datatype Env = Env(
    select: string -> Option<string>,
    contract: string -> bool,
    run: string -> Option<RunResult>)

  /** The adapter used when execution is disabled. */
  function Disabled(env: Env): Env {
    env.(run := (id: string) => Some(RunResult(Blocked, "", [], [], true)))
  }

  function Effective(enabled: bool, env: Env): Env {
    if enabled then env else Disabled(env)
  }

  /** The worker selected for a package, if any. */
  function WorkerOf(env: Env, id: string): string {
    if env.select(id).Some? then env.select(id).value else ""
  }

  datatype KState = KState(
    packages: States,
    assignments: map<string, AssignmentState>,
    results: map<string, RunResult>,
    seen: map<string, string>,
    gates: seq<Gate>,
    log: seq<Entry>)

  datatype DispatchStatus = WorkSucceeded | WorkPending | WorkFailed

  /** BadTransition stands for every error exit on an assignment transition. */
  datatype Outcome =
    | NoWork
    | NoWorker(id: string)
    | ContractRefused(id: string)
    | IntakeRefused(id: string)
    | BadTransition
    | UnknownAssignment
    | NotAwaiting
    | Reported(id: string, status: DispatchStatus)

  function AssignmentId(id: string): string { "asg_" + id }

  function SubmissionOf(id: string, r: RunResult): Submission {
    Submission("res_" + AssignmentId(id), "att_" + AssignmentId(id), AssignmentId(id), id, r)
  }

  function SubjectOf(id: string, r: RunResult): Subject {
    Subject(id, r.status, r.tests)
  }

  predicate Delivered(r: RunResult) {
    r.status.Succeeded? || r.status.Partial?
  }

  function Emit(s: KState, e: Event): KState {
    s.(log := s.log + [Entry(|s.log| + 1, e)])
  }

  /** Accepting completes the package and says so. */
  function Accept(s: KState, id: string): KState {
    Emit(s.(assignments := s.assignments[id := AssignmentState.Accepted], packages := s.packages[id := Completed]),
        WorkAccepted(id))
  }

  function Fail(s: KState, id: string): KState {
    s.(assignments := s.assignments[id := AssignmentState.Failed], packages := s.packages[id := Deficient])
  }

  /** What the gates make of a delivered result. */
  ghost function Judge(s: KState, id: string, r: RunResult): (KState, Outcome) {
    if AllPass(s.gates, SubjectOf(id, r)) then (Accept(s, id), Reported(id, WorkSucceeded))
    else if SomePending(s.gates, SubjectOf(id, r)) then
      (s.(assignments := s.assignments[id := AwaitingGates]), Reported(id, WorkPending))
    else (Fail(s, id), Reported(id, WorkFailed))
  }

  /** Failing does not depend on the assignment's state before. */
  lemma FailOverwrites(s: KState, id: string, before: AssignmentState)
    ensures Fail(s.(assignments := s.assignments[id := before]), id) == Fail(s, id)
  {
    assert s.assignments[id := before][id := AssignmentState.Failed] == s.assignments[id := AssignmentState.Failed];
  }

  /** An accepted result is recorded; only a delivered one goes to the gates. */
  ghost function Deliver(s: KState, id: string, r: RunResult): (KState, Outcome) {
    var s2 := s.(results := s.results[id := r]);
    if Delivered(r) then Judge(s2, id, r) else (Fail(s2, id), Reported(id, WorkFailed))
  }

  /** The intake accepts a submission that is admissible and not in conflict. */
  predicate IntakeTakes(digest: RunResult -> string, seen: map<string, string>, r: Submission) {
    Admissible(r) && (r.id in seen ==> seen[r.id] == digest(Hashed(r.result)))
  }

  function Start(s: KState, id: string, worker: string): KState {
    Emit(s.(packages := s.packages[id := PackageState.Running]), ExecutionStarted(id, worker))
  }

  ghost function RunPackage(digest: RunResult -> string, s: KState, env: Env, id: string): (KState, Outcome) {
    if env.select(id).None? then (s, NoWorker(id))
    else if !env.contract(id) then (s, ContractRefused(id))
    else
      Finish(digest, Start(s, id, env.select(id).value), id, env.run(id))
  }

  /** What the worker's answer, if any, leads to. */
  ghost function Finish(digest: RunResult -> string, s: KState, id: string, answer: Option<RunResult>)
    : (KState, Outcome)
  {
    match answer
    case None => (Fail(s, id), Reported(id, WorkFailed))
    case Some(r) =>
      if !IntakeTakes(digest, s.seen, SubmissionOf(id, r)) then (s, IntakeRefused(id))
      else Deliver(s.(seen := s.seen[SubmissionOf(id, r).id := digest(Hashed(r))]), id, r)
  }

  /** The least of the ready packages. */
  ghost predicate IsNext(g: Graph, s: KState, id: string) {
    IsReady(g, s.packages, id) && forall m :: IsReady(g, s.packages, m) ==> Le(id, m)
  }

  ghost predicate Dispatched(g: Graph, digest: RunResult -> string, s: KState, env: Env, s': KState, o: Outcome) {
    if forall id :: !IsReady(g, s.packages, id) then s' == s && o == NoWork
    else exists id :: IsNext(g, s, id) && (s', o) == RunPackage(digest, s, env, id)
  }

  ghost function ResolveStep(s: KState, id: string): (KState, Outcome) {
    if id !in s.assignments then (s, UnknownAssignment)
    else if s.assignments[id] != AwaitingGates then (s, NotAwaiting)
    else if id in s.results then Judge(s, id, s.results[id])
    else (s, NotAwaiting)
  }

  function ApproveStep(s: KState, id: string): KState {
    s.(gates := ApproveAll(s.gates, id))
  }

  lemma OutcomeNamesPackage(digest: RunResult -> string, s: KState, env: Env, id: string)
    ensures RunPackage(digest, s, env, id).1 != BadTransition
  {
  }

  lemma JudgeOverwrites(s: KState, id: string, r: RunResult)
    ensures Judge(s.(assignments := s.assignments[id := AwaitingGates]), id, r) == Judge(s, id, r)
  {
    var t := s.assignments[id := AwaitingGates];
    assert t[id := AssignmentState.Accepted] == s.assignments[id := AssignmentState.Accepted];
    assert t[id := AssignmentState.Failed] == s.assignments[id := AssignmentState.Failed];
    assert t[id := AwaitingGates] == t;
  }
}
