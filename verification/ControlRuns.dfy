/**
 Whole runs of the control cycle: safety of every run, and completion in the
 topological order when every package can succeed.
 */
module ControlRuns {
  import opened Lex
  import opened Outcomes
  import opened DependencyGraph
  import opened WorkPlan
  import opened Assignments
  import opened Gates
  import opened ControlState
  import opened ControlInvariant

  datatype Step = Dispatching(env: Env) | Resolving(id: string) | Approving(id: string)

  ghost predicate Next(g: Graph, digest: RunResult -> string, enabled: bool, s: KState, step: Step, s': KState) {
    match step
    case Dispatching(env) => exists o :: Dispatched(g, digest, s, Effective(enabled, env), s', o)
    case Resolving(id) => s' == ResolveStep(s, id).0
    case Approving(id) => s' == ApproveStep(s, id)
  }

  /** states[0] is freshly wired, over packages in any states, and each step leads
      from one state to the next. */
  ghost predicate IsRun(g: Graph, digest: RunResult -> string, enabled: bool, states: seq<KState>, steps: seq<Step>) {
    && |states| == |steps| + 1
    && Wired(g, states[0])
    && forall i :: 0 <= i < |steps| ==> Next(g, digest, enabled, states[i], steps[i], states[i + 1])
  }

  lemma {:induction false} RunInvariant(g: Graph, digest: RunResult -> string, enabled: bool, states: seq<KState>,
      steps: seq<Step>, i: nat)
    requires IsRun(g, digest, enabled, states, steps) && i < |states|
    ensures Invariant(g, states[0].packages, states[i])
    decreases i
  {
    hide Invariant, Dispatched, ResolveStep, ApproveStep;
    var preset := states[0].packages;
    if i == 0 {
      WiredInvariant(g, states[0]);
    } else {
      RunInvariant(g, digest, enabled, states, steps, i - 1);
      assert Next(g, digest, enabled, states[i - 1], steps[i - 1], states[i]);
      NextKeeps(g, preset, digest, enabled, states[i - 1], steps[i - 1], states[i]);
    }
  }

  lemma NextKeeps(g: Graph, preset: States, digest: RunResult -> string, enabled: bool, s: KState, step: Step,
      s': KState)
    requires Invariant(g, preset, s) && Next(g, digest, enabled, s, step, s')
    ensures Invariant(g, preset, s')
  {
    hide Invariant, Dispatched, ResolveStep, ApproveStep;
    match step {
      case Dispatching(env) =>
        var effective := Effective(enabled, env);
        var o :| Dispatched(g, digest, s, effective, s', o);
        DispatchKeeps(g, preset, digest, s, effective, s', o);
      case Resolving(id) => ResolveKeeps(g, preset, s, id);
      case Approving(id) => ApproveKeeps(g, preset, s, id);
    }
  }

  /** Safety of every run, read off its log at any moment, whatever states the
      packages were inserted with: entries are numbered 1..n; no package starts
      twice or is accepted twice; at a start each dependency has been accepted,
      except exactly those inserted as completed; an acceptance follows its own
      start. */
  lemma RunsAreSafe(g: Graph, digest: RunResult -> string, enabled: bool, states: seq<KState>, steps: seq<Step>, i: nat)
    requires IsRun(g, digest, enabled, states, steps) && i < |states|
    ensures var log := states[i].log;
            && (forall k :: 0 <= k < |log| ==> log[k].sequence == k + 1)
            && (forall j, k :: 0 <= j < k < |log| ==> !SameMilestone(log[j].event, log[k].event))
            && (forall k :: 0 <= k < |log| ==> PrecededOk(g, states[0].packages, log, k))
  {
    RunInvariant(g, digest, enabled, states, steps, i);
    LogReads(g, states[0].packages, states[i].log);
  }

  /** The same package started, or accepted, in both. */
  predicate SameMilestone(a: Event, b: Event) {
    a.id == b.id && (a.ExecutionStarted? <==> b.ExecutionStarted?)
  }

  /** Some entry before the k-th is this event. */
  predicate HappensBefore(log: seq<Entry>, k: nat, e: Event)
    requires k <= |log|
  {
    exists j :: 0 <= j < k && log[j].event == e
  }

  /** Entry k has what it needs among the earlier entries. */
  ghost predicate PrecededOk(g: Graph, preset: States, log: seq<Entry>, k: nat)
    requires k < |log|
  {
    match log[k].event
    case ExecutionStarted(id, _) =>
      id in g && forall d :: d in g[id] ==>
          d in preset && (HappensBefore(log, k, WorkAccepted(d)) <==> preset[d] != Completed)
    case WorkAccepted(id) =>
      exists j :: 0 <= j < k && log[j].event.ExecutionStarted? && log[j].event.id == id
  }

  lemma LogReads(g: Graph, preset: States, log: seq<Entry>)
    requires LogOk(g, preset, log)
    ensures forall k :: 0 <= k < |log| ==> log[k].sequence == k + 1
    ensures forall j, k :: 0 <= j < k < |log| ==> !SameMilestone(log[j].event, log[k].event)
    ensures forall k :: 0 <= k < |log| ==> PrecededOk(g, preset, log, k)
  {
    forall k | 0 <= k < |log| ensures log[k].sequence == k + 1 { assert EntryOk(g, preset, log, k); }
    forall j, k | 0 <= j < k < |log| ensures !SameMilestone(log[j].event, log[k].event) {
      assert EntryOk(g, preset, log, k);
      assert log[..k][j] == log[j] && log[j] in log[..k];
    }
    forall k | 0 <= k < |log| ensures PrecededOk(g, preset, log, k) {
      EntryPreceded(g, preset, log, k);
    }
  }

  lemma EntryPreceded(g: Graph, preset: States, log: seq<Entry>, k: nat)
    requires k < |log| && EntryOk(g, preset, log, k)
    ensures PrecededOk(g, preset, log, k)
  {
    match log[k].event {
      case ExecutionStarted(id, _) =>
        forall d | d in g[id]
          ensures d in preset && (HappensBefore(log, k, WorkAccepted(d)) <==> preset[d] != Completed) {
          assert AcceptedUnlessPreset(preset, log[..k], d);
          AcceptedHappens(log, k, d);
        }
      case WorkAccepted(id) =>
        var e :| e in log[..k] && e.event.ExecutionStarted? && e.event.id == id;
        var j :| 0 <= j < k && log[..k][j] == e;
        assert log[j].event == e.event;
    }
  }

  lemma AcceptedHappens(log: seq<Entry>, k: nat, d: string)
    requires k <= |log|
    ensures AcceptedIn(log[..k], d) <==> HappensBefore(log, k, WorkAccepted(d))
  {
    if AcceptedIn(log[..k], d) {
      var e :| e in log[..k] && e.event == WorkAccepted(d);
      var j :| 0 <= j < k && log[..k][j] == e;
      assert log[j].event == WorkAccepted(d);
    }
    if HappensBefore(log, k, WorkAccepted(d)) {
      var j :| 0 <= j < k && log[j].event == WorkAccepted(d);
      assert log[..k][j] in log[..k];
    }
  }

  predicate Paired(a: AssignmentState, p: PackageState) {
    || (a == AssignmentState.Accepted && p == Completed)
    || (a == AssignmentState.Failed && p == Deficient)
    || (a == AwaitingGates && p == PackageState.Running)
  }

  /** Between calls, every recorded assignment is in one of three situations and
      nothing else is recorded; a package that completed in the run rests on a
      delivered result that passes every gate, and one inserted as completed, or
      in any state but the undispatched ones, stays as it is with no assignment. */
  lemma RecordsAgree(g: Graph, digest: RunResult -> string, enabled: bool, states: seq<KState>, steps: seq<Step>,
      i: nat, id: string)
    requires IsRun(g, digest, enabled, states, steps) && i < |states| && id in states[0].packages
    ensures var s, was := states[i], states[0].packages[id];
            && id in s.packages
            && (id in s.assignments ==> Paired(s.assignments[id], s.packages[id]))
            && (!Undispatched(was) ==> s.packages[id] == was && id !in s.assignments && !AcceptedIn(s.log, id))
            && (s.packages[id] == Completed && was != Completed ==>
                  id in s.results && Delivered(s.results[id]) && AllPass(s.gates, SubjectOf(id, s.results[id])))
            && (s.packages[id] == Completed || s.packages[id] == Deficient ==>
                (id in s.assignments <==> Undispatched(was)))
            && (s.packages[id] == Completed && was != Completed <==> AcceptedIn(s.log, id))
  {
    hide AllPass, StartedIn, AcceptedIn;
    RunInvariant(g, digest, enabled, states, steps, i);
    assert PackageOk(states[i], id, states[0].packages[id]);
  }

  // ----- what a step never undoes

  /** Running with nothing recorded. */
  ghost predicate Stranded(s: KState, id: string) {
    id in s.packages && s.packages[id] == PackageState.Running && Untouched(s, id)
  }

  /** The log only grows, a completed package stays completed on the same result,
      and a package that runs with nothing recorded, because the intake refused its
      result or because it was inserted so, is never picked up again. */
  lemma StepIsMonotone(g: Graph, preset: States, digest: RunResult -> string, enabled: bool, s: KState, step: Step,
      s': KState, id: string)
    requires Invariant(g, preset, s) && Next(g, digest, enabled, s, step, s')
    ensures s.log <= s'.log
    ensures id in s.packages && s.packages[id] == Completed ==>
              && id in s'.packages && s'.packages[id] == Completed
              && (id in s'.results <==> id in s.results) && (id in s.results ==> s'.results[id] == s.results[id])
    ensures Stranded(s, id) ==> Stranded(s', id)
  {
    hide Invariant, Dispatched, ResolveStep, LogOk;
    match step {
      case Dispatching(env) =>
        var o :| Dispatched(g, digest, s, Effective(enabled, env), s', o);
        DispatchMovesOn(g, digest, s, Effective(enabled, env), s', o, id);
      case Resolving(m) =>
        ResolveMovesOn(g, preset, s, m, id);
      case Approving(m) =>
    }
  }

  ghost predicate MovesOn(s: KState, s': KState, id: string) {
    && s.log <= s'.log
    && (id in s.packages && s.packages[id] == Completed ==> Unmoved(s, s', id))
    && (Stranded(s, id) ==> Stranded(s', id))
  }

  lemma DispatchMovesOn(g: Graph, digest: RunResult -> string, s: KState, env: Env, s': KState, o: Outcome, id: string)
    requires Dispatched(g, digest, s, env, s', o)
    ensures MovesOn(s, s', id)
  {
    hide RunPackage;
    if exists m :: IsReady(g, s.packages, m) {
      var m :| IsNext(g, s, m) && (s', o) == RunPackage(digest, s, env, m);
      PackageIsMonotone(digest, s, env, m, id);
    }
  }

  lemma ResolveMovesOn(g: Graph, preset: States, s: KState, m: string, id: string)
    requires Invariant(g, preset, s)
    ensures MovesOn(s, ResolveStep(s, m).0, id)
  {
    if id in s.packages { assert PackageOk(s, id, preset[id]); }
    hide AllPass, SomePending, LogOk, Invariant, Judge, StartedIn, AcceptedIn;
    ResolveIsMonotone(s, m, id);
  }

  lemma ResolveIsMonotone(s: KState, m: string, id: string)
    ensures var s' := ResolveStep(s, m).0;
            && s.log <= s'.log && (id != m ==> Unmoved(s, s', id))
            && (m !in s.assignments || s.assignments[m] != AwaitingGates ==> s' == s)
  {
    hide AllPass, SomePending;
  }

  /** Whatever was recorded about id is as before. */
  ghost predicate Unmoved(s: KState, s': KState, id: string) {
    && (id in s'.packages <==> id in s.packages) && (id in s.packages ==> s'.packages[id] == s.packages[id])
    && (id in s'.results <==> id in s.results) && (id in s.results ==> s'.results[id] == s.results[id])
    && (Untouched(s, id) ==> Untouched(s', id))
  }

  lemma PackageIsMonotone(digest: RunResult -> string, s: KState, env: Env, m: string, id: string)
    ensures var s' := RunPackage(digest, s, env, m).0; s.log <= s'.log && (id != m ==> Unmoved(s, s', id))
  {
    hide Finish;
    FinishIsMonotone(digest, Start(s, m, WorkerOf(env, m)), m, env.run(m), id);
  }

  lemma FinishIsMonotone(digest: RunResult -> string, s: KState, m: string, answer: Option<RunResult>, id: string)
    ensures var s' := Finish(digest, s, m, answer).0; s.log <= s'.log && (id != m ==> Unmoved(s, s', id))
  {
    hide AllPass, SomePending, IntakeTakes;
    if id != m { DifferentSubmissions(id, m); }
  }

  /** Such starts happen: right after wiring, whichever package is next starts
      although its dependencies, all inserted as completed, were never accepted. */
  lemma PresetCompletionSkipsAcceptance(g: Graph, digest: RunResult -> string, s: KState, env: Env, id: string,
      d: string)
    requires Wired(g, s) && IsNext(g, s, id) && d in g[id] && env.select(id).Some? && env.contract(id)
    ensures s.packages[d] == Completed
    ensures StartedIn(RunPackage(digest, s, env, id).0.log, id) && !AcceptedIn(RunPackage(digest, s, env, id).0.log, d)
  {
    hide Finish;
    FinishLog(digest, Start(s, id, WorkerOf(env, id)), id, env.run(id));
    var log := RunPackage(digest, s, env, id).0.log;
    assert log[0] in log;
  }

  /** Finishing a package adds at most its acceptance. */
  lemma FinishLog(digest: RunResult -> string, s: KState, id: string, answer: Option<RunResult>)
    ensures var log := Finish(digest, s, id, answer).0.log;
            log == s.log || log == s.log + [Entry(|s.log| + 1, WorkAccepted(id))]
  {
    hide AllPass, SomePending, IntakeTakes;
  }

  /** Over every run: a dispatch ends in a refusal by the intake exactly when the
      worker's answer for the package it started is not admissible. */
  lemma IntakeRefusesExactly(g: Graph, digest: RunResult -> string, enabled: bool, states: seq<KState>,
      steps: seq<Step>, i: nat, o: Outcome)
    requires IsRun(g, digest, enabled, states, steps) && i < |steps| && steps[i].Dispatching?
    requires Dispatched(g, digest, states[i], Effective(enabled, steps[i].env), states[i + 1], o)
    ensures forall id :: o == IntakeRefused(id) <==>
              && IsNext(g, states[i], id) && Runs(Effective(enabled, steps[i].env), id)
              && !Admissible(SubmissionOf(id, Effective(enabled, steps[i].env).run(id).value))
  {
    RunInvariant(g, digest, enabled, states, steps, i);
    var s, env := states[i], Effective(enabled, steps[i].env);
    if exists id :: IsReady(g, s.packages, id) {
      var id :| IsNext(g, s, id) && (states[i + 1], o) == RunPackage(digest, s, env, id);
      NextUnique(g, s, id);
      if Runs(env, id) {
        IntakeOnlyOnce(g, states[0].packages, digest, s, id, WorkerOf(env, id), env.run(id).value);
      }
      RefusedExactly(digest, s, env, id);
    }
    hide Admissible, RunPackage, Invariant, IsReady;
  }

  /** A worker and a contract are found, and the worker answers. */
  predicate Runs(env: Env, id: string) {
    env.select(id).Some? && env.contract(id) && env.run(id).Some?
  }

  lemma NextUnique(g: Graph, s: KState, id: string)
    requires IsNext(g, s, id)
    ensures forall other :: IsNext(g, s, other) ==> other == id
  {
    forall other | IsNext(g, s, other) ensures other == id {
      LeAntisymmetric(id, other);
    }
  }

  lemma RefusedExactly(digest: RunResult -> string, s: KState, env: Env, id: string)
    ensures RunPackage(digest, s, env, id).1 == IntakeRefused(id) <==>
            Runs(env, id)
                && !IntakeTakes(digest, Start(s, id, WorkerOf(env, id)).seen, SubmissionOf(id, env.run(id).value))
    ensures forall other :: RunPackage(digest, s, env, id).1 == IntakeRefused(other) ==> other == id
  {
    hide AllPass, SomePending, IntakeTakes, Start;
  }

  // ----- disabled execution

  /** Only what was inserted as completed is completed, and nothing was accepted. */
  ghost predicate Idle(preset: States, s: KState) {
    && (forall id :: id in s.packages && s.packages[id].Completed? ==> id in preset && preset[id].Completed?)
    && (forall id :: id in s.assignments ==> s.assignments[id] == AssignmentState.Failed)
    && (forall e :: e in s.log ==> !e.event.WorkAccepted?)
  }

  /** With execution disabled, nothing is ever accepted. */
  lemma {:induction false} DisabledNeverAccepts(g: Graph, digest: RunResult -> string, states: seq<KState>,
      steps: seq<Step>, i: nat)
    requires IsRun(g, digest, false, states, steps) && i < |states|
    ensures Idle(states[0].packages, states[i])
    decreases i
  {
    if i > 0 {
      DisabledNeverAccepts(g, digest, states, steps, i - 1);
      var s, s' := states[i - 1], states[i];
      assert Next(g, digest, false, s, steps[i - 1], s');
      hide Idle, ResolveStep, Dispatched;
      match steps[i - 1] {
        case Dispatching(env) =>
          var o :| Dispatched(g, digest, s, Effective(false, env), s', o);
          DisabledDispatch(states[0].packages, g, digest, s, env, s', o);
        case Resolving(m) => IdleResolve(states[0].packages, s, m);
        case Approving(m) => IdleApprove(states[0].packages, s, m);
      }
    }
  }

  lemma DisabledDispatch(preset: States, g: Graph, digest: RunResult -> string, s: KState, env: Env, s': KState,
      o: Outcome)
    requires Idle(preset, s) && Dispatched(g, digest, s, Effective(false, env), s', o)
    ensures Idle(preset, s')
  {
    hide Idle, RunPackage;
    if exists id :: IsReady(g, s.packages, id) {
      var id :| IsNext(g, s, id) && (s', o) == RunPackage(digest, s, Disabled(env), id);
      DisabledPackage(preset, digest, s, env, id);
    }
  }

  lemma IdleResolve(preset: States, s: KState, m: string)
    requires Idle(preset, s)
    ensures ResolveStep(s, m).0 == s
  {
    hide Judge;
  }

  lemma IdleApprove(preset: States, s: KState, m: string)
    requires Idle(preset, s)
    ensures Idle(preset, ApproveStep(s, m))
  {
  }

  lemma DisabledPackage(preset: States, digest: RunResult -> string, s: KState, env: Env, id: string)
    requires Idle(preset, s)
    ensures Idle(preset, RunPackage(digest, s, Disabled(env), id).0)
  {
    hide Judge;
  }

  // ----- completion

  /** Every package of ids finds a worker and a contract, delivers, and passes its
      gates. */
  ghost predicate AllSucceed(ids: set<string>, gates: seq<Gate>, env: Env) {
    forall id :: id in ids ==>
      && env.select(id).Some? && env.contract(id)
      && env.run(id).Some? && Delivered(env.run(id).value)
      && AllPass(gates, SubjectOf(id, env.run(id).value))
  }

  /** The dependencies not inserted as completed. */
  function OpenOf(deps: seq<string>, preset: States): seq<string> {
    if deps == [] then []
    else
      var last := deps[|deps| - 1];
      OpenOf(deps[..|deps| - 1], preset) + if last in preset && preset[last].Completed? then [] else [last]
  }

  lemma {:induction false} OpenOfMembers(deps: seq<string>, preset: States, d: string)
    ensures d in OpenOf(deps, preset) <==> d in deps && !(d in preset && preset[d].Completed?)
  {
    if deps != [] {
      OpenOfMembers(deps[..|deps| - 1], preset, d);
      assert deps == deps[..|deps| - 1] + [deps[|deps| - 1]];
    }
  }

  /** What was still to be done when the packages were inserted: the undispatched ones,
      with the dependencies not completed by then. */
  function Remaining(g: Graph, preset: States): Graph {
    map id | id in g && id in preset && Undispatched(preset[id]) :: OpenOf(g[id], preset)
  }

  lemma {:induction false} NothingCompleted(deps: seq<string>, preset: States)
    requires forall d :: d in preset ==> !preset[d].Completed?
    ensures OpenOf(deps, preset) == deps
  {
    if deps != [] {
      var init, last := deps[..|deps| - 1], deps[|deps| - 1];
      NothingCompleted(init, preset);
      assert OpenOf(deps, preset) == OpenOf(init, preset) + [last];
      assert deps == init + [last];
    }
  }

  /** That is the whole graph if no package claims progress. */
  lemma RemainingIsAll(g: Graph, preset: States)
    requires preset.Keys == g.Keys && forall id :: id in g ==> Undispatched(preset[id])
    ensures Remaining(g, preset) == g
  {
    forall id | id in g ensures Remaining(g, preset)[id] == g[id] {
      NothingCompleted(g[id], preset);
    }
  }

  lemma RemainingIsDag(g: Graph, preset: States)
    requires Closed(g) && Acyclic(g) && preset.Keys == g.Keys
    requires forall id :: id in g ==> Undispatched(preset[id]) || preset[id].Completed?
    ensures Closed(Remaining(g, preset)) && Acyclic(Remaining(g, preset))
  {
    var rest := Remaining(g, preset);
    forall id | id in rest ensures Elems(rest[id]) <= rest.Keys {
      forall d | d in Elems(rest[id]) ensures d in rest.Keys {
        OpenOfMembers(g[id], preset, d);
        assert d in Elems(g[id]);
      }
    }
    forall p ensures !IsCycle(rest, p) {
      if IsCycle(rest, p) { CycleRemains(g, preset, p); }
    }
  }

  lemma CycleRemains(g: Graph, preset: States, p: seq<string>)
    requires IsCycle(Remaining(g, preset), p)
    ensures IsCycle(g, p)
  {
    forall i, d | 0 <= i < |p| && d in Remaining(g, preset)[p[i]] ensures d in g[p[i]] {
      OpenOfMembers(g[p[i]], preset, d);
    }
    hide OpenOf;
  }

  /** Exactly the packages in done are newly completed; the others are as they were
      inserted, as far as having been dispatched goes. */
  ghost predicate DoneExactly(g: Graph, preset: States, s: KState, done: set<string>) {
    && s.packages.Keys == g.Keys == preset.Keys
    && forall id :: id in g ==>
         if id in done then s.packages[id].Completed?
         else if Undispatched(preset[id]) then Undispatched(s.packages[id])
         else s.packages[id] == preset[id]
  }

  lemma NextIsLeastAvailable(g: Graph, preset: States, s: KState, done: set<string>, id: string)
    requires DoneExactly(g, preset, s, done) && done <= Remaining(g, preset).Keys
    ensures IsReady(g, s.packages, id) <==> Available(Remaining(g, preset), done, id)
    ensures IsNext(g, s, id) <==> IsLeastAvailable(Remaining(g, preset), done, id)
  {
    forall m ensures IsReady(g, s.packages, m) <==> Available(Remaining(g, preset), done, m) {
      ReadyIsAvailable(g, preset, s, done, m);
    }
    hide DoneExactly, Remaining, IsReady, Available;
  }

  lemma ReadyIsAvailable(g: Graph, preset: States, s: KState, done: set<string>, m: string)
    requires DoneExactly(g, preset, s, done) && done <= Remaining(g, preset).Keys
    ensures IsReady(g, s.packages, m) <==> Available(Remaining(g, preset), done, m)
  {
    var rest := Remaining(g, preset);
    if m in rest {
      forall d ensures d in rest[m] <==> d in g[m] && !(d in preset && preset[d].Completed?) {
        OpenOfMembers(g[m], preset, d);
      }
      forall d | d in g[m] ensures d in s.packages && s.packages[d].Completed? <==> d !in rest[m] || d in done {}
      assert forall d :: d in rest[m] <==> d in Elems(rest[m]);
    }
    hide OpenOf;
  }

  lemma SuccessfulPackage(g: Graph, preset: States, digest: RunResult -> string, s: KState, env: Env, ids: set<string>,
      id: string)
    requires Invariant(g, preset, s) && IsReady(g, s.packages, id) && AllSucceed(ids, s.gates, env) && id in ids
    ensures var (s', o) := RunPackage(digest, s, env, id);
            && o == Reported(id, WorkSucceeded)
            && s'.gates == s.gates
            && s'.packages == s.packages[id := Completed]
            && s'.log ==
                s.log + [Entry(|s.log| + 1, ExecutionStarted(id, WorkerOf(env, id))),
                    Entry(|s.log| + 2, WorkAccepted(id))]
  {
    var r := env.run(id).value;
    IntakeOnlyOnce(g, preset, digest, s, id, WorkerOf(env, id), r);
    hide Invariant, IsReady, RunPackage, AllPass;
    AcceptedAtOnce(digest, s, env, id);
  }

  lemma AcceptedAtOnce(digest: RunResult -> string, s: KState, env: Env, id: string)
    requires env.select(id).Some? && env.contract(id) && env.run(id).Some? && Delivered(env.run(id).value)
    requires AllPass(s.gates, SubjectOf(id, env.run(id).value))
    requires IntakeTakes(digest, Start(s, id, WorkerOf(env, id)).seen, SubmissionOf(id, env.run(id).value))
    ensures var (s', o) := RunPackage(digest, s, env, id);
            && o == Reported(id, WorkSucceeded)
            && s'.gates == s.gates
            && s'.packages == s.packages[id := Completed]
            && s'.log ==
                s.log + [Entry(|s.log| + 1, ExecutionStarted(id, WorkerOf(env, id))),
                    Entry(|s.log| + 2, WorkAccepted(id))]
  {
    hide AllPass, SomePending, IntakeTakes, SubmissionOf;
  }

  /** The log after the packages of order have each been started and accepted. */
  function FullLog(env: Env, order: seq<string>): seq<Entry> {
    if order == [] then []
    else
      var init, id := order[..|order| - 1], order[|order| - 1];
      FullLog(env, init)
          + [Entry(2 * |init| + 1, ExecutionStarted(id, WorkerOf(env, id))), Entry(2 * |init| + 2, WorkAccepted(id))]
  }

  lemma {:induction false} FullLogLength(env: Env, order: seq<string>)
    ensures |FullLog(env, order)| == 2 * |order|
  {
    if order != [] { FullLogLength(env, order[..|order| - 1]); }
  }

  /** Dispatch after dispatch. */
  ghost predicate IsDispatchRun(g: Graph, digest: RunResult -> string, env: Env, states: seq<KState>,
      outcomes: seq<Outcome>) {
    && |states| == |outcomes| + 1
    && forall i :: 0 <= i < |outcomes| ==> Dispatched(g, digest, states[i], env, states[i + 1], outcomes[i])
  }

  lemma {:induction false} CompletesPrefix(g: Graph, digest: RunResult -> string, env: Env, states: seq<KState>,
      outcomes: seq<Outcome>, order: seq<string>, k: nat)
    requires IsDispatchRun(g, digest, env, states, outcomes) && Wired(g, states[0])
    requires AllSucceed(Remaining(g, states[0].packages).Keys, states[0].gates, env)
    requires IsGreedy(Remaining(g, states[0].packages), order) && k <= |order| && k < |states|
    ensures Elems(order) <= Remaining(g, states[0].packages).Keys
    ensures Invariant(g, states[0].packages, states[k]) && states[k].gates == states[0].gates
    ensures DoneExactly(g, states[0].packages, states[k], Elems(order[..k]))
    ensures states[k].log == FullLog(env, order[..k])
    ensures forall i :: 0 <= i < k ==> outcomes[i] == Reported(order[i], WorkSucceeded)
    decreases k
  {
    hide Invariant, AllPass, RunPackage, AllSucceed, Dispatched, Remaining, DoneExactly, Wired;
    GreedyDistinct(Remaining(g, states[0].packages), order);
    if k == 0 {
      assert Elems(order[..0]) == {};
      WiredInvariant(g, states[0]);
      ReadWired(g, states[0]);
    } else {
      CompletesPrefix(g, digest, env, states, outcomes, order, k - 1);
      CompletesOne(g, states[0].packages, digest, env, states[k - 1], states[k], outcomes[k - 1], order, k - 1);
    }
  }

  lemma ReadWired(g: Graph, s: KState)
    requires Wired(g, s)
    ensures s.log == [] && DoneExactly(g, s.packages, s, {})
  {
  }

  lemma CompletesOne(g: Graph, preset: States, digest: RunResult -> string, env: Env, s: KState, s': KState,
      o: Outcome, order: seq<string>, k: nat)
    requires Invariant(g, preset, s) && AllSucceed(Remaining(g, preset).Keys, s.gates, env)
    requires IsGreedy(Remaining(g, preset), order) && k < |order| && Elems(order) <= Remaining(g, preset).Keys
    requires Distinct(order)
    requires DoneExactly(g, preset, s, Elems(order[..k])) && s.log == FullLog(env, order[..k])
    requires Dispatched(g, digest, s, env, s', o)
    ensures Invariant(g, preset, s') && s'.gates == s.gates
    ensures DoneExactly(g, preset, s', Elems(order[..k + 1])) && s'.log == FullLog(env, order[..k + 1])
    ensures o == Reported(order[k], WorkSucceeded)
  {
    hide Invariant, RunPackage, AllSucceed, DoneExactly, IsGreedy, FullLog, IsReady, Remaining;
    var id := order[k];
    DispatchKeeps(g, preset, digest, s, env, s', o);
    NextIs(g, preset, s, order, k);
    var next :| IsNext(g, s, next) && (s', o) == RunPackage(digest, s, env, next);
    assert next == id && id in Elems(order);
    SuccessfulPackage(g, preset, digest, s, env, Remaining(g, preset).Keys, id);
    DoneOneMore(g, preset, s, s', order, k);
    FullLogOneMore(env, order, k);
  }

  lemma FullLogOneMore(env: Env, order: seq<string>, k: nat)
    requires k < |order|
    ensures var log := FullLog(env, order[..k]);
            FullLog(env, order[..k + 1]) ==
              log + [Entry(|log| + 1, ExecutionStarted(order[k], WorkerOf(env, order[k]))),
                  Entry(|log| + 2, WorkAccepted(order[k]))]
  {
    FullLogLength(env, order[..k]);
    assert order[..k + 1][..k] == order[..k];
  }

  lemma NextIs(g: Graph, preset: States, s: KState, order: seq<string>, k: nat)
    requires IsGreedy(Remaining(g, preset), order) && k < |order| && Elems(order) <= Remaining(g, preset).Keys
    requires DoneExactly(g, preset, s, Elems(order[..k]))
    ensures IsNext(g, s, order[k])
    ensures forall id :: IsNext(g, s, id) ==> id == order[k]
  {
    hide DoneExactly, Remaining;
    var done := Elems(order[..k]);
    assert done <= Elems(order);
    assert IsLeastAvailable(Remaining(g, preset), done, order[k]);
    NextIsLeastAvailable(g, preset, s, done, order[k]);
    forall id | IsNext(g, s, id) ensures id == order[k] {
      LeAntisymmetric(id, order[k]);
    }
  }

  lemma DoneOneMore(g: Graph, preset: States, s: KState, s': KState, order: seq<string>, k: nat)
    requires k < |order| && Elems(order) <= Remaining(g, preset).Keys
    requires DoneExactly(g, preset, s, Elems(order[..k]))
    requires s'.packages == s.packages[order[k] := Completed]
    ensures DoneExactly(g, preset, s', Elems(order[..k + 1]))
  {
    assert order[k] in Elems(order) && Undispatched(preset[order[k]]);
    assert order[..k + 1] == order[..k] + [order[k]];
    assert Elems(order[..k + 1]) == Elems(order[..k]) + {order[k]};
    hide Elems, Remaining;
  }

  /** From packages inserted in any states: if those still to be done can succeed,
      dispatching completes exactly those that nothing holds back, in the greedy order
      of what remained, and then finds nothing left to do. */
  lemma DispatchesGoAsFarAsTheyCan(g: Graph, digest: RunResult -> string, env: Env, states: seq<KState>,
      outcomes: seq<Outcome>, order: seq<string>)
    requires IsDispatchRun(g, digest, env, states, outcomes) && Wired(g, states[0])
    requires AllSucceed(Remaining(g, states[0].packages).Keys, states[0].gates, env)
    requires IsGreedy(Remaining(g, states[0].packages), order) && IsStuck(Remaining(g, states[0].packages), order)
    requires |outcomes| == |order| + 1
    ensures forall i :: 0 <= i < |order| ==> outcomes[i] == Reported(order[i], WorkSucceeded)
    ensures DoneExactly(g, states[0].packages, states[|order|], Elems(order))
    ensures states[|order|].log == FullLog(env, order)
    ensures outcomes[|order|] == NoWork
  {
    hide Invariant, AllSucceed, Wired, RunPackage, IsGreedy, Remaining, DoneExactly;
    CompletesPrefix(g, digest, env, states, outcomes, order, |order|);
    assert order[..|order|] == order;
    assert Dispatched(g, digest, states[|order|], env, states[|order| + 1], outcomes[|order|]);
    forall id ensures !IsReady(g, states[|order|].packages, id) {
      NextIsLeastAvailable(g, states[0].packages, states[|order|], Elems(order), id);
    }
  }

  /** When packages are inserted undispatched or completed, and the undispatched ones
      can succeed, as many dispatches as there are of them complete the whole graph, in
      precisely the order the topological sort gives for what remained (all of the
      graph, if nothing was inserted as completed); the next finds nothing left to do. */
  lemma DispatchesCompleteInOrder(g: Graph, digest: RunResult -> string, env: Env, states: seq<KState>,
      outcomes: seq<Outcome>, sorted: Option<seq<string>>)
    requires IsDispatchRun(g, digest, env, states, outcomes) && Wired(g, states[0])
    requires forall id :: id in g ==> Undispatched(states[0].packages[id]) || states[0].packages[id].Completed?
    requires AllSucceed(Remaining(g, states[0].packages).Keys, states[0].gates, env)
    requires Closed(g) && Acyclic(g) && SortOutcome(Remaining(g, states[0].packages), sorted)
    requires |outcomes| == |Remaining(g, states[0].packages).Keys| + 1
    ensures sorted.Some? && |sorted.value| == |Remaining(g, states[0].packages).Keys|
    ensures forall i :: 0 <= i < |sorted.value| ==> outcomes[i] == Reported(sorted.value[i], WorkSucceeded)
    ensures forall id :: id in g ==>
              id in states[|sorted.value|].packages && states[|sorted.value|].packages[id].Completed?
    ensures states[|sorted.value|].log == FullLog(env, sorted.value)
    ensures outcomes[|sorted.value|] == NoWork
    ensures (forall id :: id in g ==> Undispatched(states[0].packages[id])) ==>
            Remaining(g, states[0].packages) == g
  {
    var preset := states[0].packages;
    assert preset.Keys == g.Keys;
    RemainingIsDag(g, preset);
    if forall id :: id in g ==> Undispatched(preset[id]) {
      RemainingIsAll(g, preset);
    }
    hide AllSucceed, Wired, IsDispatchRun, IsGreedy, OpenOf;
    DistinctSize(sorted.value);
    CompleteOrderStuck(Remaining(g, preset), sorted.value);
    DispatchesGoAsFarAsTheyCan(g, digest, env, states, outcomes, sorted.value);
    AllCompleted(g, preset, states[|sorted.value|], Elems(sorted.value));
  }

  lemma CompleteOrderStuck(g: Graph, order: seq<string>)
    requires Elems(order) == g.Keys
    ensures IsStuck(g, order)
  {
  }

  lemma AllCompleted(g: Graph, preset: States, s: KState, done: set<string>)
    requires DoneExactly(g, preset, s, done) && done == Remaining(g, preset).Keys
    requires forall id :: id in g ==> Undispatched(preset[id]) || preset[id].Completed?
    ensures forall id :: id in g ==> id in s.packages && s.packages[id].Completed?
  {
  }
}
