/**
 The orchestrator (kernel/orchestrator/orchestrator.go): dispatch of the next
 ready package, human approval, and resolution of pending gates. Every method is
 tied to the state machine of ControlState and keeps its invariant.
 */
module ControlCycle {
  import opened Lex
  import opened Outcomes
  import opened DependencyGraph
  import opened WorkPlan
  import opened Assignments
  import opened Gates
  import opened ControlState
  import opened ControlInvariant

  class Orchestrator {
    const graph: WorkGraph
    const intake: Intake
    const enabled: bool
    var gates: seq<Gate>
    var assignments: map<string, Assignment>
    var results: map<string, RunResult>
    var sequence: nat
    var log: seq<Entry>

    /** The state of each recorded assignment. */
    ghost var stateOf: map<string, AssignmentState>

    /** The states the packages were inserted with. */
    ghost const preset: States

    ghost predicate Valid()
      reads this, graph, intake, assignments.Values
    {
      && graph.Valid()
      && sequence == |log|
      && stateOf.Keys == assignments.Keys
      && (forall id :: id in assignments ==>
          assignments[id].workPackageId == id && stateOf[id] == assignments[id].state)
      && (forall id :: id in stateOf && stateOf[id].AwaitingGates? ==> id in results)
    }

    ghost function View(): KState
      reads this, graph, intake
    {
      KState(graph.states, stateOf, results, intake.seen, gates, log)
    }

    constructor Wire(graph: WorkGraph, gates: seq<Gate>, enabled: bool, digest: RunResult -> string)
      requires graph.Valid()
      ensures Valid() && this.graph == graph && this.enabled == enabled && intake.digest == digest
      ensures fresh(intake)
      ensures View() == KState(graph.states, map[], map[], map[], gates, [])
      ensures Invariant(graph.depends, preset, View()) && preset == graph.states
    {
      this.graph, this.enabled, this.gates := graph, enabled, gates;
      preset := graph.states;
      intake := new Intake(digest);
      assignments, results, sequence, log := map[], map[], 0, [];
      stateOf := map[];
      new;
      WiredInvariant(graph.depends, View());
    }

    /** A graph with a dangling or cyclic dependency gets no orchestrator. */
    static method New(graph: WorkGraph, gates: seq<Gate>, enabled: bool, digest: RunResult -> string)
        returns (o: Orchestrator?)
      requires graph.Valid()
      ensures o != null <==> Closed(graph.depends) && Acyclic(graph.depends)
      ensures o != null ==>
              fresh(o) && fresh(o.intake) && o.Valid() && o.graph == graph && o.enabled == enabled
                  && o.intake.digest == digest
      ensures o != null ==> o.View() == KState(graph.states, map[], map[], map[], gates, [])
      ensures o != null ==> Invariant(graph.depends, o.preset, o.View()) && o.preset == graph.states
    {
      var ok := graph.Validate();
      if !ok {
        return null;
      }
      o := new Orchestrator.Wire(graph, gates, enabled, digest);
    }

    method EmitEvent(e: Event)
      requires Valid()
      modifies this`sequence, this`log
      ensures Valid()
      ensures View() == Emit(old(View()), e)
    {
      sequence := sequence + 1;
      log := log + [Entry(sequence, e)];
    }

    /** Both acceptance paths end here. */
    method AcceptWork(assignment: Assignment)
      requires Valid() && assignment.workPackageId in assignments && assignments[assignment.workPackageId] == assignment
      requires assignment.workPackageId in graph.states && assignment.state.AwaitingGates?
      modifies assignment`state, this`stateOf, graph`states, this`sequence, this`log
      ensures Valid() && assignments == old(assignments)
      ensures View() == Accept(old(View()), assignment.workPackageId)
    {
      MoveTogether(assignment, AssignmentState.Accepted, Completed);
      hide Orchestrator.Valid;
      EmitEvent(WorkAccepted(assignment.workPackageId));
    }

    /** A recorded assignment and its package change state; neither the transition nor
        the state update can be refused. */
    method MoveTogether(assignment: Assignment, to: AssignmentState, p: PackageState)
      requires Valid() && assignment.workPackageId in assignments && assignments[assignment.workPackageId] == assignment
      requires assignment.workPackageId in graph.states
      requires CanMove(assignment.state, to) && !to.AwaitingGates?
      modifies assignment`state, this`stateOf, graph`states
      ensures Valid() && assignments == old(assignments)
      ensures View() ==
              old(View()).(assignments := old(View()).assignments[assignment.workPackageId := to],
                           packages := old(View()).packages[assignment.workPackageId := p])
    {
      var moved := assignment.Transition(to);
      stateOf := stateOf[assignment.workPackageId := assignment.state];
      var recorded := graph.SetState(assignment.workPackageId, p);
      assert moved && recorded;
    }

    /** A recorded assignment fails together with its package. */
    method FailWork(assignment: Assignment)
      requires Valid() && assignment.workPackageId in assignments && assignments[assignment.workPackageId] == assignment
      requires assignment.workPackageId in graph.states
      requires CanMove(assignment.state, AssignmentState.Failed)
      modifies assignment`state, this`stateOf, graph`states
      ensures Valid() && assignments == old(assignments)
      ensures View() == Fail(old(View()), assignment.workPackageId)
    {
      MoveTogether(assignment, AssignmentState.Failed, Deficient);
    }

    /** Gate evaluation and its consequences, for dispatch and resolve alike. */
    method JudgeWork(assignment: Assignment, r: RunResult) returns (o: Outcome)
      requires Valid() && assignment.workPackageId in assignments && assignments[assignment.workPackageId] == assignment
      requires assignment.workPackageId in graph.states && assignment.state.AwaitingGates?
      modifies assignment`state, this`stateOf, graph`states, this`sequence, this`log
      ensures Valid() && assignments == old(assignments)
      ensures (View(), o) == Judge(old(View()), assignment.workPackageId, r)
    {
      hide AllPass, SomePending;
      ghost var id := assignment.workPackageId;
      var report := Gates.Evaluate(gates, SubjectOf(assignment.workPackageId, r));
      if report.passed {
        AcceptWork(assignment);
        return Reported(assignment.workPackageId, WorkSucceeded);
      }
      if report.pending {
        assert View().assignments == old(View()).assignments[id := AwaitingGates];
        return Reported(assignment.workPackageId, WorkPending);
      }
      FailWork(assignment);
      return Reported(assignment.workPackageId, WorkFailed);
    }

    method Record(assignment: Assignment)
      requires Valid() && assignment.state != AwaitingGates
      modifies this`assignments, this`stateOf
      ensures Valid() && assignments == old(assignments)[assignment.workPackageId := assignment]
      ensures View() ==
              old(View()).(assignments := old(View()).assignments[assignment.workPackageId := assignment.state])
    {
      assignments := assignments[assignment.workPackageId := assignment];
      stateOf := stateOf[assignment.workPackageId := assignment.state];
    }

    method StoreResult(id: string, r: RunResult)
      requires Valid()
      modifies this`results
      ensures Valid() && View() == old(View()).(results := old(View()).results[id := r])
    {
      results := results[id := r];
    }

    method AwaitGates(assignment: Assignment)
      requires Valid() && assignment.workPackageId in assignments && assignments[assignment.workPackageId] == assignment
      requires assignment.state.Collecting? && assignment.workPackageId in results
      modifies assignment`state, this`stateOf
      ensures Valid() && assignment.state.AwaitingGates?
      ensures View() == old(View()).(assignments := old(View()).assignments[assignment.workPackageId := AwaitingGates])
    {
      var moved := assignment.Transition(AwaitingGates);
      assert moved;
      stateOf := stateOf[assignment.workPackageId := assignment.state];
    }

    /** The result has been taken in. */
    method DeliverWork(assignment: Assignment, r: RunResult) returns (o: Outcome)
      requires Valid() && assignment.workPackageId in graph.states && assignment !in assignments.Values
      requires assignment.state.Collecting?
      modifies this`assignments, this`stateOf, this`results, this`sequence, this`log, graph`states, assignment`state
      ensures Valid()
      ensures (View(), o) == Deliver(old(View()), assignment.workPackageId, r)
      ensures assignments == old(assignments)[assignment.workPackageId := assignment]
    {
      hide Judge, AllPass, SomePending, Orchestrator.Valid, WorkGraph.Valid, Fail;
      var id := assignment.workPackageId;
      ghost var s := View();
      Record(assignment);
      StoreResult(id, r);
      ghost var s2 := s.(results := s.results[id := r]);
      assert View() == s2.(assignments := s2.assignments[id := Collecting]);
      if !Delivered(r) {
        FailWork(assignment);
        FailOverwrites(s2, id, Collecting);
        return Reported(id, WorkFailed);
      }
      AwaitGates(assignment);
      assert View().assignments == s2.assignments[id := AwaitingGates];
      JudgeOverwrites(s2, id, r);
      o := JudgeWork(assignment, r);
    }

    /** The worker has answered. */
    method Collect(assignment: Assignment, r: RunResult) returns (o: Outcome)
      requires Valid() && assignment.workPackageId in graph.states && assignment !in assignments.Values
      requires assignment.state.Running?
      modifies this`assignments, this`stateOf, this`results, this`sequence, this`log, graph`states, intake`seen,
          assignment`state
      ensures Valid()
      ensures var id, s := assignment.workPackageId, old(View());
              (View(), o) ==
                if !IntakeTakes(intake.digest, s.seen, SubmissionOf(id, r)) then (s, IntakeRefused(id))
                else Deliver(s.(seen := s.seen[SubmissionOf(id, r).id := intake.digest(Hashed(r))]), id, r)
      ensures assignments == old(assignments) || assignments == old(assignments)[assignment.workPackageId := assignment]
    {
      hide Deliver, Admissible;
      var id := assignment.workPackageId;
      var sub := SubmissionOf(id, r);
      ghost var s := View();
      var moved := assignment.Transition(Collecting);
      assert moved;
      assert View() == s;
      var taken := intake.Submit(sub);
      assert taken.Err? ==> taken.error == Invalid || taken.error == Conflict;
      assert taken.Err? <==> !IntakeTakes(intake.digest, s.seen, sub);
      if taken.Err? {
        assert View() == s;
        return IntakeRefused(id);
      }
      assert intake.seen == s.seen[sub.id := intake.digest(Hashed(r))];
      assert View() == s.(seen := intake.seen);
      o := DeliverWork(assignment, r);
    }

    /** A dispatch, once the package is chosen. */
    method Execute(env: Env, id: string) returns (o: Outcome)
      requires Valid() && id in graph.states && id !in assignments
      modifies this`assignments, this`stateOf, this`results, this`sequence, this`log, graph`states, intake`seen
      ensures Valid()
      ensures (View(), o) == RunPackage(intake.digest, old(View()), env, id)
      ensures forall a :: a in assignments.Values ==> a in old(assignments).Values || fresh(a)
    {
      hide Finish;
      var worker := env.select(id);
      if worker.None? {
        return NoWorker(id);
      }
      if !env.contract(id) {
        return ContractRefused(id);
      }
      var assignment := Prepare(id, worker.value);
      StartWork(id, worker.value);
      o := FinishWork(assignment, env.run(id));
    }

    /** A new assignment, leased and brought to running; the table permits every
        step. */
    static method Prepare(id: string, worker: string) returns (assignment: Assignment)
      ensures fresh(assignment) && assignment.workPackageId == id && assignment.state.Running?
    {
      assignment := new Assignment(AssignmentId(id), id, worker);
      var leased := assignment.Transition(Leased);
      var prepared := assignment.Transition(Preparing);
      var running := assignment.Transition(AssignmentState.Running);
      assert leased && prepared && running;
      assignment.LeaseFor(worker, 0, 60);
    }

    /** The adapter has returned. */
    method FinishWork(assignment: Assignment, answer: Option<RunResult>) returns (o: Outcome)
      requires Valid() && assignment.workPackageId in graph.states && assignment !in assignments.Values
      requires assignment.state.Running?
      modifies this`assignments, this`stateOf, this`results, this`sequence, this`log, graph`states, intake`seen,
          assignment`state
      ensures Valid()
      ensures (View(), o) == Finish(intake.digest, old(View()), assignment.workPackageId, answer)
      ensures assignments == old(assignments) || assignments == old(assignments)[assignment.workPackageId := assignment]
    {
      hide Deliver, IntakeTakes, Orchestrator.Valid, WorkGraph.Valid, Fail;
      var id := assignment.workPackageId;
      if answer.None? {
        FailOverwrites(View(), id, assignment.state);
        Record(assignment);
        FailWork(assignment);
        return Reported(id, WorkFailed);
      }
      o := Collect(assignment, answer.value);
    }

    method StartWork(id: string, worker: string)
      requires Valid() && id in graph.states
      modifies graph`states, this`sequence, this`log
      ensures Valid() && View() == Start(old(View()), id, worker)
    {
      var recorded := graph.SetState(id, PackageState.Running);
      assert recorded;
      assert View() == old(View()).(packages := graph.states);
      EmitEvent(ExecutionStarted(id, worker));
    }

    /** Runs the next ready package, if there is one. */
    method Dispatch(env: Env) returns (o: Outcome)
      requires Valid() && Invariant(graph.depends, preset, View())
      modifies this`assignments, this`stateOf, this`results, this`sequence, this`log, graph`states, intake`seen
      ensures Valid()
      ensures Dispatched(graph.depends, intake.digest, old(View()), Effective(enabled, env), View(), o)
      ensures Invariant(graph.depends, preset, View())
      ensures o != BadTransition
      ensures forall a :: a in assignments.Values ==> a in old(assignments).Values || fresh(a)
    {
      hide RunPackage, PackageOk, LogOk;
      var ready := graph.ReadyPackages();
      if |ready| == 0 {
        return NoWork;
      }
      var id := ready[0];
      assert id in ready;
      assert IsNext(graph.depends, View(), id) by {
        forall m | IsReady(graph.depends, graph.states, m) ensures Le(id, m) {
          assert m in ready;
          LeTotal(m, m);
        }
      }
      assert id !in assignments by { ReadyUntouched(graph.depends, preset, View(), id); }
      o := Execute(Effective(enabled, env), id);
      DispatchKeeps(graph.depends, preset, intake.digest, old(View()), Effective(enabled, env), View(), o);
      assert o != BadTransition by { OutcomeNamesPackage(intake.digest, old(View()), Effective(enabled, env), id); }
    }

    /** Re-evaluates the gates of a package that waits for them. */
    method Resolve(id: string) returns (o: Outcome)
      requires Valid() && Invariant(graph.depends, preset, View())
      modifies assignments.Values, this`stateOf, graph`states, this`sequence, this`log
      ensures Valid() && assignments == old(assignments)
      ensures (View(), o) == ResolveStep(old(View()), id)
      ensures Invariant(graph.depends, preset, View())
    {
      hide Judge, PackageOk, LogOk;
      ResolveKeeps(graph.depends, preset, View(), id);
      if id !in assignments {
        return UnknownAssignment;
      }
      var assignment := assignments[id];
      if assignment.state != AwaitingGates {
        return NotAwaiting;
      }
      o := JudgeWork(assignment, results[id]);
    }

    /** Records a human approval in every gate that takes approvals. */
    method Approve(id: string)
      requires Valid() && Invariant(graph.depends, preset, View())
      modifies this`gates
      ensures Valid() && View() == ApproveStep(old(View()), id)
      ensures Invariant(graph.depends, preset, View())
    {
      hide PackageOk, LogOk;
      ApproveKeeps(graph.depends, preset, View(), id);
      var updated: seq<Gate> := [];
      for i := 0 to |gates|
        invariant updated == ApproveAll(gates, id)[..i]
      {
        updated := updated + [gates[i].Approve(id)];
      }
      gates := updated;
    }
  }
}
