/**
 The control cycle with human gates: dispatch, approve, resolve, package by
 package, completes the graph in the sorted order.
 */
module ControlApprovals {
  import opened Lex
  import opened Outcomes
  import opened DependencyGraph
  import opened WorkPlan
  import opened Assignments
  import opened Gates
  import opened ControlState
  import opened ControlInvariant
  import opened ControlRuns

  /** Only built-in gates, a human one among them, and none of the packages to come
      has been approved. */
  ghost predicate HumanDecides(gates: seq<Gate>, toCome: set<string>) {
    && (forall gate :: gate in gates ==> !gate.OtherGate?)
    && (exists gate :: gate in gates && gate.HumanGate?)
    && (forall gate :: gate in gates && gate.HumanGate? ==> gate.approved !! toCome)
  }

  /** A worker and a contract are found, and what is delivered satisfies the tests
      gate, if there is one. */
  ghost predicate Delivers(gates: seq<Gate>, env: Env, id: string) {
    && Runs(env, id) && Delivered(env.run(id).value)
    && (TestsGate in gates ==> Passes(TestsGate.Decide(SubjectOf(id, env.run(id).value))))
  }

  lemma GateAfterApproval(gates: seq<Gate>, id: string, gate: Gate)
    requires gate in ApproveAll(gates, id)
    ensures exists before :: before in gates && gate == before.Approve(id)
  {
    var i :| 0 <= i < |gates| && ApproveAll(gates, id)[i] == gate;
    assert gates[i] in gates;
  }

  lemma ApprovalLeavesRest(gates: seq<Gate>, toCome: set<string>, id: string)
    requires HumanDecides(gates, toCome)
    ensures HumanDecides(ApproveAll(gates, id), toCome - {id})
    ensures TestsGate in ApproveAll(gates, id) ==> TestsGate in gates
  {
    var after := ApproveAll(gates, id);
    forall gate | gate in after
      ensures !gate.OtherGate? && (gate.HumanGate? ==> gate.approved !! toCome - {id})
              && (gate.TestsGate? ==> gate in gates)
    {
      GateAfterApproval(gates, id, gate);
      var before :| before in gates && gate == before.Approve(id);
    }
    var human :| human in gates && human.HumanGate?;
    var i :| 0 <= i < |gates| && gates[i] == human;
    assert after[i].HumanGate? && after[i] in after;
  }

  /** Before its approval a delivered package is pending, afterwards it passes. */
  lemma PendingThenPassing(gates: seq<Gate>, toCome: set<string>, s: Subject)
    requires HumanDecides(gates, toCome) && s.workPackageId in toCome
    requires TestsGate in gates ==> Passes(TestsGate.Decide(s))
    ensures !AllPass(gates, s) && SomePending(gates, s) && AllPass(ApproveAll(gates, s.workPackageId), s)
  {
    var human :| human in gates && human.HumanGate?;
    assert human.Decide(s).pending;
    ApprovalDecides(gates, s);
  }

  lemma AwaitsAtFirst(digest: RunResult -> string, s: KState, env: Env, id: string)
    requires Runs(env, id) && Delivered(env.run(id).value)
    requires var sub := SubjectOf(id, env.run(id).value); !AllPass(s.gates, sub) && SomePending(s.gates, sub)
    requires IntakeTakes(digest, Start(s, id, WorkerOf(env, id)).seen, SubmissionOf(id, env.run(id).value))
    ensures var (s', o) := RunPackage(digest, s, env, id);
            && o == Reported(id, WorkPending)
            && s'.gates == s.gates
            && s'.packages == s.packages[id := PackageState.Running]
            && id in s'.assignments && s'.assignments[id] == AwaitingGates
            && id in s'.results && s'.results[id] == env.run(id).value
            && s'.log == s.log + [Entry(|s.log| + 1, ExecutionStarted(id, WorkerOf(env, id)))]
  {
    hide AllPass, SomePending, IntakeTakes, SubmissionOf;
  }

  /** Three calls for one package: it is dispatched, approved and resolved. */
  ghost predicate Handled(g: Graph, digest: RunResult -> string, env: Env, id: string, a: KState, b: KState,
      c: KState, d: KState, first: Outcome, second: Outcome)
  {
    Dispatched(g, digest, a, env, b, first) && c == ApproveStep(b, id) && (d, second) == ResolveStep(c, id)
  }

  lemma FirstIsPending(g: Graph, preset: States, digest: RunResult -> string, env: Env, toCome: set<string>, id: string,
                       a: KState, b: KState, first: Outcome)
    requires Invariant(g, preset, a) && IsNext(g, a, id) && Dispatched(g, digest, a, env, b, first)
    requires HumanDecides(a.gates, toCome) && id in toCome && Delivers(a.gates, env, id)
    ensures first == Reported(id, WorkPending) && b.gates == a.gates
    ensures b.packages == a.packages[id := PackageState.Running]
    ensures id in b.assignments && b.assignments[id] == AwaitingGates
    ensures id in b.results && b.results[id] == env.run(id).value
    ensures b.log == a.log + [Entry(|a.log| + 1, ExecutionStarted(id, WorkerOf(env, id)))]
    ensures AllPass(ApproveAll(a.gates, id), SubjectOf(id, b.results[id]))
  {
    var r := env.run(id).value;
    assert IsReady(g, a.packages, id) && Admissible(SubmissionOf(id, r));
    NextUnique(g, a, id);
    assert (b, first) == RunPackage(digest, a, env, id) by {
      hide RunPackage, IsNext;
      var next :| IsNext(g, a, next) && (b, first) == RunPackage(digest, a, env, next);
    }
    PendingThenPassing(a.gates, toCome, SubjectOf(id, r));
    IntakeOnlyOnce(g, preset, digest, a, id, WorkerOf(env, id), r);
    AwaitsAtFirst(digest, a, env, id);
    hide *;
  }

  lemma HandledKeeps(g: Graph, preset: States, digest: RunResult -> string, env: Env, id: string,
                     a: KState, b: KState, c: KState, d: KState, first: Outcome, second: Outcome)
    requires Invariant(g, preset, a) && Handled(g, digest, env, id, a, b, c, d, first, second)
    ensures Invariant(g, preset, d)
  {
    hide Invariant, Dispatched, ApproveStep, ResolveStep;
    DispatchKeeps(g, preset, digest, a, env, b, first);
    ApproveKeeps(g, preset, b, id);
    ResolveKeeps(g, preset, c, id);
  }

  lemma HandledCompletes(g: Graph, preset: States, digest: RunResult -> string, env: Env, toCome: set<string>,
      id: string, a: KState, b: KState, c: KState, d: KState, first: Outcome, second: Outcome)
    requires Invariant(g, preset, a) && IsNext(g, a, id)
    requires HumanDecides(a.gates, toCome) && id in toCome && Delivers(a.gates, env, id)
    requires Handled(g, digest, env, id, a, b, c, d, first, second)
    ensures first == Reported(id, WorkPending) && second == Reported(id, WorkSucceeded)
    ensures d.gates == ApproveAll(a.gates, id) && d.packages == a.packages[id := Completed]
    ensures d.log ==
            a.log + [Entry(|a.log| + 1, ExecutionStarted(id, WorkerOf(env, id))), Entry(|a.log| + 2, WorkAccepted(id))]
  {
    hide Invariant, Dispatched, IsNext, HumanDecides, Delivers, AllPass, SubjectOf, ResolveStep, ApproveAll, WorkerOf;
    FirstIsPending(g, preset, digest, env, toCome, id, a, b, first);
    ResolvedCompletes(c, id);
    UpdateTwice(a.packages, id, PackageState.Running, Completed);
  }

  lemma UpdateTwice(m: States, id: string, x: PackageState, y: PackageState)
    ensures m[id := x][id := y] == m[id := y]
  {
  }

  lemma ResolvedCompletes(s: KState, id: string)
    requires id in s.assignments && s.assignments[id] == AwaitingGates
    requires id in s.results && AllPass(s.gates, SubjectOf(id, s.results[id]))
    ensures var (s', o) := ResolveStep(s, id);
            && o == Reported(id, WorkSucceeded) && s'.gates == s.gates && s'.packages == s.packages[id := Completed]
            && s'.log == s.log + [Entry(|s.log| + 1, WorkAccepted(id))]
  {
    hide AllPass, SubjectOf;
  }

  /** The calls for the k-th package of the order, and how they end. */
  ghost predicate HandledAt(g: Graph, digest: RunResult -> string, env: Env, order: seq<string>, states: seq<KState>,
      outcomes: seq<Outcome>, k: nat)
    requires k < |order| && |states| == 3 * |order| + 1 && |outcomes| == 2 * |order|
  {
    Handled(g, digest, env, order[k], states[3 * k], states[3 * k + 1], states[3 * k + 2], states[3 * k + 3],
        outcomes[2 * k], outcomes[2 * k + 1])
  }

  predicate EndedWell(order: seq<string>, outcomes: seq<Outcome>, k: nat)
    requires k < |order| && |outcomes| == 2 * |order|
  {
    outcomes[2 * k] == Reported(order[k], WorkPending) && outcomes[2 * k + 1] == Reported(order[k], WorkSucceeded)
  }

  /** Package after package in the given order: three calls each. */
  ghost predicate IsHandledRun(g: Graph, digest: RunResult -> string, env: Env, order: seq<string>,
      states: seq<KState>, outcomes: seq<Outcome>) {
    && |states| == 3 * |order| + 1 && |outcomes| == 2 * |order|
    && forall k :: 0 <= k < |order| ==> HandledAt(g, digest, env, order, states, outcomes, k)
  }

  /** Where a run stands after k packages. */
  ghost predicate DoneUpTo(g: Graph, preset: States, start: seq<Gate>, env: Env, order: seq<string>, s: KState, k: nat)
    requires k <= |order|
  {
    && Invariant(g, preset, s)
    && HumanDecides(s.gates, Remaining(g, preset).Keys - Elems(order[..k]))
    && (TestsGate in s.gates ==> TestsGate in start)
    && DoneExactly(g, preset, s, Elems(order[..k])) && s.log == FullLog(env, order[..k])
  }

  lemma {:induction false} HandledPrefix(g: Graph, digest: RunResult -> string, env: Env, order: seq<string>,
      states: seq<KState>, outcomes: seq<Outcome>, k: nat)
    requires IsHandledRun(g, digest, env, order, states, outcomes) && Wired(g, states[0])
    requires HumanDecides(states[0].gates, Remaining(g, states[0].packages).Keys)
    requires forall id :: id in Remaining(g, states[0].packages) ==> Delivers(states[0].gates, env, id)
    requires IsGreedy(Remaining(g, states[0].packages), order) && k <= |order|
    requires Distinct(order) && Elems(order) <= Remaining(g, states[0].packages).Keys
    ensures DoneUpTo(g, states[0].packages, states[0].gates, env, order, states[3 * k], k)
    ensures forall i :: 0 <= i < k ==> EndedWell(order, outcomes, i)
    decreases k
  {
    hide DoneUpTo, EndedWell, HandledAt, Delivers, HumanDecides, Wired, IsGreedy, Distinct, Remaining;
    if k == 0 {
      StartsAtNone(g, env, order, states[0]);
    } else {
      HandledPrefix(g, digest, env, order, states, outcomes, k - 1);
      assert HandledAt(g, digest, env, order, states, outcomes, k - 1);
      assert order[k - 1] in Elems(order);
      assert Delivers(states[0].gates, env, order[k - 1]);
      HandledNext(g, states[0].packages, states[0].gates, digest, env, order, states, outcomes, k - 1);
    }
  }

  lemma HandledNext(g: Graph, preset: States, start: seq<Gate>, digest: RunResult -> string, env: Env,
      order: seq<string>, states: seq<KState>, outcomes: seq<Outcome>, k: nat)
    requires IsGreedy(Remaining(g, preset), order) && k < |order| && Elems(order) <= Remaining(g, preset).Keys
    requires Distinct(order)
    requires |states| == 3 * |order| + 1 && |outcomes| == 2 * |order|
             && HandledAt(g, digest, env, order, states, outcomes, k)
    requires DoneUpTo(g, preset, start, env, order, states[3 * k], k) && Delivers(start, env, order[k])
    ensures DoneUpTo(g, preset, start, env, order, states[3 * k + 3], k + 1) && EndedWell(order, outcomes, k)
  {
    hide DoneUpTo, Delivers, IsGreedy, Handled, Remaining;
    HandledOne(g, preset, start, digest, env, order, k, states[3 * k], states[3 * k + 1], states[3 * k + 2],
        states[3 * k + 3], outcomes[2 * k], outcomes[2 * k + 1]);
  }

  lemma StartsAtNone(g: Graph, env: Env, order: seq<string>, s: KState)
    requires Wired(g, s) && HumanDecides(s.gates, Remaining(g, s.packages).Keys)
    ensures DoneUpTo(g, s.packages, s.gates, env, order, s, 0)
  {
    assert Remaining(g, s.packages).Keys - Elems(order[..0]) == Remaining(g, s.packages).Keys;
    WiredInvariant(g, s);
    ReadWired(g, s);
    hide Invariant, HumanDecides, Remaining;
  }

  lemma StillToCome(g: Graph, order: seq<string>, k: nat)
    requires k < |order| && Elems(order) <= g.Keys && Distinct(order)
    ensures order[k] in g.Keys - Elems(order[..k])
    ensures g.Keys - Elems(order[..k]) - {order[k]} == g.Keys - Elems(order[..k + 1])
  {
    assert order[k] in Elems(order) && order[k] !in order[..k];
    assert order[..k + 1] == order[..k] + [order[k]];
    assert Elems(order[..k + 1]) == Elems(order[..k]) + {order[k]};
  }

  lemma DeliversStill(start: seq<Gate>, gates: seq<Gate>, env: Env, id: string)
    requires Delivers(start, env, id) && (TestsGate in gates ==> TestsGate in start)
    ensures Delivers(gates, env, id)
  {
  }

  lemma HandledOne(g: Graph, preset: States, start: seq<Gate>, digest: RunResult -> string, env: Env,
      order: seq<string>, k: nat,
      a: KState, b: KState, c: KState, d: KState, first: Outcome, second: Outcome)
    requires IsGreedy(Remaining(g, preset), order) && k < |order| && Elems(order) <= Remaining(g, preset).Keys
    requires Distinct(order)
    requires Handled(g, digest, env, order[k], a, b, c, d, first, second)
    requires DoneUpTo(g, preset, start, env, order, a, k) && Delivers(start, env, order[k])
    ensures DoneUpTo(g, preset, start, env, order, d, k + 1)
    ensures first == Reported(order[k], WorkPending) && second == Reported(order[k], WorkSucceeded)
  {
    HandledKeeps(g, preset, digest, env, order[k], a, b, c, d, first, second);
    HandledEnds(g, preset, start, digest, env, order, k, a, b, c, d, first, second);
    hide Handled, IsGreedy, Remaining, Delivers, DoneUpTo;
    DoneUpToNext(g, preset, start, env, order, a, d, k);
  }

  lemma HandledEnds(g: Graph, preset: States, start: seq<Gate>, digest: RunResult -> string, env: Env,
      order: seq<string>, k: nat,
      a: KState, b: KState, c: KState, d: KState, first: Outcome, second: Outcome)
    requires IsGreedy(Remaining(g, preset), order) && k < |order| && Elems(order) <= Remaining(g, preset).Keys
    requires Distinct(order)
    requires Handled(g, digest, env, order[k], a, b, c, d, first, second)
    requires DoneUpTo(g, preset, start, env, order, a, k) && Delivers(start, env, order[k])
    ensures first == Reported(order[k], WorkPending) && second == Reported(order[k], WorkSucceeded)
    ensures d.gates == ApproveAll(a.gates, order[k]) && d.packages == a.packages[order[k] := Completed]
    ensures d.log ==
            a.log + [Entry(|a.log| + 1, ExecutionStarted(order[k], WorkerOf(env, order[k]))),
                Entry(|a.log| + 2, WorkAccepted(order[k]))]
  {
    var toCome := Remaining(g, preset).Keys - Elems(order[..k]);
    StillToCome(Remaining(g, preset), order, k);
    hide Remaining, Invariant, DoneExactly, IsGreedy, FullLog, Handled, HumanDecides, IsNext, Elems, Delivers, Distinct;
    DeliversStill(start, a.gates, env, order[k]);
    NextIs(g, preset, a, order, k);
    hide DoneUpTo, ApproveAll, WorkerOf;
    HandledCompletes(g, preset, digest, env, toCome, order[k], a, b, c, d, first, second);
  }

  lemma DoneUpToNext(g: Graph, preset: States, start: seq<Gate>, env: Env, order: seq<string>, a: KState, d: KState,
      k: nat)
    requires k < |order| && Elems(order) <= Remaining(g, preset).Keys && Distinct(order)
    requires DoneUpTo(g, preset, start, env, order, a, k) && Invariant(g, preset, d)
    requires d.gates == ApproveAll(a.gates, order[k]) && d.packages == a.packages[order[k] := Completed]
    requires d.log ==
             a.log + [Entry(|a.log| + 1, ExecutionStarted(order[k], WorkerOf(env, order[k]))),
                 Entry(|a.log| + 2, WorkAccepted(order[k]))]
    ensures DoneUpTo(g, preset, start, env, order, d, k + 1)
  {
    StillToCome(Remaining(g, preset), order, k);
    hide Remaining, Invariant, DoneExactly, FullLog, HumanDecides, Elems, Distinct, ApproveAll, WorkerOf;
    ApprovalLeavesRest(a.gates, Remaining(g, preset).Keys - Elems(order[..k]), order[k]);
    DoneOneMore(g, preset, a, d, order, k);
    FullLogOneMore(env, order, k);
  }

  /** With human gates, from packages inserted undispatched or completed: if every
      undispatched one finds a worker and a contract and delivers what its tests ask
      for, then dispatching, approving and resolving package by package completes the
      graph in precisely the order the topological sort gives for what remained; each
      dispatch is left pending, each resolution succeeds. */
  lemma ApprovedRunCompletesInOrder(g: Graph, digest: RunResult -> string, env: Env, sorted: Option<seq<string>>,
                                    states: seq<KState>, outcomes: seq<Outcome>)
    requires |states| > 0 && Wired(g, states[0])
    requires forall id :: id in g ==> Undispatched(states[0].packages[id]) || states[0].packages[id].Completed?
    requires Closed(g) && Acyclic(g) && SortOutcome(Remaining(g, states[0].packages), sorted)
    requires sorted.Some? ==> IsHandledRun(g, digest, env, sorted.value, states, outcomes)
    requires HumanDecides(states[0].gates, Remaining(g, states[0].packages).Keys)
    requires forall id :: id in Remaining(g, states[0].packages) ==> Delivers(states[0].gates, env, id)
    ensures sorted.Some? && |sorted.value| == |Remaining(g, states[0].packages).Keys|
    ensures forall i :: 0 <= i < |sorted.value| ==> EndedWell(sorted.value, outcomes, i)
    ensures forall id :: id in g ==>
              id in states[3 * |sorted.value|].packages && states[3 * |sorted.value|].packages[id].Completed?
    ensures states[3 * |sorted.value|].log == FullLog(env, sorted.value)
  {
    var preset := states[0].packages;
    assert preset.Keys == g.Keys;
    RemainingIsDag(g, preset);
    hide Wired, HandledAt, HumanDecides, Delivers, IsGreedy, Invariant, EndedWell, OpenOf;
    DistinctSize(sorted.value);
    var order := sorted.value;
    HandledPrefix(g, digest, env, order, states, outcomes, |order|);
    assert order[..|order|] == order;
    AllCompleted(g, preset, states[3 * |order|], Elems(order));
  }
}
