/**
 What every step of the control cycle keeps: where each package stands, what is
 recorded about it, and the order of the events.
 */
module ControlInvariant {
  import opened Lex
  import opened Outcomes
  import opened DependencyGraph
  import opened WorkPlan
  import opened Assignments
  import opened Gates
  import opened ControlState

  ghost predicate StartedIn(log: seq<Entry>, id: string) {
    exists e :: e in log && e.event.ExecutionStarted? && e.event.id == id
  }

  ghost predicate AcceptedIn(log: seq<Entry>, id: string) {
    exists e :: e in log && e.event == WorkAccepted(id)
  }

  /** d was accepted in the log, unless it was inserted as completed. */
  ghost predicate AcceptedUnlessPreset(preset: States, log: seq<Entry>, d: string) {
    d in preset && (AcceptedIn(log, d) <==> !preset[d].Completed?)
  }

  /** What entry i asks of the entries before it: a start comes first for its
      package, and each of its dependencies was accepted before, except exactly
      those inserted as completed; an acceptance comes first for its package and
      after its start. */
  ghost predicate EntryOk(g: Graph, preset: States, log: seq<Entry>, i: nat)
    requires i < |log|
  {
    var e := log[i];
    && e.sequence == i + 1
    && e.event.id in g
    && match e.event {
         case ExecutionStarted(id, _) => !StartedIn(log[..i], id) && forall d :: d in g[id] ==>
             AcceptedUnlessPreset(preset, log[..i], d)
         case WorkAccepted(id) => !AcceptedIn(log[..i], id) && StartedIn(log[..i], id)
       }
  }

  ghost predicate LogOk(g: Graph, preset: States, log: seq<Entry>) {
    forall i :: 0 <= i < |log| ==> EntryOk(g, preset, log, i)
  }

  function SubmissionId(id: string): string {
    "res_" + AssignmentId(id)
  }

  /** Nothing is recorded about a package. */
  ghost predicate Untouched(s: KState, id: string) {
    id !in s.assignments && id !in s.results && SubmissionId(id) !in s.seen
  }

  ghost predicate HasDelivered(s: KState, id: string) {
    id in s.results && Delivered(s.results[id])
  }

  ghost predicate NeverRun(s: KState, id: string) {
    Untouched(s, id) && !StartedIn(s.log, id) && !AcceptedIn(s.log, id)
  }

  /** Where a package stands, given the state it was inserted with: one inserted as
      anything but undispatched stays just that. */
  ghost predicate PackageOk(s: KState, id: string, was: PackageState)
    requires id in s.packages
  {
    if !Undispatched(was) then s.packages[id] == was && NeverRun(s, id)
    else
      match s.packages[id]
      case Proposed => NeverRun(s, id)
      case Ready => NeverRun(s, id)
      case Running =>
        // either the intake refused the result, or the gates are awaited
        && StartedIn(s.log, id) && !AcceptedIn(s.log, id)
        && (Untouched(s, id) || (id in s.assignments && s.assignments[id] == AwaitingGates && HasDelivered(s, id)))
      case Completed =>
        && StartedIn(s.log, id) && AcceptedIn(s.log, id)
        && id in s.assignments && s.assignments[id] == AssignmentState.Accepted
        && HasDelivered(s, id) && AllPass(s.gates, SubjectOf(id, s.results[id]))
      case Deficient =>
        && StartedIn(s.log, id) && !AcceptedIn(s.log, id)
        && id in s.assignments && s.assignments[id] == AssignmentState.Failed
      case OtherState(_) => false
  }

  /** The invariant of runs over packages inserted in the states of preset. */
  ghost predicate Invariant(g: Graph, preset: States, s: KState) {
    && "" !in g
    && s.packages.Keys == preset.Keys == g.Keys
    && s.assignments.Keys <= g.Keys
    && LogOk(g, preset, s.log)
    && forall id :: id in g ==> PackageOk(s, id, preset[id])
  }

  /** A freshly wired orchestrator, over packages in any states whatever. */
  ghost predicate Wired(g: Graph, s: KState) {
    && "" !in g && s.packages.Keys == g.Keys
    && s.assignments == map[] && s.results == map[] && s.seen == map[] && s.log == []
  }

  lemma WiredInvariant(g: Graph, s: KState)
    requires Wired(g, s)
    ensures Invariant(g, s.packages, s)
  {
  }

  // ----- growing the log

  lemma LogGrows(g: Graph, preset: States, log: seq<Entry>, e: Event)
    requires LogOk(g, preset, log)
    requires e.id in g
    requires match e {
               case ExecutionStarted(id, _) => !StartedIn(log, id) && forall d :: d in g[id] ==>
                   AcceptedUnlessPreset(preset, log, d)
               case WorkAccepted(id) => !AcceptedIn(log, id) && StartedIn(log, id)
             }
    ensures var longer := log + [Entry(|log| + 1, e)];
            && LogOk(g, preset, longer)
            && (forall id :: StartedIn(longer, id) <==> StartedIn(log, id) || (e.ExecutionStarted? && e.id == id))
            && (forall id :: AcceptedIn(longer, id) <==> AcceptedIn(log, id) || e == WorkAccepted(id))
  {
    var longer := log + [Entry(|log| + 1, e)];
    assert longer[|log|] == Entry(|log| + 1, e) && longer[|log|] in longer;
    assert forall x :: x in log ==> x in longer;
    forall i | 0 <= i < |longer| ensures EntryOk(g, preset, longer, i) {
      assert longer[..i] == log[..i];
      if i < |log| {
        assert EntryOk(g, preset, log, i);
      } else {
        assert log[..i] == log;
      }
    }
  }

  // ----- the steps

  /** Every package but id is as the invariant wants it; id is running with its
      result recorded and about to be judged. */
  ghost predicate AboutToJudge(g: Graph, preset: States, s: KState, id: string) {
    && "" !in g && id in g
    && s.packages.Keys == preset.Keys == g.Keys
    && s.assignments.Keys <= g.Keys
    && LogOk(g, preset, s.log)
    && (forall other :: other in g && other != id ==> PackageOk(s, other, preset[other]))
    && Undispatched(preset[id])
    && s.packages[id].Running? && StartedIn(s.log, id) && !AcceptedIn(s.log, id)
    && id in s.results
  }

  /** s' says the same as s about a package. */
  ghost predicate SameAbout(s: KState, s': KState, id: string) {
    && id in s.packages && id in s'.packages && s'.packages[id] == s.packages[id]
    && (id in s'.assignments <==> id in s.assignments)
    && (id in s.assignments ==> s'.assignments[id] == s.assignments[id])
    && (id in s'.results <==> id in s.results) && (id in s.results ==> s'.results[id] == s.results[id])
    && (SubmissionId(id) in s'.seen <==> SubmissionId(id) in s.seen)
    && s'.gates == s.gates
    && (StartedIn(s'.log, id) <==> StartedIn(s.log, id))
    && (AcceptedIn(s'.log, id) <==> AcceptedIn(s.log, id))
  }

  lemma SameAboutKeeps(s: KState, s': KState, id: string, was: PackageState)
    requires SameAbout(s, s', id) && PackageOk(s, id, was)
    ensures PackageOk(s', id, was)
  {
    hide StartedIn, AcceptedIn, AllPass;
  }

  lemma AcceptKeeps(g: Graph, preset: States, s: KState, id: string)
    requires AboutToJudge(g, preset, s, id) && HasDelivered(s, id) && AllPass(s.gates, SubjectOf(id, s.results[id]))
    ensures Invariant(g, preset, Accept(s, id))
  {
    hide AllPass, PackageOk;
    LogGrows(g, preset, s.log, WorkAccepted(id));
    hide StartedIn, AcceptedIn, LogOk;
    var s' := Accept(s, id);
    forall other | other in g && other != id ensures PackageOk(s', other, preset[other]) {
      SameAboutKeeps(s, s', other, preset[other]);
    }
    AcceptedOk(s, s', id, preset[id]);
  }

  lemma AcceptedOk(s: KState, s': KState, id: string, was: PackageState)
    requires HasDelivered(s, id) && AllPass(s.gates, SubjectOf(id, s.results[id])) && s' == Accept(s, id)
    requires StartedIn(s'.log, id) && AcceptedIn(s'.log, id) && Undispatched(was)
    ensures PackageOk(s', id, was)
  {
    hide AllPass, StartedIn, AcceptedIn;
  }

  lemma FailKeeps(g: Graph, preset: States, s: KState, id: string)
    requires AboutToJudge(g, preset, s, id) || (Invariant(g, preset, s) && id in g && s.packages[id].Running?)
    requires Undispatched(preset[id])
    ensures Invariant(g, preset, Fail(s, id))
  {
    hide AllPass, StartedIn, AcceptedIn, LogOk, PackageOk, HasDelivered;
    var s' := Fail(s, id);
    FailedOk(g, preset, s, id);
    forall other | other in g && other != id ensures PackageOk(s', other, preset[other]) {
      SameAboutKeeps(s, s', other, preset[other]);
    }
  }

  lemma FailedOk(g: Graph, preset: States, s: KState, id: string)
    requires AboutToJudge(g, preset, s, id) || (Invariant(g, preset, s) && id in g && s.packages[id].Running?)
    requires Undispatched(preset[id])
    ensures id in Fail(s, id).packages && PackageOk(Fail(s, id), id, preset[id])
  {
    hide AllPass, StartedIn, AcceptedIn, LogOk;
    if Invariant(g, preset, s) { assert PackageOk(s, id, preset[id]); }
  }

  lemma JudgeKeeps(g: Graph, preset: States, s: KState, id: string)
    requires AboutToJudge(g, preset, s, id) && HasDelivered(s, id)
    ensures Invariant(g, preset, Judge(s, id, s.results[id]).0)
  {
    hide AllPass, SomePending, StartedIn, AcceptedIn, LogOk, AboutToJudge, Invariant, PackageOk, HasDelivered;
    AboutToJudgeMeans(g, preset, s, id);
    if AllPass(s.gates, SubjectOf(id, s.results[id])) {
      AcceptKeeps(g, preset, s, id);
    } else if SomePending(s.gates, SubjectOf(id, s.results[id])) {
      AwaitKeeps(g, preset, s, id);
    } else {
      FailKeeps(g, preset, s, id);
    }
  }

  lemma AboutToJudgeMeans(g: Graph, preset: States, s: KState, id: string)
    requires AboutToJudge(g, preset, s, id)
    ensures id in preset && Undispatched(preset[id]) && id in s.results
  {
  }

  lemma AwaitKeeps(g: Graph, preset: States, s: KState, id: string)
    requires AboutToJudge(g, preset, s, id) && HasDelivered(s, id)
    ensures Invariant(g, preset, s.(assignments := s.assignments[id := AwaitingGates]))
  {
    hide AllPass, SomePending, StartedIn, AcceptedIn, LogOk;
    var s' := s.(assignments := s.assignments[id := AwaitingGates]);
    assert PackageOk(s', id, preset[id]);
    forall other | other in g && other != id ensures PackageOk(s', other, preset[other]) {
      SameAboutKeeps(s, s', other, preset[other]);
    }
    hide PackageOk, HasDelivered;
  }

  /** What a ready package brings to its start. */
  lemma ReadyToStart(g: Graph, preset: States, s: KState, id: string)
    requires Invariant(g, preset, s) && IsReady(g, s.packages, id)
    ensures NeverRun(s, id) && Undispatched(preset[id])
    ensures forall d :: d in g[id] ==> AcceptedUnlessPreset(preset, s.log, d)
  {
    hide AllPass, LogOk, StartedIn, AcceptedIn;
    assert PackageOk(s, id, preset[id]);
    forall d | d in g[id] ensures AcceptedUnlessPreset(preset, s.log, d) { assert PackageOk(s, d, preset[d]); }
  }

  lemma StartKeeps(g: Graph, preset: States, s: KState, id: string, worker: string)
    requires Invariant(g, preset, s) && IsReady(g, s.packages, id)
    ensures Invariant(g, preset, Start(s, id, worker))
  {
    hide AllPass, PackageOk, StartedIn, AcceptedIn, LogOk, AcceptedUnlessPreset;
    ReadyToStart(g, preset, s, id);
    LogGrows(g, preset, s.log, ExecutionStarted(id, worker));
    var s' := Start(s, id, worker);
    forall other | other in g && other != id ensures PackageOk(s', other, preset[other]) {
      SameAboutKeeps(s, s', other, preset[other]);
    }
    StartedOk(s, s', id, worker, preset[id]);
  }

  lemma StartedOk(s: KState, s': KState, id: string, worker: string, was: PackageState)
    requires NeverRun(s, id) && Undispatched(was) && s' == Start(s, id, worker)
    requires StartedIn(s'.log, id) && !AcceptedIn(s'.log, id)
    ensures PackageOk(s', id, was)
  {
    hide AllPass, StartedIn, AcceptedIn;
  }

  lemma ReadyUntouched(g: Graph, preset: States, s: KState, id: string)
    requires Invariant(g, preset, s) && IsReady(g, s.packages, id)
    ensures Untouched(s, id)
  {
    assert PackageOk(s, id, preset[id]);
  }

  lemma DifferentSubmissions(a: string, b: string)
    requires a != b
    ensures SubmissionId(a) != SubmissionId(b)
  {
    assert SubmissionId(a)[8..] == a && SubmissionId(b)[8..] == b;
  }

  lemma DeliverKeeps(g: Graph, preset: States, digest: RunResult -> string, s: KState, id: string, r: RunResult)
    requires Invariant(g, preset, s) && id in g && s.packages[id].Running? && Untouched(s, id)
    requires Undispatched(preset[id])
    ensures Invariant(g, preset, Deliver(s.(seen := s.seen[SubmissionOf(id, r).id := digest(Hashed(r))]), id, r).0)
  {
    hide AllPass, Judge, StartedIn, AcceptedIn, LogOk;
    var sub := SubmissionOf(id, r);
    var s2 := s.(seen := s.seen[sub.id := digest(Hashed(r))], results := s.results[id := r]);
    forall other | other in g && other != id ensures PackageOk(s2, other, preset[other]) {
      DifferentSubmissions(other, id);
      SameAboutKeeps(s, s2, other, preset[other]);
    }
    assert PackageOk(s, id, preset[id]);
    assert AboutToJudge(g, preset, s2, id);
    if Delivered(r) {
      JudgeKeeps(g, preset, s2, id);
    } else {
      FailKeeps(g, preset, s2, id);
    }
  }

  /** The submission of a ready package has an identifier the intake has not seen,
      so the intake refuses it exactly for what the result itself lacks. */
  lemma IntakeOnlyOnce(g: Graph, preset: States, digest: RunResult -> string, s: KState, id: string, worker: string,
      r: RunResult)
    requires Invariant(g, preset, s) && IsReady(g, s.packages, id)
    ensures SubmissionOf(id, r).id !in Start(s, id, worker).seen
    ensures IntakeTakes(digest, Start(s, id, worker).seen, SubmissionOf(id, r)) <==> Admissible(SubmissionOf(id, r))
  {
    ReadyUntouched(g, preset, s, id);
  }

  lemma RunKeeps(g: Graph, preset: States, digest: RunResult -> string, s: KState, env: Env, id: string)
    requires Invariant(g, preset, s) && IsReady(g, s.packages, id)
    ensures Invariant(g, preset, RunPackage(digest, s, env, id).0)
  {
    hide AllPass, Deliver;
    if env.select(id).Some? && env.contract(id) {
      var worker := env.select(id).value;
      assert PackageOk(s, id, preset[id]);
      StartKeeps(g, preset, s, id, worker);
      var s1 := Start(s, id, worker);
      match env.run(id) {
        case None => FailKeeps(g, preset, s1, id);
        case Some(r) =>
          if IntakeTakes(digest, s1.seen, SubmissionOf(id, r)) {
            DeliverKeeps(g, preset, digest, s1, id, r);
          }
      }
    }
  }

  lemma DispatchKeeps(g: Graph, preset: States, digest: RunResult -> string, s: KState, env: Env, s': KState,
      o: Outcome)
    requires Invariant(g, preset, s) && Dispatched(g, digest, s, env, s', o)
    ensures Invariant(g, preset, s')
  {
    hide RunPackage;
    if exists id :: IsReady(g, s.packages, id) {
      var id :| IsNext(g, s, id) && (s', o) == RunPackage(digest, s, env, id);
      RunKeeps(g, preset, digest, s, env, id);
    }
  }

  lemma ResolveKeeps(g: Graph, preset: States, s: KState, id: string)
    requires Invariant(g, preset, s)
    ensures Invariant(g, preset, ResolveStep(s, id).0)
  {
    hide Judge, AllPass;
    if id in s.assignments {
      assert PackageOk(s, id, preset[id]);
      if s.assignments[id] == AwaitingGates {
        JudgeKeeps(g, preset, s, id);
      }
    }
  }

  lemma ApproveKeeps(g: Graph, preset: States, s: KState, id: string)
    requires Invariant(g, preset, s)
    ensures Invariant(g, preset, ApproveStep(s, id))
  {
    hide AllPass;
    var s' := ApproveStep(s, id);
    forall other | other in g ensures PackageOk(s', other, preset[other]) {
      assert PackageOk(s, other, preset[other]);
      if s.packages[other].Completed? && Undispatched(preset[other]) {
        ApproveKeepsPassing(s.gates, id, SubjectOf(other, s.results[other]));
      }
    }
  }
}
