/**
 Acceptance gates and their combined report (kernel/gate/gate.go), and the
 intake of untrusted results (kernel/intake/intake.go).
 */
module Gates {
  import opened Lex
  import opened Outcomes

  datatype TestResult = TestResult(name: string, outcome: string)

  datatype ResultStatus = Succeeded | ResultFailed | Partial | Blocked | Cancelled | UnknownStatus(text: string)

  /** What a worker hands back; hasFailure: a failure record is attached. */
  datatype RunResult = RunResult(status: ResultStatus, summary: string, tests: seq<TestResult>,
      artifacts: seq<string>, hasFailure: bool)

  datatype Subject = Subject(workPackageId: string, status: ResultStatus, tests: seq<TestResult>)

  datatype Decision = Decision(gate: string, passed: bool, pending: bool)

  /** OtherGate is any further implementation; it decides from the subject. */
  datatype Gate =
    | TestsGate
    | HumanGate(approved: set<string>)
    | OtherGate(name: string, decide: Subject -> (bool, bool))
  {
    function Name(): string {
      match this
      case TestsGate => "tests"
      case HumanGate(_) => "human_review"
      case OtherGate(name, _) => name
    }

    function Decide(s: Subject): Decision {
      match this
      case TestsGate =>
        Decision("tests", s.tests != [] && forall t :: t in s.tests ==> t.outcome == "passed", false)
      case HumanGate(approved) =>
        Decision("human_review", s.workPackageId in approved, s.workPackageId !in approved)
      case OtherGate(name, decide) =>
        var (passed, pending) := decide(s);
        Decision(name, passed, pending)
    }

    /** Only human gates take approvals. */
    function Approve(id: string): Gate {
      if HumanGate? then HumanGate(approved + {id}) else this
    }
  }

  datatype Report = Report(passed: bool, pending: bool, decisions: seq<Decision>)

  predicate Passes(d: Decision) {
    d.passed && !d.pending
  }

  /** The gates ordered by name. */
  function SortGates(gates: seq<Gate>): (r: seq<Gate>)
    ensures multiset(r) == multiset(gates)
  {
    if gates == [] then []
    else
      assert gates == [gates[0]] + gates[1..];
      InsertGate(gates[0], SortGates(gates[1..]))
  }

  function InsertGate(g: Gate, gates: seq<Gate>): (r: seq<Gate>)
    ensures multiset(r) == multiset(gates) + multiset{g}
  {
    if gates == [] then [g]
    else if Le(g.Name(), gates[0].Name()) then [g] + gates
    else
      assert gates == [gates[0]] + gates[1..];
      [gates[0]] + InsertGate(g, gates[1..])
  }

  /** The tests gate: at least one test reported, all of them passed. */
  method EvaluateTests(s: Subject) returns (d: Decision)
    ensures d == TestsGate.Decide(s)
  {
    if |s.tests| == 0 {
      return Decision("tests", false, false);
    }
    for i := 0 to |s.tests|
      invariant forall k :: 0 <= k < i ==> s.tests[k].outcome == "passed"
    {
      if s.tests[i].outcome != "passed" {
        assert s.tests[i] in s.tests;
        return Decision("tests", false, false);
      }
    }
    return Decision("tests", true, false);
  }

  /** Every gate passes the package. */
  ghost predicate AllPass(gates: seq<Gate>, s: Subject) {
    forall g :: g in gates ==> Passes(g.Decide(s))
  }

  ghost predicate SomePending(gates: seq<Gate>, s: Subject) {
    exists g :: g in gates && g.Decide(s).pending
  }

  method EvaluateGate(g: Gate, s: Subject) returns (d: Decision)
    ensures d == g.Decide(s)
  {
    if g.TestsGate? {
      d := EvaluateTests(s);
    } else {
      d := g.Decide(s);
    }
  }

  /** Runs the gates by name. The report passes exactly when every gate does,
      and is pending exactly when some gate is, in whatever order they run. */
  method Evaluate(gates: seq<Gate>, s: Subject) returns (report: Report)
    ensures report.passed <==> AllPass(gates, s)
    ensures report.pending <==> SomePending(gates, s)
    ensures report.decisions == Decisions(SortGates(gates), s)
  {
    hide Gate.Decide;
    var sorted := SortGates(gates);
    report := Report(true, false, []);
    for i := 0 to |sorted|
      invariant report.passed <==> AllPass(sorted[..i], s)
      invariant report.pending <==> SomePending(sorted[..i], s)
      invariant report.decisions == Decisions(sorted[..i], s)
    {
      var d := EvaluateGate(sorted[i], s);
      OneMoreGate(sorted, i, s);
      report := report.(decisions := report.decisions + [d]);
      if d.pending {
        report := report.(pending := true, passed := false);
      } else if !d.passed {
        report := report.(passed := false);
      }
    }
    assert sorted[..|sorted|] == sorted;
    SameGates(gates, sorted, s);
  }

  function Decisions(gates: seq<Gate>, s: Subject): seq<Decision> {
    seq(|gates|, i requires 0 <= i < |gates| => gates[i].Decide(s))
  }

  lemma OneMoreGate(gates: seq<Gate>, i: nat, s: Subject)
    requires i < |gates|
    ensures AllPass(gates[..i + 1], s) <==> AllPass(gates[..i], s) && Passes(gates[i].Decide(s))
    ensures SomePending(gates[..i + 1], s) <==> SomePending(gates[..i], s) || gates[i].Decide(s).pending
    ensures Decisions(gates[..i + 1], s) == Decisions(gates[..i], s) + [gates[i].Decide(s)]
  {
    hide Gate.Decide;
    assert gates[..i + 1] == gates[..i] + [gates[i]];
    assert gates[i] in gates[..i + 1];
  }

  lemma SameGates(a: seq<Gate>, b: seq<Gate>, s: Subject)
    requires multiset(a) == multiset(b)
    ensures AllPass(a, s) <==> AllPass(b, s)
    ensures SomePending(a, s) <==> SomePending(b, s)
  {
    hide Gate.Decide;
    forall g ensures g in a <==> g in b {
      assert g in a <==> g in multiset(a);
      assert g in b <==> g in multiset(b);
    }
  }

  function ApproveAll(gates: seq<Gate>, id: string): seq<Gate> {
    seq(|gates|, i requires 0 <= i < |gates| => gates[i].Approve(id))
  }

  /** Approving one package never takes a passing report away from another. */
  lemma ApproveKeepsPassing(gates: seq<Gate>, id: string, s: Subject)
    requires AllPass(gates, s)
    ensures AllPass(ApproveAll(gates, id), s)
  {
    forall g | g in ApproveAll(gates, id) ensures Passes(g.Decide(s)) {
      var i :| 0 <= i < |gates| && ApproveAll(gates, id)[i] == g;
      assert gates[i] in gates;
    }
  }

  /** With only the two built-in kinds of gate, a package whose tests gate is
      satisfied passes as soon as it is approved, and not before. */
  lemma ApprovalDecides(gates: seq<Gate>, s: Subject)
    requires forall g :: g in gates ==> !g.OtherGate?
    ensures AllPass(ApproveAll(gates, s.workPackageId), s) <==> TestsGate in gates ==> Passes(TestsGate.Decide(s))
    ensures AllPass(gates, s) <==>
              && (TestsGate in gates ==> Passes(TestsGate.Decide(s)))
              && (forall g :: g in gates && g.HumanGate? ==> s.workPackageId in g.approved)
  {
    var after := ApproveAll(gates, s.workPackageId);
    if TestsGate in gates {
      var i :| 0 <= i < |gates| && gates[i] == TestsGate;
      assert after[i] == TestsGate && after[i] in after;
    }
    forall g | g in after
      ensures (g.HumanGate? && s.workPackageId in g.approved) || (g == TestsGate && TestsGate in gates) {
      var i :| 0 <= i < |gates| && after[i] == g;
      assert gates[i] in gates;
    }
  }

  // ----- intake

  /** A result envelope as submitted. */
  datatype Submission = Submission(id: string, attemptId: string, assignmentId: string, workPackageId: string,
      result: RunResult)

  datatype IntakeError = Invalid | Conflict

  /** The checks made before a result is recorded. */
  predicate Admissible(r: Submission) {
    && r.id != "" && r.attemptId != "" && r.assignmentId != "" && r.workPackageId != ""
    && !r.result.status.UnknownStatus?
    && ((r.result.status.ResultFailed? || r.result.status.Blocked?) ==> r.result.hasFailure)
  }

  /** The hash covers everything but the failure record. */
  function Hashed(r: RunResult): RunResult {
    r.(hasFailure := false)
  }

  /** digest stands for SHA-256 over the JSON of the hashed fields. */
  class Intake {
    const digest: RunResult -> string
    var seen: map<string, string>

    constructor (digest: RunResult -> string)
      ensures this.digest == digest && seen == map[]
    {
      this.digest, seen := digest, map[];
    }

    /** Records a new identifier once. Resubmitting the same content changes
        nothing, other content under the same identifier is a conflict. */
    method Submit(r: Submission) returns (o: Result<bool, IntakeError>)
      modifies this`seen
      ensures o == Err(Invalid) <==> !Admissible(r)
      ensures o == Ok(true) <==> Admissible(r) && r.id !in old(seen)
      ensures o == Err(Conflict) <==> Admissible(r) && r.id in old(seen) && old(seen)[r.id] != digest(Hashed(r.result))
      ensures seen == if o == Ok(true) then old(seen)[r.id := digest(Hashed(r.result))] else old(seen)
    {
      if !Admissible(r) {
        return Err(Invalid);
      }
      var hash := digest(Hashed(r.result));
      if r.id in seen {
        return if seen[r.id] != hash then Err(Conflict) else Ok(false);
      }
      seen := seen[r.id := hash];
      return Ok(true);
    }
  }
}
