/**
 Whole runs over memory: repository operations, rebuilds and raw store writes
 (memory/memory.go) in any order.
 */
module MemoryRuns {
  import opened Lex
  import opened Outcomes
  import opened Contracts
  import opened MemoryStore
  import opened MemoryRepos

  datatype Op =
    | DoPropose(strategy: Strategy, newId: string)
    | DoTransition(id: string, to: Lifecycle)
    | DoSupersede(oldId: string, otherId: string)
    | DoCreate(issue: Issue, newId: string)
    | DoSetStatus(id: string, status: string)
    | DoRebuild
    | DoRawPut(record: Record<Doc>)

  /** One call: what it may leave behind. */
  ghost predicate Steps(hash: Hash, m: Memory, op: Op, after: Memory) {
    match op
    case DoPropose(s, newId) => after == Propose(hash, m, s, newId).1
    case DoTransition(id, to) => after == Transition(hash, m, id, to).1
    case DoSupersede(oldId, otherId) => after == Supersede(hash, m, oldId, otherId).1
    case DoCreate(i, newId) => after == CreateIssue(hash, m, i, newId).1
    case DoSetStatus(id, status) => after == SetStatus(hash, m, id, status).1
    case DoRebuild => after.records == m.records && Synced(after.records, after.entries)
    case DoRawPut(r) => after == Memory(AfterPut(hash, m.records, r), m.entries)
  }

  /** The states of a run, the first one in step and well keyed, as opening leaves it. */
  ghost predicate Run(hash: Hash, ops: seq<Op>, trace: seq<Memory>) {
    && |trace| == |ops| + 1
    && WellKeyed(hash, trace[0].records) && Synced(trace[0].records, trace[0].entries)
    && forall i :: 0 <= i < |ops| ==> Steps(hash, trace[i], ops[i], trace[i + 1])
  }

  lemma RunPrefix(hash: Hash, ops: seq<Op>, trace: seq<Memory>, n: nat)
    requires Run(hash, ops, trace) && n <= |ops|
    ensures Run(hash, ops[..n], trace[..n + 1])
  {
    forall i | 0 <= i < n ensures Steps(hash, trace[..n + 1][i], ops[..n][i], trace[..n + 1][i + 1]) {
      assert Steps(hash, trace[i], ops[i], trace[i + 1]);
    }
  }

  // ----- one save

  /** From m to after nothing is lost, revisions only rise, and keys in step stay so. */
  ghost predicate Advances(hash: Hash, m: Memory, after: Memory) {
    && WellKeyed(hash, after.records)
    && RevisionsRise(m.records, after.records)
    && (Proper(m.entries) ==> Proper(after.entries))
    && forall k: Key :: IsIdentifier(k.0) && IsIdentifier(k.1) && SyncedAt(m.records, m.entries, k) ==>
        SyncedAt(after.records, after.entries, k)
  }

  lemma AdvancesTransitive(hash: Hash, a: Memory, b: Memory, c: Memory)
    requires Advances(hash, a, b) && Advances(hash, b, c)
    ensures Advances(hash, a, c)
  {
    forall k | k in a.records
      ensures k in c.records && (c.records[k] == a.records[k] || c.records[k].revision > a.records[k].revision) {
      assert k in b.records;
    }
  }

  lemma StayingAdvances(hash: Hash, m: Memory)
    requires WellKeyed(hash, m.records)
    ensures Advances(hash, m, m)
  {
  }

  lemma PutTypedAdvances(hash: Hash, m: Memory, kind: string, id: string, revision: int, doc: Doc)
    requires WellKeyed(hash, m.records)
    ensures Advances(hash, m, PutTyped(hash, m, kind, id, revision, doc).1)
  {
    var r := Record(kind, id, revision, doc, hash(doc));
    var after := PutTyped(hash, m, kind, id, revision, doc).1;
    PutRaisesRevisions(hash, m.records, r);
    if PutOutcome(hash, m.records, r) == Ok(true) {
      forall k: Key | IsIdentifier(k.0) && IsIdentifier(k.1) && SyncedAt(m.records, m.entries, k)
        ensures SyncedAt(after.records, after.entries, k) {
        PutBothKeepsSync(hash, m.records, m.entries, r, k);
      }
    }
  }

  lemma SaveStrategyAdvances(hash: Hash, m: Memory, s: Strategy)
    requires WellKeyed(hash, m.records)
    ensures Advances(hash, m, SaveStrategy(hash, m, s).1)
  {
    PutTypedAdvances(hash, m, "strategy", s.id, s.revision, StrategyDoc(s));
    StayingAdvances(hash, m);
    hide PutTyped, Advances;
  }

  lemma SaveIssueAdvances(hash: Hash, m: Memory, i: Issue)
    requires WellKeyed(hash, m.records)
    ensures Advances(hash, m, SaveIssue(hash, m, i).1)
  {
    PutTypedAdvances(hash, m, "issue", i.id, i.revision, IssueDoc(i));
    StayingAdvances(hash, m);
    hide PutTyped, Advances;
  }

  ghost predicate Saved(hash: Hash, m: Memory, after: Memory) {
    after == m || exists s :: after == SaveStrategy(hash, m, s).1
  }

  lemma SavedAdvances(hash: Hash, m: Memory, after: Memory)
    requires WellKeyed(hash, m.records) && Saved(hash, m, after)
    ensures Advances(hash, m, after) && WellKeyed(hash, after.records)
  {
    StayingAdvances(hash, m);
    if after != m {
      var s :| after == SaveStrategy(hash, m, s).1;
      SaveStrategyAdvances(hash, m, s);
    }
  }

  /** A transition saves at most one strategy. */
  lemma TransitionSaves(hash: Hash, m: Memory, id: string, to: Lifecycle)
    ensures Saved(hash, m, Transition(hash, m, id, to).1)
  {
    hide SaveStrategy, GetStrategy, RevisionOf, CanTransition;
  }

  /** Superseding saves at most twice. */
  lemma SupersedeSaves(hash: Hash, m: Memory, oldId: string, newId: string)
    ensures exists m1 :: Saved(hash, m, m1) && Saved(hash, m1, Supersede(hash, m, oldId, newId).1)
  {
    TransitionSaves(hash, m, oldId, Superseded);
    var m1 := Transition(hash, m, oldId, Superseded).1;
    var after := Supersede(hash, m, oldId, newId).1;
    hide SaveStrategy, GetStrategy, RevisionOf, Transition;
    assert Saved(hash, m, m) && Saved(hash, m1, m1);
    assert after == m || Saved(hash, m1, after);
  }

  lemma TransitionAdvances(hash: Hash, m: Memory, id: string, to: Lifecycle)
    requires WellKeyed(hash, m.records)
    ensures Advances(hash, m, Transition(hash, m, id, to).1)
  {
    TransitionSaves(hash, m, id, to);
    SavedAdvances(hash, m, Transition(hash, m, id, to).1);
  }

  lemma SupersedeAdvances(hash: Hash, m: Memory, oldId: string, newId: string)
    requires WellKeyed(hash, m.records)
    ensures Advances(hash, m, Supersede(hash, m, oldId, newId).1)
  {
    SupersedeSaves(hash, m, oldId, newId);
    hide Saved, Supersede, Advances;
    var after := Supersede(hash, m, oldId, newId).1;
    var m1 :| Saved(hash, m, m1) && Saved(hash, m1, after);
    SavedAdvances(hash, m, m1);
    SavedAdvances(hash, m1, after);
    AdvancesTransitive(hash, m, m1, after);
  }

  lemma SetStatusSaves(hash: Hash, m: Memory, id: string, status: string)
    ensures SetStatus(hash, m, id, status).1 == m ||
            exists i :: SetStatus(hash, m, id, status).1 == SaveIssue(hash, m, i).1
  {
    hide SaveIssue, GetIssue, RevisionOf;
  }

  lemma SetStatusAdvances(hash: Hash, m: Memory, id: string, status: string)
    requires WellKeyed(hash, m.records)
    ensures Advances(hash, m, SetStatus(hash, m, id, status).1)
  {
    SetStatusSaves(hash, m, id, status);
    hide SetStatus, SaveIssue, Advances;
    StayingAdvances(hash, m);
    if SetStatus(hash, m, id, status).1 != m {
      var i :| SetStatus(hash, m, id, status).1 == SaveIssue(hash, m, i).1;
      SaveIssueAdvances(hash, m, i);
    }
  }

  lemma ProposeAdvances(hash: Hash, m: Memory, strategy: Strategy, newId: string)
    requires WellKeyed(hash, m.records)
    ensures Advances(hash, m, Propose(hash, m, strategy, newId).1)
  {
    StayingAdvances(hash, m);
    var named := if strategy.id == "" then strategy.(id := newId) else strategy;
    var s := if named.lifecycle == Unset then named.(lifecycle := Candidate) else named;
    SaveStrategyAdvances(hash, m, s.(revision := 1));
    hide SaveStrategy, Advances;
  }

  lemma CreateAdvances(hash: Hash, m: Memory, issue: Issue, newId: string)
    requires WellKeyed(hash, m.records)
    ensures Advances(hash, m, CreateIssue(hash, m, issue, newId).1)
  {
    var named := if issue.id == "" then issue.(id := newId) else issue;
    SaveIssueAdvances(hash, m, named.(status := if issue.status == "" then "open" else issue.status, revision := 1));
    hide SaveIssue, Advances;
  }

  /** Every operation but a raw write keeps every key in step that was. */
  lemma StepAdvances(hash: Hash, m: Memory, op: Op, after: Memory)
    requires WellKeyed(hash, m.records) && Steps(hash, m, op, after) && !op.DoRawPut?
    ensures Advances(hash, m, after)
  {
    hide Propose, Transition, Supersede, CreateIssue, SetStatus;
    match op
    case DoPropose(s, newId) => ProposeAdvances(hash, m, s, newId);
    case DoTransition(id, to) => TransitionAdvances(hash, m, id, to);
    case DoSupersede(oldId, otherId) => SupersedeAdvances(hash, m, oldId, otherId);
    case DoCreate(i, newId) => CreateAdvances(hash, m, i, newId);
    case DoSetStatus(id, status) => SetStatusAdvances(hash, m, id, status);
    case DoRebuild =>
  }

  // ----- whole runs

  /** Keys a run writes to the store behind the projection's back. */
  function RawKeys(ops: seq<Op>): set<Key> {
    set op | op in ops && op.DoRawPut? :: KeyOf(op.record)
  }

  lemma {:induction false} RunKeepsKeys(hash: Hash, ops: seq<Op>, trace: seq<Memory>)
    requires Run(hash, ops, trace)
    ensures WellKeyed(hash, trace[|ops|].records) && Proper(trace[|ops|].entries)
    decreases |ops|
  {
    if ops != [] {
      var n := |ops| - 1;
      RunPrefix(hash, ops, trace, n);
      RunKeepsKeys(hash, ops[..n], trace[..n + 1]);
      assert Steps(hash, trace[n], ops[n], trace[n + 1]);
      if ops[n].DoRawPut? {
        PutRaisesRevisions(hash, trace[n].records, ops[n].record);
      } else {
        StepAdvances(hash, trace[n], ops[n], trace[n + 1]);
      }
    }
  }

  /** After any run, every key never written raw is in step with the store. */
  lemma {:induction false} UntouchedKeysStaySynced(hash: Hash, ops: seq<Op>, trace: seq<Memory>, k: Key)
    requires Run(hash, ops, trace) && IsIdentifier(k.0) && IsIdentifier(k.1) && k !in RawKeys(ops)
    ensures SyncedAt(trace[|ops|].records, trace[|ops|].entries, k)
    decreases |ops|
  {
    if ops != [] {
      var n := |ops| - 1;
      RunPrefix(hash, ops, trace, n);
      assert ops == ops[..n] + [ops[n]];
      UntouchedKeysStaySynced(hash, ops[..n], trace[..n + 1], k);
      RunKeepsKeys(hash, ops[..n], trace[..n + 1]);
      assert Steps(hash, trace[n], ops[n], trace[n + 1]);
      if ops[n].DoRawPut? {
        RawPutDesyncsExactly(hash, trace[n].records, trace[n].entries, ops[n].record, k);
      } else {
        StepAdvances(hash, trace[n], ops[n], trace[n + 1]);
      }
    }
  }

  /** After any run without raw writes the projection is the one a rebuild would
      give. */
  lemma ProjectionEqualsRebuild(hash: Hash, ops: seq<Op>, trace: seq<Memory>, rebuilt: Memory)
    requires Run(hash, ops, trace) && RawKeys(ops) == {}
    requires Steps(hash, trace[|ops|], DoRebuild, rebuilt)
    ensures rebuilt == trace[|ops|]
  {
    var last := trace[|ops|];
    RunKeepsKeys(hash, ops, trace);
    forall k: Key | IsIdentifier(k.0) && IsIdentifier(k.1) ensures SyncedAt(last.records, last.entries, k) {
      UntouchedKeysStaySynced(hash, ops, trace, k);
    }
    SyncedUnique(last.records, last.entries, rebuilt.entries);
  }

  /** In any run, raw writes included, a record that differs later has a higher
      revision, and none disappears. */
  lemma {:induction false} RevisionsRiseInRuns(hash: Hash, ops: seq<Op>, trace: seq<Memory>, i: nat, k: Key)
    requires Run(hash, ops, trace) && i <= |ops| && k in trace[i].records
    ensures k in trace[|ops|].records
    ensures trace[|ops|].records[k] == trace[i].records[k]
            || trace[|ops|].records[k].revision > trace[i].records[k].revision
    decreases |ops|
  {
    if i < |ops| {
      var n := |ops| - 1;
      RunPrefix(hash, ops, trace, n);
      RevisionsRiseInRuns(hash, ops[..n], trace[..n + 1], i, k);
      RunKeepsKeys(hash, ops[..n], trace[..n + 1]);
      assert Steps(hash, trace[n], ops[n], trace[n + 1]);
      if ops[n].DoRawPut? {
        PutRaisesRevisions(hash, trace[n].records, ops[n].record);
      } else {
        StepAdvances(hash, trace[n], ops[n], trace[n + 1]);
      }
    }
  }

  // ----- projected entries come from the store

  /** One write at a time: a save, a raw write or a rebuild. */
  ghost predicate Writes(hash: Hash, m: Memory, after: Memory) {
    || (exists kind, id, revision, doc :: after == PutTyped(hash, m, kind, id, revision, doc).1)
    || (exists r :: after == Memory(AfterPut(hash, m.records, r), m.entries))
    || (after.records == m.records && Synced(after.records, after.entries))
  }

  ghost predicate FromStore(records: Records<Doc>, e: Entry<Doc>) {
    exists k :: k in records && FromRecord(records[k]) == e
  }

  lemma WriteProjectsRecords(hash: Hash, m: Memory, after: Memory, p: string)
    requires WellKeyed(hash, m.records) && Writes(hash, m, after) && Proper(m.entries)
    requires p in after.entries
    ensures (p in m.entries && after.entries[p] == m.entries[p]) || FromStore(after.records, after.entries[p])
  {
    if after.records == m.records && Synced(after.records, after.entries) {
      var e := after.entries[p];
      assert SyncedAt(after.records, after.entries, (e.kind, e.id));
    } else if kind, id, revision, doc :| after == PutTyped(hash, m, kind, id, revision, doc).1 {
      SaveProjectsRecord(hash, m, kind, id, revision, doc, p);
    }
  }

  lemma SaveProjectsRecord(hash: Hash, m: Memory, kind: string, id: string, revision: int, doc: Doc, p: string)
    requires WellKeyed(hash, m.records)
    ensures var after := PutTyped(hash, m, kind, id, revision, doc).1;
            p in after.entries ==>
                (p in m.entries && after.entries[p] == m.entries[p]) || FromStore(after.records, after.entries[p])
  {
    var r := Record(kind, id, revision, doc, hash(doc));
    var after := PutTyped(hash, m, kind, id, revision, doc).1;
    if PutOutcome(hash, m.records, r) == Ok(true) {
      assert KeyOf(r) in after.records && FromRecord(after.records[KeyOf(r)]) == FromRecord(r);
    }
  }

  ghost predicate WriteRun(hash: Hash, trace: seq<Memory>) {
    && trace != []
    && WellKeyed(hash, trace[0].records) && Synced(trace[0].records, trace[0].entries)
    && forall i :: 0 <= i < |trace| - 1 ==> Writes(hash, trace[i], trace[i + 1])
  }

  lemma {:induction false} WritesKeepKeys(hash: Hash, trace: seq<Memory>)
    requires WriteRun(hash, trace)
    ensures WellKeyed(hash, trace[|trace| - 1].records) && Proper(trace[|trace| - 1].entries)
    decreases |trace|
  {
    if |trace| > 1 {
      var n := |trace| - 2;
      WritesKeepKeys(hash, trace[..n + 1]);
      WriteKeepsKeys(hash, trace[n], trace[n + 1]);
    }
  }

  lemma WriteKeepsKeys(hash: Hash, m: Memory, after: Memory)
    requires WellKeyed(hash, m.records) && Proper(m.entries) && Writes(hash, m, after)
    ensures WellKeyed(hash, after.records) && Proper(after.entries)
  {
    if kind, id, revision, doc :| after == PutTyped(hash, m, kind, id, revision, doc).1 {
      PutTypedAdvances(hash, m, kind, id, revision, doc);
    } else if r :| after == Memory(AfterPut(hash, m.records, r), m.entries) {
      PutRaisesRevisions(hash, m.records, r);
    }
  }

  /** Whatever mix of saves, raw writes and rebuilds, every projected entry is a
      record that was in the store at some time. */
  lemma {:induction false} EntriesArePastRecords(hash: Hash, trace: seq<Memory>, p: string)
    requires WriteRun(hash, trace) && p in trace[|trace| - 1].entries
    ensures exists i :: 0 <= i < |trace| && FromStore(trace[i].records, trace[|trace| - 1].entries[p])
    decreases |trace|
  {
    var last := trace[|trace| - 1];
    if |trace| == 1 {
      var e := last.entries[p];
      assert SyncedAt(last.records, last.entries, (e.kind, e.id));
      assert FromStore(trace[0].records, e);
    } else {
      var n := |trace| - 2;
      var init := trace[..n + 1];
      WritesKeepKeys(hash, init);
      WriteProjectsRecords(hash, trace[n], last, p);
      if FromStore(last.records, last.entries[p]) {
        assert FromStore(trace[n + 1].records, last.entries[p]);
      } else {
        EntriesArePastRecords(hash, init, p);
        var i :| 0 <= i < |init| && FromStore(init[i].records, init[|init| - 1].entries[p]);
        assert FromStore(trace[i].records, last.entries[p]);
      }
    }
  }

  /** At most one save. */
  ghost predicate AtMostOneSave(hash: Hash, m: Memory, after: Memory) {
    after == m || exists kind, id, revision, doc :: after == PutTyped(hash, m, kind, id, revision, doc).1
  }

  lemma StrategySaveIsOne(hash: Hash, m: Memory, s: Strategy)
    ensures AtMostOneSave(hash, m, SaveStrategy(hash, m, s).1)
  {
    hide PutTyped, ValidStrategy;
  }

  lemma IssueSaveIsOne(hash: Hash, m: Memory, i: Issue)
    ensures AtMostOneSave(hash, m, SaveIssue(hash, m, i).1)
  {
    hide PutTyped, ValidIssue;
  }

  lemma SavedIsOne(hash: Hash, m: Memory, after: Memory)
    requires Saved(hash, m, after)
    ensures AtMostOneSave(hash, m, after)
  {
    if after != m {
      var s :| after == SaveStrategy(hash, m, s).1;
      StrategySaveIsOne(hash, m, s);
    }
    hide SaveStrategy, AtMostOneSave;
  }

  /** Memories from m to after, each one write from the one before. */
  ghost predicate WritesFrom(hash: Hash, m: Memory, writes: seq<Memory>, after: Memory) {
    && writes != [] && writes[0] == m && writes[|writes| - 1] == after
    && forall i :: 0 <= i < |writes| - 1 ==> Writes(hash, writes[i], writes[i + 1])
  }

  lemma OneSaveWrites(hash: Hash, m: Memory, after: Memory) returns (writes: seq<Memory>)
    requires AtMostOneSave(hash, m, after)
    ensures WritesFrom(hash, m, writes, after)
  {
    if after == m {
      writes := [m];
    } else {
      hide PutTyped;
      assert Writes(hash, m, after);
      writes := [m, after];
    }
  }

  lemma WritesJoin(hash: Hash, a: Memory, first: seq<Memory>, b: Memory, second: seq<Memory>, c: Memory)
    returns (whole: seq<Memory>)
    requires WritesFrom(hash, a, first, b) && WritesFrom(hash, b, second, c)
    ensures WritesFrom(hash, a, whole, c)
  {
    hide Writes;
    whole := first + second[1..];
    forall i | 0 <= i < |whole| - 1 ensures Writes(hash, whole[i], whole[i + 1]) {
      if i >= |first| - 1 {
        assert whole[i] == second[i - (|first| - 1)] && whole[i + 1] == second[i + 1 - (|first| - 1)];
      }
    }
  }

  /** Every operation is a few writes: superseding two, the others one at most. */
  lemma OperationWrites(hash: Hash, m: Memory, op: Op, after: Memory) returns (writes: seq<Memory>)
    requires Steps(hash, m, op, after)
    ensures WritesFrom(hash, m, writes, after)
  {
    hide Propose, Transition, Supersede, CreateIssue, SetStatus, AtMostOneSave, WritesFrom, PutTyped, AfterPut;
    match op {
      case DoPropose(s, newId) =>
        ProposeSaves(hash, m, s, newId);
        writes := OneSaveWrites(hash, m, after);
      case DoTransition(id, to) =>
        TransitionSaves(hash, m, id, to);
        SavedIsOne(hash, m, after);
        writes := OneSaveWrites(hash, m, after);
      case DoSupersede(oldId, otherId) =>
        writes := SupersedeWrites(hash, m, oldId, otherId);
      case DoCreate(i, newId) =>
        CreateSaves(hash, m, i, newId);
        writes := OneSaveWrites(hash, m, after);
      case DoSetStatus(id, status) =>
        StatusSaves(hash, m, id, status);
        writes := OneSaveWrites(hash, m, after);
      case DoRebuild =>
        writes := [m, after];
        DirectWrite(hash, m, after);
      case DoRawPut(r) =>
        writes := [m, after];
        DirectWrite(hash, m, after);
    }
  }

  lemma DirectWrite(hash: Hash, m: Memory, after: Memory)
    requires Writes(hash, m, after)
    ensures WritesFrom(hash, m, [m, after], after)
  {
  }

  lemma ProposeSaves(hash: Hash, m: Memory, strategy: Strategy, newId: string)
    ensures AtMostOneSave(hash, m, Propose(hash, m, strategy, newId).1)
  {
    var named := if strategy.id == "" then strategy.(id := newId) else strategy;
    var s := if named.lifecycle == Unset then named.(lifecycle := Candidate) else named;
    StrategySaveIsOne(hash, m, s.(revision := 1));
    hide SaveStrategy, PutTyped;
  }

  lemma CreateSaves(hash: Hash, m: Memory, issue: Issue, newId: string)
    ensures AtMostOneSave(hash, m, CreateIssue(hash, m, issue, newId).1)
  {
    var named := if issue.id == "" then issue.(id := newId) else issue;
    IssueSaveIsOne(hash, m, named.(status := if issue.status == "" then "open" else issue.status, revision := 1));
    hide SaveIssue, AtMostOneSave;
  }

  lemma StatusSaves(hash: Hash, m: Memory, id: string, status: string)
    ensures AtMostOneSave(hash, m, SetStatus(hash, m, id, status).1)
  {
    SetStatusSaves(hash, m, id, status);
    hide SetStatus, SaveIssue, PutTyped;
    if SetStatus(hash, m, id, status).1 != m {
      var i :| SetStatus(hash, m, id, status).1 == SaveIssue(hash, m, i).1;
      IssueSaveIsOne(hash, m, i);
    }
  }

  lemma SupersedeWrites(hash: Hash, m: Memory, oldId: string, newId: string) returns (writes: seq<Memory>)
    ensures WritesFrom(hash, m, writes, Supersede(hash, m, oldId, newId).1)
  {
    SupersedeSaves(hash, m, oldId, newId);
    hide Saved, Supersede, AtMostOneSave, WritesFrom;
    var after := Supersede(hash, m, oldId, newId).1;
    var m1 :| Saved(hash, m, m1) && Saved(hash, m1, after);
    SavedIsOne(hash, m, m1);
    SavedIsOne(hash, m1, after);
    var first := OneSaveWrites(hash, m, m1);
    var second := OneSaveWrites(hash, m1, after);
    writes := WritesJoin(hash, m, first, m1, second, after);
  }

  /** A run of operations is a run of single writes. */
  lemma {:induction false} RunWrites(hash: Hash, ops: seq<Op>, trace: seq<Memory>) returns (writes: seq<Memory>)
    requires Run(hash, ops, trace)
    ensures WritesFrom(hash, trace[0], writes, trace[|ops|])
    decreases |ops|
  {
    if ops == [] {
      writes := [trace[0]];
    } else {
      var n := |ops| - 1;
      RunPrefix(hash, ops, trace, n);
      var before := RunWrites(hash, ops[..n], trace[..n + 1]);
      assert Steps(hash, trace[n], ops[n], trace[n + 1]);
      hide Steps, WritesFrom, Run;
      var last := OperationWrites(hash, trace[n], ops[n], trace[n + 1]);
      writes := WritesJoin(hash, trace[0], before, trace[n], last, trace[n + 1]);
    }
  }

  /** So after any run of operations, raw writes and rebuilds included, every projected
      entry is a record that was in the store after one of the run's writes, or at its
      start. */
  lemma RunEntriesArePastRecords(hash: Hash, ops: seq<Op>, trace: seq<Memory>) returns (writes: seq<Memory>)
    requires Run(hash, ops, trace)
    ensures WritesFrom(hash, trace[0], writes, trace[|ops|])
    ensures forall p :: p in trace[|ops|].entries ==>
              exists i :: 0 <= i < |writes| && FromStore(writes[i].records, trace[|ops|].entries[p])
  {
    writes := RunWrites(hash, ops, trace);
    assert WriteRun(hash, writes);
    hide Run, FromStore, Writes;
    forall p | p in trace[|ops|].entries
      ensures exists i :: 0 <= i < |writes| && FromStore(writes[i].records, trace[|ops|].entries[p])
    {
      EntriesArePastRecords(hash, writes, p);
    }
  }

  // ----- lifecycles

  ghost predicate WellTypedAt(records: Records<Doc>, k: Key)
    requires k in records
  {
    var r := records[k];
    && (k.0 == "strategy" ==>
        r.data.StrategyDoc? && r.data.strategy.id == k.1 && r.data.strategy.revision == r.revision >= 1
            && ValidStrategy(r.data.strategy))
    && (k.0 == "issue" ==>
        r.data.IssueDoc? && r.data.issue.id == k.1 && r.data.issue.revision == r.revision >= 1
            && ValidIssue(r.data.issue))
  }

  /** What the repositories alone put in the store. */
  ghost predicate WellTyped(hash: Hash, records: Records<Doc>) {
    WellKeyed(hash, records) && forall k :: k in records ==> WellTypedAt(records, k)
  }

  function LifeOf(m: Memory, id: string): Option<Lifecycle> {
    match GetStrategy(m, id)
    case None => None
    case Some(s) => Some(s.lifecycle)
  }

  /** New strategies are candidates; the others move along the table. */
  ghost predicate MovesOn(m: Memory, after: Memory, id: string) {
    match LifeOf(m, id)
    case None => LifeOf(after, id) == None || LifeOf(after, id) == Some(Candidate)
    case Some(from) => LifeOf(after, id).Some? && CanTransition(from, LifeOf(after, id).value)
  }

  /** A save either leaves the store alone or puts exactly that strategy there. */
  lemma SaveStrategyIs(hash: Hash, m: Memory, s: Strategy)
    requires WellTyped(hash, m.records) && s.revision >= 1
    ensures var after := SaveStrategy(hash, m, s).1;
            && WellTyped(hash, after.records)
            && (after == m
                || after.records ==
                    m.records[("strategy", s.id) :=
                        Record("strategy", s.id, s.revision, StrategyDoc(s), hash(StrategyDoc(s)))])
            && (("strategy", s.id) in m.records && s.revision <= m.records[("strategy", s.id)].revision ==> after == m)
  {
    SaveStrategyAdvances(hash, m, s);
  }

  lemma SaveMoves(hash: Hash, m: Memory, s: Strategy, id: string)
    requires WellTyped(hash, m.records) && s.revision >= 1
    requires LifeOf(m, s.id).None? ==> s.lifecycle == Candidate
    requires LifeOf(m, s.id).Some? ==>
             CanTransition(LifeOf(m, s.id).value, s.lifecycle) || s.revision <= RevisionOf(m, "strategy", s.id)
    ensures MovesOn(m, SaveStrategy(hash, m, s).1, id)
  {
    SaveStrategyIs(hash, m, s);
    TypedLife(hash, m, s.id);
    hide SaveStrategy, WellTyped, CanTransition;
    assert forall l :: CanTransition(l, l) by { SameAllowed(); }
  }

  lemma SameAllowed()
    ensures forall l :: CanTransition(l, l)
  {
  }

  lemma TypedLife(hash: Hash, m: Memory, id: string)
    requires WellTyped(hash, m.records)
    ensures ("strategy", id) in m.records <==> GetStrategy(m, id).Some?
    ensures GetStrategy(m, id).Some? ==>
              && GetStrategy(m, id).value.id == id && ValidStrategy(GetStrategy(m, id).value)
              && GetStrategy(m, id).value.revision == RevisionOf(m, "strategy", id) >= 1
  {
    if ("strategy", id) in m.records {
      assert WellTypedAt(m.records, ("strategy", id));
    }
  }

  lemma TypedIssue(hash: Hash, m: Memory, id: string)
    requires WellTyped(hash, m.records) && GetIssue(m, id).Some?
    ensures RevisionOf(m, "issue", id) >= 1
  {
    assert WellTypedAt(m.records, ("issue", id));
  }

  lemma SaveIssueIs(hash: Hash, m: Memory, i: Issue)
    requires WellTyped(hash, m.records) && i.revision >= 1
    ensures WellTyped(hash, SaveIssue(hash, m, i).1.records)
    ensures forall id :: GetStrategy(SaveIssue(hash, m, i).1, id) == GetStrategy(m, id)
  {
    SaveIssueTyped(hash, m, i);
    hide WellTyped;
  }

  lemma SaveIssueTyped(hash: Hash, m: Memory, i: Issue)
    requires WellTyped(hash, m.records) && i.revision >= 1
    ensures WellTyped(hash, SaveIssue(hash, m, i).1.records)
  {
    SaveIssueAdvances(hash, m, i);
  }

  lemma StayingMoves(m: Memory, after: Memory, id: string)
    requires LifeOf(after, id) == LifeOf(m, id)
    ensures MovesOn(m, after, id)
  {
  }

  lemma TransitionMoves(hash: Hash, m: Memory, target: string, to: Lifecycle, id: string)
    requires WellTyped(hash, m.records)
    ensures WellTyped(hash, Transition(hash, m, target, to).1.records)
    ensures MovesOn(m, Transition(hash, m, target, to).1, id)
  {
    StayingMoves(m, m, id);
    TypedLife(hash, m, target);
    var got := GetStrategy(m, target);
    if got.Some? && CanTransition(got.value.lifecycle, to) && got.value.lifecycle != to {
      var s := got.value.(lifecycle := to, revision := RevisionOf(m, "strategy", target) + 1);
      SaveStrategyIs(hash, m, s);
      SaveMoves(hash, m, s, id);
    }
    hide SaveStrategy, WellTyped, MovesOn, CanTransition;
  }

  /** The new strategy, linked to the one it replaces. */
  function LinkTo(m: Memory, oldId: string, newId: string): Strategy
    requires GetStrategy(m, newId).Some?
  {
    GetStrategy(m, newId).value.(supersedes := oldId, revision := RevisionOf(m, "strategy", newId) + 1)
  }

  /** Linking a strategy to what it replaces leaves its lifecycle alone. */
  lemma LinkMoves(hash: Hash, m: Memory, oldId: string, newId: string, id: string)
    requires WellTyped(hash, m.records) && GetStrategy(m, newId).Some?
    ensures var after := SaveStrategy(hash, m, LinkTo(m, oldId, newId)).1;
            WellTyped(hash, after.records) && LifeOf(after, id) == LifeOf(m, id)
  {
    TypedLife(hash, m, newId);
    SaveStrategyIs(hash, m, LinkTo(m, oldId, newId));
    hide SaveStrategy, WellTyped;
  }

  lemma SupersedeUnfolds(hash: Hash, m: Memory, oldId: string, newId: string)
    ensures var m1 := Transition(hash, m, oldId, Superseded).1;
            var after := Supersede(hash, m, oldId, newId).1;
            after == m || after == m1 ||
            (GetStrategy(m1, newId).Some? &&
             after == SaveStrategy(hash, m1, LinkTo(m1, oldId, newId)).1)
  {
    hide SaveStrategy, Transition, GetStrategy, RevisionOf;
  }

  lemma SupersedeMoves(hash: Hash, m: Memory, oldId: string, newId: string, id: string)
    requires WellTyped(hash, m.records)
    ensures WellTyped(hash, Supersede(hash, m, oldId, newId).1.records)
    ensures MovesOn(m, Supersede(hash, m, oldId, newId).1, id)
  {
    StayingMoves(m, m, id);
    TransitionMoves(hash, m, oldId, Superseded, id);
    SupersedeUnfolds(hash, m, oldId, newId);
    var m1 := Transition(hash, m, oldId, Superseded).1;
    var after := Supersede(hash, m, oldId, newId).1;
    hide *;
    if after != m && after != m1 {
      LinkMoves(hash, m1, oldId, newId, id);
      MovesAlike(m, m1, after, id);
    }
  }

  lemma MovesAlike(m: Memory, after: Memory, alike: Memory, id: string)
    requires MovesOn(m, after, id)
    ensures LifeOf(alike, id) == LifeOf(after, id) ==> MovesOn(m, alike, id)
  {
  }

  /** Repository operations move every lifecycle along the table. */
  lemma StepMoves(hash: Hash, m: Memory, op: Op, after: Memory, id: string)
    requires WellTyped(hash, m.records) && Steps(hash, m, op, after) && !op.DoRawPut?
    ensures WellTyped(hash, after.records) && MovesOn(m, after, id)
  {
    hide Propose, Transition, Supersede, CreateIssue, SetStatus, WellTyped, MovesOn, Synced;
    match op
    case DoPropose(strategy, newId) => ProposeMoves(hash, m, strategy, newId, id);
    case DoTransition(target, to) => TransitionMoves(hash, m, target, to, id);
    case DoSupersede(oldId, otherId) => SupersedeMoves(hash, m, oldId, otherId, id);
    case DoCreate(issue, newId) => CreateMoves(hash, m, issue, newId, id);
    case DoSetStatus(target, status) => SetStatusMoves(hash, m, target, status, id);
    case DoRebuild => StayingMoves(m, after, id);
  }

  lemma ProposeMoves(hash: Hash, m: Memory, strategy: Strategy, newId: string, id: string)
    requires WellTyped(hash, m.records)
    ensures WellTyped(hash, Propose(hash, m, strategy, newId).1.records)
    ensures MovesOn(m, Propose(hash, m, strategy, newId).1, id)
  {
    StayingMoves(m, m, id);
    var named := if strategy.id == "" then strategy.(id := newId) else strategy;
    var s := (if named.lifecycle == Unset then named.(lifecycle := Candidate) else named).(revision := 1);
    if s.lifecycle == Candidate {
      SaveStrategyIs(hash, m, s);
      TypedLife(hash, m, s.id);
      SaveMoves(hash, m, s, id);
    }
    hide SaveStrategy, WellTyped, MovesOn;
  }

  lemma CreateMoves(hash: Hash, m: Memory, issue: Issue, newId: string, id: string)
    requires WellTyped(hash, m.records)
    ensures WellTyped(hash, CreateIssue(hash, m, issue, newId).1.records)
    ensures MovesOn(m, CreateIssue(hash, m, issue, newId).1, id)
  {
    var named := if issue.id == "" then issue.(id := newId) else issue;
    var i := named.(status := if issue.status == "" then "open" else issue.status, revision := 1);
    SaveIssueIs(hash, m, i);
    StayingMoves(m, SaveIssue(hash, m, i).1, id);
    hide SaveIssue, WellTyped, MovesOn;
  }

  lemma SetStatusMoves(hash: Hash, m: Memory, target: string, status: string, id: string)
    requires WellTyped(hash, m.records)
    ensures WellTyped(hash, SetStatus(hash, m, target, status).1.records)
    ensures MovesOn(m, SetStatus(hash, m, target, status).1, id)
  {
    StayingMoves(m, m, id);
    SetStatusUnfolds(hash, m, target, status);
    hide SetStatus, SaveIssue, WellTyped, MovesOn, LifeOf;
    if SetStatus(hash, m, target, status).1 != m {
      TypedIssue(hash, m, target);
      var i := GetIssue(m, target).value.(status := status, revision := RevisionOf(m, "issue", target) + 1);
      SaveIssueIs(hash, m, i);
      SameLife(m, SaveIssue(hash, m, i).1, id);
      StayingMoves(m, SaveIssue(hash, m, i).1, id);
    }
  }

  lemma SameLife(m: Memory, after: Memory, id: string)
    requires GetStrategy(after, id) == GetStrategy(m, id)
    ensures LifeOf(after, id) == LifeOf(m, id)
  {
  }

  lemma SetStatusUnfolds(hash: Hash, m: Memory, target: string, status: string)
    ensures SetStatus(hash, m, target, status).1 == m ||
            (GetIssue(m, target).Some? &&
             SetStatus(hash, m, target, status).1 ==
               SaveIssue(hash, m,
                   GetIssue(m, target).value.(status := status, revision := RevisionOf(m, "issue", target) + 1)).1)
  {
    hide SaveIssue, GetIssue, RevisionOf;
  }

  /** A run of repository operations on a store only they ever wrote. */
  ghost predicate RepoRun(hash: Hash, ops: seq<Op>, trace: seq<Memory>) {
    Run(hash, ops, trace) && WellTyped(hash, trace[0].records) && forall op :: op in ops ==> !op.DoRawPut?
  }

  lemma RepoRunPrefix(hash: Hash, ops: seq<Op>, trace: seq<Memory>, n: nat)
    requires RepoRun(hash, ops, trace) && n <= |ops|
    ensures RepoRun(hash, ops[..n], trace[..n + 1])
  {
    RunPrefix(hash, ops, trace, n);
  }

  lemma {:induction false} RunStaysTyped(hash: Hash, ops: seq<Op>, trace: seq<Memory>)
    requires RepoRun(hash, ops, trace)
    ensures WellTyped(hash, trace[|ops|].records)
    decreases |ops|
  {
    if ops != [] {
      var n := |ops| - 1;
      RepoRunPrefix(hash, ops, trace, n);
      RunStaysTyped(hash, ops[..n], trace[..n + 1]);
      assert Steps(hash, trace[n], ops[n], trace[n + 1]) && ops[n] in ops;
      StepMoves(hash, trace[n], ops[n], trace[n + 1], "");
    }
  }

  lemma LastStepMoves(hash: Hash, ops: seq<Op>, trace: seq<Memory>, id: string)
    requires RepoRun(hash, ops, trace) && ops != []
    ensures MovesOn(trace[|ops| - 1], trace[|ops|], id)
  {
    var n := |ops| - 1;
    RepoRunPrefix(hash, ops, trace, n);
    RunStaysTyped(hash, ops[..n], trace[..n + 1]);
    assert Steps(hash, trace[n], ops[n], trace[n + 1]) && ops[n] in ops;
    StepMoves(hash, trace[n], ops[n], trace[n + 1], id);
  }

  /** Over a run lifecycles only go forward; a changed one is further along, and
      an archived strategy stays archived. */
  lemma {:induction false} LifecyclesGoForward(hash: Hash, ops: seq<Op>, trace: seq<Memory>, i: nat, id: string)
    requires RepoRun(hash, ops, trace) && i <= |ops| && LifeOf(trace[i], id).Some?
    ensures LifeOf(trace[|ops|], id).Some?
    ensures var from, to := LifeOf(trace[i], id).value, LifeOf(trace[|ops|], id).value;
            && (to == from || Rank(from) < Rank(to))
            && (from == Archived ==> to == Archived)
    decreases |ops|
  {
    if i < |ops| {
      var n := |ops| - 1;
      RepoRunPrefix(hash, ops, trace, n);
      LifecyclesGoForward(hash, ops[..n], trace[..n + 1], i, id);
      LastStepMoves(hash, ops, trace, id);
      var a, b := LifeOf(trace[n], id).value, LifeOf(trace[|ops|], id).value;
      if a != b { TransitionsGoForward(a, b); }
    }
  }

  /** A strategy becomes ACTIVE only after it was VALIDATED, and VALIDATED only
      after it was a CANDIDATE. */
  lemma {:induction false} ActiveOnlyThroughValidated(hash: Hash, ops: seq<Op>, trace: seq<Memory>, id: string)
    requires RepoRun(hash, ops, trace)
    ensures LifeOf(trace[|ops|], id) == Some(Active) && LifeOf(trace[0], id) != Some(Active) ==>
              exists i :: 0 <= i < |ops| && LifeOf(trace[i], id) == Some(Validated)
    ensures LifeOf(trace[|ops|], id) == Some(Validated) && LifeOf(trace[0], id) != Some(Validated) ==>
              exists i :: 0 <= i < |ops| && LifeOf(trace[i], id) == Some(Candidate)
    decreases |ops|
  {
    if ops != [] {
      var n := |ops| - 1;
      RepoRunPrefix(hash, ops, trace, n);
      ActiveOnlyThroughValidated(hash, ops[..n], trace[..n + 1], id);
      LastStepMoves(hash, ops, trace, id);
      assert forall i :: 0 <= i <= n ==> trace[..n + 1][i] == trace[i];
      if LifeOf(trace[n], id).Some? && LifeOf(trace[n], id) != LifeOf(trace[|ops|], id) {
        TransitionsGoForward(LifeOf(trace[n], id).value, LifeOf(trace[|ops|], id).value);
      }
    }
  }

  // ----- when a transition takes effect

  /** On a store only the repositories wrote, a transition succeeds exactly when
      the table allows it; it takes effect unless the new document happens to hash
      like the stored one. */
  lemma TransitionExactly(hash: Hash, m: Memory, id: string, to: Lifecycle)
    requires WellTyped(hash, m.records)
    ensures Transition(hash, m, id, to).0.Ok? <==> LifeOf(m, id).Some? && CanTransition(LifeOf(m, id).value, to)
    ensures Transition(hash, m, id, to).0.Ok? ==>
              var s := GetStrategy(m, id).value;
              var next := s.(lifecycle := to, revision := s.revision + 1);
              LifeOf(Transition(hash, m, id, to).1, id) == Some(to) <==>
              (s.lifecycle == to || hash(StrategyDoc(next)) != m.records[("strategy", id)].hash)
  {
    TypedLife(hash, m, id);
    var got := GetStrategy(m, id);
    if got.Some? && CanTransition(got.value.lifecycle, to) && got.value.lifecycle != to {
      TransitionsGoForward(got.value.lifecycle, to);
      var next := got.value.(lifecycle := to, revision := got.value.revision + 1);
      assert WellTypedAt(m.records, ("strategy", id));
      assert ValidStrategy(next);
    }
  }

  /** The document that retires a strategy hashes unlike the stored one. */
  ghost predicate RetiringShows(hash: Hash, m: Memory, id: string)
    requires GetStrategy(m, id).Some?
  {
    var s := GetStrategy(m, id).value;
    hash(StrategyDoc(s.(lifecycle := Superseded, revision := s.revision + 1))) != m.records[("strategy", id)].hash
  }

  /** Superseding is not all or nothing. It reports an error and yet changes the
      memory exactly when the old strategy is active and the new one is missing: the
      old one is then retired all the same (unless that document happens to hash like
      the stored one). */
  lemma SupersedeHalfDoneExactly(hash: Hash, m: Memory, oldId: string, newId: string)
    requires WellTyped(hash, m.records)
    ensures Supersede(hash, m, oldId, newId).0.Some? && Supersede(hash, m, oldId, newId).1 != m <==>
            oldId != newId && LifeOf(m, oldId) == Some(Active) && LifeOf(m, newId) == None
                && RetiringShows(hash, m, oldId)
    ensures Supersede(hash, m, oldId, newId).0.Some? && Supersede(hash, m, oldId, newId).1 != m ==>
              && Supersede(hash, m, oldId, newId).0 == Some(NotFound)
              && LifeOf(Supersede(hash, m, oldId, newId).1, oldId) == Some(Superseded)
  {
    RetiringExactly(hash, m, oldId);
    var m1 := Transition(hash, m, oldId, Superseded).1;
    TransitionMoves(hash, m, oldId, Superseded, newId);
    TypedLife(hash, m1, newId);
    if oldId != newId { TransitionElsewhere(hash, m, oldId, Superseded, newId); }
    if oldId != newId && GetStrategy(m1, newId).Some? && Transition(hash, m, oldId, Superseded).0.Ok? {
      TypedLife(hash, m, oldId);
      LinkSucceeds(hash, m1, oldId, newId);
    }
    hide Transition, SaveStrategy, WellTyped, GetStrategy, RevisionOf, RetiringShows, MovesOn, CanTransition;
  }

  /** Retiring a strategy changes the memory exactly when it is active. */
  lemma RetiringExactly(hash: Hash, m: Memory, id: string)
    requires WellTyped(hash, m.records)
    ensures Transition(hash, m, id, Superseded).0.Err? ==> Transition(hash, m, id, Superseded).1 == m
    ensures Transition(hash, m, id, Superseded).0.Ok? <==>
            LifeOf(m, id) == Some(Active) || LifeOf(m, id) == Some(Superseded)
    ensures Transition(hash, m, id, Superseded).1 != m <==> LifeOf(m, id) == Some(Active) && RetiringShows(hash, m, id)
    ensures Transition(hash, m, id, Superseded).1 != m ==>
            LifeOf(Transition(hash, m, id, Superseded).1, id) == Some(Superseded)
  {
    TransitionExactly(hash, m, id, Superseded);
    TypedLife(hash, m, id);
    if GetStrategy(m, id).Some? && GetStrategy(m, id).value.lifecycle == Active {
      var s := GetStrategy(m, id).value;
      SaveStrategyIs(hash, m, s.(lifecycle := Superseded, revision := s.revision + 1));
      assert CanTransition(Active, Superseded);
    }
    hide WellTyped, SaveStrategy, ValidStrategy;
  }

  /** A transition leaves other strategies alone. */
  lemma TransitionElsewhere(hash: Hash, m: Memory, id: string, to: Lifecycle, other: string)
    requires WellTyped(hash, m.records) && id != other
    ensures GetStrategy(Transition(hash, m, id, to).1, other) == GetStrategy(m, other)
  {
    TypedLife(hash, m, id);
    var got := GetStrategy(m, id);
    if got.Some? {
      SaveStrategyIs(hash, m, got.value.(lifecycle := to, revision := RevisionOf(m, "strategy", id) + 1));
    }
    hide SaveStrategy, WellTyped, CanTransition;
  }

  /** Linking a stored strategy to a known one cannot be refused. */
  lemma LinkSucceeds(hash: Hash, m: Memory, oldId: string, newId: string)
    requires WellTyped(hash, m.records) && GetStrategy(m, newId).Some? && IsIdentifier(oldId)
    ensures SaveStrategy(hash, m, LinkTo(m, oldId, newId)).0.Ok?
  {
    TypedLife(hash, m, newId);
    assert WellTypedAt(m.records, ("strategy", newId));
  }
}
