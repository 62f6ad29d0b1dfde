/**
 What each repository operation answers, stores and projects, and what each log of
 events comes to (memory/repo/strategy.go, memory/repo/issue.go, memory/repo/repo.go,
 memory/store/store.go), said of the records and documents themselves.
 */
module MemoryOutcomes {
  import opened Lex
  import opened Outcomes
  import opened Contracts
  import opened MemoryStore
  import opened MemoryRepos
  import opened MemoryRuns

  // ----- storing a document

  ghost predicate OnlyAt<K(!new), V(!new)>(before: map<K, V>, after: map<K, V>, k: K, v: V) {
    && k in after && after[k] == v
    && forall j :: j != k ==> (j in after <==> j in before) && (j in before ==> after[j] == before[j])
  }

  /** The projection has the document already, or a newer one. */
  predicate ShownAlready(entries: Entries<Doc>, p: string, revision: int, hashed: string) {
    p in entries && (entries[p].hash == hashed || revision < entries[p].revision)
  }

  /** A document is stored unless its names are no identifiers, the stored one hashes
      the same, or has at least its revision; what is stored is projected. */
  ghost predicate Puts(hash: Hash, m: Memory, kind: string, id: string, revision: int, doc: Doc,
      r: Result<bool, RepoError>, after: Memory)
  {
    var at, h, p := (kind, id), hash(doc), kind + "\0" + id;
    if !IsIdentifier(kind) || !IsIdentifier(id) || revision < 0 then r == Err(Refused(InvalidRecord)) && after == m
    else if at in m.records && m.records[at].hash == h then r == Ok(false) && after == m
    else if at in m.records && m.records[at].revision >= revision then r == Err(Refused(StaleRevision)) && after == m
    else
      && r == Ok(true) && OnlyAt(m.records, after.records, at, Record(kind, id, revision, doc, h))
      && if ShownAlready(m.entries, p, revision, h) then after.entries == m.entries
         else OnlyAt(m.entries, after.entries, p, Entry(kind, id, revision, h, doc))
  }

  lemma PutsExactly(hash: Hash, m: Memory, kind: string, id: string, revision: int, doc: Doc)
    ensures var (r, after) :=
            PutTyped(hash, m, kind, id, revision, doc); Puts(hash, m, kind, id, revision, doc, r, after)
  {
  }

  // ----- strategies

  /** A strategy the contract accepts. */
  predicate Sound(s: Strategy) {
    && IsIdentifier(s.id) && s.title != "" && s.guidance != "" && (s.supersedes != "" ==> IsIdentifier(s.supersedes))
    && s.lifecycle in {Ephemeral, Candidate, Validated, Active, Superseded, Archived} && s.detailsValid
  }

  ghost predicate Stored(hash: Hash, m: Memory, s: Strategy, r: Result<Strategy, RepoError>, after: Memory) {
    if !Sound(s) then r == Err(InvalidContract) && after == m
    else exists put ::
        Puts(hash, m, "strategy", s.id, s.revision, StrategyDoc(s), put, after)
        && r == if put.Ok? then Ok(s) else Err(put.error)
  }

  predicate IsStrategy(m: Memory, id: string, s: Strategy) {
    ("strategy", id) in m.records && m.records[("strategy", id)].data == StrategyDoc(s)
  }

  predicate NoStrategy(m: Memory, id: string) {
    ("strategy", id) in m.records ==> !m.records[("strategy", id)].data.StrategyDoc?
  }

  const STAGES := [Ephemeral, Candidate, Validated, Active, Superseded, Archived]

  predicate Moves(i: int, j: int, from: Lifecycle, to: Lifecycle)
    requires 0 <= i < j < 6
  {
    STAGES[i] == from && STAGES[j] == to && (j == i + 1 || j == 5)
  }

  /** One stage on at a time, and from any stage to the last. */
  lemma TransitionsExactly(from: Lifecycle, to: Lifecycle)
    ensures CanTransition(from, to) <==> from == to || exists i, j :: 0 <= i < j < 6 && Moves(i, j, from, to)
  {
    if Known(from) && Known(to) {
      assert STAGES[Rank(from)] == from && STAGES[Rank(to)] == to;
      assert Rank(from) < Rank(to) ==> (Moves(Rank(from), Rank(to), from, to) <==> CanTransition(from, to));
    }
  }

  /** Proposing stores the strategy as a candidate at revision 1, under the new id if it
      has none. */
  lemma ProposeExactly(hash: Hash, m: Memory, s: Strategy, newId: string)
    ensures var (r, after) := Propose(hash, m, s, newId);
            var id := if s.id == "" then newId else s.id;
            var doc := Strategy(id, 1, s.title, Candidate, s.guidance, s.supersedes, s.details, s.detailsValid);
            if s.lifecycle !in {Unset, Candidate} then r == Err(NotCandidate) && after == m
            else Stored(hash, m, doc, r, after)
  {
    hide Puts;
    SaveExactly(hash, m, Strategy(if s.id == "" then newId else s.id, 1, s.title, Candidate, s.guidance, s.supersedes,
        s.details, s.detailsValid));
    hide Stored;
  }

  lemma SaveExactly(hash: Hash, m: Memory, s: Strategy)
    ensures var (r, after) := SaveStrategy(hash, m, s); Stored(hash, m, s, r, after)
  {
    hide Puts, PutTyped;
    PutsExactly(hash, m, "strategy", s.id, s.revision, StrategyDoc(s));
  }

  /** A transition: nothing for the state it is in, an error for one it cannot go to. */
  ghost predicate Transits(hash: Hash, m: Memory, id: string, to: Lifecycle, r: Result<Strategy, RepoError>,
      after: Memory)
  {
    || (NoStrategy(m, id) && r == Err(NotFound) && after == m)
    || (exists s :: IsStrategy(m, id, s) && TransitsFrom(hash, m, id, s, to, r, after))
  }

  ghost predicate TransitsFrom(hash: Hash, m: Memory, id: string, s: Strategy, to: Lifecycle,
      r: Result<Strategy, RepoError>, after: Memory)
    requires IsStrategy(m, id, s)
  {
    if s.lifecycle == to then r == Ok(s) && after == m
    else if !CanTransition(s.lifecycle, to) then r == Err(BadTransition) && after == m
    else
      Stored(hash, m, Strategy(s.id, m.records[("strategy", id)].revision + 1, s.title, to, s.guidance, s.supersedes,
          s.details, s.detailsValid), r, after)
  }

  lemma TransitionIs(hash: Hash, m: Memory, id: string, to: Lifecycle)
    ensures var (r, after) := Transition(hash, m, id, to); Transits(hash, m, id, to, r, after)
  {
    SameAllowed();
    hide Puts, CanTransition;
    var got := GetStrategy(m, id);
    if got.Some? {
      var s := got.value;
      assert IsStrategy(m, id, s);
      SaveExactly(hash, m, s.(lifecycle := to, revision := RevisionOf(m, "strategy", id) + 1));
      hide Stored, SaveStrategy;
      assert TransitsFrom(hash, m, id, s, to, Transition(hash, m, id, to).0, Transition(hash, m, id, to).1);
    } else {
      assert NoStrategy(m, id);
    }
  }

  /** Superseding retires the old strategy first, and then links the new one to it. */
  ghost predicate Supersedes(hash: Hash, m: Memory, oldId: string, newId: string, failed: Option<RepoError>,
      after: Memory)
  {
    if oldId == newId then failed == Some(SupersedesItself) && after == m
    else
      exists retired, mid ::
        && Transits(hash, m, oldId, Superseded, retired, mid)
        && if retired.Err? then failed == Some(retired.error) && after == mid
           else Links(hash, mid, oldId, newId, failed, after)
  }

  function Linked(m: Memory, oldId: string, newId: string, s: Strategy): Strategy
    requires IsStrategy(m, newId, s)
  {
    Strategy(s.id, m.records[("strategy", newId)].revision + 1, s.title, s.lifecycle, s.guidance, oldId, s.details,
      s.detailsValid)
  }

  ghost predicate Links(hash: Hash, m: Memory, oldId: string, newId: string, failed: Option<RepoError>, after: Memory) {
    || (NoStrategy(m, newId) && failed == Some(NotFound) && after == m)
    || (exists s, r :: IsStrategy(m, newId, s)
          && Stored(hash, m, Linked(m, oldId, newId, s), r, after)
          && failed == if r.Ok? then None else Some(r.error))
  }

  lemma SupersedeIs(hash: Hash, m: Memory, oldId: string, newId: string)
    ensures var (failed, after) := Supersede(hash, m, oldId, newId); Supersedes(hash, m, oldId, newId, failed, after)
  {
    hide Transits, Stored, Transition, SaveStrategy;
    if oldId != newId {
      TransitionIs(hash, m, oldId, Superseded);
      var (retired, mid) := Transition(hash, m, oldId, Superseded);
      if retired.Ok? {
        LinkIs(hash, mid, oldId, newId);
      }
      hide Links;
    }
  }

  lemma LinkIs(hash: Hash, m: Memory, oldId: string, newId: string)
    ensures match GetStrategy(m, newId)
            case None => Links(hash, m, oldId, newId, Some(NotFound), m)
            case Some(next) =>
              var (linked, after) :=
                  SaveStrategy(hash, m, next.(supersedes := oldId, revision := RevisionOf(m, "strategy", newId) + 1));
              Links(hash, m, oldId, newId, if linked.Ok? then None else Some(linked.error), after)
  {
    hide Stored, SaveStrategy;
    var got := GetStrategy(m, newId);
    if got.Some? {
      assert IsStrategy(m, newId, got.value);
      var next := Linked(m, oldId, newId, got.value);
      SaveExactly(hash, m, next);
      var (linked, after) := SaveStrategy(hash, m, next);
      assert Stored(hash, m, Linked(m, oldId, newId, got.value), linked, after);
    }
  }

  // ----- issues

  predicate IssueStatus(s: string) {
    s in {"open", "in_progress", "review", "closed", "deferred", "cancelled"}
  }

  predicate SoundIssue(i: Issue) {
    && IsIdentifier(i.id) && i.title != "" && i.detailsValid
    && IssueStatus(i.status)
  }

  ghost predicate StoredIssue(hash: Hash, m: Memory, i: Issue, r: Result<Issue, RepoError>, after: Memory) {
    if !SoundIssue(i) then r == Err(InvalidContract) && after == m
    else exists put ::
        Puts(hash, m, "issue", i.id, i.revision, IssueDoc(i), put, after)
        && r == if put.Ok? then Ok(i) else Err(put.error)
  }

  lemma SaveIssueExactly(hash: Hash, m: Memory, i: Issue)
    ensures var (r, after) := SaveIssue(hash, m, i); StoredIssue(hash, m, i, r, after)
  {
    hide Puts, PutTyped;
    PutsExactly(hash, m, "issue", i.id, i.revision, IssueDoc(i));
  }

  /** Creating stores the issue at revision 1, open if it has no status. */
  lemma CreateExactly(hash: Hash, m: Memory, i: Issue, newId: string)
    ensures var (r, after) := CreateIssue(hash, m, i, newId);
            StoredIssue(hash, m, Issue(if i.id == "" then newId else i.id, 1, i.title,
                if i.status == "" then "open" else i.status, i.details, i.detailsValid), r, after)
  {
    hide StoredIssue, SaveIssue;
    SaveIssueExactly(hash, m, Issue(if i.id == "" then newId else i.id, 1, i.title,
        if i.status == "" then "open" else i.status, i.details, i.detailsValid));
  }

  lemma KnownStatus(status: string)
    ensures status in ISSUE_STATES <==> IssueStatus(status)
  {
  }

  ghost predicate Sets(hash: Hash, m: Memory, id: string, status: string, r: Result<Issue, RepoError>, after: Memory) {
    var at := ("issue", id);
    if at !in m.records || !m.records[at].data.IssueDoc? then r == Err(NotFound) && after == m
    else
      var i := m.records[at].data.issue;
      if i.status == status then r == Ok(i) && after == m
      else if !IssueStatus(status) then
        r == Err(BadStatus) && after == m
      else
        StoredIssue(hash, m, Issue(i.id, m.records[at].revision + 1, i.title, status, i.details, i.detailsValid), r,
            after)
  }

  /** Setting a status moves the issue to any known status but its own. */
  lemma SetStatusExactly(hash: Hash, m: Memory, id: string, status: string)
    ensures Sets(hash, m, id, status, SetStatus(hash, m, id, status).0, SetStatus(hash, m, id, status).1)
  {
    KnownStatus(status);
    hide StoredIssue, SaveIssue, IssueStatus;
    var got := GetIssue(m, id);
    var (r, after) := SetStatus(hash, m, id, status);
    if got.Some? {
      var i := got.value;
      assert i == m.records[("issue", id)].data.issue;
      var next := Issue(i.id, m.records[("issue", id)].revision + 1, i.title, status, i.details, i.detailsValid);
      SaveIssueExactly(hash, m, next);
      if i.status != status && IssueStatus(status) {
        assert (r, after) == SaveIssue(hash, m, next);
      }
    }
  }

  // ----- what that means in a store only the repositories wrote

  /** Proposing and creating never replace a document: the id was not taken, or the
      stored one stays. */
  lemma NewNeverReplaces(hash: Hash, m: Memory, s: Strategy, i: Issue, newId: string, k: Key)
    requires WellTyped(hash, m.records) && k in m.records
    ensures k in Propose(hash, m, s, newId).1.records && Propose(hash, m, s, newId).1.records[k] == m.records[k]
    ensures k in CreateIssue(hash, m, i, newId).1.records && CreateIssue(hash, m, i, newId).1.records[k] == m.records[k]
  {
    assert WellTypedAt(m.records, k);
    ProposeExactly(hash, m, s, newId);
    CreateExactly(hash, m, i, newId);
    hide Propose, CreateIssue, Sound, SoundIssue, WellTyped;
  }

  // ----- the event log

  /** The i-th call is the first to bring this id, and the id is one. */
  predicate BringsFirst(calls: seq<LogCall>, i: nat)
    requires i < |calls|
  {
    && calls[i].Append? && calls[i].e.id != ""
    && forall j :: 0 <= j < i && calls[j].Append? ==> calls[j].e.id != calls[i].e.id
  }

  /** The log holds, in order, the events of the calls that first brought their id. */
  ghost predicate LogOf(calls: seq<LogCall>, log: seq<LogEvent>, at: seq<nat>) {
    && |log| == |at|
    && (forall k :: 0 <= k < |at| ==> at[k] < |calls| && BringsFirst(calls, at[k]) && log[k] == calls[at[k]].e)
    && (forall j, k :: 0 <= j < k < |at| ==> at[j] < at[k])
    && (forall i :: 0 <= i < |calls| && BringsFirst(calls, i) ==> i in at)
  }

  lemma {:induction false} LogExactly(calls: seq<LogCall>) returns (at: seq<nat>)
    ensures LogOf(calls, LogAfter(calls), at)
  {
    at := [];
    if calls != [] {
      var n := |calls| - 1;
      var init := calls[..n];
      at := LogExactly(init);
      assert calls == init + [calls[n]];
      IdsBrought(init, LogAfter(init), at);
      CallAfter(init, calls[n], LogAfter(init), at);
      if BringsFirst(calls, n) { at := at + [n]; }
    }
  }

  /** The ids of the log are those brought. */
  lemma IdsBrought(calls: seq<LogCall>, log: seq<LogEvent>, at: seq<nat>)
    requires LogOf(calls, log, at)
    ensures forall id :: id != "" ==>
              (id in Ids(log) <==> exists i :: 0 <= i < |calls| && calls[i].Append? && calls[i].e.id == id)
  {
    forall id | id != ""
      ensures id in Ids(log) <==> exists i :: 0 <= i < |calls| && calls[i].Append? && calls[i].e.id == id
    {
      if id in Ids(log) {
        var k :| 0 <= k < |log| && log[k].id == id;
        assert calls[at[k]].Append?;
      }
      if i :| 0 <= i < |calls| && calls[i].Append? && calls[i].e.id == id {
        var first := FirstBringer(calls, id, i);
        assert first in at;
        var k :| 0 <= k < |at| && at[k] == first;
        assert log[k] in log;
      }
    }
  }

  lemma {:induction false} FirstBringer(calls: seq<LogCall>, id: string, i: nat) returns (first: nat)
    requires i < |calls| && calls[i].Append? && calls[i].e.id == id != ""
    ensures first <= i && BringsFirst(calls, first) && calls[first].e.id == id
  {
    if j: nat :| j < i && calls[j].Append? && calls[j].e.id == id {
      first := FirstBringer(calls, id, j);
    } else {
      first := i;
    }
  }

  lemma FirstStays(calls: seq<LogCall>, call: LogCall, i: nat)
    requires i < |calls|
    ensures BringsFirst(calls + [call], i) <==> BringsFirst(calls, i)
  {
    var more := calls + [call];
    assert forall j :: 0 <= j <= i ==> more[j] == calls[j];
  }

  lemma LastBrings(calls: seq<LogCall>, call: LogCall)
    ensures BringsFirst(calls + [call], |calls|) <==>
              call.Append? && call.e.id != ""
              && !exists i :: 0 <= i < |calls| && calls[i].Append? && calls[i].e.id == call.e.id
  {
    var more := calls + [call];
    assert more[|calls|] == call && forall j :: 0 <= j < |calls| ==> more[j] == calls[j];
  }

  lemma CallAfter(calls: seq<LogCall>, call: LogCall, log: seq<LogEvent>, at: seq<nat>)
    requires LogOf(calls, log, at)
    requires forall id :: id != "" ==>
               (id in Ids(log) <==> exists i :: 0 <= i < |calls| && calls[i].Append? && calls[i].e.id == id)
    ensures var more := calls + [call];
            var after := match call case Append(e) => AfterAppend(log, e) case Reopen => log;
            LogOf(more, after, if BringsFirst(more, |calls|) then at + [|calls|] else at)
  {
    hide Ids, LogOf, BringsFirst;
    LastBrings(calls, call);
    forall i | 0 <= i < |calls| ensures BringsFirst(calls + [call], i) <==> BringsFirst(calls, i) {
      FirstStays(calls, call, i);
    }
    if BringsFirst(calls + [call], |calls|) {
      LogGrows(calls, call, log, at);
    } else {
      LogStays(calls, call, log, at);
    }
  }

  lemma LogStays(calls: seq<LogCall>, call: LogCall, log: seq<LogEvent>, at: seq<nat>)
    requires LogOf(calls, log, at) && !BringsFirst(calls + [call], |calls|)
    requires forall i :: 0 <= i < |calls| ==> (BringsFirst(calls + [call], i) <==> BringsFirst(calls, i))
    ensures LogOf(calls + [call], log, at)
  {
    hide BringsFirst;
    assert forall i :: 0 <= i < |calls| ==> (calls + [call])[i] == calls[i];
  }

  lemma LogGrows(calls: seq<LogCall>, call: LogCall, log: seq<LogEvent>, at: seq<nat>)
    requires LogOf(calls, log, at) && BringsFirst(calls + [call], |calls|) && call.Append?
    requires forall i :: 0 <= i < |calls| ==> (BringsFirst(calls + [call], i) <==> BringsFirst(calls, i))
    ensures LogOf(calls + [call], log + [call.e], at + [|calls|])
  {
    hide BringsFirst;
    var more, n := calls + [call], |calls|;
    var longer := at + [n];
    assert more[n] == call && forall i :: 0 <= i < n ==> more[i] == calls[i];
    forall i | 0 <= i < |more| && BringsFirst(more, i) ensures i in longer {
      if i < n { assert i in at; } else { assert longer[|at|] == n; }
    }
  }
}
