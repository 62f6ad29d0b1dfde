/**
 The typed repositories over store and projection (memory/repo/repo.go,
 memory/repo/strategy.go, memory/repo/issue.go, memory/repo/promotion.go).
 */
module MemoryRepos {
  import opened Lex
  import opened Outcomes
  import opened Contracts
  import opened MemoryStore

  // ----- lifecycle

  datatype Lifecycle =
    Unset | Ephemeral | Candidate | Validated | Active | Superseded | Archived | Unknown(name: string)

  function Successors(l: Lifecycle): set<Lifecycle> {
    match l
    case Ephemeral => {Candidate, Archived}
    case Candidate => {Validated, Archived}
    case Validated => {Active, Archived}
    case Active => {Superseded, Archived}
    case Superseded => {Archived}
    case _ => {}
  }

  predicate CanTransition(from: Lifecycle, to: Lifecycle) {
    from == to || to in Successors(from)
  }

  /** How far along a lifecycle state is. */
  function Rank(l: Lifecycle): nat {
    match l
    case Ephemeral => 0
    case Candidate => 1
    case Validated => 2
    case Active => 3
    case Superseded => 4
    case Archived => 5
    case _ => 6
  }

  predicate Known(l: Lifecycle) {
    !l.Unset? && !l.Unknown?
  }

  /** Transitions only go forward, and nothing leaves ARCHIVED. */
  lemma TransitionsGoForward(from: Lifecycle, to: Lifecycle)
    requires CanTransition(from, to) && from != to
    ensures Known(from) && Known(to) && Rank(from) < Rank(to) && from != Archived
    ensures to == Active ==> from == Validated
    ensures to == Validated ==> from == Candidate
  {
  }

  // ----- documents

  /** A strategy; details stands for the fields the repository never looks at,
      detailsValid for the checks on them. */
  datatype Strategy = Strategy(id: string, revision: int, title: string, lifecycle: Lifecycle, guidance: string,
                               supersedes: string, details: string, detailsValid: bool)

  predicate ValidStrategy(s: Strategy) {
    && IsIdentifier(s.id) && s.title != "" && Known(s.lifecycle) && s.guidance != ""
    && (s.supersedes == "" || IsIdentifier(s.supersedes)) && s.detailsValid
  }

  datatype Issue = Issue(id: string, revision: int, title: string, status: string, details: string, detailsValid: bool)

  const ISSUE_STATES: seq<string> := ["open", "in_progress", "review", "closed", "deferred", "cancelled"]

  predicate ValidIssue(i: Issue) {
    IsIdentifier(i.id) && i.title != "" && i.status in ISSUE_STATES && i.detailsValid
  }

  datatype Doc = StrategyDoc(strategy: Strategy) | IssueDoc(issue: Issue) | OtherDoc(json: string)

  type Hash = Doc -> string

  datatype Memory = Memory(records: Records<Doc>, entries: Entries<Doc>)

  datatype RepoError =
    | NotFound
    | BadTransition
    | NotCandidate
    | InvalidContract
    | BadStatus
    | SupersedesItself
    | Refused(why: PutError)

  // ----- reference operations

  /** Stores a document and, when the store changed, projects it. */
  function PutTyped(hash: Hash, m: Memory, kind: string, id: string, revision: int, doc: Doc)
    : (Result<bool, RepoError>, Memory)
  {
    var r := Record(kind, id, revision, doc, hash(doc));
    match PutOutcome(hash, m.records, r)
    case Err(e) => (Err(Refused(e)), m)
    case Ok(changed) =>
      (Ok(changed),
       Memory(AfterPut(hash, m.records, r), if changed then AfterProject(m.entries, FromRecord(r)) else m.entries))
  }

  function RevisionOf(m: Memory, kind: string, id: string): int {
    if (kind, id) in m.records then m.records[(kind, id)].revision else 0
  }

  function GetStrategy(m: Memory, id: string): Option<Strategy> {
    if ("strategy", id) in m.records && m.records[("strategy", id)].data.StrategyDoc?
    then Some(m.records[("strategy", id)].data.strategy) else None
  }

  function GetIssue(m: Memory, id: string): Option<Issue> {
    if ("issue", id) in m.records && m.records[("issue", id)].data.IssueDoc?
    then Some(m.records[("issue", id)].data.issue) else None
  }

  function SaveStrategy(hash: Hash, m: Memory, s: Strategy): (Result<Strategy, RepoError>, Memory) {
    if !ValidStrategy(s) then (Err(InvalidContract), m)
    else
      var (result, after) := PutTyped(hash, m, "strategy", s.id, s.revision, StrategyDoc(s));
      (if result.Ok? then Ok(s) else Err(result.error), after)
  }

  /** Propose; newId is the id given when the strategy has none. */
  function Propose(hash: Hash, m: Memory, strategy: Strategy, newId: string): (Result<Strategy, RepoError>, Memory) {
    var named := if strategy.id == "" then strategy.(id := newId) else strategy;
    var s := if named.lifecycle == Unset then named.(lifecycle := Candidate) else named;
    if s.lifecycle != Candidate then (Err(NotCandidate), m) else SaveStrategy(hash, m, s.(revision := 1))
  }

  function Transition(hash: Hash, m: Memory, id: string, to: Lifecycle): (Result<Strategy, RepoError>, Memory) {
    match GetStrategy(m, id)
    case None => (Err(NotFound), m)
    case Some(s) =>
      if !CanTransition(s.lifecycle, to) then (Err(BadTransition), m)
      else if s.lifecycle == to then (Ok(s), m)
      else SaveStrategy(hash, m, s.(lifecycle := to, revision := RevisionOf(m, "strategy", id) + 1))
  }

  /** Retires oldId and points newId at it. */
  function Supersede(hash: Hash, m: Memory, oldId: string, newId: string): (Option<RepoError>, Memory) {
    if oldId == newId then (Some(SupersedesItself), m)
    else
      var (retired, m1) := Transition(hash, m, oldId, Superseded);
      if retired.Err? then (Some(retired.error), m1)
      else
        match GetStrategy(m1, newId)
        case None => (Some(NotFound), m1)
        case Some(next) =>
          var (linked, m2) :=
              SaveStrategy(hash, m1, next.(supersedes := oldId, revision := RevisionOf(m1, "strategy", newId) + 1));
          (if linked.Ok? then None else Some(linked.error), m2)
  }

  function SaveIssue(hash: Hash, m: Memory, i: Issue): (Result<Issue, RepoError>, Memory) {
    if !ValidIssue(i) then (Err(InvalidContract), m)
    else
      var (result, after) := PutTyped(hash, m, "issue", i.id, i.revision, IssueDoc(i));
      (if result.Ok? then Ok(i) else Err(result.error), after)
  }

  function CreateIssue(hash: Hash, m: Memory, issue: Issue, newId: string): (Result<Issue, RepoError>, Memory) {
    var named := if issue.id == "" then issue.(id := newId) else issue;
    SaveIssue(hash, m, named.(status := if issue.status == "" then "open" else issue.status, revision := 1))
  }

  function SetStatus(hash: Hash, m: Memory, id: string, status: string): (Result<Issue, RepoError>, Memory) {
    match GetIssue(m, id)
    case None => (Err(NotFound), m)
    case Some(i) =>
      if i.status == status then (Ok(i), m)
      else if status !in ISSUE_STATES then (Err(BadStatus), m)
      else SaveIssue(hash, m, i.(status := status, revision := RevisionOf(m, "issue", id) + 1))
  }

  /** What a repository answers and stores does not depend on the projection. */
  lemma EntriesDoNotMatter(hash: Hash, m: Memory, n: Memory, kind: string, id: string, revision: int, doc: Doc)
    requires m.records == n.records
    ensures PutTyped(hash, m, kind, id, revision, doc).0 == PutTyped(hash, n, kind, id, revision, doc).0
    ensures PutTyped(hash, m, kind, id, revision, doc).1.records == PutTyped(hash, n, kind, id, revision, doc).1.records
    ensures m.entries == n.entries ==>
            PutTyped(hash, m, kind, id, revision, doc).1 == PutTyped(hash, n, kind, id, revision, doc).1
  {
  }

  lemma SameReads(m: Memory, n: Memory, id: string)
    requires m.records == n.records
    ensures GetStrategy(m, id) == GetStrategy(n, id) && RevisionOf(m, "strategy", id) == RevisionOf(n, "strategy", id)
  {
  }

  // ----- the code

  class Repository {
    const store: Store<Doc>
    const projection: MemProjection?<Doc>

    ghost predicate Valid()
      reads store
    {
      store.Valid()
    }

    /** The memory; without a projection there are no entries. */
    function View(): Memory
      reads store, projection
    {
      Memory(store.records, if projection == null then map[] else projection.entries)
    }

    /** The memory is m, as far as the repository keeps it. */
    predicate Holds(m: Memory)
      reads store, projection
    {
      store.records == m.records && (projection != null ==> projection.entries == m.entries)
    }

    constructor (store: Store<Doc>, projection: MemProjection?<Doc>)
      requires store.Valid()
      ensures this.store == store && this.projection == projection && Valid()
    {
      this.store, this.projection := store, projection;
    }

    method Put(kind: string, id: string, revision: int, doc: Doc) returns (r: Result<bool, RepoError>)
      requires Valid()
      modifies store`records, projection
      ensures Valid()
      ensures var (result, after) := PutTyped(store.hash, old(View()), kind, id, revision, doc);
              r == result && Holds(after)
    {
      var record := Record(kind, id, revision, doc, store.hash(doc));
      var changed := store.PutRecord(record);
      if changed.Err? {
        return Err(Refused(changed.error));
      }
      if changed.value && projection != null {
        var _ := projection.Put(FromRecord(record));
      }
      return Ok(changed.value);
    }

    method ProposeStrategy(strategy0: Strategy, newId: string) returns (r: Result<Strategy, RepoError>)
      requires Valid()
      modifies store`records, projection
      ensures Valid()
      ensures var (result, after) := Propose(store.hash, old(View()), strategy0, newId);
              r == result && Holds(after)
    {
      var strategy := strategy0;
      if strategy.id == "" {
        strategy := strategy.(id := newId);
      }
      if strategy.lifecycle == Unset {
        strategy := strategy.(lifecycle := Candidate);
      }
      if strategy.lifecycle != Candidate {
        return Err(NotCandidate);
      }
      strategy := strategy.(revision := 1);
      if !ValidStrategy(strategy) {
        return Err(InvalidContract);
      }
      hide PutTyped, ValidStrategy;
      var put := Put("strategy", strategy.id, 1, StrategyDoc(strategy));
      if put.Err? {
        return Err(put.error);
      }
      return Ok(strategy);
    }

    method TransitionStrategy(id: string, to: Lifecycle) returns (r: Result<Strategy, RepoError>)
      requires Valid()
      modifies store`records, projection
      ensures Valid()
      ensures var (result, after) := Transition(store.hash, old(View()), id, to);
              r == result && Holds(after)
    {
      hide PutTyped, ValidStrategy, CanTransition;
      var got := GetStrategy(View(), id);
      if got.None? {
        return Err(NotFound);
      }
      var strategy := got.value;
      if !CanTransition(strategy.lifecycle, to) {
        return Err(BadTransition);
      }
      if strategy.lifecycle == to {
        return Ok(strategy);
      }
      var revision := RevisionOf(View(), "strategy", id) + 1;
      strategy := strategy.(lifecycle := to, revision := revision);
      if !ValidStrategy(strategy) {
        return Err(InvalidContract);
      }
      var put := Put("strategy", strategy.id, revision, StrategyDoc(strategy));
      if put.Err? {
        return Err(put.error);
      }
      return Ok(strategy);
    }

    method SupersedeStrategy(oldId: string, newId: string) returns (failed: Option<RepoError>)
      requires Valid()
      modifies store`records, projection
      ensures Valid()
      ensures var (result, after) := Supersede(store.hash, old(View()), oldId, newId);
              failed == result && Holds(after)
    {
      if oldId == newId {
        return Some(SupersedesItself);
      }
      hide Transition, PutTyped, ValidStrategy, GetStrategy, RevisionOf;
      ghost var m1 := Transition(store.hash, View(), oldId, Superseded).1;
      var retired := TransitionStrategy(oldId, Superseded);
      if retired.Err? {
        return Some(retired.error);
      }
      SameReads(m1, View(), newId);
      var got := GetStrategy(View(), newId);
      if got.None? {
        return Some(NotFound);
      }
      var revision := RevisionOf(View(), "strategy", newId) + 1;
      var next := got.value.(supersedes := oldId, revision := revision);
      EntriesDoNotMatter(store.hash, m1, View(), "strategy", next.id, revision, StrategyDoc(next));
      if !ValidStrategy(next) {
        return Some(InvalidContract);
      }
      var put := Put("strategy", next.id, revision, StrategyDoc(next));
      if put.Err? {
        return Some(put.error);
      }
      return None;
    }

    method Create(issue0: Issue, newId: string) returns (r: Result<Issue, RepoError>)
      requires Valid()
      modifies store`records, projection
      ensures Valid()
      ensures var (result, after) := CreateIssue(store.hash, old(View()), issue0, newId);
              r == result && Holds(after)
    {
      var issue := issue0;
      if issue.id == "" {
        issue := issue.(id := newId);
      }
      if issue.status == "" {
        issue := issue.(status := "open");
      }
      issue := issue.(revision := 1);
      if !ValidIssue(issue) {
        return Err(InvalidContract);
      }
      hide PutTyped, ValidIssue;
      var put := Put("issue", issue.id, 1, IssueDoc(issue));
      if put.Err? {
        return Err(put.error);
      }
      return Ok(issue);
    }

    method SetIssueStatus(id: string, status: string) returns (r: Result<Issue, RepoError>)
      requires Valid()
      modifies store`records, projection
      ensures Valid()
      ensures var (result, after) := SetStatus(store.hash, old(View()), id, status);
              r == result && Holds(after)
    {
      hide PutTyped, ValidIssue;
      var got := GetIssue(View(), id);
      if got.None? {
        return Err(NotFound);
      }
      var issue := got.value;
      if issue.status == status {
        return Ok(issue);
      }
      if status !in ISSUE_STATES {
        return Err(BadStatus);
      }
      var revision := RevisionOf(View(), "issue", id) + 1;
      issue := issue.(status := status, revision := revision);
      if !ValidIssue(issue) {
        return Err(InvalidContract);
      }
      var put := Put("issue", issue.id, revision, IssueDoc(issue));
      if put.Err? {
        return Err(put.error);
      }
      return Ok(issue);
    }
  }
}
