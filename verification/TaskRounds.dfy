/**
 The rounds of a task run (sifter/src/aa_sifter/tasks/executor.py): what one batch
 does to the tasks, and which workers make every run come to an end.
 */
module TaskRounds {
  import opened Lex
  import opened Outcomes
  import opened DependencyGraph
  import opened TaskGraphs

  /** How a worker call ends: it asks for approval, raises, or returns leaving
      its task in some status. */
  datatype Report = NeedsApproval | Raises | Returns(left: Status)

  /** A worker, given a task and the number of this attempt. */
  type Worker = (string, int) -> Report

  function AfterWorker(r: Report): Status {
    match r
    case NeedsApproval => BlockedApproval
    case Raises => Failed
    case Returns(left) => if left.Running? then Done else left
  }

  /** The n-th attempt at t does not hand t back as pending or ready. */
  predicate Decides(worker: Worker, t: string, n: int) {
    !Undecided(AfterWorker(worker(t, n)))
  }

  datatype Board = Board(status: Statuses, attempts: map<string, int>)

  ghost predicate Playable(g: Graph, order: seq<string>, b: Board) {
    Fits(g, order, b.status) && b.attempts.Keys == g.Keys
  }

  // ----- one round

  /** The effect of a whole batch, whatever the interleaving. */
  function AfterBatch(b: Board, ready: seq<string>, worker: Worker): Board
    requires b.attempts.Keys == b.status.Keys
  {
    Board(map t | t in b.status :: if t in ready then AfterWorker(worker(t, b.attempts[t] + 1)) else b.status[t],
          map t | t in b.attempts :: if t in ready then b.attempts[t] + 1 else b.attempts[t])
  }

  predicate AllTerminal(st: Statuses) {
    forall t :: t in st ==> Terminal(st[t])
  }

  ghost function Swept(g: Graph, order: seq<string>, b: Board): Board
    requires Playable(g, order, b)
  {
    assert forall t :: t in order ==> t in Elems(order);
    b.(status := ReadySweep(g, order, b.status))
  }

  ghost function ReadyNow(g: Graph, order: seq<string>, b: Board): seq<string>
    requires Playable(g, order, b)
  {
    assert forall t :: t in order ==> t in Elems(order);
    ReadyList(g, order, b.status)
  }

  ghost function Round(g: Graph, order: seq<string>, worker: Worker, b: Board): (r: Board)
    requires Playable(g, order, b)
    ensures Playable(g, order, r)
  {
    assert forall t :: t in order ==> t in Elems(order);
    var batched := AfterBatch(Swept(g, order, b), ReadyNow(g, order, b), worker);
    batched.(status := InvalidateSweep(g, order, batched.status))
  }

  /** What happened to a task since b0: still waiting as it was, never touched, skipped
      behind a bad dependency, or called with all its dependencies done, where only the
      last call can have decided it. */
  ghost predicate Traced(g: Graph, b0: Board, worker: Worker, b: Board, t: string)
    requires t in g && t in b0.status && t in b0.attempts && t in b.status && t in b.attempts
  {
    if b.attempts[t] == b0.attempts[t] then
      || b.status[t] == b0.status[t]
      || (Undecided(b0.status[t]) && b.status[t].Skipped? && SomeBad(b.status, g[t]))
    else
      && Undecided(b0.status[t])
      && b.attempts[t] > b0.attempts[t]
      && AllDone(b.status, g[t])
      && b.status[t] == AfterWorker(worker(t, b.attempts[t]))
      && (forall n :: b0.attempts[t] < n < b.attempts[t] ==> !Decides(worker, t, n))
  }

  lemma BatchFacts(b: Board, ready: seq<string>, worker: Worker, t: string)
    requires b.attempts.Keys == b.status.Keys && t in b.status
    ensures var after := AfterBatch(b, ready, worker);
            && t in after.status && t in after.attempts
            && after.status[t] == (if t in ready then AfterWorker(worker(t, b.attempts[t] + 1)) else b.status[t])
            && after.attempts[t] == (if t in ready then b.attempts[t] + 1 else b.attempts[t])
  {
  }

  /** Done and bad dependencies stay so through a batch of tasks that were ready. */
  lemma BatchKeeps(b: Board, ready: seq<string>, worker: Worker, deps: seq<string>)
    requires b.attempts.Keys == b.status.Keys
    requires forall t :: t in ready ==> t in b.status && b.status[t].Ready?
    ensures AllDone(b.status, deps) ==> AllDone(AfterBatch(b, ready, worker).status, deps)
    ensures SomeBad(b.status, deps) ==> SomeBad(AfterBatch(b, ready, worker).status, deps)
  {
  }

  lemma OffersAreReady(g: Graph, order: seq<string>, b: Board)
    requires Playable(g, order, b)
    ensures forall t :: t in ReadyNow(g, order, b) ==>
              && t in g && Undecided(b.status[t]) && Swept(g, order, b).status[t].Ready?
              && AllDone(Swept(g, order, b).status, g[t])
  {
    forall t | t in ReadyNow(g, order, b)
      ensures t in g && Undecided(b.status[t]) && Swept(g, order, b).status[t].Ready?
              && AllDone(Swept(g, order, b).status, g[t])
    {
      ReadyListDistinct(g, order, b.status);
      assert t in Elems(order);
      Triage(g, order, b, t);
    }
  }

  lemma Triage(g: Graph, order: seq<string>, b: Board, t: string)
    requires Playable(g, order, b) && t in g
    ensures Quiet(b.status, Swept(g, order, b).status)
    ensures Triaged(g, b.status, Swept(g, order, b).status, ReadyNow(g, order, b), t)
  {
    assert t in Elems(order);
    assert forall x :: x in order ==> x in Elems(order);
    ReadySweepTriages(g, order, b.status, t);
  }

  lemma NotBoth(st: Statuses, deps: seq<string>)
    ensures AllDone(st, deps) ==> !SomeBad(st, deps)
  {
  }

  /** One round, for one task: a decided task keeps its status, a ready one is called
      once and left as its worker leaves it, any other stays or is skipped. */
  lemma RoundOn(g: Graph, order: seq<string>, worker: Worker, b: Board, t: string)
    requires Playable(g, order, b) && t in g
    ensures Traced(g, b, worker, Round(g, order, worker, b), t)
    ensures AllDone(b.status, g[t]) ==> AllDone(Round(g, order, worker, b).status, g[t])
    ensures SomeBad(b.status, g[t]) ==> SomeBad(Round(g, order, worker, b).status, g[t])
    ensures t in ReadyNow(g, order, b) ==>
              && Round(g, order, worker, b).attempts[t] == b.attempts[t] + 1
              && Round(g, order, worker, b).status[t] == AfterWorker(worker(t, b.attempts[t] + 1))
    ensures t !in ReadyNow(g, order, b) ==> Round(g, order, worker, b).attempts[t] == b.attempts[t]
    ensures !Undecided(b.status[t]) ==>
            Round(g, order, worker, b).status[t] == b.status[t] && t !in ReadyNow(g, order, b)
  {
    assert forall x :: x in order ==> x in Elems(order);
    var swept, ready := Swept(g, order, b), ReadyNow(g, order, b);
    Triage(g, order, b, t);
    OffersAreReady(g, order, b);
    QuietKeeps(b.status, swept.status, g[t]);
    var batched := AfterBatch(swept, ready, worker);
    BatchFacts(swept, ready, worker, t);
    BatchKeeps(swept, ready, worker, g[t]);
    InvalidateSkips(g, order, batched.status, t);
    var after := InvalidateSweep(g, order, batched.status);
    QuietKeeps(batched.status, after, g[t]);
    NotBoth(after, g[t]);
    hide Swept, ReadyNow, AfterBatch, SomeBad, AllDone, Quiet, Fits, InvalidateSweep;
  }

  lemma ReadyIsCalled(g: Graph, order: seq<string>, worker: Worker, b: Board, t: string)
    requires Playable(g, order, b) && t in g && t in ReadyNow(g, order, b)
    ensures Round(g, order, worker, b).attempts[t] == b.attempts[t] + 1
    ensures Round(g, order, worker, b).status[t] == AfterWorker(worker(t, b.attempts[t] + 1))
  {
    RoundOn(g, order, worker, b, t);
    hide *;
  }

  lemma DecidedStays(g: Graph, order: seq<string>, worker: Worker, b: Board, t: string)
    requires Playable(g, order, b) && t in g && !Undecided(b.status[t])
    ensures Round(g, order, worker, b).status[t] == b.status[t]
            && Round(g, order, worker, b).attempts[t] == b.attempts[t]
  {
    RoundOn(g, order, worker, b, t);
    hide *;
  }

  lemma OfferedOnce(g: Graph, order: seq<string>, b: Board)
    requires Playable(g, order, b)
    ensures Distinct(ReadyNow(g, order, b))
  {
    ReadyListDistinct(g, order, b.status);
  }

  lemma RoundIs(g: Graph, order: seq<string>, worker: Worker, b: Board)
    requires Playable(g, order, b)
    ensures forall t :: t in order ==> t in g && t in b.status
    ensures var batched := AfterBatch(Swept(g, order, b), ReadyNow(g, order, b), worker);
            batched.status.Keys == g.Keys
                && Round(g, order, worker, b) == batched.(status := InvalidateSweep(g, order, batched.status))
  {
    assert forall t :: t in order ==> t in Elems(order);
  }

  /** A trace goes on through a round. */
  lemma TracedFurther(g: Graph, order: seq<string>, worker: Worker, b0: Board, b: Board, t: string)
    requires Playable(g, order, b0) && Playable(g, order, b) && t in g
    requires Traced(g, b0, worker, b, t)
    ensures Traced(g, b0, worker, Round(g, order, worker, b), t)
  {
    RoundOn(g, order, worker, b, t);
    NotBoth(Round(g, order, worker, b).status, g[t]);
    hide *;
    TraceGrows(g, worker, b0, b, Round(g, order, worker, b), t);
  }

  /** Two traces make one, when done and bad dependencies stay so and one call is made
      at most. */
  lemma TraceGrows(g: Graph, worker: Worker, b0: Board, b: Board, r: Board, t: string)
    requires t in g && t in b0.status && t in b0.attempts && t in b.status && t in b.attempts
    requires t in r.status && t in r.attempts && b.attempts[t] <= r.attempts[t] <= b.attempts[t] + 1
    requires Traced(g, b0, worker, b, t) && Traced(g, b, worker, r, t)
    requires AllDone(b.status, g[t]) ==> AllDone(r.status, g[t])
    requires SomeBad(b.status, g[t]) ==> SomeBad(r.status, g[t])
    requires AllDone(r.status, g[t]) ==> !SomeBad(r.status, g[t])
    ensures Traced(g, b0, worker, r, t)
  {
    hide SomeBad, AllDone;
  }

  // ----- runs that end

  ghost predicate Stopped(g: Graph, order: seq<string>, b: Board)
    requires Playable(g, order, b)
  {
    AllTerminal(b.status) || ReadyNow(g, order, b) == []
  }

  ghost function AfterRounds(g: Graph, order: seq<string>, worker: Worker, b: Board, n: nat): (r: Board)
    requires Playable(g, order, b)
    ensures Playable(g, order, r)
  {
    if n == 0 then b else Round(g, order, worker, AfterRounds(g, order, worker, b, n - 1))
  }

  /** The run from b stops after n rounds. */
  ghost predicate StopsAfter(g: Graph, order: seq<string>, worker: Worker, b: Board, n: nat)
    requires Playable(g, order, b)
  {
    Stopped(g, order, AfterRounds(g, order, worker, b, n))
  }

  /** The run from b reaches its end. */
  ghost predicate Ends(g: Graph, order: seq<string>, worker: Worker, b: Board)
    requires Playable(g, order, b)
  {
    exists n: nat :: StopsAfter(g, order, worker, b, n)
  }

  lemma {:induction false} RoundFirst(g: Graph, order: seq<string>, worker: Worker, b: Board, n: nat)
    requires Playable(g, order, b)
    ensures AfterRounds(g, order, worker, Round(g, order, worker, b), n) == AfterRounds(g, order, worker, b, n + 1)
  {
    hide Round, Playable;
    if n > 0 {
      RoundFirst(g, order, worker, b, n - 1);
    }
  }

  ghost predicate FirstStop(g: Graph, order: seq<string>, worker: Worker, b: Board, n: nat)
    requires Playable(g, order, b)
  {
    StopsAfter(g, order, worker, b, n) && forall k: nat :: k < n ==> !StopsAfter(g, order, worker, b, k)
  }

  lemma {:induction false} SomeFirstStop(g: Graph, order: seq<string>, worker: Worker, b: Board, n: nat)
    requires Playable(g, order, b) && StopsAfter(g, order, worker, b, n)
    ensures exists k: nat :: FirstStop(g, order, worker, b, k)
  {
    if k: nat :| k < n && StopsAfter(g, order, worker, b, k) {
      SomeFirstStop(g, order, worker, b, k);
    } else {
      assert FirstStop(g, order, worker, b, n);
    }
  }

  /** The rounds until the run first stops. */
  ghost function RoundsLeft(g: Graph, order: seq<string>, worker: Worker, b: Board): (n: nat)
    requires Playable(g, order, b) && Ends(g, order, worker, b)
    ensures FirstStop(g, order, worker, b, n)
  {
    var some: nat :| StopsAfter(g, order, worker, b, some);
    SomeFirstStop(g, order, worker, b, some);
    var n: nat :| FirstStop(g, order, worker, b, n);
    n
  }

  /** A run that ends and has not stopped ends from its next round. */
  lemma EndsFurther(g: Graph, order: seq<string>, worker: Worker, b: Board)
    requires Playable(g, order, b) && Ends(g, order, worker, b)
    requires !AllTerminal(b.status) && ReadyNow(g, order, b) != []
    ensures Ends(g, order, worker, Round(g, order, worker, b))
    ensures RoundsLeft(g, order, worker, Round(g, order, worker, b)) < RoundsLeft(g, order, worker, b)
  {
    hide *;
    NotYet(g, order, worker, b);
    var n := RoundsLeft(g, order, worker, b) - 1;
    OneRoundOn(g, order, worker, b, n);
    StopsBy(g, order, worker, Round(g, order, worker, b), n);
  }

  lemma NotYet(g: Graph, order: seq<string>, worker: Worker, b: Board)
    requires Playable(g, order, b) && Ends(g, order, worker, b)
    requires !AllTerminal(b.status) && ReadyNow(g, order, b) != []
    ensures RoundsLeft(g, order, worker, b) > 0
    ensures StopsAfter(g, order, worker, b, RoundsLeft(g, order, worker, b))
  {
    assert !StopsAfter(g, order, worker, b, 0);
    hide RoundsLeft, ReadyNow, AllTerminal, Playable;
  }

  lemma OneRoundOn(g: Graph, order: seq<string>, worker: Worker, b: Board, n: nat)
    requires Playable(g, order, b) && StopsAfter(g, order, worker, b, n + 1)
    ensures StopsAfter(g, order, worker, Round(g, order, worker, b), n)
  {
    var later := AfterRounds(g, order, worker, b, n + 1);
    assert Stopped(g, order, later);
    assert later == AfterRounds(g, order, worker, Round(g, order, worker, b), n) by {
      RoundFirst(g, order, worker, b, n);
      hide *;
    }
    hide Stopped, Round, AfterRounds;
  }

  lemma StopsBy(g: Graph, order: seq<string>, worker: Worker, b: Board, n: nat)
    requires Playable(g, order, b) && StopsAfter(g, order, worker, b, n)
    ensures Ends(g, order, worker, b) && RoundsLeft(g, order, worker, b) <= n
  {
    hide StopsAfter, RoundsLeft, Playable;
    assert Ends(g, order, worker, b);
    assert FirstStop(g, order, worker, b, RoundsLeft(g, order, worker, b));
  }

  /** The rounds of a run that ends: when every task is terminal or none is ready. */
  ghost function Rounds(g: Graph, order: seq<string>, worker: Worker, b: Board): (r: Board)
    requires Playable(g, order, b) && Ends(g, order, worker, b)
    ensures Playable(g, order, r)
    decreases RoundsLeft(g, order, worker, b)
  {
    if AllTerminal(b.status) then b
    else if ReadyNow(g, order, b) == [] then Swept(g, order, b)
    else
      EndsFurther(g, order, worker, b);
      Rounds(g, order, worker, Round(g, order, worker, b))
  }

  /** One unfolding of a run. */
  lemma Unfolded(g: Graph, order: seq<string>, worker: Worker, b: Board)
    requires Playable(g, order, b) && Ends(g, order, worker, b)
    ensures AllTerminal(b.status) ==> Rounds(g, order, worker, b) == b
    ensures !AllTerminal(b.status) && ReadyNow(g, order, b) == [] ==> Rounds(g, order, worker, b) == Swept(g, order, b)
    ensures !AllTerminal(b.status) && ReadyNow(g, order, b) != [] ==>
              && Ends(g, order, worker, Round(g, order, worker, b))
              && Rounds(g, order, worker, b) == Rounds(g, order, worker, Round(g, order, worker, b))
              && RoundsLeft(g, order, worker, Round(g, order, worker, b)) < RoundsLeft(g, order, worker, b)
  {
    if !AllTerminal(b.status) && ReadyNow(g, order, b) != [] {
      EndsFurther(g, order, worker, b);
    }
  }

  /** What a finished run leaves undecided waits for a dependency that is not done. */
  lemma {:induction false} UndecidedWaits(g: Graph, order: seq<string>, worker: Worker, b: Board, t: string)
    requires Playable(g, order, b) && Ends(g, order, worker, b) && t in g
    ensures Undecided(Rounds(g, order, worker, b).status[t]) ==> !AllDone(Rounds(g, order, worker, b).status, g[t])
    decreases RoundsLeft(g, order, worker, b)
  {
    if AllTerminal(b.status) {
    } else if ReadyNow(g, order, b) == [] {
      Triage(g, order, b, t);
    } else {
      EndsFurther(g, order, worker, b);
      UndecidedWaits(g, order, worker, Round(g, order, worker, b), t);
    }
  }

  // ----- how many calls a task can take

  /** Every undecided task has an attempt to come that decides it. */
  ghost predicate Responsive(g: Graph, worker: Worker, b: Board) {
    forall t :: t in g && t in b.status && t in b.attempts && Undecided(b.status[t]) ==>
        Answers(worker, t, b.attempts[t])
  }

  ghost predicate Answers(worker: Worker, t: string, n: int) {
    exists m :: m > n && Decides(worker, t, m)
  }

  /** After n attempts at t, the m-th is the next to decide it. */
  ghost predicate NextDeciding(worker: Worker, t: string, n: int, m: int) {
    m > n && Decides(worker, t, m) && forall j :: n < j < m ==> !Decides(worker, t, j)
  }

  lemma {:induction false} SomeNextDeciding(worker: Worker, t: string, n: int, m: int) returns (k: int)
    requires m > n && Decides(worker, t, m)
    ensures NextDeciding(worker, t, n, k)
    decreases m - n
  {
    if j :| n < j < m && Decides(worker, t, j) {
      k := SomeNextDeciding(worker, t, n, j);
    } else {
      k := m;
    }
  }

  /** The calls t may still take. */
  ghost function CallsLeft(worker: Worker, t: string, n: int): nat {
    if m :| NextDeciding(worker, t, n, m) then m - n else 0
  }

  lemma CallsLeftIs(worker: Worker, t: string, n: int, m: int)
    requires NextDeciding(worker, t, n, m)
    ensures CallsLeft(worker, t, n) == m - n
  {
    var c := n + CallsLeft(worker, t, n);
    assert NextDeciding(worker, t, n, c);
    assert !(n < c < m) && !(n < m < c);
  }

  /** A call that hands its task back uses up one of those left. */
  lemma OneCallLess(worker: Worker, t: string, n: int)
    requires Answers(worker, t, n)
    ensures CallsLeft(worker, t, n) > 0
    ensures !Decides(worker, t, n + 1) ==>
            Answers(worker, t, n + 1) && CallsLeft(worker, t, n + 1) == CallsLeft(worker, t, n) - 1
  {
    var m :| m > n && Decides(worker, t, m);
    var k := SomeNextDeciding(worker, t, n, m);
    CallsLeftIs(worker, t, n, k);
    if !Decides(worker, t, n + 1) {
      assert NextDeciding(worker, t, n + 1, k);
      CallsLeftIs(worker, t, n + 1, k);
    }
  }

  ghost function Load(worker: Worker, b: Board, t: string): nat
    requires t in b.status && t in b.attempts
  {
    if Undecided(b.status[t]) then CallsLeft(worker, t, b.attempts[t]) else 0
  }

  ghost function LoadOf(worker: Worker, b: Board, order: seq<string>): nat
    requires forall t :: t in order ==> t in b.status && t in b.attempts
  {
    if order == [] then 0
    else LoadOf(worker, b, order[..|order| - 1]) + Load(worker, b, order[|order| - 1])
  }

  lemma {:induction false} LoadDrops(worker: Worker, b: Board, r: Board, order: seq<string>)
    requires forall t :: t in order ==> t in b.status && t in b.attempts && t in r.status && t in r.attempts
    requires forall t :: t in order ==> Load(worker, r, t) <= Load(worker, b, t)
    ensures LoadOf(worker, r, order) <= LoadOf(worker, b, order)
    ensures (exists t :: t in order && Load(worker, r, t) < Load(worker, b, t)) ==>
            LoadOf(worker, r, order) < LoadOf(worker, b, order)
  {
    if order != [] {
      var init, last := order[..|order| - 1], order[|order| - 1];
      assert order == init + [last] && last in order;
      LoadDrops(worker, b, r, init);
      if t :| t in order && Load(worker, r, t) < Load(worker, b, t) {
        if t != last { assert t in init; }
      }
    }
  }

  /** A round takes no load on, and takes some off every task it calls. */
  lemma RoundLoad(g: Graph, order: seq<string>, worker: Worker, b: Board, t: string)
    requires Playable(g, order, b) && Responsive(g, worker, b) && t in g
    ensures var r := Round(g, order, worker, b);
            && (Undecided(r.status[t]) ==> Answers(worker, t, r.attempts[t]))
            && Load(worker, r, t) <= Load(worker, b, t)
            && (t in ReadyNow(g, order, b) ==> Load(worker, r, t) < Load(worker, b, t))
  {
    RoundOn(g, order, worker, b, t);
    var r := Round(g, order, worker, b);
    var called := t in ReadyNow(g, order, b);
    hide *;
    LoadFalls(g, worker, b, r, t, called);
  }

  lemma LoadFalls(g: Graph, worker: Worker, b: Board, r: Board, t: string, called: bool)
    requires t in g && t in b.status && t in b.attempts && t in r.status && t in r.attempts
    requires Responsive(g, worker, b) && Traced(g, b, worker, r, t)
    requires r.attempts[t] == if called then b.attempts[t] + 1 else b.attempts[t]
    requires !Undecided(b.status[t]) ==> r.status[t] == b.status[t] && !called
    ensures Undecided(r.status[t]) ==> Answers(worker, t, r.attempts[t])
    ensures Load(worker, r, t) <= Load(worker, b, t) && (called ==> Load(worker, r, t) < Load(worker, b, t))
  {
    hide AllDone, SomeBad, CallsLeft, Answers;
    if Undecided(b.status[t]) {
      OneCallLess(worker, t, b.attempts[t]);
    }
  }

  ghost function TotalLoad(g: Graph, order: seq<string>, worker: Worker, b: Board): nat
    requires Playable(g, order, b)
  {
    assert forall t :: t in order ==> t in Elems(order);
    LoadOf(worker, b, order)
  }

  lemma RoundResponsive(g: Graph, order: seq<string>, worker: Worker, b: Board)
    requires Playable(g, order, b) && Responsive(g, worker, b)
    ensures Responsive(g, worker, Round(g, order, worker, b))
  {
    var r := Round(g, order, worker, b);
    forall t | t in g && Undecided(r.status[t]) ensures Answers(worker, t, r.attempts[t]) {
      RoundLoad(g, order, worker, b, t);
    }
  }

  lemma RoundShrinks(g: Graph, order: seq<string>, worker: Worker, b: Board)
    requires Playable(g, order, b) && Responsive(g, worker, b) && ReadyNow(g, order, b) != []
    ensures Responsive(g, worker, Round(g, order, worker, b))
    ensures TotalLoad(g, order, worker, Round(g, order, worker, b)) < TotalLoad(g, order, worker, b)
  {
    var r := Round(g, order, worker, b);
    RoundResponsive(g, order, worker, b);
    forall t | t in g ensures Load(worker, r, t) <= Load(worker, b, t) {
      RoundLoad(g, order, worker, b, t);
    }
    var first := ReadyNow(g, order, b)[0];
    OffersAreReady(g, order, b);
    assert first in g;
    RoundLoad(g, order, worker, b, first);
    assert first in Elems(order) && forall t :: t in order ==> t in Elems(order);
    hide Round, ReadyNow, Load, Answers;
    LoadDrops(worker, b, r, order);
  }

  // ----- exactly which workers make every run end

  lemma {:induction false} ResponsiveEnds(g: Graph, order: seq<string>, worker: Worker, b: Board)
    requires Playable(g, order, b) && Responsive(g, worker, b)
    ensures Ends(g, order, worker, b)
    decreases TotalLoad(g, order, worker, b)
  {
    if Stopped(g, order, b) {
      assert StopsAfter(g, order, worker, b, 0);
    } else {
      RoundShrinks(g, order, worker, b);
      ResponsiveEnds(g, order, worker, Round(g, order, worker, b));
      var n: nat :| StopsAfter(g, order, worker, Round(g, order, worker, b), n);
      RoundFirst(g, order, worker, b, n);
      assert StopsAfter(g, order, worker, b, n + 1);
    }
  }

  /** Only t is left, after n attempts; everything else is done. */
  function OnlyLeft(g: Graph, t: string, n: int): Board {
    Board(map x | x in g :: if x == t then Pending else Done, map x | x in g :: if x == t then n else 0)
  }

  /** t is still undecided, and nothing else is left. */
  ghost predicate StillLeft(g: Graph, order: seq<string>, b: Board, t: string, n: int) {
    && Playable(g, order, b) && t in g && Undecided(b.status[t]) && b.attempts[t] == n
    && forall x :: x in g && x != t ==> b.status[x].Done?
  }

  lemma LeftIsReady(g: Graph, order: seq<string>, b: Board, t: string, n: int)
    requires StillLeft(g, order, b, t, n) && Closed(g) && t !in g[t]
    ensures t in ReadyNow(g, order, b) && !Stopped(g, order, b)
  {
    Triage(g, order, b, t);
    forall d | d in g[t] ensures d in b.status && b.status[d].Done? {
      assert d in Elems(g[t]);
    }
    QuietKeeps(b.status, Swept(g, order, b).status, g[t]);
    NotBoth(Swept(g, order, b).status, g[t]);
    assert !Terminal(b.status[t]);
    hide Swept, ReadyNow, AllDone, SomeBad, Quiet, Fits;
  }

  lemma HandedBackOnce(g: Graph, order: seq<string>, worker: Worker, b: Board, t: string, n: int)
    requires StillLeft(g, order, b, t, n) && Closed(g) && t !in g[t] && !Decides(worker, t, n + 1)
    ensures StillLeft(g, order, Round(g, order, worker, b), t, n + 1)
  {
    hide Round, ReadyNow, Closed, Stopped, Playable;
    LeftIsReady(g, order, b, t, n);
    ReadyIsCalled(g, order, worker, b, t);
    BoardKeys(g, order, Round(g, order, worker, b));
    forall x | x in g && x != t ensures Round(g, order, worker, b).status[x].Done? {
      DecidedStays(g, order, worker, b, x);
    }
  }

  lemma BoardKeys(g: Graph, order: seq<string>, b: Board)
    requires Playable(g, order, b)
    ensures b.status.Keys == g.Keys == b.attempts.Keys
  {
  }

  lemma StartsLeft(g: Graph, order: seq<string>, t: string, n: int)
    requires Playable(g, order, OnlyLeft(g, t, n)) && t in g
    ensures StillLeft(g, order, OnlyLeft(g, t, n), t, n)
  {
  }

  lemma {:induction false} LeftForever(g: Graph, order: seq<string>, worker: Worker, t: string, n: int, k: nat)
    requires Playable(g, order, OnlyLeft(g, t, n)) && Closed(g) && t in g && t !in g[t] && !Answers(worker, t, n)
    ensures StillLeft(g, order, AfterRounds(g, order, worker, OnlyLeft(g, t, n), k), t, n + k)
  {
    hide Round, StillLeft, Closed, Decides, OnlyLeft, Fits;
    if k == 0 {
      StartsLeft(g, order, t, n);
    } else {
      LeftForever(g, order, worker, t, n, k - 1);
      assert n + k > n && !Decides(worker, t, n + k);
      HandedBackOnce(g, order, worker, AfterRounds(g, order, worker, OnlyLeft(g, t, n), k - 1), t, n + k - 1);
    }
  }

  /** A task handed back at every attempt is called again every round, forever. */
  lemma HandedBackForever(g: Graph, order: seq<string>, worker: Worker, t: string, n: int, k: nat)
    requires Playable(g, order, OnlyLeft(g, t, n)) && Closed(g) && t in g && t !in g[t] && !Answers(worker, t, n)
    ensures AfterRounds(g, order, worker, OnlyLeft(g, t, n), k).attempts[t] == n + k
    ensures !Stopped(g, order, AfterRounds(g, order, worker, OnlyLeft(g, t, n), k))
  {
    LeftForever(g, order, worker, t, n, k);
    hide AfterRounds, OnlyLeft, Stopped, Closed;
    LeftIsReady(g, order, AfterRounds(g, order, worker, OnlyLeft(g, t, n), k), t, n + k);
  }

  /** For a task DAG, every run ends, from whatever statuses and attempts, exactly when
      after any number of attempts at any task there is one to come that decides it. */
  lemma EndsExactly(g: Graph, order: seq<string>, worker: Worker)
    requires Closed(g) && Acyclic(g) && Distinct(order) && Elems(order) == g.Keys
    ensures (forall b :: Playable(g, order, b) ==> Ends(g, order, worker, b)) <==>
            (forall t, n :: t in g ==> Answers(worker, t, n))
  {
    if forall t, n :: t in g ==> Answers(worker, t, n) {
      forall b | Playable(g, order, b) ensures Ends(g, order, worker, b) {
        ResponsiveEnds(g, order, worker, b);
      }
    } else {
      var t, n :| t in g && !Answers(worker, t, n);
      var b := OnlyLeft(g, t, n);
      assert Playable(g, order, b);
      assert t !in g[t] by {
        if t in g[t] { assert IsCycle(g, [t]); }
      }
      forall k: nat ensures !StopsAfter(g, order, worker, b, k) {
        HandedBackForever(g, order, worker, t, n, k);
      }
      assert !Ends(g, order, worker, b);
    }
  }
}
