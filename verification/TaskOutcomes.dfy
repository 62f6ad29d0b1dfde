/**
 What sweeps, batches and runs do to the tasks
 (sifter/src/aa_sifter/tasks/graph.py, sifter/src/aa_sifter/tasks/executor.py), task
 by task in the order of insertion and said of the statuses themselves.
 */
module TaskOutcomes {
  import opened Lex
  import opened Outcomes
  import opened DependencyGraph
  import opened TaskGraphs
  import opened TaskRounds
  import opened TaskExecutor

  // ----- what a sweep sees

  /** The status of a dependency when the sweep comes to position i: tasks before it
      have been visited. */
  function Seen(order: seq<string>, st: Statuses, after: Statuses, i: nat, d: string): Status
    requires i <= |order| && d in st && d in after
  {
    if d in order[..i] then after[d] else st[d]
  }

  ghost predicate SeesBad(g: Graph, order: seq<string>, st: Statuses, after: Statuses, i: nat)
    requires i < |order| && order[i] in g && st.Keys == after.Keys
  {
    exists d :: d in g[order[i]] && d in st && Seen(order, st, after, i, d) in {Failed, Skipped}
  }

  ghost predicate SeesAllDone(g: Graph, order: seq<string>, st: Statuses, after: Statuses, i: nat)
    requires i < |order| && order[i] in g && st.Keys == after.Keys
  {
    forall d :: d in g[order[i]] ==> d in st && Seen(order, st, after, i, d) == Done
  }

  ghost predicate Sweepable(g: Graph, order: seq<string>, st: Statuses) {
    Distinct(order) && forall t :: t in order ==> t in g && t in st
  }

  /** What the ready sweep does at position i. */
  ghost predicate ReadyRule(g: Graph, order: seq<string>, st: Statuses, after: Statuses, i: nat, offered: bool)
    requires i < |order| && order[i] in g && order[i] in st && st.Keys == after.Keys
  {
    var t := order[i];
    if st[t] !in {Pending, Ready} then after[t] == st[t] && !offered
    else if SeesBad(g, order, st, after, i) then after[t] == Skipped && !offered
    else if SeesAllDone(g, order, st, after, i) then after[t] == Ready && offered
    else after[t] == st[t] && !offered
  }

  /** The ready sweep: each task by its rule, those offered listed in order. */
  ghost predicate ReadyRules(g: Graph, order: seq<string>, st: Statuses, after: Statuses, ready: seq<string>)
    requires Sweepable(g, order, st)
  {
    && after.Keys == st.Keys
    && (forall i :: 0 <= i < |order| ==> ReadyRule(g, order, st, after, i, order[i] in ready))
    && (forall t :: t in st && t !in order ==> after[t] == st[t])
    && exists at :: InOrder(order, ready, at)
  }

  ghost predicate InOrder(order: seq<string>, picked: seq<string>, at: seq<nat>) {
    && |at| == |picked| && (forall k :: 0 <= k < |at| ==> at[k] < |order| && picked[k] == order[at[k]])
    && forall j, k :: 0 <= j < k < |at| ==> at[j] < at[k]
  }

  ghost predicate InvalidRule(g: Graph, order: seq<string>, st: Statuses, after: Statuses, i: nat)
    requires i < |order| && order[i] in g && order[i] in st && st.Keys == after.Keys
  {
    var t := order[i];
    after[t] == if st[t] == Pending && SeesBad(g, order, st, after, i) then Skipped else st[t]
  }

  /** The invalidation sweep. */
  ghost predicate InvalidRules(g: Graph, order: seq<string>, st: Statuses, after: Statuses)
    requires Sweepable(g, order, st)
  {
    && after.Keys == st.Keys
    && (forall i :: 0 <= i < |order| ==> InvalidRule(g, order, st, after, i))
    && forall t :: t in st && t !in order ==> after[t] == st[t]
  }

  // ----- the ready sweep

  lemma {:induction false} SweepPrefix(g: Graph, order: seq<string>, st: Statuses, i: nat, d: string)
    requires Sweepable(g, order, st) && i <= |order| && d in st
    ensures Sweepable(g, order[..i], st)
    ensures ReadySweep(g, order[..i], st)[d] == Seen(order, st, ReadySweep(g, order, st), i, d)
    decreases |order|
  {
    hide ReadyVisit;
    if i == |order| {
      assert order[..i] == order;
      Untouched(g, order, st, d);
    } else {
      var init, last := order[..|order| - 1], order[|order| - 1];
      assert order == init + [last] && init[..i] == order[..i] && last !in init;
      SweepPrefix(g, init, st, i, d);
      assert last in order;
      if d != last {
        VisitChanges(g, ReadySweep(g, init, st), last, d);
      } else {
        assert d !in order[..i];
        Untouched(g, init, st, d);
      }
    }
  }

  lemma VisitChanges(g: Graph, st: Statuses, t: string, d: string)
    requires t in g && t in st && d in st && d != t
    ensures ReadyVisit(g, st, t)[d] == st[d]
  {
  }

  lemma {:induction false} Untouched(g: Graph, order: seq<string>, st: Statuses, d: string)
    requires (forall t :: t in order ==> t in g && t in st) && d in st
    ensures d !in order ==> ReadySweep(g, order, st)[d] == st[d]
  {
    hide ReadyVisit;
    if order != [] {
      var init, last := order[..|order| - 1], order[|order| - 1];
      Untouched(g, init, st, d);
      if d != last {
        VisitChanges(g, ReadySweep(g, init, st), last, d);
      }
    }
  }

  /** What is at position i is picked at its own visit. */
  lemma {:induction false} PickedThere(g: Graph, order: seq<string>, st: Statuses, i: nat)
    requires Sweepable(g, order, st) && i < |order|
    ensures forall t :: t in order[..i] ==> t in g && t in st
    ensures var before := ReadySweep(g, order[..i], st);
            order[i] in ReadyList(g, order, st) <==>
              Undecided(before[order[i]]) && !SomeBad(before, g[order[i]]) && AllDone(before, g[order[i]])
    decreases |order|
  {
    hide SomeBad, AllDone, ReadySweep;
    var init, last := order[..|order| - 1], order[|order| - 1];
    assert order == init + [last] && last !in init;
    if i == |order| - 1 {
      ReadyListDistinct(g, init, st);
      assert last !in ReadyList(g, init, st) by { assert last !in Elems(init); }
    } else {
      assert init[i] == order[i] && init[..i] == order[..i] && init[i] in init;
      PickedThere(g, init, st, i);
    }
  }

  /** A sweep that has come to position i judges its task by what it sees. */
  lemma JudgesBySight(g: Graph, order: seq<string>, st: Statuses, before: Statuses, after: Statuses, i: nat)
    requires i < |order| && order[i] in g && before.Keys == st.Keys == after.Keys
    requires forall d :: d in st ==> before[d] == Seen(order, st, after, i, d)
    ensures SomeBad(before, g[order[i]]) <==> SeesBad(g, order, st, after, i)
    ensures AllDone(before, g[order[i]]) <==> SeesAllDone(g, order, st, after, i)
  {
    hide Seen;
  }

  lemma SeenAtVisit(g: Graph, order: seq<string>, st: Statuses, i: nat)
    requires Sweepable(g, order, st) && i < |order|
    ensures Sweepable(g, order[..i], st)
    ensures var before, after := ReadySweep(g, order[..i], st), ReadySweep(g, order, st);
            && (SomeBad(before, g[order[i]]) <==> SeesBad(g, order, st, after, i))
            && (AllDone(before, g[order[i]]) <==> SeesAllDone(g, order, st, after, i))
            && before[order[i]] == st[order[i]] && after[order[i]] == ReadyVisit(g, before, order[i])[order[i]]
  {
    hide ReadySweep, ReadyVisit, SomeBad, AllDone, SeesBad, SeesAllDone;
    SweepPrefix(g, order, st, i, order[i]);
    var before, after := ReadySweep(g, order[..i], st), ReadySweep(g, order, st);
    forall d | d in st ensures before[d] == Seen(order, st, after, i, d) { SweepPrefix(g, order, st, i, d); }
    JudgesBySight(g, order, st, before, after, i);
    assert order[i] !in order[..i];
    SweepPrefix(g, order, st, i + 1, order[i]);
    assert order[..i + 1] == order[..i] + [order[i]] && order[i] in order[..i + 1];
    SweepLast(g, order[..i], order[i], st);
  }

  lemma {:induction false} ListInOrder(g: Graph, order: seq<string>, st: Statuses) returns (at: seq<nat>)
    requires forall t :: t in order ==> t in g && t in st
    ensures InOrder(order, ReadyList(g, order, st), at)
  {
    hide SomeBad, AllDone, ReadySweep;
    if order == [] {
      at := [];
    } else {
      var init := order[..|order| - 1];
      at := ListInOrder(g, init, st);
      if ReadyList(g, order, st) != ReadyList(g, init, st) {
        at := at + [|order| - 1];
      }
    }
  }

  lemma ReadyExactly(g: Graph, order: seq<string>, st: Statuses)
    requires Sweepable(g, order, st)
    ensures ReadyRules(g, order, st, ReadySweep(g, order, st), ReadyList(g, order, st))
  {
    var after, ready := ReadySweep(g, order, st), ReadyList(g, order, st);
    forall i | 0 <= i < |order| ensures ReadyRule(g, order, st, after, i, order[i] in ready) {
      PickedThere(g, order, st, i);
      SeenAtVisit(g, order, st, i);
      hide ReadySweep, ReadyList, SomeBad, AllDone, SeesBad, SeesAllDone;
    }
    forall t | t in st && t !in order ensures after[t] == st[t] { Untouched(g, order, st, t); }
    var at := ListInOrder(g, order, st);
    hide ReadyRule, InOrder;
  }

  // ----- the invalidation sweep

  lemma {:induction false} InvalidPrefix(g: Graph, order: seq<string>, st: Statuses, i: nat, d: string)
    requires Sweepable(g, order, st) && i <= |order| && d in st
    ensures Sweepable(g, order[..i], st)
    ensures InvalidateSweep(g, order[..i], st)[d] == Seen(order, st, InvalidateSweep(g, order, st), i, d)
    decreases |order|
  {
    hide InvalidateVisit;
    if i == |order| {
      assert order[..i] == order;
      InvalidElsewhere(g, order, st, d);
    } else {
      var init, last := order[..|order| - 1], order[|order| - 1];
      assert order == init + [last] && init[..i] == order[..i] && last !in init && last in order;
      InvalidPrefix(g, init, st, i, d);
      if d != last {
        InvalidChanges(g, InvalidateSweep(g, init, st), last, d);
      } else {
        assert d !in order[..i];
        InvalidElsewhere(g, init, st, d);
      }
    }
  }

  lemma InvalidChanges(g: Graph, st: Statuses, t: string, d: string)
    requires t in g && t in st && d in st && d != t
    ensures InvalidateVisit(g, st, t)[d] == st[d]
  {
  }

  lemma {:induction false} InvalidElsewhere(g: Graph, order: seq<string>, st: Statuses, d: string)
    requires (forall t :: t in order ==> t in g && t in st) && d in st
    ensures d !in order ==> InvalidateSweep(g, order, st)[d] == st[d]
  {
    hide InvalidateVisit;
    if order != [] {
      var init, last := order[..|order| - 1], order[|order| - 1];
      InvalidElsewhere(g, init, st, d);
      if d != last {
        InvalidChanges(g, InvalidateSweep(g, init, st), last, d);
      }
    }
  }

  lemma InvalidAtVisit(g: Graph, order: seq<string>, st: Statuses, i: nat)
    requires Sweepable(g, order, st) && i < |order|
    ensures InvalidRule(g, order, st, InvalidateSweep(g, order, st), i)
  {
    hide InvalidateSweep, InvalidateVisit, SomeBad, AllDone, SeesBad, SeesAllDone;
    InvalidPrefix(g, order, st, i, order[i]);
    var before, after := InvalidateSweep(g, order[..i], st), InvalidateSweep(g, order, st);
    forall d | d in st ensures before[d] == Seen(order, st, after, i, d) { InvalidPrefix(g, order, st, i, d); }
    JudgesBySight(g, order, st, before, after, i);
    assert order[i] !in order[..i];
    InvalidPrefix(g, order, st, i + 1, order[i]);
    assert order[..i + 1] == order[..i] + [order[i]] && order[i] in order[..i + 1];
    InvalidLast(g, order[..i], order[i], st);
  }

  lemma InvalidLast(g: Graph, init: seq<string>, t: string, st: Statuses)
    requires forall x :: x in init + [t] ==> x in g && x in st
    ensures var before := InvalidateSweep(g, init, st);
            InvalidateSweep(g, init + [t], st)[t]
            == if before[t] == Pending && SomeBad(before, g[t]) then Skipped else before[t]
  {
    assert (init + [t])[..|init|] == init;
  }

  lemma InvalidExactly(g: Graph, order: seq<string>, st: Statuses)
    requires Sweepable(g, order, st)
    ensures InvalidRules(g, order, st, InvalidateSweep(g, order, st))
  {
    forall i | 0 <= i < |order| ensures InvalidRule(g, order, st, InvalidateSweep(g, order, st), i) {
      InvalidAtVisit(g, order, st, i);
    }
    forall t | t in st && t !in order ensures InvalidateSweep(g, order, st)[t] == st[t] {
      InvalidElsewhere(g, order, st, t);
    }
    hide InvalidateSweep, InvalidRule;
  }

  // ----- rounds

  /** How a worker call leaves its task. */
  predicate Leaves(r: Report, s: Status) {
    match r
    case NeedsApproval => s == BlockedApproval
    case Raises => s == Failed
    case Returns(Running) => s == Done
    case Returns(left) => s == left
  }

  /** One batch: each offered task is called once, under its next attempt number. */
  ghost predicate Called(worker: Worker, swept: Statuses, attempts: map<string, int>, ready: seq<string>,
      after: Statuses, counted: map<string, int>)
  {
    && after.Keys == swept.Keys && counted.Keys == attempts.Keys
    && (forall t :: t in swept && t !in ready ==> after[t] == swept[t])
    && (forall t :: t in attempts && t !in ready ==> counted[t] == attempts[t])
    && (forall t :: t in ready && t in attempts ==> counted[t] == attempts[t] + 1)
    && (forall t :: t in ready && t in attempts && t in swept ==> Leaves(worker(t, attempts[t] + 1), after[t]))
  }

  /** One round: sweep, batch, invalidation. */
  ghost predicate RoundRules(g: Graph, order: seq<string>, worker: Worker, b: Board, after: Board) {
    Sweepable(g, order, b.status)
    && exists swept, ready, called :: ready != [] && ReadyRules(g, order, b.status, swept, ready)
        && Called(worker, swept, b.attempts, ready, called, after.attempts)
        && Sweepable(g, order, called) && InvalidRules(g, order, called, after.status)
  }

  /** The end of a run: every task is done, failed or skipped, or the last sweep offers
      none. */
  ghost predicate EndRules(g: Graph, order: seq<string>, b: Board, end: Board) {
    if forall t :: t in b.status ==> b.status[t] in {Done, Failed, Skipped} then end == b
    else Sweepable(g, order, b.status) && ReadyRules(g, order, b.status, end.status, []) && end.attempts == b.attempts
  }

  ghost predicate SomeLeft(b: Board) {
    exists t :: t in b.status && b.status[t] !in {Done, Failed, Skipped}
  }

  /** A run: rounds as long as some task is left and one is offered. */
  ghost predicate RunRules(g: Graph, order: seq<string>, worker: Worker, boards: seq<Board>, end: Board) {
    && boards != [] && EndRules(g, order, boards[|boards| - 1], end)
    && forall k :: 0 <= k < |boards| - 1 ==>
         SomeLeft(boards[k]) && RoundRules(g, order, worker, boards[k], boards[k + 1])
  }

  lemma CalledExactly(b: Board, ready: seq<string>, worker: Worker)
    requires b.attempts.Keys == b.status.Keys
    ensures var after := AfterBatch(b, ready, worker);
            Called(worker, b.status, b.attempts, ready, after.status, after.attempts)
  {
  }

  lemma PlayableSweeps(g: Graph, order: seq<string>, b: Board)
    requires Playable(g, order, b)
    ensures Sweepable(g, order, b.status)
  {
    assert forall t :: t in order ==> t in Elems(order);
  }

  lemma RoundExactly(g: Graph, order: seq<string>, worker: Worker, b: Board)
    requires Playable(g, order, b) && ReadyNow(g, order, b) != []
    ensures RoundRules(g, order, worker, b, Round(g, order, worker, b))
  {
    PlayableSweeps(g, order, b);
    ReadyExactly(g, order, b.status);
    var swept, ready := Swept(g, order, b), ReadyNow(g, order, b);
    CalledExactly(swept, ready, worker);
    var batched := AfterBatch(swept, ready, worker);
    RoundIs(g, order, worker, b);
    assert Sweepable(g, order, batched.status);
    InvalidExactly(g, order, batched.status);
    hide AfterBatch, ReadySweep, ReadyList, ReadyRules, InvalidRules, Called, InvalidateSweep;
  }

  lemma EndExactly(g: Graph, order: seq<string>, b: Board)
    requires Playable(g, order, b)
    ensures AllTerminal(b.status) ==> EndRules(g, order, b, b)
    ensures !AllTerminal(b.status) && ReadyNow(g, order, b) == [] ==> EndRules(g, order, b, Swept(g, order, b))
    ensures !AllTerminal(b.status) ==> SomeLeft(b)
  {
    PlayableSweeps(g, order, b);
    ReadyExactly(g, order, b.status);
    hide ReadySweep, ReadyList, ReadyRules;
  }

  /** Every run that ends is a series of rounds by these rules. */
  lemma {:induction false} RunExactly(g: Graph, order: seq<string>, worker: Worker, b: Board)
    requires Playable(g, order, b) && Ends(g, order, worker, b)
    ensures exists boards :: RunRules(g, order, worker, boards, Rounds(g, order, worker, b)) && boards[0] == b
    decreases RoundsLeft(g, order, worker, b)
  {
    hide Playable, Round, Rounds, Ends, RoundsLeft, AllTerminal, ReadyNow, EndRules, RoundRules, SomeLeft;
    Unfolded(g, order, worker, b);
    EndExactly(g, order, b);
    var end := Rounds(g, order, worker, b);
    if AllTerminal(b.status) || ReadyNow(g, order, b) == [] {
      assert RunRules(g, order, worker, [b], end);
    } else {
      var next := Round(g, order, worker, b);
      RoundExactly(g, order, worker, b);
      RunExactly(g, order, worker, next);
      var rest :| RunRules(g, order, worker, rest, end) && rest[0] == next;
      RunsBefore(g, order, worker, b, rest, end);
    }
  }

  lemma RunsBefore(g: Graph, order: seq<string>, worker: Worker, b: Board, rest: seq<Board>, end: Board)
    requires RunRules(g, order, worker, rest, end) && SomeLeft(b) && RoundRules(g, order, worker, b, rest[0])
    ensures RunRules(g, order, worker, [b] + rest, end)
  {
    hide EndRules, RoundRules, SomeLeft;
    var boards := [b] + rest;
    forall k | 0 <= k < |boards| - 1
      ensures SomeLeft(boards[k]) && RoundRules(g, order, worker, boards[k], boards[k + 1])
    {
      if k > 0 { assert boards[k] == rest[k - 1] && boards[k + 1] == rest[k]; }
    }
  }
}
