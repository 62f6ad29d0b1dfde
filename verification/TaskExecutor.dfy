/**
 The executor of task graphs (sifter/src/aa_sifter/tasks/executor.py). Workers of one
 batch run concurrently; the batch loop below starts and finishes them in any
 order the concurrency limit allows, so what is proved of it holds for every
 interleaving.
 */
module TaskExecutor {
  import opened Lex
  import opened Outcomes
  import opened DependencyGraph
  import opened TaskGraphs
  import opened TaskRounds

  // ----- whole runs

  lemma {:induction false} RunsTrace(g: Graph, order: seq<string>, worker: Worker, b0: Board, b: Board, t: string)
    requires Playable(g, order, b0) && Playable(g, order, b) && Ends(g, order, worker, b) && t in g
    requires Traced(g, b0, worker, b, t)
    ensures Traced(g, b0, worker, Rounds(g, order, worker, b), t)
    ensures DependencyOrdered(g, order) && Undecided(Rounds(g, order, worker, b).status[t]) ==>
            !SomeBad(Rounds(g, order, worker, b).status, g[t])
    decreases RoundsLeft(g, order, worker, b)
  {
    Unfolded(g, order, worker, b);
    hide Rounds, RoundsLeft, Round, Ends, Traced, SomeBad, Playable;
    if AllTerminal(b.status) {
    } else if ReadyNow(g, order, b) == [] {
      LastSweep(g, order, worker, b0, b, t);
    } else {
      TracedFurther(g, order, worker, b0, b, t);
      RunsTrace(g, order, worker, b0, Round(g, order, worker, b), t);
    }
  }

  /** The sweep that finds nothing ready belongs to the trace. */
  lemma LastSweep(g: Graph, order: seq<string>, worker: Worker, b0: Board, b: Board, t: string)
    requires Playable(g, order, b0) && Playable(g, order, b) && t in g
    requires Traced(g, b0, worker, b, t) && ReadyNow(g, order, b) == []
    ensures Traced(g, b0, worker, Swept(g, order, b), t)
    ensures DependencyOrdered(g, order) && Undecided(Swept(g, order, b).status[t]) ==>
            !SomeBad(Swept(g, order, b).status, g[t])
  {
    Triage(g, order, b, t);
    var swept := Swept(g, order, b);
    QuietKeeps(b.status, swept.status, g[t]);
    NotBoth(swept.status, g[t]);
    OrderedLeavesNone(g, order, b, t);
    hide *;
    TraceSwept(g, worker, b0, b, swept, t);
  }

  lemma OrderedLeavesNone(g: Graph, order: seq<string>, b: Board, t: string)
    requires Playable(g, order, b) && t in g
    ensures DependencyOrdered(g, order) && Undecided(Swept(g, order, b).status[t]) ==>
            !SomeBad(Swept(g, order, b).status, g[t])
  {
    assert t in Elems(order) && forall x :: x in order ==> x in Elems(order);
    if DependencyOrdered(g, order) {
      SweepLeavesNoneBehind(g, order, b.status, t);
    }
  }

  lemma TraceSwept(g: Graph, worker: Worker, b0: Board, b: Board, swept: Board, t: string)
    requires t in g && t in b0.status && t in b0.attempts && t in b.status && t in b.attempts && t in swept.status
    requires swept.attempts == b.attempts && Traced(g, b0, worker, b, t)
    requires Triaged(g, b.status, swept.status, [], t)
    requires AllDone(b.status, g[t]) <==> AllDone(swept.status, g[t])
    requires SomeBad(b.status, g[t]) ==> SomeBad(swept.status, g[t])
    requires AllDone(swept.status, g[t]) ==> !SomeBad(swept.status, g[t])
    ensures Traced(g, b0, worker, swept, t)
  {
    hide SomeBad, AllDone;
  }

  /** A run that ends: every worker call comes with all dependencies done, and a task
      that is called is called up to its first deciding attempt, so only once if the
      next attempt decides; every skip has its bad dependency; and what is left undecided
      was never called and is left as it was, behind a dependency that is not done. */
  lemma RunFacts(g: Graph, order: seq<string>, worker: Worker, b: Board, t: string)
    requires Playable(g, order, b) && Ends(g, order, worker, b) && t in g
    ensures var r := Rounds(g, order, worker, b);
            && Traced(g, b, worker, r, t)
            && (r.attempts[t] != b.attempts[t] ==>
                && Decides(worker, t, r.attempts[t])
                && r.attempts[t] == b.attempts[t] + CallsLeft(worker, t, b.attempts[t]))
            && (Decides(worker, t, b.attempts[t] + 1) ==> r.attempts[t] <= b.attempts[t] + 1)
            && (Undecided(r.status[t]) ==>
                r.status[t] == b.status[t] && r.attempts[t] == b.attempts[t] && !AllDone(r.status, g[t]))
  {
    RunsTrace(g, order, worker, b, b, t);
    UndecidedWaits(g, order, worker, b, t);
    var r := Rounds(g, order, worker, b);
    BoardKeys(g, order, b);
    BoardKeys(g, order, r);
    hide *;
    CalledToDecision(g, worker, b, r, t);
  }

  /** A traced task that no longer waits was called up to its first deciding attempt. */
  lemma CalledToDecision(g: Graph, worker: Worker, b: Board, r: Board, t: string)
    requires t in g && t in b.status && t in b.attempts && t in r.status && t in r.attempts
    requires Traced(g, b, worker, r, t) && (Undecided(r.status[t]) ==> !AllDone(r.status, g[t]))
    ensures r.attempts[t] != b.attempts[t] ==>
            && Decides(worker, t, r.attempts[t])
            && r.attempts[t] == b.attempts[t] + CallsLeft(worker, t, b.attempts[t])
    ensures Decides(worker, t, b.attempts[t] + 1) ==> r.attempts[t] <= b.attempts[t] + 1
    ensures Undecided(r.status[t]) ==> r.status[t] == b.status[t] && r.attempts[t] == b.attempts[t]
  {
    hide SomeBad, AllDone, CallsLeft;
    if r.attempts[t] != b.attempts[t] {
      assert NextDeciding(worker, t, b.attempts[t], r.attempts[t]);
      CallsLeftIs(worker, t, b.attempts[t], r.attempts[t]);
    }
  }

  // ----- one pass over the tasks

  /** What becomes of a task, given what becomes of its dependencies: if it is called,
      the first attempt that decides it counts. */
  ghost function Verdict(g: Graph, b0: Board, worker: Worker, st: Statuses, t: string): Status
    requires t in g && t in b0.status && t in b0.attempts
  {
    if !Undecided(b0.status[t]) then b0.status[t]
    else if SomeBad(st, g[t]) then Skipped
    else if AllDone(st, g[t]) then AfterWorker(worker(t, b0.attempts[t] + CallsLeft(worker, t, b0.attempts[t])))
    else b0.status[t]
  }

  /** A single pass in insertion order, without rounds or batches. */
  ghost function OnePass(g: Graph, order: seq<string>, b0: Board, worker: Worker): (r: Statuses)
    requires forall t :: t in order ==> t in g && t in b0.status && t in b0.attempts
    ensures r.Keys == Elems(order)
  {
    if order == [] then map[]
    else
      var init, t := order[..|order| - 1], order[|order| - 1];
      assert order == init + [t];
      assert forall x :: x in init ==> x in order;
      assert Elems(order) == Elems(init) + {t};
      var before := OnePass(g, init, b0, worker);
      before[t := Verdict(g, b0, worker, before, t)]
  }

  lemma VerdictReads(g: Graph, b0: Board, worker: Worker, a: Statuses, b: Statuses, t: string)
    requires t in g && t in b0.status && t in b0.attempts
    requires forall d :: d in g[t] ==> d in a && d in b && a[d] == b[d]
    ensures Verdict(g, b0, worker, a, t) == Verdict(g, b0, worker, b, t)
  {
  }

  /** Tasks whose statuses answer the verdict agree with the one pass. */
  lemma {:induction false} VerdictsAreOnePass(g: Graph, order: seq<string>, b0: Board, worker: Worker, st: Statuses,
      t: string)
    requires forall x :: x in order ==> x in g && x in b0.status && x in b0.attempts
    requires DependencyOrdered(g, order) && Distinct(order) && t in order
    requires forall x :: x in order ==> x in st && st[x] == Verdict(g, b0, worker, st, x)
    ensures st[t] == OnePass(g, order, b0, worker)[t]
    decreases |order|
  {
    var init, last := order[..|order| - 1], order[|order| - 1];
    OrderedInit(g, order);
    assert order == init + [last];
    assert forall x :: x in init ==> x in Elems(order);
    if t == last {
      var before := OnePass(g, init, b0, worker);
      forall d | d in g[t] ensures d in st && d in before && st[d] == before[d] {
        assert d in Elems(init);
        VerdictsAreOnePass(g, init, b0, worker, st, d);
      }
      VerdictReads(g, b0, worker, st, before, t);
    } else {
      VerdictsAreOnePass(g, init, b0, worker, st, t);
    }
  }

  lemma FinalVerdict(g: Graph, order: seq<string>, worker: Worker, b: Board, t: string)
    requires Playable(g, order, b) && Ends(g, order, worker, b) && DependencyOrdered(g, order) && t in g
    ensures Rounds(g, order, worker, b).status[t] == Verdict(g, b, worker, Rounds(g, order, worker, b).status, t)
  {
    RunFacts(g, order, worker, b, t);
    RunsTrace(g, order, worker, b, b, t);
    var r := Rounds(g, order, worker, b);
    hide *;
    TracedIsVerdict(g, worker, b, r, t);
  }

  lemma TracedIsVerdict(g: Graph, worker: Worker, b: Board, r: Board, t: string)
    requires t in g && t in b.status && t in b.attempts && t in r.status && t in r.attempts
    requires Traced(g, b, worker, r, t)
    requires r.attempts[t] != b.attempts[t] ==>
             r.attempts[t] == b.attempts[t] + CallsLeft(worker, t, b.attempts[t])
    requires Undecided(r.status[t]) ==>
             r.status[t] == b.status[t] && !AllDone(r.status, g[t]) && !SomeBad(r.status, g[t])
    ensures r.status[t] == Verdict(g, b, worker, r.status, t)
  {
    NotBoth(r.status, g[t]);
    hide AllDone, SomeBad, CallsLeft;
  }

  /** Statuses that all answer their verdicts are those of the one pass. */
  lemma VerdictsAllOnePass(g: Graph, order: seq<string>, b0: Board, worker: Worker, st: Statuses)
    requires forall x :: x in order ==> x in g && x in b0.status && x in b0.attempts
    requires DependencyOrdered(g, order) && Distinct(order) && st.Keys == Elems(order)
    requires forall x :: x in order ==> x in st && st[x] == Verdict(g, b0, worker, st, x)
    ensures st == OnePass(g, order, b0, worker)
  {
    forall t | t in st ensures st[t] == OnePass(g, order, b0, worker)[t] {
      assert t in Elems(order);
      VerdictsAreOnePass(g, order, b0, worker, st, t);
    }
    hide OnePass, Verdict, DependencyOrdered;
  }

  /** For tasks inserted in dependency order the batches, skips, retries and retreats
      of a run come to what one pass over the tasks gives. */
  lemma RunIsOnePass(g: Graph, order: seq<string>, worker: Worker, b: Board)
    requires Playable(g, order, b) && Ends(g, order, worker, b) && DependencyOrdered(g, order)
    ensures forall x :: x in order ==> x in g && x in b.status && x in b.attempts
    ensures Rounds(g, order, worker, b).status == OnePass(g, order, b, worker)
  {
    hide Rounds, Ends, Verdict, OnePass, DependencyOrdered;
    var st := Rounds(g, order, worker, b).status;
    assert forall x :: x in order ==> x in Elems(order);
    forall x | x in order ensures x in st && st[x] == Verdict(g, b, worker, st, x) {
      FinalVerdict(g, order, worker, b, x);
    }
    VerdictsAllOnePass(g, order, b, worker, st);
  }

  /** Not terminal, yet not waiting to be run either. */
  predicate Held(s: Status) {
    !Undecided(s) && !Terminal(s)
  }

  /** In dependency order, a dependency that is neither done nor bad came earlier. */
  lemma EarlierWaits(g: Graph, order: seq<string>, st: Statuses, at: nat) returns (d: string, j: nat)
    requires DependencyOrdered(g, order) && Elems(order) == g.Keys == st.Keys && at < |order| && order[at] in g
    requires !AllDone(st, g[order[at]]) && !SomeBad(st, g[order[at]])
    ensures j < at && order[j] == d && d in g && d in g[order[at]] && !st[d].Done? && !Bad(st[d])
  {
    var t := order[at];
    d :| d in g[t] && !(d in st && st[d].Done?);
    assert d in Elems(g[t]) && Elems(g[t]) <= Elems(order[..at]);
    j :| 0 <= j < at && order[..at][j] == d;
    assert d in Elems(order);
  }

  /** Whatever a run in dependency order leaves unrun is waiting, along some path
      of dependencies, for a task that is held up (blocked on approval, say). */
  lemma {:induction false} WaitingBehindHeld(g: Graph, order: seq<string>, worker: Worker, b: Board, t: string, at: nat)
    requires Playable(g, order, b) && Ends(g, order, worker, b) && DependencyOrdered(g, order)
    requires at < |order| && order[at] == t && t in g
    requires Undecided(Rounds(g, order, worker, b).status[t])
    ensures exists h :: h in g && DependsOn(g, t, h) && Held(Rounds(g, order, worker, b).status[h])
    decreases at
  {
    var st := Rounds(g, order, worker, b).status;
    RunFacts(g, order, worker, b, t);
    RunsTrace(g, order, worker, b, b, t);
    hide Rounds, Ends, Traced, CallsLeft;
    var d, j := EarlierWaits(g, order, st, at);
    DirectlyDepends(g, t, d);
    hide DependsOn, DependencyOrdered, Playable, SomeBad, AllDone;
    if Undecided(st[d]) {
      WaitingBehindHeld(g, order, worker, b, d, j);
      var h :| h in g && DependsOn(g, d, h) && Held(st[h]);
      DependsThrough(g, t, d, h);
    }
  }

  // ----- where the hypotheses are needed

  const CHAIN: Graph := map["a" := [], "b" := ["a"], "c" := ["b"], "d" := ["c"]]
  const BACKWARDS: seq<string> := ["d", "c", "b", "a"]

  function Row(a: Status, b: Status, c: Status, d: Status): Statuses {
    FourRow("a", "b", "c", "d", a, b, c, d)
  }

  function FourRow<K>(p: K, q: K, r: K, s: K, a: Status, b: Status, c: Status, d: Status): map<K, Status> {
    map[p := a, q := b, r := c, s := d]
  }

  lemma FourRowFacts<K>(p: K, q: K, r: K, s: K, a: Status, b: Status, c: Status, d: Status)
    requires p != q && p != r && p != s && q != r && q != s && r != s
    ensures var row := FourRow(p, q, r, s, a, b, c, d);
            && row.Keys == {p, q, r, s}
            && row[p] == a && row[q] == b && row[r] == c && row[s] == d
  {
  }

  /** A row with one entry replaced, for whichever name is at k. */
  lemma FourRowUpdate<K>(p: K, q: K, r: K, s: K, a: Status, b: Status, c: Status, d: Status, k: K, v: Status)
    requires p != q && p != r && p != s && q != r && q != s && r != s && k in {p, q, r, s}
    ensures FourRow(p, q, r, s, a, b, c, d)[k := v] ==
              FourRow(p, q, r, s, if k == p then v else a, if k == q then v else b, if k == r then v
                  else c, if k == s then v else d)
  {
    var m := FourRow(p, q, r, s, a, b, c, d);
    var n := FourRow(p, q, r, s, if k == p then v else a, if k == q then v else b, if k == r then v
        else c, if k == s then v else d);
    FourRowFacts(p, q, r, s, a, b, c, d);
    FourRowFacts(p, q, r, s, if k == p then v else a, if k == q then v else b, if k == r then v
        else c, if k == s then v else d);
    hide FourRow;
    assert m[k := v].Keys == m.Keys + {k} == n.Keys;
    forall x | x in n ensures m[k := v][x] == n[x] {
      assert x == p || x == q || x == r || x == s;
    }
  }

  function Fresh(): Board {
    Board(Row(Pending, Pending, Pending, Pending), map["a" := 0, "b" := 0, "c" := 0, "d" := 0])
  }

  lemma ChainFacts()
    ensures CHAIN.Keys == {"a", "b", "c", "d"} == Elems(BACKWARDS) && Closed(CHAIN) && Distinct(BACKWARDS)
    ensures CHAIN["a"] == [] && CHAIN["b"] == ["a"] && CHAIN["c"] == ["b"] && CHAIN["d"] == ["c"]
    ensures BACKWARDS[..3] == ["d", "c", "b"] && ["d", "c", "b"][..2] == ["d", "c"] && ["d", "c"][..1] == ["d"]
            && ["d"][..0] == []
    ensures BACKWARDS == ["d", "c", "b"] + ["a"] && ["d", "c", "b"] == ["d", "c"] + ["b"]
            && ["d", "c"] == ["d"] + ["c"] && ["d"] == [] + ["d"]
  {
  }

  lemma RowFacts(a: Status, b: Status, c: Status, d: Status)
    ensures var row := Row(a, b, c, d);
            && row.Keys == {"a", "b", "c", "d"}
            && row["a"] == a && row["b"] == b && row["c"] == c && row["d"] == d
            && row["a" := Ready] == Row(Ready, b, c, d)
            && row["b" := Skipped] == Row(a, Skipped, c, d)
            && row["c" := Skipped] == Row(a, b, Skipped, d)
            && !SomeBad(row, []) && AllDone(row, [])
            && SomeBad(row, ["a"]) == Bad(a) && AllDone(row, ["a"]) == a.Done?
            && SomeBad(row, ["b"]) == Bad(b) && AllDone(row, ["b"]) == b.Done?
            && SomeBad(row, ["c"]) == Bad(c) && AllDone(row, ["c"]) == c.Done?
  {
    var row := Row(a, b, c, d);
    FourRowFacts("a", "b", "c", "d", a, b, c, d);
    FourRowUpdate("a", "b", "c", "d", a, b, c, d, "a", Ready);
    FourRowUpdate("a", "b", "c", "d", a, b, c, d, "b", Skipped);
    FourRowUpdate("a", "b", "c", "d", a, b, c, d, "c", Skipped);
    hide SomeBad, AllDone, FourRow;
    OneDependency(row, "a");
    OneDependency(row, "b");
    OneDependency(row, "c");
    NoDependency(row);
  }

  lemma OneDependency(st: Statuses, d: string)
    requires d in st
    ensures SomeBad(st, [d]) == Bad(st[d]) && AllDone(st, [d]) == st[d].Done?
  {
    assert d in [d];
  }

  lemma NoDependency(st: Statuses)
    ensures AllDone(st, []) && !SomeBad(st, [])
  {
  }

  /** The first ready sweep finds only "a" to run. */
  lemma FirstSweep()
    ensures forall t :: t in BACKWARDS ==> t in CHAIN && t in Fresh().status
    ensures ReadySweep(CHAIN, BACKWARDS, Fresh().status) == Row(Ready, Pending, Pending, Pending)
    ensures ReadyList(CHAIN, BACKWARDS, Fresh().status) == ["a"]
  {
    var st := Fresh().status;
    ChainFacts();
    RowFacts(Pending, Pending, Pending, Pending);
    assert ReadySweep(CHAIN, [], st) == st && ReadyList(CHAIN, [], st) == [];
    hide SomeBad, AllDone, Row, ReadySweep, ReadyList;
    SweepLast(CHAIN, [], "d", st);
    SweepLast(CHAIN, ["d"], "c", st);
    SweepLast(CHAIN, ["d", "c"], "b", st);
    SweepLast(CHAIN, ["d", "c", "b"], "a", st);
  }

  /** A visit that changes nothing. */
  lemma VisitStays(g: Graph, init: seq<string>, t: string, st: Statuses, before: Statuses)
    requires (forall x :: x in init + [t] ==> x in g && x in st) && before == ReadySweep(g, init, st)
    requires t in before && (!Undecided(before[t]) || (!SomeBad(before, g[t]) && !AllDone(before, g[t])))
    ensures ReadySweep(g, init + [t], st) == before && ReadyList(g, init + [t], st) == ReadyList(g, init, st)
  {
    SweepLast(g, init, t, st);
    hide SomeBad, AllDone, ReadySweep, ReadyList;
  }

  /** A visit that skips. */
  lemma VisitSkips(g: Graph, init: seq<string>, t: string, st: Statuses, before: Statuses)
    requires (forall x :: x in init + [t] ==> x in g && x in st) && before == ReadySweep(g, init, st)
    requires t in before && Undecided(before[t]) && SomeBad(before, g[t])
    ensures ReadySweep(g, init + [t], st) == before[t := Skipped]
            && ReadyList(g, init + [t], st) == ReadyList(g, init, st)
  {
    SweepLast(g, init, t, st);
    hide SomeBad, AllDone, ReadySweep, ReadyList;
  }

  /** A sweep against the direction of a chain, behind a failure: it skips one task. */
  lemma BackSweep(g: Graph, a: string, b: string, c: string, d: string, st: Statuses)
    requires a in g && b in g && c in g && d in g && a in st && b in st && c in st && d in st
    requires a != c && b != c && d != c && g[d] == [c] && g[c] == [b]
    requires st[a] == Failed && st[b] == Skipped && st[c] == Pending && st[d] == Pending
    ensures ReadySweep(g, [d, c, b, a], st) == st[c := Skipped] && ReadyList(g, [d, c, b, a], st) == []
  {
    OneDependency(st, b);
    assert [d, c] + [b] == [d, c, b] && [d, c, b] + [a] == [d, c, b, a];
    hide SomeBad, AllDone, ReadySweep, ReadyList;
    BackSweepStart(g, c, d, st);
    VisitStays(g, [d, c], b, st, st[c := Skipped]);
    VisitStays(g, [d, c, b], a, st, st[c := Skipped]);
  }

  lemma BackSweepStart(g: Graph, c: string, d: string, st: Statuses)
    requires c in g && d in g && c in st && d in st && c != d && g[d] == [c]
    requires SomeBad(st, g[c]) && st[c] == Pending && st[d] == Pending
    ensures forall x :: x in [d, c] ==> x in g && x in st
    ensures ReadySweep(g, [d, c], st) == st[c := Skipped] && ReadyList(g, [d, c], st) == []
  {
    OneDependency(st, c);
    assert [] + [d] == [d] && [d] + [c] == [d, c];
    assert ReadySweep(g, [], st) == st && ReadyList(g, [], st) == [];
    hide SomeBad, AllDone, ReadySweep, ReadyList;
    VisitStays(g, [], d, st, st);
    VisitSkips(g, [d], c, st, st);
  }

  /** The sweep after the failure reaches "c" but not "d", and finds nothing to run. */
  lemma SecondSweep()
    ensures forall t :: t in BACKWARDS ==> t in CHAIN && t in Row(Failed, Skipped, Pending, Pending)
    ensures ReadySweep(CHAIN, BACKWARDS, Row(Failed, Skipped, Pending, Pending)) ==
            Row(Failed, Skipped, Skipped, Pending)
    ensures ReadyList(CHAIN, BACKWARDS, Row(Failed, Skipped, Pending, Pending)) == []
  {
    ChainFacts();
    RowFacts(Failed, Skipped, Pending, Pending);
    hide Row, ReadySweep, ReadyList, SomeBad, AllDone;
    BackSweep(CHAIN, "a", "b", "c", "d", Row(Failed, Skipped, Pending, Pending));
  }

  lemma SkipsAfterFailure()
    ensures forall t :: t in BACKWARDS ==> t in CHAIN && t in Row(Failed, Pending, Pending, Pending)
    ensures InvalidateSweep(CHAIN, BACKWARDS, Row(Failed, Pending, Pending, Pending)) ==
            Row(Failed, Skipped, Pending, Pending)
  {
    var st := Row(Failed, Pending, Pending, Pending);
    ChainFacts();
    RowFacts(Failed, Pending, Pending, Pending);
    RowFacts(Failed, Skipped, Pending, Pending);
    hide SomeBad, Row;
    assert InvalidateSweep(CHAIN, [], st) == st;
    assert InvalidateSweep(CHAIN, ["d"], st) == st;
    assert InvalidateSweep(CHAIN, ["d", "c"], st) == st;
    assert InvalidateSweep(CHAIN, ["d", "c", "b"], st) == Row(Failed, Skipped, Pending, Pending);
  }

  lemma FailingBatch(worker: Worker, attempts: map<string, int>)
    requires worker == ((t, n) => Raises) && attempts.Keys == {"a", "b", "c", "d"}
    ensures Row(Ready, Pending, Pending, Pending).Keys == attempts.Keys
    ensures AfterBatch(Board(Row(Ready, Pending, Pending, Pending), attempts), ["a"], worker).status ==
            Row(Failed, Pending, Pending, Pending)
  {
    RowFacts(Ready, Pending, Pending, Pending);
  }

  lemma FirstRound(worker: Worker)
    requires worker == ((t, n) => Raises)
    ensures Playable(CHAIN, BACKWARDS, Fresh()) && ReadyNow(CHAIN, BACKWARDS, Fresh()) == ["a"]
    ensures Round(CHAIN, BACKWARDS, worker, Fresh()).status == Row(Failed, Skipped, Pending, Pending)
  {
    FreshFits();
    FirstSweep();
    SkipsAfterFailure();
    FailingBatch(worker, Fresh().attempts);
    assert Swept(CHAIN, BACKWARDS, Fresh()) == Board(Row(Ready, Pending, Pending, Pending), Fresh().attempts);
    assert ReadyNow(CHAIN, BACKWARDS, Fresh()) == ["a"];
    RoundIs(CHAIN, BACKWARDS, worker, Fresh());
    hide *;
  }

  lemma FreshFits()
    ensures Playable(CHAIN, BACKWARDS, Fresh()) && Fresh().attempts.Keys == {"a", "b", "c", "d"}
  {
    ChainFacts();
    RowFacts(Pending, Pending, Pending, Pending);
  }

  /** Inserted backwards, a chain of four behind a failing task ends with its
      last task pending behind a skipped one. */
  lemma BackwardsLeavesPending(worker: Worker)
    requires worker == ((t, n) => Raises)
    ensures Playable(CHAIN, BACKWARDS, Fresh()) && Ends(CHAIN, BACKWARDS, worker, Fresh())
    ensures Rounds(CHAIN, BACKWARDS, worker, Fresh()).status == Row(Failed, Skipped, Skipped, Pending)
  {
    FirstRound(worker);
    RaisingAnswers(CHAIN, worker, Fresh());
    ResponsiveEnds(CHAIN, BACKWARDS, worker, Fresh());
    DIsPending(Fresh().status, Pending, Pending, Pending);
    hide *;
    SecondRound(Round(CHAIN, BACKWARDS, worker, Fresh()));
    StopsAfterOne(CHAIN, BACKWARDS, worker, Fresh());
  }

  lemma RaisingAnswers(g: Graph, worker: Worker, b: Board)
    requires worker == ((t, n) => Raises)
    ensures Responsive(g, worker, b)
  {
    forall t, n: int ensures Answers(worker, t, n) {
      assert n + 1 > n && Decides(worker, t, n + 1);
    }
  }

  /** A run of a single round. */
  lemma StopsAfterOne(g: Graph, order: seq<string>, worker: Worker, b: Board)
    requires Playable(g, order, b) && Ends(g, order, worker, b) && !AllTerminal(b.status)
             && ReadyNow(g, order, b) != []
    requires var r := Round(g, order, worker, b); !AllTerminal(r.status) && ReadyNow(g, order, r) == []
    ensures Rounds(g, order, worker, b) == Swept(g, order, Round(g, order, worker, b))
  {
    hide Playable, Ends, AllTerminal, ReadyNow, Round, Swept, Rounds, RoundsLeft;
    Unfolded(g, order, worker, b);
    Unfolded(g, order, worker, Round(g, order, worker, b));
  }

  lemma DIsPending(st: Statuses, a: Status, b: Status, c: Status)
    requires st == Row(a, b, c, Pending)
    ensures !AllTerminal(st)
  {
    assert "d" in st && st["d"].Pending?;
  }

  /** After the failure the run stops where the second sweep leaves it. */
  lemma SecondRound(b: Board)
    requires Playable(CHAIN, BACKWARDS, b) && b.status == Row(Failed, Skipped, Pending, Pending)
    ensures ReadyNow(CHAIN, BACKWARDS, b) == [] && !AllTerminal(b.status)
    ensures Swept(CHAIN, BACKWARDS, b).status == Row(Failed, Skipped, Skipped, Pending)
  {
    SecondSweep();
    DIsPending(b.status, Failed, Skipped, Pending);
    hide ReadySweep, ReadyList, Row, AllTerminal;
  }

  // ----- the code

  class TaskGraph {
    var deps: Graph
    var order: seq<string>
    var status: Statuses
    var attempts: map<string, int>

    function View(): Board
      reads this
    {
      Board(status, attempts)
    }

    ghost predicate Valid()
      reads this
    {
      Distinct(order) && Elems(order) == deps.Keys && status.Keys == deps.Keys && attempts.Keys == deps.Keys
    }

    constructor ()
      ensures Valid() && order == []
    {
      deps, order, status, attempts := map[], [], map[], map[];
    }

    /** Adds a fresh task; a second task with the same id is refused. */
    method Add(t: string, dependencies: seq<string>) returns (ok: bool)
      requires Valid()
      modifies this
      ensures Valid() && ok == (t !in old(deps))
      ensures ok ==> deps == old(deps)[t := dependencies] && order == old(order) + [t]
                     && status == old(status)[t := Pending] && attempts == old(attempts)[t := 0]
      ensures !ok ==> deps == old(deps) && order == old(order) && View() == old(View())
    {
      if t in deps {
        return false;
      }
      assert t !in Elems(order);
      assert Elems(order + [t]) == Elems(order) + {t};
      deps, order := deps[t := dependencies], order + [t];
      status, attempts := status[t := Pending], attempts[t := 0];
      ok := true;
    }

    /** The ready tasks; None is the KeyError for an undecided task one of whose
        dependencies names no task. */
    method ReadyTasks() returns (found: Option<seq<string>>)
      requires Valid()
      modifies this`status
      ensures Valid()
      ensures found.Some? <==> Resolvable(deps, old(status))
      ensures found.Some? ==>
              View() == Swept(deps, order, old(View())) && found.value == ReadyNow(deps, order, old(View()))
    {
      hide SomeBad, AllDone, ReadyVisit, DependenciesNamed, Resolvable, Distinct, ReadySweep, ReadyList,
          Named, Swept, ReadyNow;
      SweepNone(deps, status);
      var ready: seq<string> := [];
      ghost var st := status;
      assert forall t :: t in order ==> t in Elems(order);
      for i := 0 to |order|
        invariant status.Keys == deps.Keys
        invariant status == ReadySweep(deps, order[..i], st) && ready == ReadyList(deps, order[..i], st)
        invariant forall j :: 0 <= j < i ==> DependenciesNamed(deps, st, order[j])
      {
        SweepStart(deps, order, st, i);
        NamedOrNot(deps, st, order[i]);
        if Undecided(status[order[i]]) && !Named(deps, order[i]) {
          return None;
        }
        var picked := Triage(order[i]);
        if picked {
          ready := ready + [order[i]];
        }
      }
      assert order[..|order|] == order;
      AllNamed(deps, order, st);
      SweptIs(deps, order, Board(st, attempts));
      return Some(ready);
    }

    /** The body of the ready loop for one task. */
    method Triage(t: string) returns (picked: bool)
      requires t in deps && t in status
      modifies this`status
      ensures status == ReadyVisit(deps, old(status), t)
      ensures picked == (Undecided(old(status[t])) && !SomeBad(old(status), deps[t]) && AllDone(old(status), deps[t]))
    {
      if !Undecided(status[t]) {
        return false;
      }
      if SomeBad(status, deps[t]) {
        status := status[t := Skipped];
        return false;
      }
      if !AllDone(status, deps[t]) {
        return false;
      }
      if status[t].Pending? {
        status := status[t := Ready];
      }
      picked := true;
    }

    /** Skips what is pending behind a bad dependency; it can only raise where an
        undecided task has a dependency that names no task. */
    method InvalidateDependencies() returns (ok: bool)
      requires Valid()
      modifies this`status
      ensures Valid() && (forall t :: t in order ==> t in deps && t in old(status))
      ensures ok ==> status == InvalidateSweep(deps, order, old(status))
      ensures Resolvable(deps, old(status)) ==> ok
    {
      hide InvalidateVisit, SomeBad, Named, Resolvable, DependenciesNamed, Distinct;
      ghost var st := status;
      assert forall t :: t in order ==> t in Elems(order);
      for i := 0 to |order|
        invariant status.Keys == deps.Keys
        invariant forall t :: t in order[..i] ==> t in deps && t in st
        invariant status == InvalidateSweep(deps, order[..i], st)
      {
        hide InvalidateSweep;
        InvalidateNext(deps, order, st, i);
        UndecidedBefore(deps, order[..i], st, order[i]);
        NamedOrNot(deps, st, order[i]);
        ok := SkipBehindBad(order[i]);
        if !ok {
          return;
        }
      }
      assert order[..|order|] == order;
      ok := true;
    }

    /** The body of the invalidation loop for one task. */
    method SkipBehindBad(t: string) returns (ok: bool)
      requires t in deps && status.Keys == deps.Keys
      modifies this`status
      ensures status.Keys == deps.Keys
      ensures ok ==> status == InvalidateVisit(deps, old(status), t)
      ensures !ok ==> old(status[t]).Pending? && !Named(deps, t)
    {
      if status[t].Pending? && |deps[t]| > 0 {
        var bad := FindBad(t);
        if bad.None? {
          return false;
        }
        if bad.value {
          status := status[t := Skipped];
        }
      }
      ok := true;
    }

    /** Looks the dependencies up one by one, up to the first bad one; None when it
        comes to one that names no task. */
    method FindBad(t: string) returns (bad: Option<bool>)
      requires t in deps && status.Keys == deps.Keys
      ensures bad.Some? ==> bad.value == SomeBad(status, deps[t])
      ensures bad.None? ==> !Named(deps, t)
    {
      for i := 0 to |deps[t]|
        invariant forall d :: d in deps[t][..i] ==> d in status && !Bad(status[d])
      {
        var d := deps[t][i];
        assert d in deps[t];
        if d !in status {
          return None;
        }
        if Bad(status[d]) {
          return Some(true);
        }
        assert deps[t][..i + 1] == deps[t][..i] + [d];
      }
      assert deps[t][..|deps[t]|] == deps[t];
      return Some(false);
    }

    method HasPending() returns (pending: bool)
      requires Valid()
      ensures pending <==> !AllTerminal(status)
    {
      assert forall t :: t in status ==> t in Elems(order);
      for i := 0 to |order|
        invariant forall j :: 0 <= j < i ==> order[j] in status && Terminal(status[order[j]])
      {
        assert order[i] in Elems(order);
        if !Terminal(status[order[i]]) {
          return true;
        }
      }
      return false;
    }
  }

  /** How a turn of the run loop ends. */
  datatype Turn = KeyErrorRaised | NothingReady | BatchRun

  /** A worker call together with the statuses it starts under. */
  datatype Call = Call(task: string, seen: Statuses)

  class Executor {
    const worker: Worker
    const maxConcurrency: nat

    constructor (worker: Worker, maxConcurrency: nat)
      ensures this.worker == worker && this.maxConcurrency == maxConcurrency
    {
      this.worker := worker;
      this.maxConcurrency := maxConcurrency;
    }

    /** The batch so far: what has not started is as before, what runs is
        running, and what has finished shows its report. */
    ghost predicate Midway(b: Board, now: Board, ready: seq<string>, waiting: set<string>, running: set<string>) {
      && now.status.Keys == b.status.Keys == now.attempts.Keys == b.attempts.Keys
      && waiting <= Elems(ready) && running <= Elems(ready) && waiting !! running
      && forall t :: t in b.status ==> InBatch(b, now, ready, waiting, running, t)
    }

    ghost predicate InBatch(b: Board, now: Board, ready: seq<string>, waiting: set<string>, running: set<string>,
        t: string)
      requires t in b.status && t in b.attempts && t in now.status && t in now.attempts
    {
      if t !in ready || t in waiting then now.status[t] == b.status[t] && now.attempts[t] == b.attempts[t]
      else now.attempts[t] == b.attempts[t] + 1 && now.status[t] == if t in running then Running
      else AfterWorker(worker(t, b.attempts[t] + 1))
    }

    /** A task gets its slot: it is running and its worker is called. */
    method Start(tasks: TaskGraph, t: string)
      requires tasks.Valid() && t in tasks.deps && AllDone(tasks.status, tasks.deps[t])
      modifies tasks`status, tasks`attempts
      ensures tasks.Valid()
      ensures tasks.status == old(tasks.status)[t := Running]
      ensures tasks.attempts == old(tasks.attempts)[t := old(tasks.attempts[t]) + 1]
    {
      tasks.status := tasks.status[t := Running];
      tasks.attempts := tasks.attempts[t := tasks.attempts[t] + 1];
    }

    /** The worker's report arrives. */
    method Finish(tasks: TaskGraph, t: string)
      requires tasks.Valid() && t in tasks.deps
      modifies tasks`status
      ensures tasks.Valid()
      ensures tasks.status == old(tasks.status)[t := AfterWorker(worker(t, tasks.attempts[t]))]
    {
      match worker(t, tasks.attempts[t]) {
        case NeedsApproval => tasks.status := tasks.status[t := BlockedApproval];
        case Raises => tasks.status := tasks.status[t := Failed];
        case Returns(left) =>
          tasks.status := tasks.status[t := left];
          if tasks.status[t] == Running {
            tasks.status := tasks.status[t := Done];
          }
      }
    }

    /** Each call so far came with every dependency of its task done. */
    ghost predicate CallsInOrder(deps: Graph, calls: seq<Call>) {
      forall c :: c in calls ==> c.task in deps && AllDone(c.seen, deps[c.task])
    }

    /** Some waiting task of the batch gets a slot. */
    method StartNext(tasks: TaskGraph, ghost b: Board, ready: seq<string>, waiting0: set<string>, running0: set<string>)
      returns (waiting: set<string>, running: set<string>, ghost call: Call)
      requires tasks.Valid() && waiting0 != {} && Offered(b, ready, tasks.deps)
      requires Midway(b, tasks.View(), ready, waiting0, running0)
      modifies tasks`status, tasks`attempts
      ensures tasks.Valid() && Midway(b, tasks.View(), ready, waiting, running)
      ensures |waiting| == |waiting0| - 1 && |running| == |running0| + 1
      ensures CallsInOrder(tasks.deps, [call])
    {
      hide Midway, AllDone, CallsInOrder, Offered;
      ghost var was := tasks.View();
      var t :| t in waiting0;
      WaitingIsReady(b, was, ready, waiting0, running0, tasks.deps, t);
      call := Call(t, tasks.status);
      OneCall(tasks.deps, call);
      Start(tasks, t);
      MidwayStart(b, was, tasks.View(), ready, waiting0, running0, t);
      waiting, running := waiting0 - {t}, running0 + {t};
    }

    /** Some running task of the batch reports. */
    method FinishNext(tasks: TaskGraph, ghost b: Board, ready: seq<string>, ghost waiting: set<string>,
        running0: set<string>)
      returns (running: set<string>)
      requires tasks.Valid() && running0 != {} && Offered(b, ready, tasks.deps)
      requires Midway(b, tasks.View(), ready, waiting, running0)
      modifies tasks`status
      ensures tasks.Valid() && Midway(b, tasks.View(), ready, waiting, running)
      ensures |running| == |running0| - 1
    {
      ghost var was := tasks.View();
      var t :| t in running0;
      assert t in Elems(ready);
      hide Midway, AfterWorker;
      Finish(tasks, t);
      MidwayFinish(b, was, tasks.View(), ready, waiting, running0, t);
      running := running0 - {t};
    }

    ghost predicate Offered(b: Board, ready: seq<string>, deps: Graph) {
      forall t :: t in ready ==> t in deps && t in b.status && b.status[t].Ready? && AllDone(b.status, deps[t])
    }

    /** Runs one batch under the concurrency limit, in any interleaving. */
    method RunBatch(tasks: TaskGraph, ready: seq<string>) returns (ghost calls: seq<Call>)
      requires tasks.Valid() && maxConcurrency > 0 && Distinct(ready) && Offered(tasks.View(), ready, tasks.deps)
      modifies tasks`status, tasks`attempts
      ensures tasks.Valid() && tasks.View() == AfterBatch(old(tasks.View()), ready, worker)
      ensures CallsInOrder(tasks.deps, calls)
    {
      calls := [];
      ghost var b := tasks.View();
      var waiting := Elems(ready);
      var running: set<string> := {};
      BatchBegins(b, ready, tasks.deps);
      hide Midway, AfterBatch, CallsInOrder, Offered;
      while waiting != {} || running != {}
        invariant tasks.Valid() && Midway(b, tasks.View(), ready, waiting, running)
        invariant CallsInOrder(tasks.deps, calls)
        decreases |waiting| * 2 + |running|
      {
        var start: bool;
        if * { start := true; } else { start := false; }
        if waiting != {} && |running| < maxConcurrency && (start || running == {}) {
          ghost var call;
          waiting, running, call := StartNext(tasks, b, ready, waiting, running);
          MoreCalls(tasks.deps, calls, [call]);
          calls := calls + [call];
        } else {
          running := FinishNext(tasks, b, ready, waiting, running);
        }
      }
      BatchOver(b, tasks.View(), ready);
    }

    lemma OffersFit(g: Graph, order: seq<string>, b: Board)
      requires Playable(g, order, b)
      ensures Distinct(ReadyNow(g, order, b)) && Offered(Swept(g, order, b), ReadyNow(g, order, b), g)
    {
      OffersAreReady(g, order, b);
      OfferedOnce(g, order, b);
    }

    lemma BatchBegins(b: Board, ready: seq<string>, deps: Graph)
      requires b.status.Keys == b.attempts.Keys && Offered(b, ready, deps)
      ensures Midway(b, b, ready, Elems(ready), {})
      ensures CallsInOrder(deps, [])
    {
    }

    lemma CallsStart(deps: Graph)
      ensures CallsInOrder(deps, [])
    {
    }

    lemma OneCall(deps: Graph, c: Call)
      requires c.task in deps && AllDone(c.seen, deps[c.task])
      ensures CallsInOrder(deps, [c])
    {
    }

    lemma MoreCalls(deps: Graph, calls: seq<Call>, more: seq<Call>)
      requires CallsInOrder(deps, calls) && CallsInOrder(deps, more)
      ensures CallsInOrder(deps, calls + more)
    {
    }

    lemma MidwayStart(b: Board, now: Board, next: Board, ready: seq<string>, waiting: set<string>,
        running: set<string>, t: string)
      requires Midway(b, now, ready, waiting, running) && t in waiting && t in b.status
      requires t in now.attempts && next.status == now.status[t := Running]
               && next.attempts == now.attempts[t := now.attempts[t] + 1]
      ensures Midway(b, next, ready, waiting - {t}, running + {t})
      ensures |waiting - {t}| == |waiting| - 1 && |running + {t}| == |running| + 1
    {
      forall x | x in b.status ensures InBatch(b, next, ready, waiting - {t}, running + {t}, x) {
        assert InBatch(b, now, ready, waiting, running, x);
      }
      assert now.status.Keys == now.status.Keys + {t};
    }

    lemma MidwayFinish(b: Board, now: Board, next: Board, ready: seq<string>, waiting: set<string>,
        running: set<string>, t: string)
      requires Midway(b, now, ready, waiting, running) && t in running && t in b.status
      requires t in now.attempts && next.status == now.status[t := AfterWorker(worker(t, now.attempts[t]))]
               && next.attempts == now.attempts
      ensures Midway(b, next, ready, waiting, running - {t})
    {
      forall x | x in b.status ensures InBatch(b, next, ready, waiting, running - {t}, x) {
        assert InBatch(b, now, ready, waiting, running, x);
      }
      assert now.status.Keys == now.status.Keys + {t};
    }

    lemma WaitingIsReady(b: Board, now: Board, ready: seq<string>, waiting: set<string>, running: set<string>,
        deps: Graph, t: string)
      requires Midway(b, now, ready, waiting, running) && Offered(b, ready, deps) && t in waiting
      ensures t in deps && t in b.status && t in now.status && t in now.attempts && AllDone(now.status, deps[t])
    {
      assert t in Elems(ready);
      assert t in b.status;
      DepsUntouched(b, now, ready, waiting, running, deps[t]);
    }

    lemma DepsUntouched(b: Board, now: Board, ready: seq<string>, waiting: set<string>, running: set<string>,
        deps: seq<string>)
      requires Midway(b, now, ready, waiting, running)
      requires forall t :: t in ready ==> t in b.status && b.status[t].Ready?
      requires AllDone(b.status, deps)
      ensures AllDone(now.status, deps)
    {
      forall d | d in deps ensures d in now.status && now.status[d].Done? {
        assert InBatch(b, now, ready, waiting, running, d);
      }
    }

    lemma BatchOver(b: Board, now: Board, ready: seq<string>)
      requires Midway(b, now, ready, {}, {})
      ensures now == AfterBatch(b, ready, worker)
    {
      var after := AfterBatch(b, ready, worker);
      forall t | t in b.status ensures now.status[t] == after.status[t] && now.attempts[t] == after.attempts[t] {
        assert InBatch(b, now, ready, {}, {}, t);
      }
      assert now.status == after.status && now.attempts == after.attempts;
    }

    /** One turn of the run loop; it stops the run when no task is ready. */
    method RunRound(tasks: TaskGraph) returns (turn: Turn, ghost calls: seq<Call>)
      requires Playable(tasks.deps, tasks.order, tasks.View()) && tasks.Valid() && maxConcurrency > 0
      modifies tasks`status, tasks`attempts
      ensures tasks.Valid()
      ensures turn.KeyErrorRaised? <==> !Resolvable(tasks.deps, old(tasks.status))
      ensures turn.NothingReady? ==> ReadyNow(tasks.deps, tasks.order, old(tasks.View())) == []
                                     && tasks.View() == Swept(tasks.deps, tasks.order, old(tasks.View()))
      ensures turn.BatchRun? ==> ReadyNow(tasks.deps, tasks.order, old(tasks.View())) != []
                                 && tasks.View() == Round(tasks.deps, tasks.order, worker, old(tasks.View()))
      ensures CallsInOrder(tasks.deps, calls) && (!turn.BatchRun? ==> calls == [])
    {
      hide Swept, ReadyNow, Round, AfterBatch, AllDone, Undecided, CallsInOrder, InvalidateSweep, Distinct, Offered,
          Resolvable;
      ghost var was := tasks.View();
      calls := [];
      OffersFit(tasks.deps, tasks.order, was);
      RoundIs(tasks.deps, tasks.order, worker, was);
      BatchedResolvable(tasks.deps, tasks.order, worker, was);
      CallsStart(tasks.deps);
      var ready := tasks.ReadyTasks();
      if ready.None? {
        return KeyErrorRaised, calls;
      }
      if |ready.value| == 0 {
        return NothingReady, calls;
      }
      calls := RunBatch(tasks, ready.value);
      assert tasks.View() == AfterBatch(Swept(tasks.deps, tasks.order, was), ready.value, worker);
      var ok := tasks.InvalidateDependencies();
      assert ok;
      turn := BatchRun;
    }

    /** Runs until every task is terminal or none is ready. A KeyError leaves the run
        before any worker is called, and only where a dependency of an undecided task
        names no task. A call requires nothing but that the run ends. */
    method Run(tasks: TaskGraph) returns (raised: bool, ghost calls: seq<Call>)
      requires tasks.Valid() && Playable(tasks.deps, tasks.order, tasks.View()) && maxConcurrency > 0
      requires Resolvable(tasks.deps, tasks.status) ==> Ends(tasks.deps, tasks.order, worker, tasks.View())
      modifies tasks`status, tasks`attempts
      ensures Playable(tasks.deps, tasks.order, old(tasks.View())) && tasks.Valid()
      ensures raised <==> !AllTerminal(old(tasks.status)) && !Resolvable(tasks.deps, old(tasks.status))
      ensures raised ==> calls == []
      ensures !raised ==> Ends(tasks.deps, tasks.order, worker, old(tasks.View()))
                          && tasks.View() == Rounds(tasks.deps, tasks.order, worker, old(tasks.View()))
      ensures CallsInOrder(tasks.deps, calls)
    {
      hide Rounds, Ends, Round, ReadyNow, Swept, AllTerminal, CallsInOrder, RoundsLeft, Resolvable, Underway, Remaining,
          Playable, TaskGraph.Valid;
      calls := [];
      ghost var g, order := tasks.deps, tasks.order;
      ghost var b := tasks.View();
      UnderwayStart(g, order, worker, b);
      CallsStart(g);
      var pending := tasks.HasPending();
      while pending
        invariant tasks.Valid() && tasks.deps == g && tasks.order == order
        invariant pending <==> !AllTerminal(tasks.status)
        invariant Underway(g, order, worker, b, tasks.View())
        invariant Resolvable(g, b.status) || calls == []
        invariant CallsInOrder(g, calls)
        decreases Remaining(g, order, worker, tasks.View())
      {
        UnderwayTurn(g, order, worker, b, tasks.View());
        var turn;
        ghost var more;
        turn, more := RunRound(tasks);
        if turn.KeyErrorRaised? {
          return true, calls;
        }
        MoreCalls(g, calls, more);
        calls := calls + more;
        if turn.NothingReady? {
          return false, calls;
        }
        pending := tasks.HasPending();
      }
      UnderwayOver(g, order, worker, b, tasks.View());
      raised := false;
    }
  }

  /** Where a run from b has come to. */
  ghost predicate Underway(g: Graph, order: seq<string>, worker: Worker, b: Board, now: Board) {
    && Playable(g, order, b) && Playable(g, order, now)
    && if Resolvable(g, b.status) then
         && Resolvable(g, now.status) && Ends(g, order, worker, b) && Ends(g, order, worker, now)
         && Rounds(g, order, worker, now) == Rounds(g, order, worker, b)
       else
         now == b
  }

  lemma UnderwayStart(g: Graph, order: seq<string>, worker: Worker, b: Board)
    requires Playable(g, order, b) && (Resolvable(g, b.status) ==> Ends(g, order, worker, b))
    ensures Underway(g, order, worker, b, b)
  {
    hide Playable, Ends, Resolvable, Rounds;
  }

  lemma UnderwayTurn(g: Graph, order: seq<string>, worker: Worker, b: Board, now: Board)
    requires Underway(g, order, worker, b, now) && !AllTerminal(now.status)
    ensures Playable(g, order, b) && Playable(g, order, now)
    ensures !Resolvable(g, now.status) ==> !Resolvable(g, b.status) && now == b
    ensures Resolvable(g, now.status) ==>
              && Resolvable(g, b.status) && Ends(g, order, worker, b)
              && (ReadyNow(g, order, now) == [] ==> Rounds(g, order, worker, b) == Swept(g, order, now))
              && (ReadyNow(g, order, now) != [] ==>
                    && Underway(g, order, worker, b, Round(g, order, worker, now))
                    && Remaining(g, order, worker, Round(g, order, worker, now)) < Remaining(g, order, worker, now))
  {
    if Resolvable(g, b.status) {
      Unfolded(g, order, worker, now);
      StaysResolvable(g, order, worker, now);
    }
    hide Playable, Ends, Resolvable, Rounds, Round, ReadyNow, Swept, AllTerminal, RoundsLeft;
  }

  lemma UnderwayOver(g: Graph, order: seq<string>, worker: Worker, b: Board, now: Board)
    requires Underway(g, order, worker, b, now) && AllTerminal(now.status)
    ensures Playable(g, order, b) && Ends(g, order, worker, b) && Rounds(g, order, worker, b) == now
    ensures AllTerminal(b.status) || Resolvable(g, b.status)
  {
    TerminalResolvable(g, now.status);
    if Resolvable(g, b.status) {
      Unfolded(g, order, worker, now);
    }
    hide Playable, Ends, Resolvable, Rounds, Round, ReadyNow, Swept, AllTerminal, RoundsLeft;
  }

  /** The rounds still to come. */
  ghost function Remaining(g: Graph, order: seq<string>, worker: Worker, now: Board): nat {
    if Playable(g, order, now) && Ends(g, order, worker, now) then RoundsLeft(g, order, worker, now) else 0
  }

  // ----- dependencies that name no task

  predicate Named(g: Graph, t: string)
    requires t in g
  {
    forall d :: d in g[t] ==> d in g
  }

  predicate DependenciesNamed(g: Graph, st: Statuses, t: string) {
    t in g && t in st && Undecided(st[t]) ==> Named(g, t)
  }

  /** Every dependency of an undecided task names a task. */
  ghost predicate Resolvable(g: Graph, st: Statuses) {
    forall t :: t in g ==> DependenciesNamed(g, st, t)
  }

  lemma NamedOrNot(g: Graph, st: Statuses, t: string)
    requires t in g && t in st
    ensures DependenciesNamed(g, st, t) <==> (Undecided(st[t]) ==> Named(g, t))
    ensures !DependenciesNamed(g, st, t) ==> !Resolvable(g, st)
  {
  }

  lemma AllNamed(g: Graph, order: seq<string>, st: Statuses)
    requires Elems(order) == g.Keys && forall j :: 0 <= j < |order| ==> DependenciesNamed(g, st, order[j])
    ensures Resolvable(g, st)
  {
    hide DependenciesNamed;
    forall t | t in g ensures DependenciesNamed(g, st, t) {
      assert t in Elems(order);
    }
  }

  lemma TerminalResolvable(g: Graph, st: Statuses)
    ensures AllTerminal(st) ==> Resolvable(g, st)
  {
  }

  lemma SweptIs(g: Graph, order: seq<string>, b: Board)
    requires Playable(g, order, b)
    ensures forall t :: t in order ==> t in g && t in b.status
    ensures Swept(g, order, b) == b.(status := ReadySweep(g, order, b.status))
    ensures ReadyNow(g, order, b) == ReadyList(g, order, b.status)
  {
    assert forall t :: t in order ==> t in Elems(order);
    hide ReadySweep, ReadyList;
  }

  lemma SweepNone(g: Graph, st: Statuses)
    ensures ReadySweep(g, [], st) == st && ReadyList(g, [], st) == []
  {
  }

  lemma SweepStart(g: Graph, order: seq<string>, st: Statuses, i: nat)
    requires st.Keys == g.Keys && Distinct(order) && Elems(order) == g.Keys && i < |order|
    ensures order[..i + 1] == order[..i] + [order[i]] && order[i] in g
    ensures forall x :: x in order[..i] + [order[i]] ==> x in g && x in st
    ensures var before := ReadySweep(g, order[..i], st);
            && before[order[i]] == st[order[i]]
            && ReadySweep(g, order[..i + 1], st) == ReadyVisit(g, before, order[i])
            && ReadyList(g, order[..i + 1], st) ==
                 if Undecided(before[order[i]]) && !SomeBad(before, g[order[i]]) && AllDone(before, g[order[i]])
                 then ReadyList(g, order[..i], st) + [order[i]] else ReadyList(g, order[..i], st)
  {
    assert forall x :: x in order ==> x in Elems(order);
    assert order[..i + 1] == order[..i] + [order[i]];
    assert order[i] !in order[..i];
    assert Distinct(order[..i]) && Elems(order[..i]) <= Elems(order);
    hide SomeBad, AllDone, ReadySweep, ReadyList, ReadyVisit;
    SweepLast(g, order[..i], order[i], st);
    ReadySweepTriages(g, order[..i], st, order[i]);
  }

  lemma InvalidateNext(g: Graph, order: seq<string>, st: Statuses, i: nat)
    requires i < |order| && forall x :: x in order ==> x in g && x in st
    ensures forall x :: x in order[..i] ==> x in g && x in st
    ensures forall x :: x in order[..i + 1] ==> x in g && x in st
    ensures InvalidateSweep(g, order[..i + 1], st) == InvalidateVisit(g, InvalidateSweep(g, order[..i], st), order[i])
  {
    assert order[..i + 1][..i] == order[..i];
    hide InvalidateVisit;
  }

  /** An invalidation leaves what is still pending as it was. */
  lemma UndecidedBefore(g: Graph, order: seq<string>, st: Statuses, t: string)
    requires (forall x :: x in order ==> x in g && x in st) && t in g && t in st
    ensures Undecided(InvalidateSweep(g, order, st)[t]) ==> Undecided(st[t])
  {
    InvalidateSkips(g, order, st, t);
  }

  lemma StaysResolvable(g: Graph, order: seq<string>, worker: Worker, b: Board)
    requires Playable(g, order, b)
    ensures Resolvable(g, b.status) ==> Resolvable(g, Round(g, order, worker, b).status)
  {
    var r := Round(g, order, worker, b);
    if Resolvable(g, b.status) {
      forall t | t in g ensures DependenciesNamed(g, r.status, t) {
        RoundOn(g, order, worker, b, t);
        assert DependenciesNamed(g, b.status, t);
      }
    }
  }

  lemma BatchedResolvable(g: Graph, order: seq<string>, worker: Worker, b: Board)
    requires Playable(g, order, b)
    ensures Resolvable(g, b.status) ==>
            Resolvable(g, AfterBatch(Swept(g, order, b), ReadyNow(g, order, b), worker).status)
  {
    var after := AfterBatch(Swept(g, order, b), ReadyNow(g, order, b), worker).status;
    if Resolvable(g, b.status) {
      forall t | t in g ensures DependenciesNamed(g, after, t) {
        Triage(g, order, b, t);
        BatchFacts(Swept(g, order, b), ReadyNow(g, order, b), worker, t);
        assert DependenciesNamed(g, b.status, t);
        hide Swept, ReadyNow, AfterBatch, AllDone, SomeBad, Named, Quiet;
      }
    }
  }
}
