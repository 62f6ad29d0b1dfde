/**
 Exactly which insertion orders let skips reach every task. The sweeps of
 sifter/src/aa_sifter/tasks/graph.py go over the tasks once, in insertion order,
 and a run of sifter/src/aa_sifter/tasks/executor.py makes two of them after its
 last batch: one to invalidate, one to look for ready tasks.
 */
module SkipPropagation {
  import opened Lex
  import opened Outcomes
  import opened DependencyGraph
  import opened TaskGraphs
  import opened TaskRounds
  import opened TaskExecutor

  function AllPending(g: Graph): Board {
    Board(map t | t in g :: Pending, map t | t in g :: 0)
  }

  /** One failed task among pending ones. */
  function OneFailed(g: Graph, f: string): Statuses {
    map t | t in g :: if t == f then Failed else Pending
  }

  ghost function AfterInvalidate(g: Graph, order: seq<string>, st: Statuses): Statuses
    requires Fits(g, order, st)
  {
    assert forall t :: t in order ==> t in Elems(order);
    InvalidateSweep(g, order, st)
  }

  ghost function AfterReady(g: Graph, order: seq<string>, st: Statuses): Statuses
    requires Fits(g, order, st)
  {
    assert forall t :: t in order ==> t in Elems(order);
    ReadySweep(g, order, st)
  }

  /** An invalidation and a look for ready tasks skip everything behind f. */
  ghost predicate TwoSweepsSkip(g: Graph, order: seq<string>, f: string)
    requires Fits(g, order, OneFailed(g, f))
  {
    SweptTwiceFits(g, order, f);
    forall t :: t in g && DependsOn(g, t, f) ==>
      AfterReady(g, order, AfterInvalidate(g, order, OneFailed(g, f)))[t].Skipped?
  }

  lemma SweptTwiceFits(g: Graph, order: seq<string>, f: string)
    requires Fits(g, order, OneFailed(g, f))
    ensures Fits(g, order, AfterInvalidate(g, order, OneFailed(g, f)))
    ensures AfterReady(g, order, AfterInvalidate(g, order, OneFailed(g, f))).Keys == g.Keys
  {
  }

  /** What a caller can check before a run: for every single task that might fail,
      two sweeps skip all that depends on it. */
  ghost predicate TwoSweepsSuffice(g: Graph, order: seq<string>)
    requires forall f :: Fits(g, order, OneFailed(g, f))
  {
    forall f :: f in g ==> TwoSweepsSkip(g, order, f)
  }

  /** Nothing is left undecided behind a failed or skipped task. */
  ghost predicate Settled(g: Graph, st: Statuses)
    requires g.Keys <= st.Keys
  {
    forall t :: t in g && Undecided(st[t]) ==> !SomeBad(st, g[t])
  }

  // ----- sweeps side by side

  predicate Idle(s: Status) {
    s.Pending? || s.Skipped?
  }

  /** Behind f, whatever is skipped in a is skipped in b; a has nothing bad but f
      and tasks behind it. */
  ghost predicate Dominates(g: Graph, f: string, a: Statuses, b: Statuses) {
    && a.Keys == b.Keys == g.Keys && f in g
    && Bad(a[f]) && Bad(b[f])
    && (forall d :: d in g && DependsOn(g, d, f) ==> Idle(a[d]) && Idle(b[d]) && (a[d].Skipped? ==> b[d].Skipped?))
    && (forall d :: d in g && Bad(a[d]) ==> d == f || DependsOn(g, d, f))
  }

  /** A bad dependency in a is behind f or f itself, and bad in b too. */
  lemma BadCarriesOver(g: Graph, f: string, a: Statuses, b: Statuses, t: string)
    requires Closed(g) && Dominates(g, f, a, b) && t in g
    ensures SomeBad(a, g[t]) ==> SomeBad(b, g[t]) && DependsOn(g, t, f)
  {
    if SomeBad(a, g[t]) {
      var x :| x in g[t] && x in a && Bad(a[x]);
      if x == f {
        DirectlyDepends(g, t, f);
      } else {
        DependsThrough(g, t, x, f);
      }
      assert x in b && Bad(b[x]);
    }
  }

  /** What is behind a task that is not done is not offered. */
  lemma BehindNotReady(g: Graph, f: string, st: Statuses, t: string)
    requires DependsOn(g, t, f) && f in st && !st[f].Done? && t in g
    requires forall d :: d in g && DependsOn(g, d, f) ==> d in st && !st[d].Done?
    ensures !AllDone(st, g[t])
  {
    var p :| Chain(g, p, t, f);
    if |p| == 1 {
      assert f in g[t];
    } else {
      ChainTail(g, p, t, f);
      assert p[1] in g[t] && p[1] in g;
    }
  }

  lemma ChainTail(g: Graph, p: seq<string>, t: string, f: string)
    requires Chain(g, p, t, f) && |p| > 1
    ensures Chain(g, p[1..], p[1], f) && DependsOn(g, p[1], f) && p[1] in g && p[1] in g[t]
  {
    var rest := p[1..];
    forall i | 0 <= i < |rest| - 1 ensures rest[i + 1] in g[rest[i]] {
      assert rest[i] == p[i + 1] && rest[i + 1] == p[i + 2];
    }
    assert rest[|rest| - 1] == p[|p| - 1];
    assert Chain(g, rest, p[1], f);
  }

  lemma NotBehindItself(g: Graph, f: string)
    requires Acyclic(g)
    ensures !DependsOn(g, f, f)
  {
    if DependsOn(g, f, f) {
      var p :| Chain(g, p, f, f);
      assert IsCycle(g, p);
    }
  }

  lemma InvalidateVisitDominates(g: Graph, f: string, a: Statuses, b: Statuses, t: string)
    requires Closed(g) && Dominates(g, f, a, b) && t in g && !DependsOn(g, f, f)
    ensures Dominates(g, f, InvalidateVisit(g, a, t), InvalidateVisit(g, b, t))
  {
    BadCarriesOver(g, f, a, b, t);
    hide SomeBad, DependsOn, Closed;
  }

  lemma ReadyVisitDominates(g: Graph, f: string, a: Statuses, b: Statuses, t: string)
    requires Closed(g) && Dominates(g, f, a, b) && t in g && !DependsOn(g, f, f)
    ensures Dominates(g, f, ReadyVisit(g, a, t), ReadyVisit(g, b, t))
  {
    BadCarriesOver(g, f, a, b, t);
    if DependsOn(g, t, f) {
      BehindNotReady(g, f, a, t);
      BehindNotReady(g, f, b, t);
      hide Closed;
      BehindDominates(g, f, a, b, t);
    } else {
      var a1, b1 := ReadyVisit(g, a, t), ReadyVisit(g, b, t);
      assert t == f ==> a1[t] == a[t] && b1[t] == b[t];
      assert a1[t] == a[t] || a1[t].Ready?;
      OthersUnchanged(g, a, t);
      OthersUnchanged(g, b, t);
      hide *;
      ElsewhereDominates(g, f, a, b, a1, b1, t);
    }
  }

  lemma BehindDominates(g: Graph, f: string, a: Statuses, b: Statuses, t: string)
    requires Dominates(g, f, a, b) && t in g && DependsOn(g, t, f) && !DependsOn(g, f, f)
    requires !AllDone(a, g[t]) && !AllDone(b, g[t]) && (SomeBad(a, g[t]) ==> SomeBad(b, g[t]))
    ensures Dominates(g, f, ReadyVisit(g, a, t), ReadyVisit(g, b, t))
  {
    assert t != f;
    hide SomeBad, AllDone, DependsOn;
  }

  lemma ElsewhereDominates(g: Graph, f: string, a: Statuses, b: Statuses, a1: Statuses, b1: Statuses, t: string)
    requires Dominates(g, f, a, b) && t in g && !DependsOn(g, t, f) && a1.Keys == b1.Keys == g.Keys
    requires forall d :: d in a && d != t ==> a1[d] == a[d]
    requires forall d :: d in b && d != t ==> b1[d] == b[d]
    requires t == f ==> a1[t] == a[t] && b1[t] == b[t]
    requires a1[t] == a[t] || a1[t].Ready?
    ensures Dominates(g, f, a1, b1)
  {
    hide DependsOn;
  }

  lemma {:induction false} InvalidateDominates(g: Graph, order: seq<string>, f: string, a: Statuses, b: Statuses)
    requires Closed(g) && Dominates(g, f, a, b) && !DependsOn(g, f, f)
    requires forall t :: t in order ==> t in g && t in a && t in b
    ensures Dominates(g, f, InvalidateSweep(g, order, a), InvalidateSweep(g, order, b))
  {
    if order != [] {
      var init := order[..|order| - 1];
      InvalidateDominates(g, init, f, a, b);
      InvalidateVisitDominates(g, f, InvalidateSweep(g, init, a), InvalidateSweep(g, init, b), order[|order| - 1]);
      hide Dominates, InvalidateVisit, DependsOn, Closed;
    }
  }

  lemma {:induction false} ReadyDominates(g: Graph, order: seq<string>, f: string, a: Statuses, b: Statuses)
    requires Closed(g) && Dominates(g, f, a, b) && !DependsOn(g, f, f)
    requires forall t :: t in order ==> t in g && t in a && t in b
    ensures Dominates(g, f, ReadySweep(g, order, a), ReadySweep(g, order, b))
  {
    if order != [] {
      var init := order[..|order| - 1];
      ReadyDominates(g, init, f, a, b);
      ReadyVisitDominates(g, f, ReadySweep(g, init, a), ReadySweep(g, init, b), order[|order| - 1]);
      hide Dominates, ReadyVisit, DependsOn, Closed;
    }
  }

  lemma {:induction false} NoBadNoSkip(g: Graph, order: seq<string>, st: Statuses)
    requires forall t :: t in order ==> t in g && t in st
    requires forall d :: d in st ==> !Bad(st[d])
    ensures forall d :: d in st ==> !Bad(ReadySweep(g, order, st)[d])
  {
    if order != [] {
      NoBadNoSkip(g, order[..|order| - 1], st);
    }
  }

  // ----- states of a run

  /** Everything that happened to any task is accounted for. */
  ghost predicate Accounted(g: Graph, order: seq<string>, worker: Worker, b: Board) {
    && Playable(g, order, b) && Playable(g, order, AllPending(g))
    && Closed(g)
    && forall t :: t in g ==> Traced(g, AllPending(g), worker, b, t)
  }

  /** A task whose last call ended badly. */
  predicate CalledBad(b: Board, f: string) {
    f in b.attempts && f in b.status && b.attempts[f] > 0 && Bad(b.status[f])
  }

  ghost predicate BehindBad(g: Graph, b: Board, t: string) {
    exists f :: f in g && DependsOn(g, t, f) && CalledBad(b, f)
  }

  ghost predicate Rooted(g: Graph, b: Board, t: string) {
    CalledBad(b, t) || BehindBad(g, b, t)
  }

  /** Every bad task was called, or is behind one that was. */
  lemma BadHasRoot(g: Graph, order: seq<string>, worker: Worker, b: Board, t: string)
    requires Acyclic(g) && Accounted(g, order, worker, b) && t in g && Bad(b.status[t])
    ensures Rooted(g, b, t)
  {
    if !Rooted(g, b, t) {
      forall x | x in Rootless(g, b) ensures x in g && WaitsWithin(g, Rootless(g, b), x) {
        RootlessWaits(g, order, worker, b, x);
      }
      assert t in Rootless(g, b) && Rootless(g, b) <= g.Keys;
      hide *;
      WaitingSetCycles(g, Rootless(g, b), t);
      assert false;
    }
  }

  ghost function Rootless(g: Graph, b: Board): (r: set<string>)
    requires g.Keys <= b.status.Keys
    ensures r <= g.Keys
  {
    set x | x in g && Bad(b.status[x]) && !Rooted(g, b, x)
  }

  lemma RootlessWaits(g: Graph, order: seq<string>, worker: Worker, b: Board, x: string)
    requires Accounted(g, order, worker, b) && x in Rootless(g, b)
    ensures x in g && WaitsWithin(g, Rootless(g, b), x)
  {
    hide Rooted, Traced;
    var y := BadDependency(g, order, worker, b, x);
    if Rooted(g, b, y) {
      RootPassesOn(g, b, x, y);
    }
    assert y in Rootless(g, b);
  }

  /** A bad task that was not called badly has a bad dependency. */
  lemma BadDependency(g: Graph, order: seq<string>, worker: Worker, b: Board, x: string) returns (y: string)
    requires Accounted(g, order, worker, b) && x in g && Bad(b.status[x]) && !Rooted(g, b, x)
    ensures y in g[x] && y in g && Bad(b.status[y])
  {
    assert Traced(g, AllPending(g), worker, b, x);
    y :| y in g[x] && y in b.status && Bad(b.status[y]);
  }

  lemma RootPassesOn(g: Graph, b: Board, x: string, y: string)
    requires x in g && y in g[x] && y in g && Rooted(g, b, y)
    ensures Rooted(g, b, x) && BehindBad(g, b, x)
  {
    if CalledBad(b, y) {
      DirectlyDepends(g, x, y);
    } else {
      var f :| f in g && DependsOn(g, y, f) && CalledBad(b, f);
      DependsThrough(g, x, y, f);
    }
  }

  /** Behind a task that is not done nothing was ever called. */
  lemma {:induction false} BehindIsIdle(g: Graph, order: seq<string>, worker: Worker, b: Board, f: string,
      p: seq<string>, t: string)
    requires Accounted(g, order, worker, b) && f in g && !b.status[f].Done? && Chain(g, p, t, f)
    ensures t in g && b.attempts[t] == 0 && Idle(b.status[t])
    decreases |p|
  {
    assert Traced(g, AllPending(g), worker, b, t);
    if |p| > 1 {
      ChainTail(g, p, t, f);
      BehindIsIdle(g, order, worker, b, f, p[1..], p[1]);
      assert p[1] in g[t] && !b.status[p[1]].Done?;
    } else {
      assert f in g[t];
    }
  }

  lemma AllBehindIdle(g: Graph, order: seq<string>, worker: Worker, b: Board, f: string)
    requires Accounted(g, order, worker, b) && f in g && !b.status[f].Done?
    ensures forall t :: t in g && DependsOn(g, t, f) ==> b.attempts[t] == 0 && Idle(b.status[t])
  {
    forall t | t in g && DependsOn(g, t, f) ensures b.attempts[t] == 0 && Idle(b.status[t]) {
      var p :| Chain(g, p, t, f);
      BehindIsIdle(g, order, worker, b, f, p, t);
    }
  }

  lemma StaysAccounted(g: Graph, order: seq<string>, worker: Worker, b: Board)
    requires Accounted(g, order, worker, b)
    ensures Accounted(g, order, worker, Round(g, order, worker, b))
  {
    forall t | t in g ensures Traced(g, AllPending(g), worker, Round(g, order, worker, b), t) {
      TracedFurther(g, order, worker, AllPending(g), b, t);
    }
    hide Round, Traced;
  }

  // ----- the condition suffices

  /** Behind every bad call at least one sweep has been made. */
  ghost predicate OnceSwept(g: Graph, order: seq<string>, b: Board)
    requires forall f :: Fits(g, order, OneFailed(g, f))
  {
    forall f :: f in g && CalledBad(b, f) ==> Dominates(g, f, AfterInvalidate(g, order, OneFailed(g, f)), b.status)
  }

  lemma OneFailedFits(g: Graph, order: seq<string>)
    requires Closed(g) && Distinct(order) && Elems(order) == g.Keys
    ensures forall f :: Fits(g, order, OneFailed(g, f))
    ensures Playable(g, order, AllPending(g))
  {
  }

  /** A call that ended badly before the round stays dominated. */
  lemma OldBadKept(g: Graph, order: seq<string>, worker: Worker, b: Board, f: string, a: Statuses)
    requires Accounted(g, order, worker, b) && f in g && CalledBad(b, f)
    requires Dominates(g, f, a, b.status)
    ensures Dominates(g, f, a, Round(g, order, worker, b).status)
  {
    var r := Round(g, order, worker, b);
    StaysAccounted(g, order, worker, b);
    forall t | t in g ensures !Undecided(b.status[t]) ==> r.status[t] == b.status[t] {
      RoundOn(g, order, worker, b, t);
    }
    AllBehindIdle(g, order, worker, r, f);
    hide *;
    LaterDominated(g, f, a, b.status, r.status);
  }

  lemma LaterDominated(g: Graph, f: string, a: Statuses, b: Statuses, later: Statuses)
    requires Dominates(g, f, a, b) && later.Keys == g.Keys
    requires forall t :: t in g && !Undecided(b[t]) ==> later[t] == b[t]
    requires forall t :: t in g && DependsOn(g, t, f) ==> Idle(later[t])
    ensures Dominates(g, f, a, later)
  {
  }

  /** The statuses between batch and invalidation. */
  ghost function Batched(g: Graph, order: seq<string>, worker: Worker, b: Board): Statuses
    requires Playable(g, order, b)
  {
    AfterBatch(Swept(g, order, b), ReadyNow(g, order, b), worker).status
  }

  lemma BatchedOne(g: Graph, order: seq<string>, worker: Worker, b: Board, t: string)
    requires Playable(g, order, b) && t in g
    ensures Batched(g, order, worker, b).Keys == g.Keys
    ensures t in ReadyNow(g, order, b) ==>
            Batched(g, order, worker, b)[t] == AfterWorker(worker(t, b.attempts[t] + 1)) && Undecided(b.status[t])
                && AllDone(b.status, g[t])
    ensures t !in ReadyNow(g, order, b) ==> Batched(g, order, worker, b)[t] == Swept(g, order, b).status[t]
    ensures t !in ReadyNow(g, order, b) && Undecided(b.status[t]) ==>
              !AllDone(b.status, g[t])
                  && (Batched(g, order, worker, b)[t] == b.status[t] || Batched(g, order, worker, b)[t].Skipped?)
    ensures !Undecided(b.status[t]) ==> Batched(g, order, worker, b)[t] == b.status[t]
  {
    Triage(g, order, b, t);
    QuietKeeps(b.status, Swept(g, order, b).status, g[t]);
    NotBoth(Swept(g, order, b).status, g[t]);
    BatchFacts(Swept(g, order, b), ReadyNow(g, order, b), worker, t);
    hide Swept, ReadyNow, AfterBatch, AllDone, SomeBad, Quiet, Fits;
  }

  lemma RoundFromBatched(g: Graph, order: seq<string>, worker: Worker, b: Board)
    requires Playable(g, order, b)
    ensures Fits(g, order, Batched(g, order, worker, b))
    ensures Round(g, order, worker, b).status == AfterInvalidate(g, order, Batched(g, order, worker, b))
  {
    RoundIs(g, order, worker, b);
  }

  lemma CalledNow(g: Graph, order: seq<string>, worker: Worker, b: Board, f: string)
    requires Playable(g, order, b) && f in g
    ensures Round(g, order, worker, b).attempts[f] != b.attempts[f] <==> f in ReadyNow(g, order, b)
    ensures f in ReadyNow(g, order, b) ==>
            Round(g, order, worker, b).status[f] == AfterWorker(worker(f, b.attempts[f] + 1))
  {
    RoundOn(g, order, worker, b, f);
    hide *;
  }

  /** Behind a task called in this round all is idle between batch and invalidation. */
  lemma BatchedIdle(g: Graph, order: seq<string>, worker: Worker, b: Board, f: string, t: string)
    requires Accounted(g, order, worker, b) && f in g && !b.status[f].Done? && t in g && DependsOn(g, t, f)
    ensures t !in ReadyNow(g, order, b) && Batched(g, order, worker, b).Keys == g.Keys
    ensures Idle(Batched(g, order, worker, b)[t])
  {
    AllBehindIdle(g, order, worker, b, f);
    BehindNotReady(g, f, b.status, t);
    BatchedOne(g, order, worker, b, t);
    hide Batched, ReadyNow, AllDone, Accounted, DependsOn;
  }

  /** A call that ends badly in this round is dominated after its invalidation. */
  lemma NewBadSwept(g: Graph, order: seq<string>, worker: Worker, b: Board, f: string)
    requires Accounted(g, order, worker, b) && Acyclic(g) && f in ReadyNow(g, order, b) && f in g
    requires Bad(AfterWorker(worker(f, b.attempts[f] + 1))) && Fits(g, order, OneFailed(g, f))
    ensures Dominates(g, f, AfterInvalidate(g, order, OneFailed(g, f)), Round(g, order, worker, b).status)
  {
    var s := Batched(g, order, worker, b);
    NewBadBatched(g, order, worker, b, f);
    NotBehindItself(g, f);
    RoundFromBatched(g, order, worker, b);
    assert forall t :: t in order ==> t in Elems(order);
    hide Dominates, Batched, Round, Accounted, DependsOn, Acyclic;
    InvalidateDominates(g, order, f, OneFailed(g, f), s);
  }

  lemma NewBadBatched(g: Graph, order: seq<string>, worker: Worker, b: Board, f: string)
    requires Accounted(g, order, worker, b) && Acyclic(g) && f in ReadyNow(g, order, b) && f in g
    requires Bad(AfterWorker(worker(f, b.attempts[f] + 1)))
    ensures Dominates(g, f, OneFailed(g, f), Batched(g, order, worker, b))
  {
    var s := Batched(g, order, worker, b);
    BatchedOne(g, order, worker, b, f);
    NotBehindItself(g, f);
    forall d | d in g && DependsOn(g, d, f) ensures Idle(s[d]) {
      BatchedIdle(g, order, worker, b, f, d);
    }
    hide *;
    DominatedStart(g, f, s);
  }

  lemma DominatedStart(g: Graph, f: string, s: Statuses)
    requires s.Keys == g.Keys && f in g && Bad(s[f]) && !DependsOn(g, f, f)
    requires forall d :: d in g && DependsOn(g, d, f) ==> Idle(s[d])
    ensures Dominates(g, f, OneFailed(g, f), s)
    ensures (forall d :: d in g && Bad(s[d]) ==> d == f) ==> Dominates(g, f, s, OneFailed(g, f))
  {
    hide DependsOn;
  }

  lemma StaysOnceSwept(g: Graph, order: seq<string>, worker: Worker, b: Board)
    requires Accounted(g, order, worker, b) && Acyclic(g)
    requires forall f :: Fits(g, order, OneFailed(g, f))
    requires OnceSwept(g, order, b)
    ensures OnceSwept(g, order, Round(g, order, worker, b))
  {
    var r := Round(g, order, worker, b);
    forall f | f in g && CalledBad(r, f) ensures Dominates(g, f, AfterInvalidate(g, order, OneFailed(g, f)), r.status) {
      RoundOn(g, order, worker, b, f);
      CalledNow(g, order, worker, b, f);
      hide Round, Dominates, Traced, ReadyNow, Batched, AfterInvalidate, Fits;
      if f in ReadyNow(g, order, b) {
        NewBadSwept(g, order, worker, b, f);
      } else {
        BadBefore(g, order, worker, b, r, f);
        OldBadKept(g, order, worker, b, f, AfterInvalidate(g, order, OneFailed(g, f)));
      }
    }
  }

  /** A task called before and not ready now was decided before. */
  lemma BadBefore(g: Graph, order: seq<string>, worker: Worker, b: Board, r: Board, f: string)
    requires Accounted(g, order, worker, b) && f in g && f in r.status && f in r.attempts
    requires f !in ReadyNow(g, order, b)
    requires r.attempts[f] == b.attempts[f] && CalledBad(r, f)
    requires !Undecided(b.status[f]) ==> r.status[f] == b.status[f]
    ensures CalledBad(b, f)
  {
    assert Traced(g, AllPending(g), worker, b, f);
    BatchedOne(g, order, worker, b, f);
    hide Batched, ReadyNow, AllDone, SomeBad, DependsOn;
  }

  /** The last sweep of a run is accounted for too. */
  lemma SweptAccounted(g: Graph, order: seq<string>, worker: Worker, b: Board)
    requires Accounted(g, order, worker, b) && ReadyNow(g, order, b) == []
    ensures Accounted(g, order, worker, Swept(g, order, b))
  {
    var end := Swept(g, order, b);
    forall t | t in g
      ensures Traced(g, AllPending(g), worker, end, t) {
      LastSweep(g, order, worker, AllPending(g), b, t);
    }
    hide Traced;
  }

  lemma SettledAtEnd(g: Graph, order: seq<string>, worker: Worker, b: Board)
    requires Accounted(g, order, worker, b) && Acyclic(g)
    requires forall f :: Fits(g, order, OneFailed(g, f))
    requires OnceSwept(g, order, b) && TwoSweepsSuffice(g, order) && ReadyNow(g, order, b) == []
    ensures Settled(g, Swept(g, order, b).status)
  {
    var end := Swept(g, order, b);
    SweptAccounted(g, order, worker, b);
    hide Accounted, OnceSwept, TwoSweepsSuffice, Acyclic, SomeBad, ReadyNow;
    forall t | t in g && Undecided(end.status[t]) ensures !SomeBad(end.status, g[t]) {
      if SomeBad(end.status, g[t]) {
        BehindBadIsSkipped(g, order, worker, b, t);
        assert false;
      }
    }
  }

  lemma BehindBadIsSkipped(g: Graph, order: seq<string>, worker: Worker, b: Board, t: string)
    requires Accounted(g, order, worker, b) && Acyclic(g)
    requires forall f :: Fits(g, order, OneFailed(g, f))
    requires OnceSwept(g, order, b) && TwoSweepsSuffice(g, order) && ReadyNow(g, order, b) == []
    requires Accounted(g, order, worker, Swept(g, order, b))
    requires t in g && SomeBad(Swept(g, order, b).status, g[t])
    ensures Swept(g, order, b).status[t].Skipped?
  {
    var end := Swept(g, order, b);
    var x :| x in g[t] && x in end.status && Bad(end.status[x]);
    BadHasRoot(g, order, worker, end, x);
    RootPassesOn(g, end, t, x);
    var f :| f in g && DependsOn(g, t, f) && CalledBad(end, f);
    hide *;
    SkippedBehind(g, order, worker, b, f, t);
  }

  lemma SkippedBehind(g: Graph, order: seq<string>, worker: Worker, b: Board, f: string, t: string)
    requires Accounted(g, order, worker, b) && Acyclic(g)
    requires forall f :: Fits(g, order, OneFailed(g, f))
    requires OnceSwept(g, order, b) && TwoSweepsSuffice(g, order) && ReadyNow(g, order, b) == []
    requires f in g && t in g && DependsOn(g, t, f) && CalledBad(Swept(g, order, b), f)
    ensures Swept(g, order, b).status[t].Skipped?
  {
    Triage(g, order, b, f);
    BadBefore(g, order, worker, b, Swept(g, order, b), f);
    NotBehindItself(g, f);
    assert TwoSweepsSkip(g, order, f);
    assert forall x :: x in order ==> x in Elems(order);
    SweptTwiceFits(g, order, f);
    hide Dominates;
    ReadyDominates(g, order, f, AfterInvalidate(g, order, OneFailed(g, f)), b.status);
    DominatedSkip(g, f, AfterReady(g, order, AfterInvalidate(g, order, OneFailed(g, f))), Swept(g, order, b).status, t);
  }

  lemma DominatedSkip(g: Graph, f: string, a: Statuses, b: Statuses, t: string)
    requires Dominates(g, f, a, b) && t in g && DependsOn(g, t, f)
    ensures t in a && t in b && (a[t].Skipped? ==> b[t].Skipped?) && Idle(b[t]) && Idle(a[t])
  {
  }

  lemma {:induction false} RunSettles(g: Graph, order: seq<string>, worker: Worker, b: Board)
    requires Accounted(g, order, worker, b) && Acyclic(g)
    requires forall f :: Fits(g, order, OneFailed(g, f))
    requires OnceSwept(g, order, b) && TwoSweepsSuffice(g, order) && Ends(g, order, worker, b)
    ensures Settled(g, Rounds(g, order, worker, b).status)
    decreases RoundsLeft(g, order, worker, b)
  {
    hide *;
    AccountedPlayable(g, order, worker, b);
    Unfolded(g, order, worker, b);
    if AllTerminal(b.status) {
      TerminalSettled(g, b.status);
    } else if ReadyNow(g, order, b) == [] {
      SettledAtEnd(g, order, worker, b);
    } else {
      StaysAccounted(g, order, worker, b);
      StaysOnceSwept(g, order, worker, b);
      RunSettles(g, order, worker, Round(g, order, worker, b));
    }
  }

  lemma StartAccounted(g: Graph, order: seq<string>, worker: Worker)
    requires Playable(g, order, AllPending(g)) && Closed(g)
    ensures Accounted(g, order, worker, AllPending(g))
  {
  }

  // ----- the condition is necessary

  /** The worker that lets only f fail, after everything it depends on is done. */
  ghost function FailOnly(g: Graph, f: string): Worker {
    (t, n) => if t == f then Raises else if DependsOn(g, f, t) then Returns(Done) else NeedsApproval
  }

  lemma FailOnlyEnds(g: Graph, order: seq<string>, f: string)
    requires Playable(g, order, AllPending(g))
    ensures Ends(g, order, FailOnly(g, f), AllPending(g))
  {
    forall t ensures Answers(FailOnly(g, f), t, 0) {
      assert 1 > 0 && Decides(FailOnly(g, f), t, 1);
    }
    ResponsiveEnds(g, order, FailOnly(g, f), AllPending(g));
  }

  /** Until f is called nothing is bad. */
  lemma NothingBadYet(g: Graph, order: seq<string>, f: string, b: Board)
    requires Acyclic(g) && Accounted(g, order, FailOnly(g, f), b) && f in g && b.attempts[f] == 0
    ensures forall t :: t in g ==> !Bad(b.status[t])
  {
    forall t | t in g ensures !Bad(b.status[t]) {
      if Bad(b.status[t]) {
        BadHasRoot(g, order, FailOnly(g, f), b, t);
        var x :| x in g && CalledBad(b, x);
        OnlyFBad(g, order, f, b, x);
        assert false;
      }
    }
  }

  lemma OnlyFBad(g: Graph, order: seq<string>, f: string, b: Board, x: string)
    requires Accounted(g, order, FailOnly(g, f), b) && x in g && CalledBad(b, x)
    ensures x == f
  {
    assert Traced(g, AllPending(g), FailOnly(g, f), b, x);
    hide DependsOn, AllDone, SomeBad, Accounted;
  }

  /** f and what it depends on, as far as it still waits. */
  ghost function Waiting(g: Graph, f: string, b: Board): (r: set<string>)
    requires g.Keys <= b.status.Keys
    ensures r <= g.Keys
  {
    set x | x in g && (x == f || DependsOn(g, f, x)) && b.status[x].Pending?
  }

  /** While f has not been called something is ready. */
  lemma StillReady(g: Graph, order: seq<string>, f: string, b: Board)
    requires Acyclic(g) && Accounted(g, order, FailOnly(g, f), b) && f in g && b.attempts[f] == 0
    ensures ReadyNow(g, order, b) != [] && !AllTerminal(b.status)
  {
    NothingBadYet(g, order, f, b);
    assert Traced(g, AllPending(g), FailOnly(g, f), b, f);
    assert b.status[f].Pending?;
    if ReadyNow(g, order, b) == [] {
      forall x | x in Waiting(g, f, b) ensures x in g && WaitsWithin(g, Waiting(g, f, b), x) {
        WaitsUpstream(g, order, f, b, x);
      }
      assert f in Waiting(g, f, b);
      hide *;
      WaitingSetCycles(g, Waiting(g, f, b), f);
      assert false;
    }
  }

  lemma WaitsUpstream(g: Graph, order: seq<string>, f: string, b: Board, x: string)
    requires Acyclic(g) && Accounted(g, order, FailOnly(g, f), b) && f in g && b.attempts[f] == 0
    requires (forall t :: t in g ==> !Bad(b.status[t])) && ReadyNow(g, order, b) == []
    requires x in Waiting(g, f, b)
    ensures x in g && WaitsWithin(g, Waiting(g, f, b), x)
  {
    NotAllDone(g, order, FailOnly(g, f), b, x);
    var y :| y in g[x] && !(y in b.status && b.status[y].Done?);
    Upstream(g, f, x, y);
    NotBehindItself(g, f);
    hide DependsOn, Acyclic, AllDone, SomeBad;
    UpstreamPends(g, order, f, b, y);
  }

  lemma NotAllDone(g: Graph, order: seq<string>, worker: Worker, b: Board, x: string)
    requires Playable(g, order, b) && ReadyNow(g, order, b) == [] && x in g && Undecided(b.status[x])
    ensures !AllDone(b.status, g[x])
  {
    BatchedOne(g, order, worker, b, x);
    hide *;
  }

  /** What f waits for and is not done has not been called. */
  lemma UpstreamPends(g: Graph, order: seq<string>, f: string, b: Board, y: string)
    requires Accounted(g, order, FailOnly(g, f), b) && y in g && y != f && DependsOn(g, f, y)
    requires !Bad(b.status[y]) && !b.status[y].Done?
    ensures b.status[y].Pending?
  {
    assert Traced(g, AllPending(g), FailOnly(g, f), b, y);
    hide DependsOn, AllDone, SomeBad;
  }

  /** What a task upstream of f depends on is upstream of f. */
  lemma Upstream(g: Graph, f: string, x: string, y: string)
    requires Closed(g) && f in g && x in g && (x == f || DependsOn(g, f, x)) && y in g[x]
    ensures DependsOn(g, f, y) && y in g
  {
    assert y in Elems(g[x]);
    if x == f {
      DirectlyDepends(g, f, y);
    } else {
      var p :| Chain(g, p, f, x);
      ChainFurther(g, p, f, x, y);
    }
  }

  lemma ChainFurther(g: Graph, p: seq<string>, f: string, x: string, y: string)
    requires Chain(g, p, f, x) && x in g && y in g[x]
    ensures DependsOn(g, f, y)
  {
    var longer := p + [x];
    forall i | 0 <= i < |longer| - 1 ensures longer[i + 1] in g[longer[i]] {
      if i < |p| - 1 { assert longer[i] == p[i] && longer[i + 1] == p[i + 1]; }
    }
    assert Chain(g, longer, f, y);
  }

  /** When f is ready everything upstream of it is done. */
  lemma {:induction false} UpstreamDone(g: Graph, order: seq<string>, worker: Worker, b: Board, f: string,
      p: seq<string>, x: string)
    requires Accounted(g, order, worker, b) && f in g && AllDone(b.status, g[f]) && Chain(g, p, f, x)
    ensures x in b.status && b.status[x].Done?
    decreases |p|
  {
    if |p| == 1 {
      assert x in g[f];
    } else {
      ChainTail(g, p, f, x);
      assert Traced(g, AllPending(g), worker, b, p[1]);
      assert p[1] in g[f] && b.status[p[1]].Done?;
      UpstreamDone(g, order, worker, b, p[1], p[1..], x);
    }
  }

  /** After the round that calls f nothing more becomes ready. */
  lemma NothingMoreReady(g: Graph, order: seq<string>, f: string, b: Board)
    requires Acyclic(g) && Accounted(g, order, FailOnly(g, f), b) && f in g && b.attempts[f] == 0
    requires f in ReadyNow(g, order, b)
    ensures ReadyNow(g, order, Round(g, order, FailOnly(g, f), b)) == []
  {
    var w := FailOnly(g, f);
    var r := Round(g, order, w, b);
    StaysAccounted(g, order, w, b);
    AccountedPlayable(g, order, w, r);
    hide Accounted, Acyclic, Round, FailOnly, AllDone;
    if ReadyNow(g, order, r) != [] {
      var u := ReadyNow(g, order, r)[0];
      OffersAreReady(g, order, r);
      LateReady(g, order, f, b, u);
      assert false;
    }
  }

  /** What is undecided after the round that calls f had not all dependencies done. */
  lemma LateReady(g: Graph, order: seq<string>, f: string, b: Board, u: string)
    requires Acyclic(g) && Accounted(g, order, FailOnly(g, f), b) && f in g && b.attempts[f] == 0
    requires f in ReadyNow(g, order, b) && u in g
    requires Accounted(g, order, FailOnly(g, f), Round(g, order, FailOnly(g, f), b))
    ensures u !in ReadyNow(g, order, Round(g, order, FailOnly(g, f), b))
  {
    var r := Round(g, order, FailOnly(g, f), b);
    BatchedOne(g, order, FailOnly(g, f), b, f);
    BatchedOne(g, order, FailOnly(g, f), r, u);
    hide Accounted, Acyclic, Round, ReadyNow, Batched, AllDone, FailOnly;
    if u in ReadyNow(g, order, r) {
      DoneBefore(g, order, f, b, r, u);
      AccountedPlayable(g, order, FailOnly(g, f), b);
      CalledAtOnce(g, order, f, b, u);
    }
  }

  /** What is done after the round that calls f was done before it. */
  lemma DoneBefore(g: Graph, order: seq<string>, f: string, b: Board, r: Board, u: string)
    requires Accounted(g, order, FailOnly(g, f), b) && Accounted(g, order, FailOnly(g, f), r) && f in g && u in g
    requires AllDone(b.status, g[f]) && AllDone(r.status, g[u])
    ensures AllDone(b.status, g[u])
  {
    forall x | x in g[u] ensures x in b.status && b.status[x].Done? {
      assert x in r.status && r.status[x].Done?;
      DoneIsUpstream(g, order, f, r, x);
      var p :| Chain(g, p, f, x);
      hide Accounted, AllDone, FailOnly, Chain;
      UpstreamDone(g, order, FailOnly(g, f), b, f, p, x);
    }
  }

  /** An undecided task whose dependencies are done is called, and decided by it. */
  lemma CalledAtOnce(g: Graph, order: seq<string>, f: string, b: Board, u: string)
    requires Playable(g, order, b) && u in g && AllDone(b.status, g[u])
    ensures !Undecided(Round(g, order, FailOnly(g, f), b).status[u])
  {
    if Undecided(b.status[u]) {
      BatchedOne(g, order, FailOnly(g, f), b, u);
      ReadyIsCalled(g, order, FailOnly(g, f), b, u);
    } else {
      DecidedStays(g, order, FailOnly(g, f), b, u);
    }
    hide Round, ReadyNow, AllDone, Batched, Fits;
  }

  lemma DoneIsUpstream(g: Graph, order: seq<string>, f: string, r: Board, x: string)
    requires Accounted(g, order, FailOnly(g, f), r) && x in r.status && r.status[x].Done?
    ensures DependsOn(g, f, x)
  {
    assert x in g;
    assert Traced(g, AllPending(g), FailOnly(g, f), r, x);
  }

  /** The round that calls f leaves no more skipped than one sweep alone would. */
  lemma LastRoundDominated(g: Graph, order: seq<string>, f: string, b: Board)
    requires Acyclic(g) && Accounted(g, order, FailOnly(g, f), b) && f in g && b.attempts[f] == 0
    requires f in ReadyNow(g, order, b) && Fits(g, order, OneFailed(g, f))
    ensures Dominates(g, f, Round(g, order, FailOnly(g, f), b).status, AfterInvalidate(g, order, OneFailed(g, f)))
  {
    var w := FailOnly(g, f);
    var s := Batched(g, order, w, b);
    BatchedOne(g, order, w, b, f);
    NotBehindItself(g, f);
    OnlyFBadAfterBatch(g, order, f, b);
    forall d | d in g && DependsOn(g, d, f) ensures Idle(s[d]) {
      BatchedIdle(g, order, w, b, f, d);
    }
    DominatedStart(g, f, s);
    RoundFromBatched(g, order, w, b);
    assert forall t :: t in order ==> t in Elems(order);
    hide Dominates, Batched, Round;
    InvalidateDominates(g, order, f, s, OneFailed(g, f));
  }

  lemma OnlyFBadAfterBatch(g: Graph, order: seq<string>, f: string, b: Board)
    requires Acyclic(g) && Accounted(g, order, FailOnly(g, f), b) && f in g && b.attempts[f] == 0
    ensures Batched(g, order, FailOnly(g, f), b).Keys == g.Keys
    ensures forall d :: d in g && Bad(Batched(g, order, FailOnly(g, f), b)[d]) ==> d == f
  {
    var w := FailOnly(g, f);
    NothingBadYet(g, order, f, b);
    assert forall x :: x in order ==> x in Elems(order);
    NoBadNoSkip(g, order, b.status);
    BatchedOne(g, order, w, b, f);
    forall d | d in g && Bad(Batched(g, order, w, b)[d]) ensures d == f {
      assert !Bad(Swept(g, order, b).status[d]);
      BadInBatch(g, order, f, b, d);
    }
  }

  lemma BadInBatch(g: Graph, order: seq<string>, f: string, b: Board, d: string)
    requires Playable(g, order, b) && d in g && f in g
    requires Bad(Batched(g, order, FailOnly(g, f), b)[d]) && !Bad(Swept(g, order, b).status[d])
    ensures d == f
  {
    BatchedOne(g, order, FailOnly(g, f), b, d);
    hide Batched, ReadyNow, AllDone, Fits, Swept;
  }

  lemma {:induction false} UnsettledAlong(g: Graph, st: Statuses, f: string, p: seq<string>, t: string)
    requires st.Keys == g.Keys && Chain(g, p, t, f) && f in g && Bad(st[f])
    requires forall d :: d in g && DependsOn(g, d, f) ==> Idle(st[d])
    requires t in g && st[t].Pending?
    ensures !Settled(g, st)
    decreases |p|
  {
    if |p| == 1 {
      assert f in g[t] && SomeBad(st, g[t]);
    } else {
      ChainTail(g, p, t, f);
      if st[p[1]].Pending? {
        UnsettledAlong(g, st, f, p[1..], p[1]);
      } else {
        assert p[1] in g[t] && SomeBad(st, g[t]);
      }
    }
  }

  /** The sweep after the round that calls f does not reach t either. */
  lemma LastSweepMisses(g: Graph, order: seq<string>, f: string, t: string, b: Board)
    requires Acyclic(g) && Accounted(g, order, FailOnly(g, f), b) && f in g && b.attempts[f] == 0
    requires f in ReadyNow(g, order, b) && Fits(g, order, OneFailed(g, f))
    requires Fits(g, order, AfterInvalidate(g, order, OneFailed(g, f)))
    requires t in g && DependsOn(g, t, f)
             && !AfterReady(g, order, AfterInvalidate(g, order, OneFailed(g, f)))[t].Skipped?
    ensures var end := Swept(g, order, Round(g, order, FailOnly(g, f), b)).status;
            && end.Keys == g.Keys && Bad(end[f]) && end[t].Pending?
            && forall d :: d in g && DependsOn(g, d, f) ==> Idle(end[d])
  {
    var r := Round(g, order, FailOnly(g, f), b);
    LastRoundDominated(g, order, f, b);
    NotBehindItself(g, f);
    assert forall x :: x in order ==> x in Elems(order);
    var end := Swept(g, order, r).status;
    hide Dominates, Round, Accounted, Acyclic;
    ReadyDominates(g, order, f, r.status, AfterInvalidate(g, order, OneFailed(g, f)));
    DominatedSkip(g, f, end, AfterReady(g, order, AfterInvalidate(g, order, OneFailed(g, f))), t);
    DominatedEnd(g, f, end, AfterReady(g, order, AfterInvalidate(g, order, OneFailed(g, f))));
  }

  /** Once f is called the run ends unsettled, if two sweeps do not reach t. */
  lemma EndsUnsettled(g: Graph, order: seq<string>, f: string, t: string, b: Board)
    requires Acyclic(g) && Accounted(g, order, FailOnly(g, f), b) && f in g && b.attempts[f] == 0
    requires f in ReadyNow(g, order, b) && Fits(g, order, OneFailed(g, f))
    requires Fits(g, order, AfterInvalidate(g, order, OneFailed(g, f)))
    requires t in g && DependsOn(g, t, f)
             && !AfterReady(g, order, AfterInvalidate(g, order, OneFailed(g, f)))[t].Skipped?
    requires Accounted(g, order, FailOnly(g, f), Round(g, order, FailOnly(g, f), b))
    requires Ends(g, order, FailOnly(g, f), Round(g, order, FailOnly(g, f), b))
    ensures !Settled(g, Rounds(g, order, FailOnly(g, f), Round(g, order, FailOnly(g, f), b)).status)
  {
    var r := Round(g, order, FailOnly(g, f), b);
    AccountedPlayable(g, order, FailOnly(g, f), r);
    hide Accounted, Round, Rounds, RoundsLeft, Ends, Settled, Fits, Acyclic;
    LastSweepMisses(g, order, f, t, b);
    NothingMoreReady(g, order, f, b);
    Triage(g, order, r, t);
    assert !AllTerminal(r.status);
    Unfolded(g, order, FailOnly(g, f), r);
    var p :| Chain(g, p, t, f);
    UnsettledAlong(g, Swept(g, order, r).status, f, p, t);
  }

  lemma AccountedPlayable(g: Graph, order: seq<string>, worker: Worker, b: Board)
    requires Accounted(g, order, worker, b)
    ensures Playable(g, order, b) && g.Keys == b.status.Keys
  {
  }

  lemma TerminalSettled(g: Graph, st: Statuses)
    requires g.Keys <= st.Keys && AllTerminal(st)
    ensures Settled(g, st)
  {
  }

  lemma DominatedEnd(g: Graph, f: string, a: Statuses, b: Statuses)
    requires Dominates(g, f, a, b)
    ensures a.Keys == g.Keys && Bad(a[f]) && forall d :: d in g && DependsOn(g, d, f) ==> Idle(a[d])
  {
  }

  lemma {:induction false} FailingRunUnsettled(g: Graph, order: seq<string>, f: string, t: string, b: Board)
    requires Acyclic(g) && Accounted(g, order, FailOnly(g, f), b) && f in g && b.attempts[f] == 0
    requires Fits(g, order, OneFailed(g, f))
    requires Fits(g, order, AfterInvalidate(g, order, OneFailed(g, f)))
    requires t in g && DependsOn(g, t, f)
             && !AfterReady(g, order, AfterInvalidate(g, order, OneFailed(g, f)))[t].Skipped?
    requires Ends(g, order, FailOnly(g, f), b)
    ensures !Settled(g, Rounds(g, order, FailOnly(g, f), b).status)
    decreases RoundsLeft(g, order, FailOnly(g, f), b)
  {
    var w := FailOnly(g, f);
    StillReady(g, order, f, b);
    Unfolded(g, order, w, b);
    StaysAccounted(g, order, w, b);
    CalledNow(g, order, w, b, f);
    if f in ReadyNow(g, order, b) {
      EndsUnsettled(g, order, f, t, b);
    } else {
      FailingRunUnsettled(g, order, f, t, Round(g, order, w, b));
    }
  }

  // ----- the condition

  ghost predicate AlwaysSettles(g: Graph, order: seq<string>)
    requires Playable(g, order, AllPending(g))
  {
    forall worker :: Ends(g, order, worker, AllPending(g)) ==>
      Settled(g, Rounds(g, order, worker, AllPending(g)).status)
  }

  /** For a task DAG, every run from scratch that ends has skipped everything behind a
      failure, whatever the workers did, exactly when two sweeps suffice for each single
      failure. */
  lemma SettlesExactly(g: Graph, order: seq<string>)
    requires Closed(g) && Acyclic(g) && Distinct(order) && Elems(order) == g.Keys
    ensures Playable(g, order, AllPending(g)) && (forall f :: Fits(g, order, OneFailed(g, f)))
    ensures AlwaysSettles(g, order) <==> TwoSweepsSuffice(g, order)
  {
    OneFailedFits(g, order);
    if TwoSweepsSuffice(g, order) {
      forall worker | Ends(g, order, worker, AllPending(g))
        ensures Settled(g, Rounds(g, order, worker, AllPending(g)).status) {
        StartAccounted(g, order, worker);
        RunSettles(g, order, worker, AllPending(g));
      }
    } else {
      var f :| f in g && !TwoSweepsSkip(g, order, f);
      SweptTwiceFits(g, order, f);
      var t :| t in g && DependsOn(g, t, f)
          && !AfterReady(g, order, AfterInvalidate(g, order, OneFailed(g, f)))[t].Skipped?;
      FailOnlyEnds(g, order, f);
      StartAccounted(g, order, FailOnly(g, f));
      FailingRunUnsettled(g, order, f, t, AllPending(g));
    }
  }

  /** Then every task ends as its dependencies say it must. */
  lemma SettledRunsAnswerVerdicts(g: Graph, order: seq<string>, worker: Worker, t: string)
    requires Playable(g, order, AllPending(g)) && AlwaysSettles(g, order) && Ends(g, order, worker, AllPending(g))
             && t in g
    ensures var end := Rounds(g, order, worker, AllPending(g)).status;
            end[t] == Verdict(g, AllPending(g), worker, end, t)
  {
    var b := AllPending(g);
    var r := Rounds(g, order, worker, b);
    RunFacts(g, order, worker, b, t);
    assert Settled(g, r.status);
    hide Rounds, Traced, Ends, AlwaysSettles;
    TracedIsVerdict(g, worker, b, r, t);
  }

  /** Dependency order is one way to meet the condition. */
  lemma DependencyOrderSettles(g: Graph, order: seq<string>)
    requires Playable(g, order, AllPending(g)) && DependencyOrdered(g, order)
    ensures AlwaysSettles(g, order)
  {
    forall worker | Ends(g, order, worker, AllPending(g))
      ensures Settled(g, Rounds(g, order, worker, AllPending(g)).status) {
      forall t | t in g
        ensures Undecided(Rounds(g, order, worker, AllPending(g)).status[t]) ==>
                !SomeBad(Rounds(g, order, worker, AllPending(g)).status, g[t]) {
        RunsTrace(g, order, worker, AllPending(g), AllPending(g), t);
      }
    }
  }
}
