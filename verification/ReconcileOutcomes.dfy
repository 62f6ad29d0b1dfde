/**
 What reconciliation and its queue come to, said of the records themselves
 (sync/queue/queue.go): which change is kept for a path, and which list a path goes to.
 */
module ReconcileOutcomes {
  import opened Lex
  import opened Outcomes
  import opened ChangeQueue
  import opened Reconciliation

  // ----- the order of strings

  /** At k the first is over, or has the smaller character; up to there they agree. */
  predicate FirstDifference(a: string, b: string, k: nat) {
    k < |b| && k <= |a| && a[..k] == b[..k] && (k == |a| || a[k] < b[k])
  }

  lemma {:induction false} BelowMeans(a: string, b: string)
    ensures Lt(a, b) <==> exists k: nat :: FirstDifference(a, b, k)
  {
    if a != [] && b != [] && a[0] == b[0] {
      BelowMeans(a[1..], b[1..]);
      assert a == [a[0]] + a[1..] && b == [b[0]] + b[1..];
      if k: nat :| FirstDifference(a[1..], b[1..], k) {
        assert a[..k + 1] == [a[0]] + a[1..][..k] && b[..k + 1] == [b[0]] + b[1..][..k];
        assert FirstDifference(a, b, k + 1);
      }
      if k: nat :| FirstDifference(a, b, k) {
        assert k > 0 && a[1..][..k - 1] == a[..k][1..] && b[1..][..k - 1] == b[..k][1..];
        assert FirstDifference(a[1..], b[1..], k - 1);
      }
    } else if b != [] && (a == [] || a[0] < b[0]) {
      assert FirstDifference(a, b, 0);
    } else {
      forall k: nat ensures !FirstDifference(a, b, k) {
        if 0 < k <= |a| && k < |b| { assert a[..k][0] == a[0] && b[..k][0] == b[0]; }
      }
    }
  }

  // ----- the change kept for a path

  /** The i-th change is the one kept for its path: no other has a higher revision, or
      the same revision and a greater node, and those that tie come later. */
  ghost predicate Kept(cs: seq<Change>, i: nat)
    requires i < |cs|
  {
    forall j :: 0 <= j < |cs| && cs[j].record.path == cs[i].record.path ==> NoBetter(cs, i, j)
  }

  predicate NoBetter(cs: seq<Change>, i: nat, j: nat)
    requires i < |cs| && j < |cs|
  {
    || cs[j].record.revision < cs[i].record.revision
    || (cs[j].record.revision == cs[i].record.revision && Lt(cs[j].node, cs[i].node))
    || (cs[j].record.revision == cs[i].record.revision && cs[j].node == cs[i].node && i <= j)
  }

  /** A queue holds, for exactly the paths enqueued, the change kept for each. */
  lemma {:induction false} QueueHoldsExactly(cs: seq<Change>, p: string)
    ensures p in EnqueueAll(map[], cs) <==> exists i :: 0 <= i < |cs| && cs[i].record.path == p
    ensures p in EnqueueAll(map[], cs) ==>
              exists i :: 0 <= i < |cs| && cs[i].record.path == p && cs[i] == EnqueueAll(map[], cs)[p] && Kept(cs, i)
  {
    if cs != [] {
      var n := |cs| - 1;
      var init, last := cs[..n], cs[n];
      QueueHoldsExactly(init, p);
      var before := EnqueueAll(map[], init);
      if last.record.path != p {
        if p in before {
          var i :| 0 <= i < n && init[i].record.path == p && init[i] == before[p] && Kept(init, i);
          KeptStill(init, last, i);
          assert cs == init + [last];
        }
      } else if p !in before {
        assert Kept(cs, n);
      } else {
        var i :| 0 <= i < n && init[i].record.path == p && init[i] == before[p] && Kept(init, i);
        assert cs == init + [last];
        LastOrKept(init, last, i);
      }
    }
  }

  lemma KeptStill(init: seq<Change>, last: Change, i: nat)
    requires i < |init| && Kept(init, i) && last.record.path != init[i].record.path
    ensures Kept(init + [last], i)
  {
    forall j | 0 <= j < |init| ensures NoBetter(init, i, j) ==> NoBetter(init + [last], i, j) {}
  }

  /** One more change for the path replaces the one kept exactly when it is newer. */
  lemma LastOrKept(init: seq<Change>, last: Change, i: nat)
    requires i < |init| && Kept(init, i) && last.record.path == init[i].record.path
    ensures if Newer(last, init[i]) then Kept(init + [last], |init|) else Kept(init + [last], i)
  {
    var cs, n := init + [last], |init|;
    LeTotal(last.node, init[i].node);
    if Newer(last, init[i]) {
      forall j | 0 <= j < |cs| && cs[j].record.path == last.record.path ensures NoBetter(cs, n, j) {
        if j < n {
          assert cs[j] == init[j] && NoBetter(init, i, j);
          Above(init[j].node, init[i].node, last.node);
        }
      }
    } else {
      if Le(last.node, init[i].node) && Le(init[i].node, last.node) { LeAntisymmetric(last.node, init[i].node); }
      forall j | 0 <= j < |cs| && cs[j].record.path == last.record.path ensures NoBetter(cs, i, j) {
        if j < n { assert cs[j] == init[j] && NoBetter(init, i, j); }
      }
    }
  }

  lemma Above(a: string, b: string, c: string)
    ensures Le(a, b) && Lt(b, c) ==> Lt(a, c)
  {
    if Le(a, b) && Lt(b, c) {
      LeTransitive(a, b, c);
      if a == c { LeAntisymmetric(b, c); }
    }
  }

  // ----- the list a path goes to

  predicate SameRevision(local: Changes, remote: Changes, p: string) {
    p in local && p in remote && local[p].record.revision == remote[p].record.revision
  }

  predicate SameContent(a: Change, b: Change) {
    a.record.hash == b.record.hash && (a.record.deleted <==> b.record.deleted)
  }

  /** Only this side has the path, or has it at the higher revision. */
  predicate Ahead(mine: Changes, theirs: Changes, p: string) {
    p in mine && (p !in theirs || mine[p].record.revision > theirs[p].record.revision)
  }

  /** The four lists: what only one side has or has at a higher revision goes to the
      other; at equal revisions equal content has converged, different content is a
      conflict between the two. */
  ghost predicate ListsExactly(local: Changes, remote: Changes, d: Decision, paths: set<string>) {
    && AheadExactly(local, remote, d.send, paths)
    && AheadExactly(remote, local, d.apply, paths)
    && (forall p :: p in d.converged <==>
          p in paths && SameRevision(local, remote, p) && SameContent(local[p], remote[p]))
    && (forall k :: k in d.conflicts <==>
          k.path in paths && SameRevision(local, remote, k.path)
          && !SameContent(local[k.path], remote[k.path]) && k == Conflict(k.path, local[k.path], remote[k.path]))
  }

  ghost predicate AheadExactly(mine: Changes, theirs: Changes, cs: seq<Change>, paths: set<string>) {
    forall c :: c in cs <==>
      c.record.path in paths && Ahead(mine, theirs, c.record.path) && c == mine[c.record.path]
  }

  /** The lists by path, each path once. */
  predicate ByPath(paths: seq<string>) {
    Sorted(paths) && Distinct(paths)
  }

  function PathsOf(cs: seq<Change>): seq<string> {
    seq(|cs|, i requires 0 <= i < |cs| => cs[i].record.path)
  }

  function ConflictPaths(ks: seq<Conflict>): seq<string> {
    seq(|ks|, i requires 0 <= i < |ks| => ks[i].path)
  }

  ghost predicate AllByPath(d: Decision) {
    ByPath(PathsOf(d.send)) && ByPath(PathsOf(d.apply)) && ByPath(d.converged) && ByPath(ConflictPaths(d.conflicts))
  }

  /** Nothing in the lists is beyond or at p. */
  ghost predicate AllBelow(d: Decision, p: string) {
    && (forall q :: q in PathsOf(d.send) ==> Lt(q, p)) && (forall q :: q in PathsOf(d.apply) ==> Lt(q, p))
    && (forall q :: q in d.converged ==> Lt(q, p)) && (forall q :: q in ConflictPaths(d.conflicts) ==> Lt(q, p))
  }

  lemma AheadOneMore(mine: Changes, theirs: Changes, cs: seq<Change>, paths: set<string>, p: string)
    requires AheadExactly(mine, theirs, cs, paths) && p !in paths && (p in mine ==> mine[p].record.path == p)
    ensures AheadExactly(mine, theirs, if Ahead(mine, theirs, p) then cs + [mine[p]] else cs, paths + {p})
  {
  }

  /** Where Listing puts p. */
  lemma ListingPuts(local: Changes, remote: Changes, d: Decision, p: string)
    requires p in local || p in remote
    ensures var e, same := Listing(d, local, remote, p), SameRevision(local, remote, p);
            && e.send == (if Ahead(local, remote, p) then d.send + [local[p]] else d.send)
            && e.apply == (if Ahead(remote, local, p) then d.apply + [remote[p]] else d.apply)
            && e.converged == (if same && SameContent(local[p], remote[p]) then d.converged + [p] else d.converged)
            && e.conflicts ==
                 if same && !SameContent(local[p], remote[p])
                 then d.conflicts + [Conflict(p, local[p], remote[p])] else d.conflicts
  {
  }

  lemma ListingExactly(local: Changes, remote: Changes, d: Decision, paths: set<string>, p: string)
    requires Filed(local) && Filed(remote) && (p in local || p in remote) && p !in paths
    requires ListsExactly(local, remote, d, paths)
    ensures ListsExactly(local, remote, Listing(d, local, remote, p), paths + {p})
  {
    ListingPuts(local, remote, d, p);
    AheadOneMore(local, remote, d.send, paths, p);
    AheadOneMore(remote, local, d.apply, paths, p);
    hide Listing, Ahead, SameRevision, SameContent, AheadExactly, Filed;
  }

  lemma AppendByPath(paths: seq<string>, p: string)
    requires ByPath(paths) && forall q :: q in paths ==> Lt(q, p)
    ensures ByPath(paths + [p])
  {
    var longer := paths + [p];
    forall i, j | 0 <= i < j < |longer| ensures Le(longer[i], longer[j]) && longer[i] != longer[j] {
      assert longer[i] in paths;
    }
  }

  lemma ListingByPath(local: Changes, remote: Changes, d: Decision, p: string)
    requires Filed(local) && Filed(remote) && (p in local || p in remote) && AllByPath(d) && AllBelow(d, p)
    ensures AllByPath(Listing(d, local, remote, p))
  {
    AppendByPath(PathsOf(d.send), p);
    AppendByPath(PathsOf(d.apply), p);
    AppendByPath(d.converged, p);
    AppendByPath(ConflictPaths(d.conflicts), p);
    var e := Listing(d, local, remote, p);
    assert PathsOf(e.send) == PathsOf(d.send) || PathsOf(e.send) == PathsOf(d.send) + [p];
    assert PathsOf(e.apply) == PathsOf(d.apply) || PathsOf(e.apply) == PathsOf(d.apply) + [p];
    assert ConflictPaths(e.conflicts) == ConflictPaths(d.conflicts)
        || ConflictPaths(e.conflicts) == ConflictPaths(d.conflicts) + [p];
    hide ByPath, AllBelow;
  }

  lemma {:induction false} DecideExactly(local: Changes, remote: Changes, paths: seq<string>)
    requires Filed(local) && Filed(remote) && Changed(local, remote, paths) && ByPath(paths)
    ensures ListsExactly(local, remote, Decide(local, remote, paths), Elems(paths))
    ensures AllByPath(Decide(local, remote, paths))
  {
    if paths != [] {
      var init, p := paths[..|paths| - 1], paths[|paths| - 1];
      assert paths == init + [p];
      DecideExactly(local, remote, init);
      assert p !in init && forall q :: q in init ==> Lt(q, p);
      hide ByPath;
      assert Elems(paths) == Elems(init) + {p} && p !in Elems(init);
      BelowAll(local, remote, Decide(local, remote, init), Elems(init), p);
      hide Listing, ListsExactly, AllByPath, AllBelow, Filed, Elems;
      ListingExactly(local, remote, Decide(local, remote, init), Elems(init), p);
      ListingByPath(local, remote, Decide(local, remote, init), p);
    }
  }

  lemma BelowAll(local: Changes, remote: Changes, d: Decision, before: set<string>, p: string)
    requires Filed(local) && Filed(remote) && ListsExactly(local, remote, d, before)
    requires forall q :: q in before ==> Lt(q, p)
    ensures AllBelow(d, p)
  {
    forall i | 0 <= i < |d.send| ensures PathsOf(d.send)[i] in before { assert d.send[i] in d.send; }
    forall i | 0 <= i < |d.apply| ensures PathsOf(d.apply)[i] in before { assert d.apply[i] in d.apply; }
    forall i | 0 <= i < |d.conflicts| ensures ConflictPaths(d.conflicts)[i] in before {
      assert d.conflicts[i] in d.conflicts;
    }
    hide Lt, Ahead, SameRevision, SameContent, Filed;
  }

  /** Reconciling two queues puts every path where its two changes say, by path. */
  lemma ReconcileExactly(local: Changes, remote: Changes)
    requires Filed(local) && Filed(remote)
    ensures ListsExactly(local, remote, Reconciled(local, remote), local.Keys + remote.Keys)
    ensures AllByPath(Reconciled(local, remote))
  {
    SortedPathsChanged(local, remote);
    var paths := SortedPaths(local, remote);
    assert ByPath(paths);
    hide SortedPaths, Decide, AllByPath, Sorted, Distinct, ListsExactly;
    DecideExactly(local, remote, paths);
  }

  /** After the exchange every path that was not in conflict holds the same content on
      both sides, and a path in conflict what each side had. */
  lemma ExchangeAgrees(local: Changes, remote: Changes, p: string)
    requires Filed(local) && Filed(remote) && (p in local || p in remote)
    ensures var d := Reconciled(local, remote);
            var local', remote' := EnqueueAll(local, d.apply), EnqueueAll(remote, d.send);
            && p in local' && p in remote'
            && (if SameRevision(local, remote, p) && !SameContent(local[p], remote[p])
                then local'[p] == local[p] && remote'[p] == remote[p]
                else SameContent(local'[p], remote'[p]))
  {
    var d := Reconciled(local, remote);
    ExchangeAt(local, remote, p);
    hide *;
    ExchangedAgrees(local, remote, EnqueueAll(local, d.apply), EnqueueAll(remote, d.send), p);
  }

  lemma ExchangedAgrees(local: Changes, remote: Changes, local': Changes, remote': Changes, p: string)
    requires (p in local || p in remote) && ExchangedAt(local, remote, local', remote', p)
    ensures p in local' && p in remote'
    ensures if SameRevision(local, remote, p) && !SameContent(local[p], remote[p])
            then local'[p] == local[p] && remote'[p] == remote[p]
            else SameContent(local'[p], remote'[p])
  {
  }
}
