/**
 What reconciliation guarantees: every path in exactly one list, mirrored
 decisions, and agreement after the two sides have exchanged their changes.
 */
module Reconciliation {
  import opened Lex
  import opened Outcomes
  import opened ChangeQueue

  // ----- one list per path

  ghost predicate Sends(d: Decision, p: string) {
    exists c :: c in d.send && c.record.path == p
  }

  ghost predicate Applies(d: Decision, p: string) {
    exists c :: c in d.apply && c.record.path == p
  }

  ghost predicate Conflicting(d: Decision, p: string) {
    exists c :: c in d.conflicts && c.path == p
  }

  /** The lists hold p where its verdict says. */
  ghost predicate PlacedAs(d: Decision, p: string, v: Verdict) {
    && (Sends(d, p) <==> v.ToSend?)
    && (Applies(d, p) <==> v.ToApply?)
    && (p in d.converged <==> v.Agree?)
    && (Conflicting(d, p) <==> v.Clash?)
  }

  ghost predicate Absent(d: Decision, p: string) {
    !Sends(d, p) && !Applies(d, p) && p !in d.converged && !Conflicting(d, p)
  }

  function Size(d: Decision): nat {
    |d.send| + |d.apply| + |d.converged| + |d.conflicts|
  }

  /** p is placed by its verdict when listed, and nowhere otherwise. */
  ghost predicate Placed(local: Changes, remote: Changes, d: Decision, p: string, listed: bool)
    requires listed ==> p in local || p in remote
  {
    if listed then PlacedAs(d, p, Classify(local, remote, p)) else Absent(d, p)
  }

  /** Every path is placed exactly once, and nothing else is. */
  lemma {:induction false} EachPathOnce(local: Changes, remote: Changes, paths: seq<string>, p: string)
    requires Filed(local) && Filed(remote)
    requires Changed(local, remote, paths) && Distinct(paths)
    ensures Size(Decide(local, remote, paths)) == |paths|
    ensures Placed(local, remote, Decide(local, remote, paths), p, p in paths)
  {
    if paths != [] {
      var init, last := paths[..|paths| - 1], paths[|paths| - 1];
      assert paths == init + [last] && last !in init;
      EachPathOnce(local, remote, init, p);
      PlacedMore(Decide(local, remote, init), Decide(local, remote, paths), local, remote, last, p);
    }
  }

  /** The four lists of a reconciliation partition the paths of both sides. */
  lemma ReconcilePartitions(local: Changes, remote: Changes, p: string)
    requires Filed(local) && Filed(remote)
    ensures Size(Reconciled(local, remote)) == |local.Keys + remote.Keys|
    ensures Placed(local, remote, Reconciled(local, remote), p, p in local || p in remote)
  {
    var paths := SortedPaths(local, remote);
    SortedPathsChanged(local, remote);
    EachPathOnce(local, remote, paths, p);
    DistinctSize(paths);
  }

  lemma PlacedMore(before: Decision, d: Decision, local: Changes, remote: Changes, p: string, q: string)
    requires Filed(local) && Filed(remote) && (p in local || p in remote)
    requires d == match Classify(local, remote, p)
                  case ToSend => before.(send := before.send + [local[p]])
                  case ToApply => before.(apply := before.apply + [remote[p]])
                  case Agree => before.(converged := before.converged + [p])
                  case Clash => before.(conflicts := before.conflicts + [Conflict(p, local[p], remote[p])])
    ensures Sends(d, q) <==> Sends(before, q) || (q == p && Classify(local, remote, p).ToSend?)
    ensures Applies(d, q) <==> Applies(before, q) || (q == p && Classify(local, remote, p).ToApply?)
    ensures q in d.converged <==> q in before.converged || (q == p && Classify(local, remote, p).Agree?)
    ensures Conflicting(d, q) <==> Conflicting(before, q) || (q == p && Classify(local, remote, p).Clash?)
  {
    match Classify(local, remote, p) {
      case ToSend => assert local[p] in d.send && forall c :: c in d.send <==> c in before.send || c == local[p];
      case ToApply => assert remote[p] in d.apply && forall c :: c in d.apply <==> c in before.apply || c == remote[p];
      case Agree =>
      case Clash =>
        var k := Conflict(p, local[p], remote[p]);
        assert k in d.conflicts && forall c :: c in d.conflicts <==> c in before.conflicts || c == k;
    }
  }

  // ----- mirrored

  function Mirror(d: Decision): Decision {
    Decision(d.apply, d.send, d.converged,
             seq(|d.conflicts|, i requires 0 <= i < |d.conflicts| =>
                 Conflict(d.conflicts[i].path, d.conflicts[i].remote, d.conflicts[i].local)))
  }

  lemma {:induction false} DecideMirrored(local: Changes, remote: Changes, paths: seq<string>)
    requires Changed(local, remote, paths)
    ensures Decide(remote, local, paths) == Mirror(Decide(local, remote, paths))
  {
    if paths != [] {
      DecideMirrored(local, remote, paths[..|paths| - 1]);
    }
  }

  /** Both sides come to the same decision, seen from their own end. */
  lemma ReconcileMirrored(local: Changes, remote: Changes)
    ensures Reconciled(remote, local) == Mirror(Reconciled(local, remote))
  {
    assert local.Keys + remote.Keys == remote.Keys + local.Keys;
    SortedPathsChanged(local, remote);
    DecideMirrored(local, remote, SortedPaths(local, remote));
  }

  // ----- exchange

  function Get(m: Changes, p: string): Option<Change> {
    if p in m then Some(m[p]) else None
  }

  /** Enqueueing a decision's Apply list replaces exactly those paths. */
  lemma {:induction false} EnqueueApply(local: Changes, remote: Changes, paths: seq<string>, p: string)
    requires Filed(local) && Filed(remote) && Distinct(paths) && Changed(local, remote, paths)
    ensures Get(EnqueueAll(local, Decide(local, remote, paths).apply), p) ==
            if p in paths && Classify(local, remote, p).ToApply? then Some(remote[p]) else Get(local, p)
  {
    if paths != [] {
      var init, last := paths[..|paths| - 1], paths[|paths| - 1];
      assert paths == init + [last] && last !in init;
      EnqueueApply(local, remote, init, p);
      EnqueueApply(local, remote, init, last);
      assert paths[..|init| + 1] == paths;
      DecideSnoc(local, remote, paths, |init|);
      hide Decide, EnqueueAll, Filed, Classify, Distinct, Changed;
      AppliesOneMore(local, remote, Decide(local, remote, init), last, p);
    }
  }

  lemma AppliesOneMore(local: Changes, remote: Changes, before: Decision, last: string, p: string)
    requires Filed(remote) && (last in local || last in remote)
    requires Get(EnqueueAll(local, before.apply), last) == Get(local, last)
    ensures Get(EnqueueAll(local, Listing(before, local, remote, last).apply), p) ==
            if p == last && Classify(local, remote, last).ToApply? then Some(remote[last])
            else Get(EnqueueAll(local, before.apply), p)
  {
    hide Listing, EnqueueAll, EnqueueOne, Filed, Classify;
    ListingApplies(local, remote, before, last);
    if Classify(local, remote, last).ToApply? {
      ToApplyMeans(local, remote, last);
      EnqueueSnoc(local, before.apply, remote[last]);
      ApplyTakes(EnqueueAll(local, before.apply), local, remote, last);
    }
  }

  lemma ToApplyMeans(local: Changes, remote: Changes, p: string)
    requires (p in local || p in remote) && Classify(local, remote, p).ToApply?
    ensures p in remote
  {
  }

  lemma ListingApplies(local: Changes, remote: Changes, before: Decision, p: string)
    requires p in local || p in remote
    ensures Listing(before, local, remote, p).apply ==
            if Classify(local, remote, p).ToApply? then before.apply + [remote[p]] else before.apply
  {
    hide Same;
  }

  lemma EnqueueSnoc(m: Changes, cs: seq<Change>, c: Change)
    ensures EnqueueAll(m, cs + [c]) == EnqueueOne(EnqueueAll(m, cs), c)
  {
    assert (cs + [c])[..|cs|] == cs;
  }

  /** A change to be applied replaces what its path held. */
  lemma ApplyTakes(held: Changes, local: Changes, remote: Changes, p: string)
    requires Filed(remote) && (p in local || p in remote) && Classify(local, remote, p).ToApply?
    requires Get(held, p) == Get(local, p)
    ensures EnqueueOne(held, remote[p]) == held[p := remote[p]]
  {
  }

  /** What the two queues hold for p once each side has enqueued what it is to
      apply. */
  ghost predicate ExchangedAt(local: Changes, remote: Changes, local': Changes, remote': Changes, p: string)
    requires p in local || p in remote
  {
    match Classify(local, remote, p)
    case ToSend => Get(local', p) == Get(remote', p) == Some(local[p])
    case ToApply => Get(local', p) == Get(remote', p) == Some(remote[p])
    case Agree => Get(local', p) == Some(local[p]) && Get(remote', p) == Some(remote[p])
    case Clash => Get(local', p) == Some(local[p]) && Get(remote', p) == Some(remote[p])
  }

  ghost predicate Exchanged(local: Changes, remote: Changes, local': Changes, remote': Changes) {
    forall p :: p in local || p in remote ==> ExchangedAt(local, remote, local', remote', p)
  }

  lemma {:induction false} DecideAfterExchange(local: Changes, remote: Changes, local': Changes, remote': Changes,
      paths: seq<string>)
    requires Exchanged(local, remote, local', remote')
    requires Changed(local, remote, paths) && Changed(local', remote', paths)
    ensures var d, d' := Decide(local, remote, paths), Decide(local', remote', paths);
            d'.send == [] && d'.apply == [] && d'.conflicts == d.conflicts
  {
    if paths != [] {
      var init, last := paths[..|paths| - 1], paths[|paths| - 1];
      DecideAfterExchange(local, remote, local', remote', init);
      assert ExchangedAt(local, remote, local', remote', last);
      hide Changed, Exchanged, Decide;
      SettledMore(local, remote, local', remote', Decide(local, remote, init), Decide(local', remote', init), last);
    }
  }

  /** After the exchange a path that clashed still does, and no other is listed but as
      converged. */
  lemma SettledMore(local: Changes, remote: Changes, local': Changes, remote': Changes, d: Decision, d': Decision,
      p: string)
    requires (p in local || p in remote) && (p in local' || p in remote')
    requires ExchangedAt(local, remote, local', remote', p)
    requires d'.send == [] && d'.apply == [] && d'.conflicts == d.conflicts
    ensures var e, e' := Listing(d, local, remote, p), Listing(d', local', remote', p);
            e'.send == [] && e'.apply == [] && e'.conflicts == e.conflicts
  {
  }

  lemma ExchangeAt(local: Changes, remote: Changes, p: string)
    requires Filed(local) && Filed(remote)
    ensures var d := Reconciled(local, remote);
            var local', remote' := EnqueueAll(local, d.apply), EnqueueAll(remote, d.send);
            if p in local || p in remote then ExchangedAt(local, remote, local', remote', p)
            else p !in local' && p !in remote'
  {
    var d := Reconciled(local, remote);
    ReceivedAt(local, remote, p);
    ReceivedAt(remote, local, p);
    MirroredApply(local, remote);
    hide *;
    BothReceived(local, remote, EnqueueAll(local, d.apply), EnqueueAll(remote, d.send), p);
  }

  lemma MirroredApply(local: Changes, remote: Changes)
    ensures Reconciled(remote, local).apply == Reconciled(local, remote).send
  {
    ReconcileMirrored(local, remote);
    hide Reconciled;
  }

  /** What a side holds for p once it has enqueued what it is to apply. */
  lemma ReceivedAt(local: Changes, remote: Changes, p: string)
    requires Filed(local) && Filed(remote)
    ensures Get(EnqueueAll(local, Reconciled(local, remote).apply), p) ==
            if (p in local || p in remote) && Classify(local, remote, p).ToApply? then Some(remote[p])
            else Get(local, p)
  {
    SortedPathsChanged(local, remote);
    hide SortedPaths, EnqueueAll, Decide, Classify, Filed;
    EnqueueApply(local, remote, SortedPaths(local, remote), p);
  }

  lemma BothReceived(local: Changes, remote: Changes, local': Changes, remote': Changes, p: string)
    requires Get(local', p) ==
             if (p in local || p in remote) && Classify(local, remote, p).ToApply? then Some(remote[p])
             else Get(local, p)
    requires Get(remote', p) ==
             if (p in remote || p in local) && Classify(remote, local, p).ToApply? then Some(local[p])
             else Get(remote, p)
    ensures if p in local || p in remote then ExchangedAt(local, remote, local', remote', p)
            else p !in local' && p !in remote'
  {
  }

  lemma ExchangeFacts(local: Changes, remote: Changes)
    requires Filed(local) && Filed(remote)
    ensures var d := Reconciled(local, remote);
            var local', remote' := EnqueueAll(local, d.apply), EnqueueAll(remote, d.send);
            && Exchanged(local, remote, local', remote')
            && local'.Keys + remote'.Keys == local.Keys + remote.Keys
  {
    hide Reconciled;
    var d := Reconciled(local, remote);
    var local', remote' := EnqueueAll(local, d.apply), EnqueueAll(remote, d.send);
    hide EnqueueAll;
    forall p ensures if p in local || p in remote then ExchangedAt(local, remote, local', remote', p)
        else p !in local' && p !in remote' {
      ExchangeAt(local, remote, p);
    }
    forall p ensures p in local'.Keys + remote'.Keys <==> p in local.Keys + remote.Keys {}
  }

  /** After each side has enqueued what it is to apply, reconciling again sends
      nothing, applies nothing, and reports the same conflicts. */
  lemma SecondReconcileSettled(local: Changes, remote: Changes)
    requires Filed(local) && Filed(remote)
    ensures var d := Reconciled(local, remote);
            var again := Reconciled(EnqueueAll(local, d.apply), EnqueueAll(remote, d.send));
            again.send == [] && again.apply == [] && again.conflicts == d.conflicts
  {
    var d := Reconciled(local, remote);
    var local', remote' := EnqueueAll(local, d.apply), EnqueueAll(remote, d.send);
    ExchangeFacts(local, remote);
    SortedPathsChanged(local, remote);
    SortedPathsChanged(local', remote');
    assert SortedPaths(local', remote') == SortedPaths(local, remote);
    DecideAfterExchange(local, remote, local', remote', SortedPaths(local, remote));
  }

  // ----- the queue as the best change per path

  /** Reading a queue back as a list and keeping the best per path gives the
      queue again, so two queues reconcile as their contents. */
  lemma {:induction false} PendingIsBest(m: Changes, paths: seq<string>, p: string)
    requires Filed(m) && Elems(paths) <= m.Keys && Distinct(paths)
    ensures Get(EnqueueAll(map[], Listed(m, paths)), p) == if p in paths then Some(m[p]) else None
    ensures HasPaths(Listed(m, paths))
  {
    if paths != [] {
      var init, last := paths[..|paths| - 1], paths[|paths| - 1];
      assert paths == init + [last] && last !in init;
      assert last in Elems(paths) && Elems(init) <= Elems(paths);
      PendingIsBest(m, init, p);
      PendingIsBest(m, init, last);
      var longer := Listed(m, init) + [m[last]];
      assert longer[..|longer| - 1] == Listed(m, init);
    }
  }

  lemma PendingRoundTrip(m: Changes)
    requires Filed(m)
    ensures EnqueueAll(map[], Listed(m, SortedKeys(m.Keys))) == m
  {
    var paths := SortedKeys(m.Keys);
    var back := EnqueueAll(map[], Listed(m, paths));
    forall p ensures Get(back, p) == Get(m, p) {
      PendingIsBest(m, paths, p);
      assert p in paths <==> p in Elems(paths);
    }
    forall p ensures (p in back <==> p in m) && (p in m ==> back[p] == m[p]) {
      assert Get(back, p) == Get(m, p);
    }
  }

  /** c is in the list and nothing there for its path is newer. */
  ghost predicate IsBest(cs: seq<Change>, p: string, c: Change) {
    c in cs && c.record.path == p && forall d :: d in cs && d.record.path == p ==> !Newer(d, c)
  }

  lemma NewerOrder(a: Change, b: Change, c: Change)
    ensures !Newer(a, a)
    ensures Newer(a, b) ==> !Newer(b, a)
    ensures !Newer(a, b) && Newer(c, b) ==> !Newer(a, c)
    ensures !Newer(a, b) && !Newer(b, a) ==> a.record.revision == b.record.revision && a.node == b.node
  {
    LeTotal(a.node, b.node);
    LeTotal(c.node, b.node);
    LeTotal(a.node, c.node);
    if Le(a.node, b.node) && Le(b.node, a.node) { LeAntisymmetric(a.node, b.node); }
    if Le(a.node, b.node) && Le(b.node, c.node) { LeTransitive(a.node, b.node, c.node); }
    if Le(c.node, a.node) && Le(a.node, b.node) { LeTransitive(c.node, a.node, b.node); }
    if Le(c.node, b.node) && Le(b.node, c.node) { LeAntisymmetric(b.node, c.node); }
  }

  /** The queue holds, for each path enqueued, a best change for it. */
  lemma {:induction false} QueueHoldsBest(cs: seq<Change>, p: string)
    ensures var m := EnqueueAll(map[], cs);
            && (p in m <==> exists c :: c in cs && c.record.path == p)
            && (p in m ==> IsBest(cs, p, m[p]))
  {
    if cs != [] {
      var init, last := cs[..|cs| - 1], cs[|cs| - 1];
      QueueHoldsBest(init, p);
      assert cs == init + [last];
      assert forall c :: c in cs <==> c in init || c == last;
      var before := EnqueueAll(map[], init);
      if last.record.path == p && p in before {
        forall d | d in cs && d.record.path == p ensures !Newer(d, EnqueueAll(map[], cs)[p]) {
          NewerOrder(d, before[p], last);
          NewerOrder(last, last, last);
        }
      }
      if last.record.path == p && p !in before {
        NewerOrder(last, last, last);
      }
    }
  }

  /** Ties among the best changes of a path agree on everything. */
  ghost predicate TiesAgree(cs: seq<Change>) {
    forall p, c, d :: IsBest(cs, p, c) && IsBest(cs, p, d) ==> c == d
  }

  ghost predicate SameChanges(a: seq<Change>, b: seq<Change>) {
    forall c :: c in a <==> c in b
  }

  lemma {:induction false} BestStays(m: Changes, cs: seq<Change>, c: Change)
    requires c.record.path in m && m[c.record.path] == c
    requires forall d :: d in cs && d.record.path == c.record.path ==> !Newer(d, c)
    ensures var after := EnqueueAll(m, cs); c.record.path in after && after[c.record.path] == c
  {
    if cs != [] {
      BestStays(m, cs[..|cs| - 1], c);
      assert cs[|cs| - 1] in cs;
    }
  }

  lemma {:induction false} EnqueueFirst(m: Changes, c: Change, cs: seq<Change>)
    ensures EnqueueAll(m, [c] + cs) == EnqueueAll(EnqueueOne(m, c), cs)
  {
    var all := [c] + cs;
    if cs == [] {
      assert all[..0] == [];
    } else {
      EnqueueFirst(m, c, cs[..|cs| - 1]);
      assert all[..|all| - 1] == [c] + cs[..|cs| - 1];
    }
  }

  /** The queue does not depend on the order in which changes are enqueued,
      exactly when the best changes of each path agree on everything: an exact
      tie on path, revision and node keeps whichever came first. */
  lemma OrderFreeExactly(cs: seq<Change>)
    ensures TiesAgree(cs) <==>
            forall other :: SameChanges(cs, other) ==> EnqueueAll(map[], other) == EnqueueAll(map[], cs)
  {
    if TiesAgree(cs) {
      forall other | SameChanges(cs, other) ensures EnqueueAll(map[], other) == EnqueueAll(map[], cs) {
        SameQueue(cs, other);
      }
    } else {
      TieShows(cs);
    }
  }

  lemma SameQueue(cs: seq<Change>, other: seq<Change>)
    requires TiesAgree(cs) && SameChanges(cs, other)
    ensures EnqueueAll(map[], other) == EnqueueAll(map[], cs)
  {
    var a, b := EnqueueAll(map[], cs), EnqueueAll(map[], other);
    forall p ensures (p in a <==> p in b) && (p in a ==> a[p] == b[p]) {
      QueueHoldsBest(cs, p);
      QueueHoldsBest(other, p);
      hide EnqueueAll;
      if p in a && p in b {
        assert IsBest(cs, p, a[p]) && IsBest(cs, p, b[p]);
      }
    }
  }

  lemma TieShows(cs: seq<Change>)
    requires !TiesAgree(cs)
    ensures exists other :: SameChanges(cs, other) && EnqueueAll(map[], other) != EnqueueAll(map[], cs)
  {
    var p, c, d :| IsBest(cs, p, c) && IsBest(cs, p, d) && c != d;
    FirstWins(cs, p, c);
    FirstWins(cs, p, d);
    assert SameChanges(cs, [c] + cs) && SameChanges(cs, [d] + cs);
    hide EnqueueAll, IsBest, SameChanges;
    assert EnqueueAll(map[], [c] + cs) != EnqueueAll(map[], cs) || EnqueueAll(map[], [d] + cs) != EnqueueAll(map[], cs);
  }

  lemma FirstWins(cs: seq<Change>, p: string, c: Change)
    requires IsBest(cs, p, c)
    ensures var m := EnqueueAll(map[], [c] + cs); p in m && m[p] == c
  {
    EnqueueFirst(map[], c, cs);
    BestStays(EnqueueOne(map[], c), cs, c);
  }

  /** In particular when path, revision and node determine a change. */
  lemma DeterminedChangesAreOrderFree(cs: seq<Change>)
    requires forall c, d ::
               c in cs && d in cs && c.record.path == d.record.path && c.record.revision == d.record.revision &&
               c.node == d.node ==>
               c == d
    ensures TiesAgree(cs)
  {
    forall p, c, d | IsBest(cs, p, c) && IsBest(cs, p, d) ensures c == d {
      NewerOrder(c, d, c);
    }
  }
}
