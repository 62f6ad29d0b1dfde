/**
 The offline change queue and two-sided reconciliation (sync/queue/queue.go).
 */
module ChangeQueue {
  import opened Lex
  import opened Outcomes
  import RevisionSync

  datatype Change = Change(record: RevisionSync.Record, node: string)

  type Changes = map<string, Change>

  /** Higher revision first; the node breaks ties. */
  predicate Newer(a: Change, b: Change) {
    if a.record.revision != b.record.revision then a.record.revision > b.record.revision
    else Lt(b.node, a.node)
  }

  predicate Same(a: Change, b: Change) {
    a.record.deleted == b.record.deleted && a.record.hash == b.record.hash
  }

  ghost predicate Filed(m: Changes) {
    forall p :: p in m ==> p != "" && m[p].record.path == p
  }

  function EnqueueOne(m: Changes, c: Change): Changes {
    if c.record.path in m && !Newer(c, m[c.record.path]) then m else m[c.record.path := c]
  }

  function EnqueueAll(m: Changes, cs: seq<Change>): Changes {
    if cs == [] then m else EnqueueOne(EnqueueAll(m, cs[..|cs| - 1]), cs[|cs| - 1])
  }

  predicate HasPaths(cs: seq<Change>) {
    forall i :: 0 <= i < |cs| ==> cs[i].record.path != ""
  }

  class Queue {
    var changes: Changes

    constructor ()
      ensures changes == map[]
    {
      changes := map[];
    }

    method Enqueue(c: Change) returns (ok: bool)
      modifies this
      ensures ok <==> c.record.path != ""
      ensures changes == if ok then EnqueueOne(old(changes), c) else old(changes)
      ensures Filed(old(changes)) ==> Filed(changes)
    {
      if c.record.path == "" {
        return false;
      }
      if c.record.path in changes && !Newer(c, changes[c.record.path]) {
        return true;
      }
      changes := changes[c.record.path := c];
      return true;
    }

    /** The queued changes ordered by path. */
    method Pending() returns (out: seq<Change>)
      ensures out == Listed(changes, SortedKeys(changes.Keys))
    {
      hide SortedKeys, Sorted;
      var paths := CollectKeys(changes.Keys);
      out := [];
      for i := 0 to |paths|
        invariant Elems(paths[..i]) <= changes.Keys && out == Listed(changes, paths[..i])
      {
        assert paths[i] in Elems(paths);
        ListedSnoc(changes, paths, i);
        out := out + [changes[paths[i]]];
      }
      assert paths[..|paths|] == paths;
    }

    method Drain() returns (out: seq<Change>)
      modifies this
      ensures out == Listed(old(changes), SortedKeys(old(changes.Keys))) && changes == map[]
    {
      out := Pending();
      changes := map[];
    }
  }

  function Listed(m: Changes, paths: seq<string>): seq<Change>
    requires Elems(paths) <= m.Keys
  {
    if paths == [] then []
    else
      var last := paths[|paths| - 1];
      assert last in Elems(paths);
      Listed(m, paths[..|paths| - 1]) + [m[last]]
  }

  lemma ListedSnoc(m: Changes, paths: seq<string>, i: nat)
    requires i < |paths| && Elems(paths[..i]) <= m.Keys && paths[i] in m
    ensures Elems(paths[..i + 1]) <= m.Keys
    ensures Listed(m, paths[..i + 1]) == Listed(m, paths[..i]) + [m[paths[i]]]
  {
    assert paths[..i + 1] == paths[..i] + [paths[i]];
    assert paths[..i + 1][..i] == paths[..i];
  }

  // ----- reconciliation

  datatype Conflict = Conflict(path: string, local: Change, remote: Change)

  datatype Decision = Decision(send: seq<Change>, apply: seq<Change>, converged: seq<string>, conflicts: seq<Conflict>)

  datatype Verdict = ToSend | ToApply | Agree | Clash

  function Classify(local: Changes, remote: Changes, p: string): Verdict
    requires p in local || p in remote
  {
    if p !in remote then ToSend
    else if p !in local then ToApply
    else if local[p].record.revision > remote[p].record.revision then ToSend
    else if remote[p].record.revision > local[p].record.revision then ToApply
    else if Same(local[p], remote[p]) then Agree
    else Clash
  }

  /** The path goes to the end of the list its verdict names. */
  function Listing(d: Decision, local: Changes, remote: Changes, p: string): Decision
    requires p in local || p in remote
  {
    match Classify(local, remote, p)
    case ToSend => d.(send := d.send + [local[p]])
    case ToApply => d.(apply := d.apply + [remote[p]])
    case Agree => d.(converged := d.converged + [p])
    case Clash => d.(conflicts := d.conflicts + [Conflict(p, local[p], remote[p])])
  }

  /** Each of the paths was changed on some side. */
  predicate Changed(local: Changes, remote: Changes, paths: seq<string>) {
    forall q :: q in paths ==> q in local || q in remote
  }

  function Decide(local: Changes, remote: Changes, paths: seq<string>): Decision
    requires Changed(local, remote, paths)
  {
    if paths == [] then Decision([], [], [], [])
    else
      var p := paths[|paths| - 1];
      Listing(Decide(local, remote, paths[..|paths| - 1]), local, remote, p)
  }

  lemma DecideNone(local: Changes, remote: Changes)
    ensures Decide(local, remote, []) == Decision([], [], [], [])
  {
  }

  lemma DecideSnoc(local: Changes, remote: Changes, paths: seq<string>, i: nat)
    requires i < |paths| && Changed(local, remote, paths[..i]) && (paths[i] in local || paths[i] in remote)
    ensures Changed(local, remote, paths[..i + 1])
    ensures Decide(local, remote, paths[..i + 1]) == Listing(Decide(local, remote, paths[..i]), local, remote, paths[i])
  {
    assert paths[..i + 1] == paths[..i] + [paths[i]];
    assert paths[..i + 1][..i] == paths[..i];
  }

  ghost function Reconciled(local: Changes, remote: Changes): (d: Decision) {
    SortedPathsChanged(local, remote);
    Decide(local, remote, SortedPaths(local, remote))
  }

  ghost function SortedPaths(local: Changes, remote: Changes): (r: seq<string>)
    ensures Elems(r) == local.Keys + remote.Keys && Distinct(r)
  {
    SortedKeys(local.Keys + remote.Keys)
  }

  lemma SortedPathsChanged(local: Changes, remote: Changes)
    ensures Changed(local, remote, SortedPaths(local, remote))
    ensures forall p :: p in SortedPaths(local, remote) <==> p in local || p in remote
  {
    var paths := SortedPaths(local, remote);
    hide SortedPaths;
    forall p ensures p in paths <==> p in local || p in remote {
      assert p in paths <==> p in Elems(paths);
    }
  }

  /** The best change per path; None when a change has no path. */
  method BestByPath(changes: seq<Change>) returns (r: Option<Changes>)
    ensures r.Some? <==> HasPaths(changes)
    ensures r.Some? ==> r.value == EnqueueAll(map[], changes)
  {
    var best: Changes := map[];
    for i := 0 to |changes|
      invariant HasPaths(changes[..i])
      invariant best == EnqueueAll(map[], changes[..i])
    {
      var c := changes[i];
      assert changes[..i + 1][..i] == changes[..i];
      if c.record.path == "" {
        return None;
      }
      if c.record.path !in best || Newer(c, best[c.record.path]) {
        best := best[c.record.path := c];
      }
    }
    assert changes[..|changes|] == changes;
    return Some(best);
  }

  method Reconcile(local: seq<Change>, remote: seq<Change>) returns (r: Option<Decision>)
    ensures r.Some? <==> HasPaths(local) && HasPaths(remote)
    ensures r.Some? ==> r.value == Reconciled(EnqueueAll(map[], local), EnqueueAll(map[], remote))
  {
    hide SortedKeys, Decide, Newer, EnqueueAll;
    var l := BestByPath(local);
    if l.None? {
      return None;
    }
    var m := BestByPath(remote);
    if m.None? {
      return None;
    }
    var localBest, remoteBest := l.value, m.value;
    var paths := CollectKeys(localBest.Keys + remoteBest.Keys);
    var d := Decision([], [], [], []);
    DecideNone(localBest, remoteBest);
    for i := 0 to |paths|
      invariant Changed(localBest, remoteBest, paths[..i])
      invariant d == Decide(localBest, remoteBest, paths[..i])
    {
      var p := paths[i];
      assert p in Elems(paths);
      DecideSnoc(localBest, remoteBest, paths, i);
      if p in localBest && p !in remoteBest {
        d := d.(send := d.send + [localBest[p]]);
      } else if p in remoteBest && p !in localBest {
        d := d.(apply := d.apply + [remoteBest[p]]);
      } else if localBest[p].record.revision > remoteBest[p].record.revision {
        d := d.(send := d.send + [localBest[p]]);
      } else if remoteBest[p].record.revision > localBest[p].record.revision {
        d := d.(apply := d.apply + [remoteBest[p]]);
      } else if Same(localBest[p], remoteBest[p]) {
        d := d.(converged := d.converged + [p]);
      } else {
        d := d.(conflicts := d.conflicts + [Conflict(p, localBest[p], remoteBest[p])]);
      }
    }
    assert paths[..|paths|] == paths;
    return Some(d);
  }
}
