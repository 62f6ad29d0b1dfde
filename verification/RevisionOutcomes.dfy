/**
 What revision sync writes, refuses and lists (sync/revision/revision.go), said of the
 fields of the records.
 */
module RevisionOutcomes {
  import opened Lex
  import opened Outcomes
  import opened RevisionSync

  // ----- applying

  /** The replica has what the operation brings. */
  predicate Converged(m: Records, r: Record) {
    r.path in m && m[r.path].revision == r.revision && m[r.path].hash == r.hash && m[r.path].deleted == r.deleted
  }

  predicate HoldsNewer(m: Records, r: Record) {
    r.path in m && m[r.path].revision > r.revision
  }

  /** A deletion of what is deleted, unless that is newer. */
  predicate DeletedAlready(m: Records, op: Op) {
    op.kind == OpDelete && op.record.path in m && m[op.record.path].deleted && !HoldsNewer(m, op.record)
  }

  /** A newer revision is never overwritten; a put without a path is invalid before
      anything else, a deletion without one only where it would be written. */
  predicate Refuses(m: Records, op: Op) {
    HoldsNewer(m, op.record) && (op.kind == OpDelete || op.record.path != "")
  }

  predicate Unfiled(m: Records, op: Op) {
    op.record.path == "" && !Converged(m, op.record) && !Refuses(m, op) && !DeletedAlready(m, op)
  }

  predicate Writes(m: Records, op: Op) {
    op.record.path != "" && !Converged(m, op.record) && !HoldsNewer(m, op.record) && !DeletedAlready(m, op)
  }

  /** What the replica holds before each operation and after the last: only a written
      operation changes it, and only on its path. */
  ghost predicate Steps(m: Records, ops: seq<Op>, held: seq<Records>) {
    && |held| == |ops| + 1 && held[0] == m
    && forall i :: 0 <= i < |ops| ==> StepIs(held[i], ops[i], held[i + 1])
  }

  predicate StepIs(m: Records, op: Op, after: Records) {
    after == if Writes(m, op) then m[op.record.path := op.record] else m
  }

  /** Positions, in order, of the operations for which p holds. */
  ghost predicate Chosen(ops: seq<Op>, held: seq<Records>, p: (Records, Op) -> bool, at: seq<nat>)
    requires |held| > |ops|
  {
    && (forall k :: 0 <= k < |at| ==> at[k] < |ops| && p(held[at[k]], ops[at[k]]))
    && (forall j, k :: 0 <= j < k < |at| ==> at[j] < at[k])
    && (forall i :: 0 <= i < |ops| && p(held[i], ops[i]) ==> i in at)
  }

  /** Operations none of which is invalid, one after the other: as many applied as are
      written, and the paths of the refused, in order. */
  ghost predicate RunOf(m: Records, ops: seq<Op>, held: seq<Records>, written: seq<nat>, refused: seq<nat>,
      after: Records, res: Applied) {
    && Steps(m, ops, held) && after == held[|ops|]
    && (forall i :: 0 <= i < |ops| ==> !Unfiled(held[i], ops[i]))
    && Chosen(ops, held, Writes, written) && res.applied == |written|
    && Chosen(ops, held, Refuses, refused) && |res.refused| == |refused|
    && (forall k :: 0 <= k < |refused| ==> res.refused[k] == ops[refused[k]].record.path)
  }

  /** Applying runs up to the first invalid operation, which changes nothing. */
  ghost predicate AppliedExactly(m: Records, ops: seq<Op>, after: Records, res: Applied) {
    exists n: nat, held, written, refused :: n <= |ops| && RunOf(m, ops[..n], held, written, refused, after, res)
        && (if res.invalid then n < |ops| && Unfiled(after, ops[n]) else n == |ops|)
  }

  lemma JudgeReads(m: Records, op: Op)
    ensures Judge(Get(m, op.record.path), op).Write? <==> Writes(m, op)
    ensures Judge(Get(m, op.record.path), op).Refuse? <==> Refuses(m, op)
    ensures Judge(Get(m, op.record.path), op).Reject? <==> Unfiled(m, op)
  {
  }

  lemma ChosenOneMore(ops: seq<Op>, op: Op, held: seq<Records>, next: Records, p: (Records, Op) -> bool, at: seq<nat>)
    requires |held| == |ops| + 1 && Chosen(ops, held, p, at)
    ensures Chosen(ops + [op], held + [next], p, if p(held[|ops|], op) then at + [|ops|] else at)
  {
    var more := if p(held[|ops|], op) then at + [|ops|] else at;
    forall i | 0 <= i < |ops| + 1 && p((held + [next])[i], (ops + [op])[i]) ensures i in more {
      if i < |ops| {
        assert i in at;
      } else {
        assert more[|at|] == i;
      }
    }
  }

  lemma StepsOneMore(m: Records, ops: seq<Op>, op: Op, held: seq<Records>, next: Records)
    requires Steps(m, ops, held) && StepIs(held[|ops|], op, next)
    ensures Steps(m, ops + [op], held + [next])
  {
    forall i | 0 <= i < |ops| + 1 ensures StepIs((held + [next])[i], (ops + [op])[i], (held + [next])[i + 1]) {
      if i < |ops| {
        assert StepIs(held[i], ops[i], held[i + 1]);
      }
    }
  }

  lemma RunOneMore(m: Records, ops: seq<Op>, op: Op, held: seq<Records>, written: seq<nat>, refused: seq<nat>,
      after: Records, res: Applied)
    requires RunOf(m, ops, held, written, refused, after, res) && !Unfiled(after, op)
    ensures var next := if Writes(after, op) then after[op.record.path := op.record] else after;
            var w := if Writes(after, op) then written + [|ops|] else written;
            var r := if Refuses(after, op) then refused + [|ops|] else refused;
            RunOf(m, ops + [op], held + [next], w, r, next,
                Applied(|w|, if Refuses(after, op) then res.refused + [op.record.path] else res.refused, res.invalid))
  {
    hide Unfiled, Writes, Refuses, Chosen, Steps;
    var next := if Writes(after, op) then after[op.record.path := op.record] else after;
    assert |held| == |ops| + 1 by { StepsLength(m, ops, held); }
    StepsOneMore(m, ops, op, held, next);
    ChosenOneMore(ops, op, held, next, Writes, written);
    ChosenOneMore(ops, op, held, next, Refuses, refused);
    ChosenInRange(ops, held, Refuses, refused);
  }

  lemma StepsLength(m: Records, ops: seq<Op>, held: seq<Records>)
    requires Steps(m, ops, held)
    ensures |held| == |ops| + 1
  {
  }

  lemma ChosenInRange(ops: seq<Op>, held: seq<Records>, p: (Records, Op) -> bool, at: seq<nat>)
    requires |held| > |ops| && Chosen(ops, held, p, at)
    ensures forall k :: 0 <= k < |at| ==> at[k] < |ops|
  {
  }

  /** What Apply writes, refuses and rejects, for any replica and operations. */
  lemma {:induction false} ApplyExactly(m: Records, ops: seq<Op>)
    ensures AppliedExactly(m, ops, ApplyAll(m, ops).0, ApplyAll(m, ops).1)
  {
    hide Unfiled, Writes, Refuses, Judge, RunOf;
    if ops == [] {
      NothingApplied(m);
      assert ops[..0] == [];
    } else {
      var n := |ops| - 1;
      var init, op := ops[..n], ops[n];
      ApplyExactly(m, init);
      var (before, done) := ApplyAll(m, init);
      var k: nat, held, written, refused :| k <= n && RunOf(m, init[..k], held, written, refused, before, done)
          && (if done.invalid then k < n && Unfiled(before, init[k]) else k == n);
      assert init[..k] == ops[..k] && (k < n ==> init[k] == ops[k]);
      if !done.invalid {
        assert ops[..n] == init && ops[..n + 1] == ops == init + [op];
        JudgeReads(before, op);
        if !Unfiled(before, op) {
          RunOneMore(m, init, op, held, written, refused, before, done);
          LastApplied(m, ops, before, done);
          AppliedCount(m, init, held, written, refused, before, done);
        } else {
          RunRejected(m, init, held, written, refused, before, done);
        }
      }
    }
  }

  lemma NothingApplied(m: Records)
    ensures RunOf(m, [], [m], [], [], m, Applied(0, [], false))
  {
  }

  lemma AppliedCount(m: Records, ops: seq<Op>, held: seq<Records>, written: seq<nat>, refused: seq<nat>, after: Records,
      res: Applied)
    requires RunOf(m, ops, held, written, refused, after, res)
    ensures res.applied == |written|
  {
  }

  lemma RunRejected(m: Records, ops: seq<Op>, held: seq<Records>, written: seq<nat>, refused: seq<nat>, after: Records,
      res: Applied)
    requires RunOf(m, ops, held, written, refused, after, res)
    ensures RunOf(m, ops, held, written, refused, after, res.(invalid := true))
  {
  }

  lemma LastApplied(m: Records, ops: seq<Op>, before: Records, done: Applied)
    requires ops != [] && ApplyAll(m, ops[..|ops| - 1]) == (before, done) && !done.invalid
    requires var op := ops[|ops| - 1]; !Unfiled(before, op)
    ensures var op := ops[|ops| - 1];
            ApplyAll(m, ops) ==
              (if Writes(before, op) then before[op.record.path := op.record] else before,
               Applied(done.applied + (if Writes(before, op) then 1 else 0),
                  if Refuses(before, op) then done.refused + [op.record.path] else done.refused, false))
  {
    JudgeReads(before, ops[|ops| - 1]);
    hide Unfiled, Writes, Refuses, Judge;
  }

  // ----- listing the difference

  /** The replica lacks the source's record, holds an older one, or the same revision
      and disagrees on whether it is deleted. */
  predicate Behind(source: Records, replica: Records, p: string) {
    p in source
    && (p in replica ==>
          replica[p].revision < source[p].revision
          || (replica[p].revision == source[p].revision && replica[p].deleted != source[p].deleted))
  }

  /** The operations, by path, each bringing what the source holds there, for exactly
      the paths on which the replica is behind. */
  ghost predicate Lists(source: Records, replica: Records, ops: seq<Op>) {
    && (forall i :: 0 <= i < |ops| ==> Brings(source, ops[i]) && Behind(source, replica, ops[i].record.path))
    && (forall i, j :: 0 <= i < j < |ops| ==> Lt(ops[i].record.path, ops[j].record.path))
    && (forall p :: Behind(source, replica, p) ==> Touches(ops, p))
  }

  predicate Brings(source: Records, op: Op) {
    op.record.path in source && op.record == source[op.record.path]
    && (op.kind == OpDelete <==> op.record.deleted)
  }

  ghost predicate ListsThrough(source: Records, replica: Records, paths: seq<string>, ops: seq<Op>) {
    && (forall i :: 0 <= i < |ops| ==>
          Brings(source, ops[i]) && Behind(source, replica, ops[i].record.path) && ops[i].record.path in paths)
    && (forall i, j :: 0 <= i < j < |ops| ==> Lt(ops[i].record.path, ops[j].record.path))
    && (forall p :: p in paths && Behind(source, replica, p) ==> Touches(ops, p))
  }

  lemma BehindReads(source: Records, replica: Records, p: string)
    requires Filed(source) && p in source
    ensures Emits(source[p], Get(replica, p)) <==> Behind(source, replica, p)
    ensures Brings(source, OpFor(source[p])) && OpFor(source[p]).record.path == p
  {
  }

  lemma {:induction false} DiffThrough(source: Records, replica: Records, paths: seq<string>)
    requires Filed(source) && Elems(paths) <= source.Keys && Sorted(paths) && Distinct(paths)
    ensures ListsThrough(source, replica, paths, DiffOver(source, replica, paths))
  {
    if paths != [] {
      var init, last := paths[..|paths| - 1], paths[|paths| - 1];
      assert paths == init + [last] && last in Elems(paths) && Elems(init) <= Elems(paths);
      DiffThrough(source, replica, init);
      BehindReads(source, replica, last);
      var ops := DiffOver(source, replica, init);
      assert DiffOver(source, replica, paths) == if Behind(source, replica, last) then ops + [OpFor(source[last])]
             else ops;
      hide Emits, Behind, Brings, Le, DiffOver, Sorted, Distinct, ListsThrough;
      ListsOneMore(source, replica, init, last, DiffOver(source, replica, init), OpFor(source[last]));
    }
  }

  lemma ListsOneMore(source: Records, replica: Records, init: seq<string>, last: string, ops: seq<Op>, op: Op)
    requires ListsThrough(source, replica, init, ops) && Sorted(init + [last]) && Distinct(init + [last])
    requires Brings(source, op) && op.record.path == last
    ensures ListsThrough(source, replica, init + [last], if Behind(source, replica, last) then ops + [op] else ops)
  {
    hide Behind, Brings, Le, Touches, Sorted, Distinct;
    BelowLast(source, replica, init, last, ops);
    forall p ensures Touches(ops + [op], p) <==> Touches(ops, p) || p == last {
      TouchesOneMore(ops, op, p);
    }
  }

  lemma BelowLast(source: Records, replica: Records, init: seq<string>, last: string, ops: seq<Op>)
    requires ListsThrough(source, replica, init, ops) && Sorted(init + [last]) && Distinct(init + [last])
    ensures forall i :: 0 <= i < |ops| ==> Lt(ops[i].record.path, last)
  {
    hide Behind, Brings, Le, Touches;
    forall i | 0 <= i < |ops| ensures Lt(ops[i].record.path, last) {
      var k :| 0 <= k < |init| && init[k] == ops[i].record.path;
      assert (init + [last])[k] == init[k] && (init + [last])[|init|] == last;
    }
  }

  lemma TouchesOneMore(ops: seq<Op>, op: Op, p: string)
    ensures Touches(ops + [op], p) <==> Touches(ops, p) || p == op.record.path
  {
    var longer := ops + [op];
    assert longer[|ops|] == op;
    if Touches(ops, p) {
      var i :| 0 <= i < |ops| && ops[i].record.path == p;
      assert longer[i].record.path == p;
    }
  }

  /** What Diff lists. */
  lemma DiffExactly(source: Records, replica: Records)
    requires Filed(source)
    ensures Lists(source, replica, DiffOver(source, replica, SortedKeys(source.Keys)))
  {
    hide SortedKeys, DiffOver, Brings, Le;
    var paths := SortedKeys(source.Keys);
    DiffThrough(source, replica, paths);
    forall p | Behind(source, replica, p) ensures p in paths { assert p in Elems(paths); }
  }
}
