/**
 One-way revision sync with tombstones (sync/revision/revision.go).
 */
module RevisionSync {
  import opened Lex
  import opened Outcomes

  datatype Record = Record(id: string, path: string, revision: nat, hash: string, size: int, deleted: bool)

  type Records = map<string, Record>

  datatype OpKind = OpPut | OpDelete

  datatype Op = Op(kind: OpKind, record: Record)

  datatype PutError = InvalidPath | NewerHeld

  datatype Applied = Applied(applied: nat, refused: seq<string>, invalid: bool)

  function Get(m: Records, path: string): Option<Record> {
    if path in m then Some(m[path]) else None
  }

  /** Records are filed under their own, non-empty path. */
  ghost predicate Filed(m: Records) {
    forall p :: p in m ==> p != "" && m[p].path == p
  }

  // ----- the reference, path by path

  /** What Diff emits for a source record, given what the replica holds. */
  predicate Emits(src: Record, local: Option<Record>) {
    local.None? ||
    (local.value.revision <= src.revision
        && !(local.value.revision == src.revision && local.value.deleted == src.deleted))
  }

  function OpFor(src: Record): Op {
    Op(if src.deleted then OpDelete else OpPut, src)
  }

  function DiffOver(source: Records, replica: Records, paths: seq<string>): seq<Op>
    requires Elems(paths) <= source.Keys
  {
    if paths == [] then []
    else
      var last := paths[|paths| - 1];
      assert last in Elems(paths);
      DiffOver(source, replica, paths[..|paths| - 1])
      + (if Emits(source[last], Get(replica, last)) then [OpFor(source[last])] else [])
  }

  datatype Verdict = Skip | Refuse | Write | Reject

  /** What Apply does with one operation, given what the replica holds. */
  function Judge(local: Option<Record>, op: Op): Verdict {
    var r := op.record;
    if local.Some? && local.value.revision == r.revision && local.value.hash == r.hash
        && local.value.deleted == r.deleted then Skip
    else if op.kind.OpDelete? && local.Some? && local.value.revision > r.revision then Refuse
    else if op.kind.OpDelete? && local.Some? && local.value.deleted then Skip
    else if r.path == "" then Reject
    else if local.Some? && local.value.revision > r.revision then Refuse
    else Write
  }

  function Step(m: Records, op: Op): Records {
    if Judge(Get(m, op.record.path), op).Write? then m[op.record.path := op.record] else m
  }

  /** Operations in order, stopping at the first invalid one. */
  function ApplyAll(m: Records, ops: seq<Op>): (Records, Applied) {
    if ops == [] then (m, Applied(0, [], false))
    else
      var (before, done) := ApplyAll(m, ops[..|ops| - 1]);
      var op := ops[|ops| - 1];
      if done.invalid then (before, done)
      else
        match Judge(Get(before, op.record.path), op)
        case Skip => (before, done)
        case Refuse => (before, done.(refused := done.refused + [op.record.path]))
        case Reject => (before, done.(invalid := true))
        case Write => (Step(before, op), done.(applied := done.applied + 1))
  }

  // ----- the code

  class Replica {
    var records: Records

    constructor ()
      ensures records == map[]
    {
      records := map[];
    }

    /** An older revision never overwrites a newer one. */
    method Put(rec: Record) returns (r: Result<(), PutError>)
      modifies this
      ensures r == Err(InvalidPath) <==> rec.path == ""
      ensures r == Err(NewerHeld) <==>
              rec.path != "" && rec.path in old(records) && old(records)[rec.path].revision > rec.revision
      ensures records == if r.Ok? then old(records)[rec.path := rec] else old(records)
      ensures Filed(old(records)) ==> Filed(records)
    {
      if rec.path == "" {
        return Err(InvalidPath);
      }
      if rec.path in records && records[rec.path].revision > rec.revision {
        return Err(NewerHeld);
      }
      records := records[rec.path := rec];
      return Ok(());
    }
  }

  /** The operations that bring a replica up to the source, ordered by path. */
  method Diff(source: Replica?, replica: Replica) returns (ops: seq<Op>)
    ensures source == null ==> ops == []
    ensures source != null ==> ops == DiffOver(source.records, replica.records, SortedKeys(source.records.Keys))
  {
    hide SortedKeys, DiffOver;
    if source == null {
      return [];
    }
    var paths := CollectKeys(source.records.Keys);
    ops := [];
    assert DiffOver(source.records, replica.records, paths[..0]) == [] by { DiffNone(source.records, replica.records); }
    for i := 0 to |paths|
      invariant Elems(paths[..i]) <= source.records.Keys
      invariant ops == DiffOver(source.records, replica.records, paths[..i])
    {
      var path := paths[i];
      assert path in Elems(paths);
      DiffSnoc(source.records, replica.records, paths, i);
      var src := source.records[path];
      if path in replica.records {
        var local := replica.records[path];
        if local.revision >= src.revision && local.deleted == src.deleted {
          continue;
        }
        if local.revision > src.revision {
          continue;
        }
      }
      ops := ops + [Op(if src.deleted then OpDelete else OpPut, src)];
    }
    assert paths[..|paths|] == paths;
  }

  lemma DiffNone(source: Records, replica: Records)
    ensures DiffOver(source, replica, []) == []
  {
  }

  lemma DiffSnoc(source: Records, replica: Records, paths: seq<string>, i: nat)
    requires i < |paths| && Elems(paths[..i]) <= source.Keys && paths[i] in source
    ensures Elems(paths[..i + 1]) <= source.Keys
    ensures DiffOver(source, replica, paths[..i + 1]) ==
              DiffOver(source, replica, paths[..i])
              + (if Emits(source[paths[i]], Get(replica, paths[i])) then [OpFor(source[paths[i]])] else [])
  {
    assert paths[..i + 1] == paths[..i] + [paths[i]];
    assert paths[..i + 1][..i] == paths[..i];
  }

  /** Applies operations in order. */
  method Apply(replica: Replica, ops: seq<Op>) returns (res: Applied)
    modifies replica
    ensures (replica.records, res) == ApplyAll(old(replica.records), ops)
  {
    res := Applied(0, [], false);
    for i := 0 to |ops|
      invariant (replica.records, res) == ApplyAll(old(replica.records), ops[..i]) && !res.invalid
    {
      var op := ops[i];
      assert ops[..i + 1][..i] == ops[..i];
      ghost var before := replica.records;
      var local := Get(replica.records, op.record.path);
      if local.Some? && local.value.revision == op.record.revision && local.value.hash == op.record.hash
          && local.value.deleted == op.record.deleted {
        continue;
      }
      if op.kind.OpDelete? && local.Some? && local.value.revision > op.record.revision {
        res := res.(refused := res.refused + [op.record.path]);
        continue;
      }
      if op.kind.OpDelete? && local.Some? && local.value.deleted {
        continue;
      }
      var put := replica.Put(op.record);
      if put.Err? {
        if put.error.NewerHeld? {
          res := res.(refused := res.refused + [op.record.path]);
          continue;
        }
        res := res.(invalid := true);
        InvalidStops(old(replica.records), ops, i + 1);
        return;
      }
      res := res.(applied := res.applied + 1);
    }
    assert ops[..|ops|] == ops;
  }

  lemma {:induction false} InvalidStops(m: Records, ops: seq<Op>, i: nat)
    requires i <= |ops| && ApplyAll(m, ops[..i]).1.invalid
    ensures ApplyAll(m, ops) == ApplyAll(m, ops[..i])
    decreases |ops|
  {
    if i == |ops| {
      assert ops[..i] == ops;
    } else {
      assert ops[..|ops| - 1][..i] == ops[..i];
      InvalidStops(m, ops[..|ops| - 1], i);
    }
  }

  // ----- arbitrary operations

  /** No path is lost and no path's revision decreases, whatever the operations. */
  lemma {:induction false} RevisionsNeverDecrease(m: Records, ops: seq<Op>, path: string)
    requires path in m
    ensures var after := ApplyAll(m, ops).0; path in after && after[path].revision >= m[path].revision
  {
    if ops != [] {
      RevisionsNeverDecrease(m, ops[..|ops| - 1], path);
    }
  }

  predicate DistinctPaths(ops: seq<Op>) {
    forall i, j :: 0 <= i < j < |ops| ==> ops[i].record.path != ops[j].record.path
  }

  predicate NoEmptyPath(ops: seq<Op>) {
    forall i :: 0 <= i < |ops| ==> ops[i].record.path != ""
  }

  /** Every operation is judged on what the replica held to begin with, and
      changes its own path only. */
  ghost predicate Pathwise(m: Records, ops: seq<Op>, after: Records, res: Applied) {
    && !res.invalid
    && (forall i :: 0 <= i < |ops| ==> Get(after, ops[i].record.path) == Get(Step(m, ops[i]), ops[i].record.path))
    && (forall p :: !Touches(ops, p) ==> Get(after, p) == Get(m, p))
    && ((forall i :: 0 <= i < |ops| ==> !Judge(Get(m, ops[i].record.path), ops[i]).Refuse?) ==> res.refused == [])
  }

  predicate Touches(ops: seq<Op>, p: string) {
    exists i :: 0 <= i < |ops| && ops[i].record.path == p
  }

  /** So it is when each path occurs once. */
  lemma {:induction false} ApplyPathwise(m: Records, ops: seq<Op>)
    requires DistinctPaths(ops) && NoEmptyPath(ops)
    ensures Pathwise(m, ops, ApplyAll(m, ops).0, ApplyAll(m, ops).1)
  {
    if ops != [] {
      var init, op := ops[..|ops| - 1], ops[|ops| - 1];
      ApplyPathwise(m, init);
      assert !Touches(init, op.record.path) && op.record.path != "";
      assert ops == init + [op];
      var (before, done) := ApplyAll(m, init);
      hide Touches, DistinctPaths, NoEmptyPath, Pathwise;
      PathwiseMore(m, init, op, before, done);
    }
  }

  lemma PathwiseMore(m: Records, init: seq<Op>, op: Op, before: Records, done: Applied)
    requires Pathwise(m, init, before, done) && !Touches(init, op.record.path) && op.record.path != ""
    ensures match Judge(Get(before, op.record.path), op)
            case Skip => Pathwise(m, init + [op], before, done)
            case Refuse => Pathwise(m, init + [op], before, done.(refused := done.refused + [op.record.path]))
            case Reject => false
            case Write => Pathwise(m, init + [op], Step(before, op), done.(applied := done.applied + 1))
  {
    var ops := init + [op];
    assert Get(before, op.record.path) == Get(m, op.record.path);
    forall i | 0 <= i < |init| ensures init[i] == ops[i] && init[i].record.path != op.record.path {}
    forall p | !Touches(ops, p) ensures !Touches(init, p) && p != op.record.path {
      assert ops[|init|].record.path == op.record.path;
      forall i | 0 <= i < |init| ensures init[i].record.path != p { assert ops[i] == init[i]; }
    }
  }

  /** The operations that are written, and those that are refused, on what is held
      to begin with. */
  ghost function Written(m: Records, ops: seq<Op>): set<Op> {
    set op | op in ops && Judge(Get(m, op.record.path), op).Write?
  }

  ghost function RefusedPaths(m: Records, ops: seq<Op>): set<string> {
    set op | op in ops && Judge(Get(m, op.record.path), op).Refuse? :: op.record.path
  }

  /** What Apply reports is what becomes of each operation by itself. */
  ghost predicate Tallied(m: Records, ops: seq<Op>, res: Applied) {
    && !res.invalid && res.applied == |Written(m, ops)|
    && Elems(res.refused) == RefusedPaths(m, ops) && Distinct(res.refused)
  }

  lemma {:induction false} ApplyTally(m: Records, ops: seq<Op>)
    requires DistinctPaths(ops) && NoEmptyPath(ops)
    ensures Tallied(m, ops, ApplyAll(m, ops).1)
  {
    if ops != [] {
      var init, op := ops[..|ops| - 1], ops[|ops| - 1];
      ApplyTally(m, init);
      LastIsNew(m, init, op);
      assert ops == init + [op];
      hide Judge, DistinctPaths, NoEmptyPath, Tallied, RefusedPaths;
      TallyOne(m, init, op, ApplyAll(m, init).1);
    }
  }

  /** The last operation is judged on what the replica held to begin with. */
  lemma LastIsNew(m: Records, init: seq<Op>, op: Op)
    requires DistinctPaths(init + [op]) && NoEmptyPath(init + [op])
    ensures DistinctPaths(init) && NoEmptyPath(init) && op.record.path != "" && op !in init
    ensures Get(ApplyAll(m, init).0, op.record.path) == Get(m, op.record.path)
    ensures op.record.path !in RefusedPaths(m, init)
  {
    var ops := init + [op];
    assert ops[|init|] == op && forall i :: 0 <= i < |init| ==> ops[i] == init[i];
    ApplyPathwise(m, init);
    assert !Touches(init, op.record.path);
    hide Judge, DistinctPaths, NoEmptyPath, ApplyAll;
    forall o | o in init ensures o.record.path != op.record.path {
      var i :| 0 <= i < |init| && init[i] == o;
    }
  }

  lemma TallyOne(m: Records, init: seq<Op>, op: Op, done: Applied)
    requires Tallied(m, init, done) && op !in init && op.record.path != ""
    requires op.record.path !in RefusedPaths(m, init)
    ensures match Judge(Get(m, op.record.path), op)
            case Skip => Tallied(m, init + [op], done)
            case Refuse => Tallied(m, init + [op], done.(refused := done.refused + [op.record.path]))
            case Reject => true
            case Write => Tallied(m, init + [op], done.(applied := done.applied + 1))
  {
    WrittenOneMore(m, init, op);
    RefusedOneMore(m, init, op);
    LonelyAppend(done.refused, op.record.path);
    hide Judge, Written, RefusedPaths, Elems, Distinct;
  }

  lemma WrittenOneMore(m: Records, init: seq<Op>, op: Op)
    requires op !in init
    ensures |Written(m, init + [op])| == |Written(m, init)| + if Judge(Get(m, op.record.path), op).Write? then 1 else 0
  {
    hide Judge;
    var write := Judge(Get(m, op.record.path), op).Write?;
    assert Written(m, init + [op]) == Written(m, init) + if write then {op} else {};
  }

  lemma RefusedOneMore(m: Records, init: seq<Op>, op: Op)
    ensures RefusedPaths(m, init + [op]) ==
            RefusedPaths(m, init) + if Judge(Get(m, op.record.path), op).Refuse? then {op.record.path} else {}
  {
    hide Judge;
    var whole := init + [op];
    forall p ensures p in RefusedPaths(m, whole) <==>
                     p in RefusedPaths(m, init) || (Judge(Get(m, op.record.path), op).Refuse? && p == op.record.path) {
      if p in RefusedPaths(m, init) {
        var o :| o in init && Judge(Get(m, o.record.path), o).Refuse? && o.record.path == p;
        assert o in whole;
      }
      if Judge(Get(m, op.record.path), op).Refuse? && p == op.record.path {
        assert op in whole;
      }
    }
  }

  lemma LonelyAppend(s: seq<string>, x: string)
    ensures Elems(s + [x]) == Elems(s) + {x}
    ensures Distinct(s) && x !in Elems(s) ==> Distinct(s + [x])
  {
    if Distinct(s) && x !in Elems(s) {
      assert x !in s;
    }
  }

  /** Then the order of the operations does not matter: the records come out the same,
      as many operations are applied, and the same ones are refused, each once. */
  lemma DistinctPathsAnyOrder(m: Records, ops: seq<Op>, other: seq<Op>)
    requires DistinctPaths(ops) && NoEmptyPath(ops) && DistinctPaths(other) && NoEmptyPath(other)
    requires forall op :: op in ops <==> op in other
    ensures ApplyAll(m, ops).0 == ApplyAll(m, other).0
    ensures var a, b := ApplyAll(m, ops).1, ApplyAll(m, other).1;
            && a.applied == b.applied && !a.invalid && !b.invalid
            && Elems(a.refused) == Elems(b.refused) && Distinct(a.refused) && Distinct(b.refused)
  {
    SameRecords(m, ops, other);
    ApplyTally(m, ops);
    ApplyTally(m, other);
    assert Written(m, ops) == Written(m, other);
    assert RefusedPaths(m, ops) == RefusedPaths(m, other);
    hide Written, RefusedPaths, ApplyAll;
  }

  lemma SameRecords(m: Records, ops: seq<Op>, other: seq<Op>)
    requires DistinctPaths(ops) && NoEmptyPath(ops) && DistinctPaths(other) && NoEmptyPath(other)
    requires forall op :: op in ops <==> op in other
    ensures ApplyAll(m, ops).0 == ApplyAll(m, other).0
  {
    ApplyPathwise(m, ops);
    ApplyPathwise(m, other);
    var a, b := ApplyAll(m, ops).0, ApplyAll(m, other).0;
    forall p ensures Get(a, p) == Get(b, p) {
      if op: Op :| op in ops && op.record.path == p {
        var i :| 0 <= i < |ops| && ops[i] == op;
        var j :| 0 <= j < |other| && other[j] == op;
      } else {
        forall i | 0 <= i < |other| ensures other[i].record.path != p { assert other[i] in ops; }
        forall i | 0 <= i < |ops| ensures ops[i].record.path != p { assert ops[i] in ops; }
        assert !Touches(ops, p) && !Touches(other, p);
      }
    }
    SameByGet(a, b);
  }

  lemma SameByGet(a: Records, b: Records)
    requires forall p :: Get(a, p) == Get(b, p)
    ensures a == b
  {
    forall p ensures p in a <==> p in b { assert Get(a, p) == Get(b, p); }
    forall p | p in a ensures a[p] == b[p] { assert Get(a, p) == Get(b, p); }
  }

  /** In general it does: a newer tombstone over an older one is skipped, so the
      older revision stays in place and lets a later put bring the path back. */
  lemma OrderMatters(path: string)
    requires path != ""
    ensures var old1 := Op(OpDelete, Record("", path, 1, "", 0, true));
            var new5 := Op(OpDelete, Record("", path, 5, "", 0, true));
            var put3 := Op(OpPut, Record("", path, 3, "h", 1, false));
            && ApplyAll(map[], [old1, new5, put3]).0 == map[path := put3.record]
            && ApplyAll(map[], [new5, old1, put3]).0 == map[path := new5.record]
  {
    var old1 := Op(OpDelete, Record("", path, 1, "", 0, true));
    var new5 := Op(OpDelete, Record("", path, 5, "", 0, true));
    var put3 := Op(OpPut, Record("", path, 3, "h", 1, false));
    var a, b := [old1, new5, put3], [new5, old1, put3];
    assert a[..2] == [old1, new5] && a[..2][..1] == [old1] && a[..2][..1][..0] == [];
    assert b[..2] == [new5, old1] && b[..2][..1] == [new5] && b[..2][..1][..0] == [];
    assert ApplyAll(map[], a[..2][..1]).0 == map[path := old1.record];
    assert ApplyAll(map[], a[..2]).0 == map[path := old1.record];
    assert ApplyAll(map[], b[..2][..1]).0 == map[path := new5.record];
    assert ApplyAll(map[], b[..2]).0 == map[path := new5.record];
  }

  // ----- Apply after Diff

  /** The record a path ends up with. */
  function Synced(source: Records, replica: Records, path: string): Option<Record> {
    if path in source && Emits(source[path], Get(replica, path))
        && !(source[path].deleted && path in replica && replica[path].deleted)
    then Some(source[path])
    else Get(replica, path)
  }

  /** The difference lists the emitted source records, once each. */
  ghost predicate IsDiff(source: Records, replica: Records, paths: seq<string>, ops: seq<Op>)
    requires Elems(paths) <= source.Keys
  {
    && DistinctPaths(ops) && NoEmptyPath(ops)
    && (forall i :: 0 <= i < |ops| ==> IsEmitted(source, replica, ops[i]) && ops[i].record.path in paths)
    && (forall p :: p in paths && p in source && Emits(source[p], Get(replica, p)) ==> Touches(ops, p))
  }

  ghost predicate IsEmitted(source: Records, replica: Records, op: Op) {
    var p := op.record.path;
    p in source && Emits(source[p], Get(replica, p)) && op == OpFor(source[p])
  }

  lemma {:induction false} DiffOverFacts(source: Records, replica: Records, paths: seq<string>)
    requires Filed(source) && Elems(paths) <= source.Keys && Distinct(paths)
    ensures IsDiff(source, replica, paths, DiffOver(source, replica, paths))
  {
    if paths != [] {
      var init, last := paths[..|paths| - 1], paths[|paths| - 1];
      assert paths == init + [last];
      assert last in Elems(paths) && Elems(init) <= Elems(paths);
      assert last !in init;
      DiffOverFacts(source, replica, init);
      DiffOneMore(source, replica, init, last, DiffOver(source, replica, init));
    }
  }

  lemma DiffOneMore(source: Records, replica: Records, init: seq<string>, last: string, ops: seq<Op>)
    requires Filed(source) && Elems(init) <= source.Keys && last in source && last !in init
    requires IsDiff(source, replica, init, ops)
    ensures IsDiff(source, replica, init + [last],
                   ops + if Emits(source[last], Get(replica, last)) then [OpFor(source[last])] else [])
  {
    hide Emits;
    var longer := ops + if Emits(source[last], Get(replica, last)) then [OpFor(source[last])] else [];
    assert forall i :: 0 <= i < |ops| ==> longer[i] == ops[i];
    forall p | p in init + [last] && p in source && Emits(source[p], Get(replica, p)) ensures Touches(longer, p) {
      if p == last {
        assert longer[|ops|].record.path == p;
      } else {
        assert Touches(ops, p);
        var i :| 0 <= i < |ops| && ops[i].record.path == p;
        assert longer[i].record.path == p;
      }
    }
  }

  /** Applying the difference refuses nothing and gives every path exactly its
      synced record: replica-only and newer paths are left alone, a live source
      record that is newer or absent is copied, and every source path that is
      not newer on the replica ends up live or deleted as on the source. */
  lemma DiffThenApply(source: Records, replica: Records)
    requires Filed(source) && Filed(replica)
    ensures var (after, res) := ApplyAll(replica, DiffOver(source, replica, SortedKeys(source.Keys)));
            && !res.invalid && res.refused == []
            && (forall p :: Get(after, p) == Synced(source, replica, p))
            && (forall p :: p in source && (p !in replica || replica[p].revision <= source[p].revision) ==>
                  p in after && after[p].deleted == source[p].deleted)
            && (forall p ::
                  p in source && !source[p].deleted && (p !in replica || replica[p].revision < source[p].revision) ==>
                  p in after && after[p] == source[p])
            && (forall p :: p in replica && (p !in source || replica[p].revision > source[p].revision) ==>
                  p in after && after[p] == replica[p])
  {
    hide Synced;
    var paths := SortedKeys(source.Keys);
    var ops := DiffOver(source, replica, paths);
    DiffOverFacts(source, replica, paths);
    ApplyPathwise(replica, ops);
    var (after, res) := ApplyAll(replica, ops);
    ApplyOfDiff(source, replica, paths, ops, after, res);
    SyncedReads(source, replica, after);
  }

  lemma ApplyOfDiff(source: Records, replica: Records, paths: seq<string>, ops: seq<Op>, after: Records, res: Applied)
    requires Filed(source) && Filed(replica) && Elems(paths) == source.Keys
    requires IsDiff(source, replica, paths, ops) && Pathwise(replica, ops, after, res)
    ensures res.refused == []
    ensures forall p :: Get(after, p) == Synced(source, replica, p)
  {
    forall i | 0 <= i < |ops| ensures !Judge(Get(replica, ops[i].record.path), ops[i]).Refuse? {
      assert IsEmitted(source, replica, ops[i]);
    }
    forall p ensures Get(after, p) == Synced(source, replica, p) {
      if Touches(ops, p) {
        var i :| 0 <= i < |ops| && ops[i].record.path == p;
        assert IsEmitted(source, replica, ops[i]);
      } else {
        assert p in source ==> p in Elems(paths);
      }
    }
  }

  lemma SyncedReads(source: Records, replica: Records, after: Records)
    requires forall p :: Get(after, p) == Synced(source, replica, p)
    ensures forall p :: p in source && (p !in replica || replica[p].revision <= source[p].revision) ==>
              p in after && after[p].deleted == source[p].deleted
    ensures forall p ::
              p in source && !source[p].deleted && (p !in replica || replica[p].revision < source[p].revision) ==>
              p in after && after[p] == source[p]
    ensures forall p :: p in replica && (p !in source || replica[p].revision > source[p].revision) ==>
              p in after && after[p] == replica[p]
  {
    forall p | p in source || p in replica ensures p in after && Some(after[p]) == Synced(source, replica, p) {
      assert Get(after, p) == Synced(source, replica, p);
    }
  }

  /** A second round changes nothing. */
  lemma SecondRoundChangesNothing(source: Records, replica: Records)
    requires Filed(source) && Filed(replica)
    ensures var once := ApplyAll(replica, DiffOver(source, replica, SortedKeys(source.Keys))).0;
            ApplyAll(once, DiffOver(source, once, SortedKeys(source.Keys))).0 == once
  {
    var once := ApplyAll(replica, DiffOver(source, replica, SortedKeys(source.Keys))).0;
    DiffThenApply(source, replica);
    SyncedFiled(source, replica, once);
    DiffThenApply(source, once);
    var twice := ApplyAll(once, DiffOver(source, once, SortedKeys(source.Keys))).0;
    forall p ensures Get(twice, p) == Get(once, p) {
      assert Get(once, p) == Synced(source, replica, p);
      assert Get(twice, p) == Synced(source, once, p);
    }
    SameByGet(twice, once);
  }

  lemma SyncedFiled(source: Records, replica: Records, after: Records)
    requires Filed(source) && Filed(replica) && forall p :: Get(after, p) == Synced(source, replica, p)
    ensures Filed(after)
  {
    forall p | p in after ensures p != "" && after[p].path == p {
      assert Get(after, p) == Synced(source, replica, p);
    }
  }

  /** Yet the second difference need not be empty. It is, exactly when no path is
      a tombstone on both sides with the source's strictly newer. */
  lemma SecondDiffEmptyExactly(source: Records, replica: Records)
    requires Filed(source) && Filed(replica)
    ensures var once := ApplyAll(replica, DiffOver(source, replica, SortedKeys(source.Keys))).0;
            DiffOver(source, once, SortedKeys(source.Keys)) == [] <==>
              forall p :: p in source && p in replica && source[p].deleted && replica[p].deleted ==>
                  source[p].revision <= replica[p].revision
  {
    var paths := SortedKeys(source.Keys);
    var once := ApplyAll(replica, DiffOver(source, replica, paths)).0;
    DiffThenApply(source, replica);
    DiffOverFacts(source, once, paths);
    var ops := DiffOver(source, once, paths);
    assert Elems(paths) == source.Keys;
    forall p | p in source ensures Emits(source[p], Get(once, p)) <==>
      (p in replica && source[p].deleted && replica[p].deleted && source[p].revision > replica[p].revision)
    {
      assert Get(once, p) == Synced(source, replica, p);
    }
    if ops == [] {
      forall p | p in source ensures !Emits(source[p], Get(once, p)) {
        assert p in Elems(paths);
        assert !Touches(ops, p);
      }
    } else {
      assert IsEmitted(source, once, ops[0]);
    }
  }
}
