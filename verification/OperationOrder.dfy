/**
 When the order of revision operations matters (sync/revision/revision.go): the
 exact condition for two operations to commute, and for a whole list to be free of
 its order.
 */
module OperationOrder {
  import opened Lex
  import opened Outcomes
  import opened RevisionSync

  /** An operation as Diff makes them: deletions carry tombstones, and every record
      has a path. */
  predicate WellMade(op: Op) {
    op.record.path != "" && (op.kind.OpDelete? <==> op.record.deleted)
  }

  function Revision(op: Op): nat {
    op.record.revision
  }

  /** One operation on what the replica holds for its path. */
  function PathStep(local: Option<Record>, op: Op): Option<Record> {
    if Judge(local, op).Write? then Some(op.record) else local
  }

  function RunPath(local: Option<Record>, ops: seq<Op>): Option<Record> {
    if ops == [] then local else PathStep(RunPath(local, ops[..|ops| - 1]), ops[|ops| - 1])
  }

  lemma {:induction false} RunPathConcat(local: Option<Record>, a: seq<Op>, b: seq<Op>)
    ensures RunPath(local, a + b) == RunPath(RunPath(local, a), b)
  {
    if b == [] {
      assert a + b == a;
    } else {
      assert (a + b)[..|a + b| - 1] == a + b[..|b| - 1];
      RunPathConcat(local, a, b[..|b| - 1]);
    }
  }

  /** Alike to Apply's check for convergence. */
  predicate SameContent(a: Record, b: Record) {
    a.revision == b.revision && a.hash == b.hash && a.deleted == b.deleted
  }

  // ----- two operations

  /** They come to the same on whatever a replica may hold for their path. */
  ghost predicate Commute(a: Op, b: Op) {
    forall local :: PathStep(PathStep(local, a), b) == PathStep(PathStep(local, b), a)
  }

  /** Two operations on a path commute exactly when they are the same, or the one of
      strictly higher revision is a put. */
  lemma CommuteExactly(a: Op, b: Op)
    requires WellMade(a) && WellMade(b) && a.record.path == b.record.path
    ensures Commute(a, b) <==>
            a == b || (Revision(a) > Revision(b) && a.kind.OpPut?) || (Revision(b) > Revision(a) && b.kind.OpPut?)
  {
    if Commute(a, b) {
      var tombstone := Some(Record("", a.record.path, 0, "", 0, true));
      assert PathStep(PathStep(None, a), b) == PathStep(PathStep(None, b), a);
      assert PathStep(PathStep(tombstone, a), b) == PathStep(PathStep(tombstone, b), a);
    }
  }

  // ----- lists on one path

  /** Every operation of the list is about path p and well made. */
  predicate On(ops: seq<Op>, p: string) {
    forall op :: op in ops ==> WellMade(op) && op.record.path == p
  }

  predicate Top(ops: seq<Op>, c: Op) {
    c in ops && forall op :: op in ops ==> Revision(op) <= Revision(c)
  }

  /** Beside an operation of the top revision there are only operations of lower
      revision, and then it is a put. */
  ghost predicate PutsOnTop(ops: seq<Op>) {
    forall c, d :: Top(ops, c) && d in ops && d != c ==> Revision(d) < Revision(c) && c.kind.OpPut?
  }

  /** What a put leaves of what is held. */
  function Topped(local: Option<Record>, c: Op): Option<Record> {
    if local.None? || (local.value.revision <= Revision(c) && !SameContent(local.value, c.record)) then Some(c.record)
    else local
  }

  lemma {:induction false} TopDecides(local: Option<Record>, ops: seq<Op>, c: Op, p: string)
    requires On(ops, p) && WellMade(c) && c.record.path == p && c.kind.OpPut?
    requires forall op :: op in ops && op != c ==> Revision(op) < Revision(c)
    ensures Topped(RunPath(local, ops), c) == Topped(local, c)
    ensures c in ops ==> RunPath(local, ops) == Topped(local, c)
  {
    if ops != [] {
      var init, op := ops[..|ops| - 1], ops[|ops| - 1];
      assert ops == init + [op] && op in ops;
      TopDecides(local, init, c, p);
      TopStep(local, RunPath(local, init), op, c);
    }
  }

  lemma TopStep(local: Option<Record>, held: Option<Record>, op: Op, c: Op)
    requires WellMade(op) && WellMade(c) && c.kind.OpPut? && Topped(held, c) == Topped(local, c)
    requires op != c ==> Revision(op) < Revision(c)
    ensures Topped(PathStep(held, op), c) == Topped(local, c)
    ensures op == c || held == Topped(local, c) ==> PathStep(held, op) == Topped(local, c)
  {
  }

  /** With a put on top, or a single operation throughout, order does not matter. */
  lemma PutsOnTopSettle(local: Option<Record>, a: seq<Op>, b: seq<Op>, p: string)
    requires On(a, p) && PutsOnTop(a) && multiset(a) == multiset(b)
    ensures RunPath(local, a) == RunPath(local, b)
  {
    SameOps(a, b);
    if a != [] {
      var c := FindTop(a);
      assert WellMade(c);
      if d :| d in a && d != c {
        assert forall op :: op in a && op != c ==> Revision(op) < Revision(c);
        TopDecides(local, a, c, p);
        TopDecides(local, b, c, p);
      } else {
        AllCopies(a, b, c);
      }
    }
  }

  lemma SameOps(a: seq<Op>, b: seq<Op>)
    requires multiset(a) == multiset(b)
    ensures |a| == |b| && forall op :: op in a <==> op in b
  {
    assert |multiset(a)| == |multiset(b)|;
    forall op ensures op in a <==> op in b {
      assert op in a <==> op in multiset(a);
    }
  }

  lemma AllCopies(a: seq<Op>, b: seq<Op>, c: Op)
    requires |a| == |b| && (forall op :: op in a ==> op == c) && (forall op :: op in b ==> op == c)
    ensures a == b
  {
    forall i | 0 <= i < |a| ensures a[i] == b[i] {
      assert a[i] in a && b[i] in b;
    }
  }

  lemma {:induction false} FindTop(ops: seq<Op>) returns (c: Op)
    requires ops != []
    ensures Top(ops, c)
  {
    var init, last := ops[..|ops| - 1], ops[|ops| - 1];
    assert ops == init + [last];
    if init == [] {
      c := last;
    } else {
      var t := FindTop(init);
      c := if Revision(last) > Revision(t) then last else t;
    }
  }

  // ----- where order does matter

  lemma {:induction false} Holds(local: Option<Record>, ops: seq<Op>)
    requires forall op :: op in ops ==> PathStep(local, op) == local
    ensures RunPath(local, ops) == local
  {
    if ops != [] {
      var init := ops[..|ops| - 1];
      assert ops[|ops| - 1] in ops && forall op :: op in init ==> op in ops;
      Holds(local, init);
    }
  }

  predicate Below(local: Option<Record>, revision: nat) {
    local.None? || local.value.revision < revision
  }

  lemma {:induction false} StaysBelow(local: Option<Record>, ops: seq<Op>, revision: nat)
    requires Below(local, revision) && forall op :: op in ops ==> Revision(op) < revision
    ensures Below(RunPath(local, ops), revision)
  {
    if ops != [] {
      var init := ops[..|ops| - 1];
      assert ops[|ops| - 1] in ops && forall op :: op in init ==> op in ops;
      StaysBelow(local, init, revision);
    }
  }

  lemma PullOut(ops: seq<Op>, c: Op) returns (rest: seq<Op>)
    requires c in ops
    ensures multiset([c] + rest) == multiset(ops) && |rest| < |ops|
    ensures forall op :: op in rest ==> op in ops
    ensures forall op :: op in ops && op != c ==> op in rest
  {
    var i :| 0 <= i < |ops| && ops[i] == c;
    rest := ops[..i] + ops[i + 1..];
    assert ops == ops[..i] + [c] + ops[i + 1..];
  }

  /** The two orders that put c and d side by side. */
  lemma PullPair(ops: seq<Op>, c: Op, d: Op) returns (rest: seq<Op>)
    requires c in ops && d in ops && c != d
    ensures multiset([c, d] + rest) == multiset(ops) && multiset([d, c] + rest) == multiset(ops)
    ensures multiset(rest + [c, d]) == multiset(ops) && multiset(rest + [d, c]) == multiset(ops)
    ensures forall op :: op in rest ==> op in ops
  {
    var without := PullOut(ops, c);
    rest := PullOut(without, d);
    assert [c, d] + rest == [c] + ([d] + rest);
    assert multiset([d] + rest) == multiset(without);
    assert multiset([c] + ([d] + rest)) == multiset{c} + multiset(without) == multiset(ops);
  }

  /** Some replica and two orders of the operations end differently. */
  ghost predicate OrderShows(ops: seq<Op>, p: string) {
    exists local: Option<Record>, a: seq<Op>, b: seq<Op> :: Shows(ops, p, local, a, b)
  }

  ghost predicate Shows(ops: seq<Op>, p: string, local: Option<Record>, a: seq<Op>, b: seq<Op>) {
    && (local.Some? ==> local.value.path == p)
    && multiset(a) == multiset(ops) && multiset(b) == multiset(ops)
    && RunPath(local, a) != RunPath(local, b)
  }

  /** Two operations of the same revision with different content, not both
      deletions: whichever comes last stays, whatever was held before. */
  lemma LastStays(held: Option<Record>, c: Op, d: Op)
    requires WellMade(c) && WellMade(d) && Revision(c) == Revision(d) && Below(held, Revision(c) + 1)
    requires !SameContent(c.record, d.record) && !(c.kind.OpDelete? && d.kind.OpDelete?)
    ensures PathStep(PathStep(held, c), d) != PathStep(PathStep(held, d), c)
  {
  }

  lemma RunPair(local: Option<Record>, c: Op, d: Op)
    ensures RunPath(local, [c, d]) == PathStep(PathStep(local, c), d)
  {
    assert [c, d][..1] == [c] && [c][..0] == [];
    assert RunPath(local, [c]) == PathStep(local, c);
  }

  lemma PairShowsAtEnd(ops: seq<Op>, p: string, c: Op, d: Op)
    requires On(ops, p) && Top(ops, c) && Top(ops, d)
    requires !SameContent(c.record, d.record) && !(c.kind.OpDelete? && d.kind.OpDelete?)
    ensures OrderShows(ops, p)
  {
    var rest := PullPair(ops, c, d);
    StaysBelow(None, rest, Revision(c) + 1);
    var held := RunPath(None, rest);
    RunPathConcat(None, rest, [c, d]);
    RunPathConcat(None, rest, [d, c]);
    RunPair(held, c, d);
    RunPair(held, d, c);
    LastStays(held, c, d);
    assert Shows(ops, p, None, rest + [c, d], rest + [d, c]);
  }

  /** With a record of the top revision held first, nothing of the rest comes through. */
  lemma PairShowsAtStart(ops: seq<Op>, p: string, c: Op, d: Op, local: Option<Record>)
    requires On(ops, p) && Top(ops, c) && Top(ops, d) && c != d && (local.Some? ==> local.value.path == p)
    requires PathStep(local, c) == Some(c.record) && PathStep(local, d) == Some(d.record) && c.record != d.record
    requires forall op :: op in ops ==>
             PathStep(Some(c.record), op) == Some(c.record) && PathStep(Some(d.record), op) == Some(d.record)
    ensures OrderShows(ops, p)
  {
    var rest := PullPair(ops, c, d);
    RunPathConcat(local, [c, d], rest);
    RunPathConcat(local, [d, c], rest);
    RunPair(local, c, d);
    RunPair(local, d, c);
    assert PathStep(Some(c.record), d) == Some(c.record) && PathStep(Some(d.record), c) == Some(d.record);
    Holds(Some(c.record), rest);
    Holds(Some(d.record), rest);
    assert Shows(ops, p, local, [c, d] + rest, [d, c] + rest);
  }

  /** Two different operations of the top revision. */
  lemma TwoOnTopShow(ops: seq<Op>, p: string, c: Op, d: Op)
    requires On(ops, p) && Top(ops, c) && Top(ops, d) && c != d
    ensures OrderShows(ops, p)
  {
    if e :| Top(ops, e) && !SameContent(c.record, e.record) && !(c.kind.OpDelete? && e.kind.OpDelete?) {
      PairShowsAtEnd(ops, p, c, e);
    } else if !SameContent(c.record, d.record) && !(c.kind.OpDelete? && d.kind.OpDelete?) {
      PairShowsAtEnd(ops, p, c, d);
    } else if c.kind.OpPut? {
      assert forall op :: op in ops ==>
             Revision(op) < Revision(c) || SameContent(c.record, op.record) by { ContentsOnTop(ops, p, c); }
      PairShowsAtStart(ops, p, c, d, None);
    } else {
      var live := Some(Record("", p, Revision(c), "", 0, false));
      assert forall op :: op in ops ==> Revision(op) < Revision(c) || op.kind.OpDelete? by { ContentsOnTop(ops, p, c); }
      PairShowsAtStart(ops, p, c, d, live);
    }
  }

  lemma ContentsOnTop(ops: seq<Op>, p: string, c: Op)
    requires On(ops, p) && Top(ops, c)
    requires forall e :: Top(ops, e) ==> SameContent(c.record, e.record) || (c.kind.OpDelete? && e.kind.OpDelete?)
    ensures forall op :: op in ops ==>
            Revision(op) < Revision(c) || SameContent(c.record, op.record) || (c.kind.OpDelete? && op.kind.OpDelete?)
  {
    forall op | op in ops && Revision(op) == Revision(c)
      ensures SameContent(c.record, op.record) || (c.kind.OpDelete? && op.kind.OpDelete?)
    {
      assert Top(ops, op);
    }
  }

  /** The operations of a list that are c, or are not. */
  function Only(ops: seq<Op>, c: Op, equal: bool): seq<Op> {
    if ops == [] then []
    else
      var rest := Only(ops[..|ops| - 1], c, equal);
      if (ops[|ops| - 1] == c) == equal then rest + [ops[|ops| - 1]] else rest
  }

  lemma {:induction false} OnlyMembers(ops: seq<Op>, c: Op)
    ensures forall op :: op in Only(ops, c, true) ==> op == c
    ensures forall op :: op in Only(ops, c, false) ==> op != c && op in ops
  {
    if ops != [] {
      OnlyMembers(ops[..|ops| - 1], c);
    }
  }

  lemma {:induction false} OnlyCounts(ops: seq<Op>, c: Op)
    ensures multiset(Only(ops, c, true)) + multiset(Only(ops, c, false)) == multiset(ops)
  {
    if ops != [] {
      OnlyCounts(ops[..|ops| - 1], c);
      assert ops == ops[..|ops| - 1] + [ops[|ops| - 1]];
    }
  }

  lemma OnlyParts(ops: seq<Op>, c: Op)
    ensures multiset(Only(ops, c, true) + Only(ops, c, false)) == multiset(ops)
    ensures forall op :: op in Only(ops, c, true) ==> op == c
    ensures forall op :: op in Only(ops, c, false) ==> op != c && op in ops
  {
    OnlyMembers(ops, c);
    OnlyCounts(ops, c);
  }

  /** A deletion alone on top, beside an operation of lower revision. */
  lemma DeletionOnTopShows(ops: seq<Op>, p: string, c: Op, d: Op)
    requires On(ops, p) && c in ops && d in ops && c.kind.OpDelete?
    requires Revision(d) < Revision(c) && forall op :: op in ops && op != c ==> Revision(op) < Revision(c)
    ensures OrderShows(ops, p)
  {
    var without := PullOut(ops, d);
    OnlyParts(without, c);
    var copies, lower := Only(without, c, true), Only(without, c, false);
    if d.kind.OpDelete? {
      DeletionSecond(ops, p, c, d, without, copies, lower);
    } else {
      PutBetween(ops, p, c, d, without, copies, lower);
    }
  }

  /** From nothing: the lower tombstone first keeps the higher one out. */
  lemma DeletionSecond(ops: seq<Op>, p: string, c: Op, d: Op, without: seq<Op>, copies: seq<Op>, lower: seq<Op>)
    requires On(ops, p) && c in ops && d in ops && c.kind.OpDelete? && d.kind.OpDelete? && Revision(d) < Revision(c)
    requires multiset([d] + without) == multiset(ops) && multiset(copies + lower) == multiset(without)
    requires (forall op :: op in copies ==> op == c) && (forall op :: op in lower ==> Revision(op) < Revision(c))
    requires forall op :: op in ops && op != c ==> Revision(op) < Revision(c)
    ensures OrderShows(ops, p)
  {
    var b := [d] + (copies + lower);
    RunPathConcat(None, [d], copies + lower);
    RunOne(None, d);
    RunPathConcat(Some(d.record), copies, lower);
    Holds(Some(d.record), copies);
    StaysBelow(Some(d.record), lower, Revision(c));
    var a := TopFirst(ops, p, c, None);
    assert multiset(b) == multiset{d} + multiset(copies + lower) == multiset(ops);
    assert Shows(ops, p, None, a, b);
  }

  lemma RunOne(local: Option<Record>, c: Op)
    ensures RunPath(local, [c]) == PathStep(local, c)
  {
    assert [c][..0] == [];
  }

  /** Coming first, c stays. */
  lemma TopFirst(ops: seq<Op>, p: string, c: Op, local: Option<Record>) returns (a: seq<Op>)
    requires On(ops, p) && c in ops && PathStep(local, c) == Some(c.record)
    requires forall op :: op in ops && op != c ==> Revision(op) < Revision(c)
    ensures multiset(a) == multiset(ops) && RunPath(local, a) == Some(c.record)
  {
    var rest := PullOut(ops, c);
    a := [c] + rest;
    RunPathConcat(local, [c], rest);
    RunOne(local, c);
    Holds(Some(c.record), rest);
  }

  /** From an old tombstone: without a put before it the deletion is skipped. */
  lemma PutBetween(ops: seq<Op>, p: string, c: Op, d: Op, without: seq<Op>, copies: seq<Op>, lower: seq<Op>)
    requires On(ops, p) && c in ops && d in ops && c.kind.OpDelete? && d.kind.OpPut? && Revision(d) < Revision(c)
    requires multiset([d] + without) == multiset(ops) && multiset(copies + lower) == multiset(without)
    requires (forall op :: op in copies ==> op == c) && (forall op :: op in lower ==> Revision(op) < Revision(c))
    requires forall op :: op in ops && op != c ==> Revision(op) < Revision(c)
    requires forall op :: op in without ==> op in ops
    requires c in without
    ensures OrderShows(ops, p)
  {
    var tombstone := Some(Record("", p, 0, "", 0, true));
    DeletionSkipped(p, c, d, copies, lower);
    var b := DeletionTaken(p, c, d, without);
    var a := copies + ([d] + lower);
    assert multiset(a) == multiset(copies) + multiset{d} + multiset(lower);
    assert multiset(a) == multiset(ops) && multiset(b) == multiset(ops);
    hide On, RunPath;
    assert Shows(ops, p, tombstone, a, b);
  }

  /** The deletions come first and are skipped; what follows stays below them. */
  lemma DeletionSkipped(p: string, c: Op, d: Op, copies: seq<Op>, lower: seq<Op>)
    requires WellMade(c) && WellMade(d) && c.kind.OpDelete? && c.record.path == p
    requires d.kind.OpPut? && d.record.path == p && Revision(d) < Revision(c)
    requires (forall op :: op in copies ==> op == c) && (forall op :: op in lower ==> Revision(op) < Revision(c))
    ensures RunPath(Some(Record("", p, 0, "", 0, true)), copies + ([d] + lower)) != Some(c.record)
  {
    var tombstone := Some(Record("", p, 0, "", 0, true));
    RunPathConcat(tombstone, copies, [d] + lower);
    Holds(tombstone, copies);
    StaysBelow(tombstone, [d] + lower, Revision(c));
    hide RunPath, PathStep;
  }

  /** The put comes first, so the deletion is taken, and stays. */
  lemma DeletionTaken(p: string, c: Op, d: Op, without: seq<Op>) returns (b: seq<Op>)
    requires On(without, p) && c in without && c.kind.OpDelete?
    requires WellMade(d) && d.kind.OpPut? && d.record.path == p && Revision(d) < Revision(c)
    requires forall op :: op in without && op != c ==> Revision(op) < Revision(c)
    ensures multiset(b) == multiset{d} + multiset(without)
    ensures RunPath(Some(Record("", p, 0, "", 0, true)), b) == Some(c.record)
  {
    var tombstone := Some(Record("", p, 0, "", 0, true));
    RunOne(tombstone, d);
    var after := TopFirst(without, p, c, Some(d.record));
    b := [d] + after;
    RunPathConcat(tombstone, [d], after);
    hide RunPath, On;
  }

  /** Where the condition fails, some order shows. */
  lemma OtherwiseOrderShows(ops: seq<Op>, p: string)
    requires On(ops, p) && !PutsOnTop(ops)
    ensures OrderShows(ops, p)
  {
    var c, d :| Top(ops, c) && d in ops && d != c && !(Revision(d) < Revision(c) && c.kind.OpPut?);
    if e :| e in ops && e != c && Revision(e) == Revision(c) {
      TwoOnTopShow(ops, p, c, e);
    } else {
      DeletionOnTopShows(ops, p, c, d);
    }
  }

  // ----- lists over many paths

  /** The operations on one path, or those on the others. */
  function Part(ops: seq<Op>, p: string, on: bool): seq<Op> {
    if ops == [] then []
    else
      var rest := Part(ops[..|ops| - 1], p, on);
      if (ops[|ops| - 1].record.path == p) == on then rest + [ops[|ops| - 1]] else rest
  }

  lemma {:induction false} Parts(ops: seq<Op>, p: string)
    ensures multiset(Part(ops, p, true) + Part(ops, p, false)) == multiset(ops)
    ensures forall op :: op in Part(ops, p, true) <==> op in ops && op.record.path == p
    ensures forall op :: op in Part(ops, p, false) <==> op in ops && op.record.path != p
  {
    if ops != [] {
      Parts(ops[..|ops| - 1], p);
      assert ops == ops[..|ops| - 1] + [ops[|ops| - 1]];
    }
  }

  lemma {:induction false} PartCount(ops: seq<Op>, p: string, op: Op)
    ensures multiset(Part(ops, p, true))[op] == if op.record.path == p then multiset(ops)[op] else 0
  {
    if ops != [] {
      PartCount(ops[..|ops| - 1], p, op);
      assert ops == ops[..|ops| - 1] + [ops[|ops| - 1]];
    }
  }

  lemma PartMultiset(a: seq<Op>, b: seq<Op>, p: string)
    requires multiset(a) == multiset(b)
    ensures multiset(Part(a, p, true)) == multiset(Part(b, p, true))
  {
    forall op ensures multiset(Part(a, p, true))[op] == multiset(Part(b, p, true))[op] {
      PartCount(a, p, op);
      PartCount(b, p, op);
    }
  }

  lemma {:induction false} PartConcat(a: seq<Op>, b: seq<Op>, p: string)
    ensures Part(a + b, p, true) == Part(a, p, true) + Part(b, p, true)
  {
    if b == [] {
      assert a + b == a;
    } else {
      assert (a + b)[..|a + b| - 1] == a + b[..|b| - 1];
      PartConcat(a, b[..|b| - 1], p);
    }
  }

  lemma {:induction false} PartWhole(ops: seq<Op>, p: string)
    ensures (forall op :: op in ops ==> op.record.path == p) ==> Part(ops, p, true) == ops
    ensures (forall op :: op in ops ==> op.record.path != p) ==> Part(ops, p, true) == []
  {
    if ops != [] {
      var init, last := ops[..|ops| - 1], ops[|ops| - 1];
      assert ops == init + [last];
      PartWhole(init, p);
      if forall op :: op in ops ==> op.record.path == p {
        assert forall op :: op in init ==> op in ops;
        assert last in ops;
      }
      if forall op :: op in ops ==> op.record.path != p {
        assert forall op :: op in init ==> op in ops;
        assert last in ops;
      }
    }
  }

  /** A list of operations with paths does to each path what its part does. */
  lemma RunPathSnoc(local: Option<Record>, ops: seq<Op>, op: Op)
    ensures RunPath(local, ops + [op]) == PathStep(RunPath(local, ops), op)
  {
    assert (ops + [op])[..|ops|] == ops;
  }

  lemma ApplyOneMore(m: Records, init: seq<Op>, op: Op, p: string)
    requires op.record.path != "" && !ApplyAll(m, init).1.invalid
    ensures !ApplyAll(m, init + [op]).1.invalid
    ensures Get(ApplyAll(m, init + [op]).0, p) ==
            if op.record.path == p then PathStep(Get(ApplyAll(m, init).0, p), op) else Get(ApplyAll(m, init).0, p)
  {
    assert (init + [op])[..|init|] == init;
  }

  lemma PartOneMore(init: seq<Op>, op: Op, p: string)
    ensures Part(init + [op], p, true) ==
            if op.record.path == p then Part(init, p, true) + [op] else Part(init, p, true)
  {
    assert (init + [op])[..|init|] == init;
  }

  lemma {:induction false} ApplyByPath(m: Records, ops: seq<Op>, p: string)
    requires forall op :: op in ops ==> op.record.path != ""
    ensures !ApplyAll(m, ops).1.invalid
    ensures Get(ApplyAll(m, ops).0, p) == RunPath(Get(m, p), Part(ops, p, true))
  {
    if ops != [] {
      var init, last := ops[..|ops| - 1], ops[|ops| - 1];
      assert ops == init + [last] && last in ops;
      ApplyByPath(m, init, p);
      hide *;
      ApplyOneMore(m, init, last, p);
      PartOneMore(init, last, p);
      RunPathSnoc(Get(m, p), Part(init, p, true), last);
    }
  }

  /** The same records on every well-filed replica, in whatever order. */
  ghost predicate OrderFree(ops: seq<Op>) {
    forall m: Records, other: seq<Op> :: Filed(m) && multiset(other) == multiset(ops) ==>
        ApplyAll(m, other).0 == ApplyAll(m, ops).0
  }

  ghost predicate PutsOnTopEverywhere(ops: seq<Op>) {
    forall p :: PutsOnTop(Part(ops, p, true))
  }

  lemma PartOn(ops: seq<Op>, p: string)
    requires forall op :: op in ops ==> WellMade(op)
    ensures On(Part(ops, p, true), p)
  {
    Parts(ops, p);
  }

  /** The order of a list of operations is free exactly when on every path there is,
      beside an operation of the top revision, only what is of lower revision, and
      that operation is a put. */
  lemma OrderFreeExactly(ops: seq<Op>)
    requires forall op :: op in ops ==> WellMade(op)
    ensures OrderFree(ops) <==> PutsOnTopEverywhere(ops)
  {
    if PutsOnTopEverywhere(ops) {
      forall m: Records, other: seq<Op> | Filed(m) && multiset(other) == multiset(ops)
        ensures ApplyAll(m, other).0 == ApplyAll(m, ops).0
      {
        AnyOrder(m, ops, other);
      }
    } else {
      var p :| !PutsOnTop(Part(ops, p, true));
      PartOn(ops, p);
      OtherwiseOrderShows(Part(ops, p, true), p);
      var local, a, b :| Shows(Part(ops, p, true), p, local, a, b);
      OrderShowsInList(ops, p, local, a, b);
    }
  }

  lemma AnyOrder(m: Records, ops: seq<Op>, other: seq<Op>)
    requires (forall op :: op in ops ==> WellMade(op)) && multiset(other) == multiset(ops) && PutsOnTopEverywhere(ops)
    ensures ApplyAll(m, other).0 == ApplyAll(m, ops).0
  {
    SameOps(ops, other);
    forall p ensures Get(ApplyAll(m, other).0, p) == Get(ApplyAll(m, ops).0, p) {
      ApplyByPath(m, ops, p);
      ApplyByPath(m, other, p);
      PartMultiset(ops, other, p);
      PartOn(ops, p);
      assert PutsOnTop(Part(ops, p, true));
      PutsOnTopSettle(Get(m, p), Part(ops, p, true), Part(other, p, true), p);
    }
    SameByGet(ApplyAll(m, other).0, ApplyAll(m, ops).0);
  }

  lemma Rearranged(ops: seq<Op>, p: string, a: seq<Op>)
    requires multiset(a) == multiset(Part(ops, p, true))
    ensures multiset(a + Part(ops, p, false)) == multiset(ops)
    ensures Part(a + Part(ops, p, false), p, true) == a
  {
    Parts(ops, p);
    SameOps(a, Part(ops, p, true));
    PartConcat(a, Part(ops, p, false), p);
    PartWhole(a, p);
    PartWhole(Part(ops, p, false), p);
    assert multiset(a + Part(ops, p, false)) == multiset(a) + multiset(Part(ops, p, false));
    assert multiset(Part(ops, p, true) + Part(ops, p, false)) ==
           multiset(Part(ops, p, true)) + multiset(Part(ops, p, false));
  }

  lemma OrderShowsInList(ops: seq<Op>, p: string, local: Option<Record>, a: seq<Op>, b: seq<Op>)
    requires forall op :: op in ops ==> WellMade(op)
    requires Part(ops, p, true) != [] && Shows(Part(ops, p, true), p, local, a, b)
    ensures !OrderFree(ops)
  {
    Parts(ops, p);
    assert Part(ops, p, true)[0] in ops && Part(ops, p, true)[0].record.path == p;
    var m: Records := if local.Some? then map[p := local.value] else map[];
    assert Filed(m) && Get(m, p) == local;
    var x := InList(m, ops, p, a);
    var y := InList(m, ops, p, b);
    hide ApplyAll, RunPath, Part, Filed, Get;
    assert ApplyAll(m, x).0 != ApplyAll(m, ops).0 || ApplyAll(m, y).0 != ApplyAll(m, ops).0;
  }

  /** An order of one path's part, as an order of the list. */
  lemma InList(m: Records, ops: seq<Op>, p: string, a: seq<Op>) returns (x: seq<Op>)
    requires (forall op :: op in ops ==> WellMade(op)) && multiset(a) == multiset(Part(ops, p, true))
    ensures multiset(x) == multiset(ops) && Get(ApplyAll(m, x).0, p) == RunPath(Get(m, p), a)
  {
    x := a + Part(ops, p, false);
    Rearranged(ops, p, a);
    SameOps(ops, x);
    ApplyByPath(m, x, p);
  }
}
