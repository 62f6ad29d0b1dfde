/**
 Which nodes a projected graph has and what is noted on them, said of the events
 themselves (visualizer/session/session.go, visualizer/compat/compat.go), and with the
 edges of ProjectionExactly the whole graph.
 */
module ProjectionNodes {
  import opened Lex
  import opened Outcomes
  import opened Contracts
  import opened SessionProjection
  import opened ProjectionExactly

  // ----- the nodes events name

  /** An event names its aggregate, its actor, and a work package and an artifact given
      in its payload. */
  predicate Names(e: Event, kind: string, ref: string) {
    || (kind == e.aggregateKind && ref == e.aggregateId)
    || (kind == "actor" && ref == e.actorId && ref != "")
    || (kind == "work_package" && Says(e, "workPackageId", ref))
    || (kind == "artifact" && Says(e, "artifactId", ref))
  }

  datatype Named = Named(kind: string, ref: string, sequence: int)

  /** The session is named from the start, the rest by events. */
  ghost predicate NamedIn(sessionId: string, first: int, events: seq<Event>, p: Named) {
    || p == Named("session", sessionId, first)
    || exists n :: 0 <= n < |events| && Names(events[n], p.kind, p.ref) && p.sequence == events[n].sequence
  }

  /** The table holds a node for exactly the names given, from the earliest on. */
  ghost predicate HoldsNodes(nodes: Nodes, named: Named -> bool) {
    && (forall k :: k in nodes ==> NodeAt(nodes, k, named))
    && (forall p :: named(p) ==> Ident(p.kind, p.ref) in nodes && nodes[Ident(p.kind, p.ref)].sequence <= p.sequence)
  }

  ghost predicate NodeAt(nodes: Nodes, k: string, named: Named -> bool)
    requires k in nodes
  {
    var node := nodes[k];
    && node.id == k == Ident(node.kind, node.ref)
    && (exists q :: named(Named(node.kind, node.ref, q)))
    && (exists p :: named(p) && Ident(p.kind, p.ref) == k && p.sequence == node.sequence)
  }

  lemma EnsureHolds(nodes: Nodes, named: Named -> bool, wanted: bool, kind: string, ref: string, seqNo: int,
      more: Named -> bool)
    requires HoldsNodes(nodes, named) && forall p :: named(p) ==> p.sequence <= seqNo
    requires forall p :: more(p) <==> named(p) || (wanted && p == Named(kind, ref, seqNo))
    ensures HoldsNodes(if wanted then Ensured(nodes, kind, ref, seqNo) else nodes, more)
  {
    var after := if wanted then Ensured(nodes, kind, ref, seqNo) else nodes;
    forall k | k in after ensures NodeAt(after, k, more) {
      EnsuredAt(nodes, named, wanted, kind, ref, seqNo, more, k);
    }
    forall p | more(p)
      ensures Ident(p.kind, p.ref) in after && after[Ident(p.kind, p.ref)].sequence <= p.sequence
    {
      var k := Ident(p.kind, p.ref);
      if k in nodes { assert NodeAt(nodes, k, named); }
    }
  }

  lemma EnsuredAt(nodes: Nodes, named: Named -> bool, wanted: bool, kind: string, ref: string, seqNo: int,
      more: Named -> bool, k: string)
    requires HoldsNodes(nodes, named) && k in (if wanted then Ensured(nodes, kind, ref, seqNo) else nodes)
    requires forall p :: more(p) <==> named(p) || (wanted && p == Named(kind, ref, seqNo))
    ensures NodeAt(if wanted then Ensured(nodes, kind, ref, seqNo) else nodes, k, more)
  {
    if k in nodes {
      assert NodeAt(nodes, k, named);
      var node := nodes[k];
      var q :| named(Named(node.kind, node.ref, q));
      assert more(Named(node.kind, node.ref, q));
      var p :| named(p) && Ident(p.kind, p.ref) == k && p.sequence == node.sequence;
      assert more(p);
    } else {
      assert more(Named(kind, ref, seqNo));
    }
  }

  /** Nodes that differ in what is noted on them only. */
  ghost predicate SameNames(a: Nodes, b: Nodes) {
    a.Keys == b.Keys && forall k :: k in a ==> b[k] == a[k].(metadata := b[k].metadata)
  }

  lemma SameNamesHold(a: Nodes, b: Nodes, named: Named -> bool)
    requires HoldsNodes(a, named) && SameNames(a, b)
    ensures HoldsNodes(b, named)
  {
    forall k | k in b ensures NodeAt(b, k, named) { assert NodeAt(a, k, named); }
  }

  /** The nodes before the notes of a step, and after them. */
  function NodesBefore(nodes: Nodes, e: Event): Nodes {
    var own := Ensured(nodes, e.aggregateKind, e.aggregateId, e.sequence);
    if e.actorId != "" then Ensured(own, "actor", e.actorId, e.sequence) else own
  }

  function NodesAfter(nodes: Nodes, e: Event): Nodes {
    var package, artifact := TextOf(e, "workPackageId"), TextOf(e, "artifactId");
    var third := if package != "" then Ensured(nodes, "work_package", package, e.sequence) else nodes;
    if artifact != "" then Ensured(third, "artifact", artifact, e.sequence) else third
  }

  /** A step adds nodes, makes its notes, and adds more nodes. */
  lemma StepNodes(session: string, f: Fold, e: Event)
    requires StepEvent(session, f, e).Some?
    ensures Normalize(e).Some?
    ensures StepEvent(session, f, e).value.nodes ==
            NodesAfter(AnnotateNode(NodesBefore(f.nodes, e), Aggregate(e), Normalize(e).value), e)
  {
    var b := WithActor(WithAggregate(session, f, e), e);
    assert b.nodes == NodesBefore(f.nodes, e);
    var c := WithCorrelation(WithCausation(b, e), e);
    LinksKeepNodes(b, e);
    var d := WithMetadata(c, e, Normalize(e).value);
    NotesNodes(c, e, Normalize(e).value);
    NamedNodes(d, e, "workPackageId", "work_package", "assigns");
    var x := WithNamed(d, e, "workPackageId", "work_package", "assigns");
    NamedNodes(x, e, "artifactId", "artifact", "produces");
    hide WithAggregate, WithActor, WithCausation, WithCorrelation, WithMetadata, WithNamed, Ensured, AnnotateNode,
        Normalize, TextOf, Aggregate;
  }

  lemma LinksKeepNodes(g: Fold, e: Event)
    ensures WithCorrelation(WithCausation(g, e), e).nodes == g.nodes
  {
    hide Added;
  }

  lemma NotesNodes(g: Fold, e: Event, m: Metadata)
    ensures WithMetadata(g, e, m).nodes == AnnotateNode(g.nodes, Aggregate(e), m)
  {
    hide Join;
  }

  lemma NamedNodes(g: Fold, e: Event, key: string, kind: string, edgeKind: string)
    ensures WithNamed(g, e, key, kind, edgeKind).nodes ==
            if TextOf(e, key) != "" then Ensured(g.nodes, kind, TextOf(e, key), e.sequence) else g.nodes
  {
    hide Ensured, Added, NodeId;
  }

  lemma AnnotateKeepsNames(nodes: Nodes, id: string, m: Metadata)
    ensures SameNames(nodes, AnnotateNode(nodes, id, m))
  {
  }

  ghost predicate NodesExact(sessionId: string, first: int, events: seq<Event>, nodes: Nodes) {
    HoldsNodes(nodes, p => NamedIn(sessionId, first, events, p))
  }

  lemma NamedOneMore(sessionId: string, first: int, events: seq<Event>, e: Event, p: Named)
    ensures NamedIn(sessionId, first, events + [e], p) <==>
            NamedIn(sessionId, first, events, p) || (p.sequence == e.sequence && Names(e, p.kind, p.ref))
  {
    var whole := events + [e];
    hide Names;
    if n :| 0 <= n < |events| && Names(events[n], p.kind, p.ref) && p.sequence == events[n].sequence {
      assert Names(whole[n], p.kind, p.ref) && p.sequence == whole[n].sequence;
    }
    assert whole[|events|] == e;
  }

  lemma BeforeHolds(nodes: Nodes, e: Event, named: Named -> bool, more: Named -> bool)
    requires HoldsNodes(nodes, named) && forall p :: named(p) ==> p.sequence <= e.sequence
    requires forall p :: more(p) <==>
               || named(p) || p == Named(e.aggregateKind, e.aggregateId, e.sequence)
               || (e.actorId != "" && p == Named("actor", e.actorId, e.sequence))
    ensures HoldsNodes(NodesBefore(nodes, e), more)
  {
    hide HoldsNodes, Ensured;
    ghost var own := (p: Named) => named(p) || p == Named(e.aggregateKind, e.aggregateId, e.sequence);
    EnsureHolds(nodes, named, true, e.aggregateKind, e.aggregateId, e.sequence, own);
    EnsureHolds(Ensured(nodes, e.aggregateKind, e.aggregateId, e.sequence), own, e.actorId != "", "actor", e.actorId,
        e.sequence, more);
  }

  lemma AfterHolds(nodes: Nodes, e: Event, named: Named -> bool, more: Named -> bool)
    requires HoldsNodes(nodes, named) && forall p :: named(p) ==> p.sequence <= e.sequence
    requires forall p :: more(p) <==>
               || named(p)
               || (TextOf(e, "workPackageId") != ""
                   && p == Named("work_package", TextOf(e, "workPackageId"), e.sequence))
               || (TextOf(e, "artifactId") != "" && p == Named("artifact", TextOf(e, "artifactId"), e.sequence))
    ensures HoldsNodes(NodesAfter(nodes, e), more)
  {
    hide HoldsNodes, Ensured, TextOf;
    var package, artifact := TextOf(e, "workPackageId"), TextOf(e, "artifactId");
    ghost var third := (p: Named) => named(p) || (package != "" && p == Named("work_package", package, e.sequence));
    EnsureHolds(nodes, named, package != "", "work_package", package, e.sequence, third);
    EnsureHolds(if package != "" then Ensured(nodes, "work_package", package, e.sequence) else nodes, third,
        artifact != "", "artifact", artifact, e.sequence, more);
  }

  lemma StepNodesExact(sessionId: string, first: int, f: Fold, events: seq<Event>, e: Event)
    requires StepEvent(NodeId("session", sessionId), f, e).Some? && NodesExact(sessionId, first, events, f.nodes)
    requires first <= e.sequence && forall x :: x in events ==> x.sequence <= e.sequence
    ensures NodesExact(sessionId, first, events + [e], StepEvent(NodeId("session", sessionId), f, e).value.nodes)
  {
    hide *;
    StepNodes(NodeId("session", sessionId), f, e);
    ghost var a := (p: Named) => NamedIn(sessionId, first, events, p);
    ghost var c := (p: Named) => NamedEarly(sessionId, first, events, e, p);
    ghost var all := (p: Named) => NamedIn(sessionId, first, events + [e], p);
    assert Normalize(e).Some?;
    var kept := NodesBefore(f.nodes, e);
    NodesExactIs(sessionId, first, events, f.nodes);
    NodesExactIs(sessionId, first, events + [e],
        NodesAfter(AnnotateNode(kept, Aggregate(e), Normalize(e).value), e));
    forall p
      ensures a(p) || c(p) ==> p.sequence <= e.sequence
      ensures c(p) <==> || a(p) || p == Named(e.aggregateKind, e.aggregateId, e.sequence)
                        || (e.actorId != "" && p == Named("actor", e.actorId, e.sequence))
      ensures all(p) <==>
        || c(p)
        || (TextOf(e, "workPackageId") != "" && p == Named("work_package", TextOf(e, "workPackageId"), e.sequence))
        || (TextOf(e, "artifactId") != "" && p == Named("artifact", TextOf(e, "artifactId"), e.sequence))
    {
      NamedStep(sessionId, first, events, e, p);
    }
    BeforeHolds(f.nodes, e, a, c);
    AnnotateKeepsNames(kept, Aggregate(e), Normalize(e).value);
    SameNamesHold(kept, AnnotateNode(kept, Aggregate(e), Normalize(e).value), c);
    AfterHolds(AnnotateNode(kept, Aggregate(e), Normalize(e).value), e, c, all);
  }

  lemma NodesExactIs(sessionId: string, first: int, events: seq<Event>, nodes: Nodes)
    ensures NodesExact(sessionId, first, events, nodes) <==>
            HoldsNodes(nodes, p => NamedIn(sessionId, first, events, p))
  {
  }

  /** Named before an event's payload is read. */
  ghost predicate NamedEarly(sessionId: string, first: int, events: seq<Event>, e: Event, p: Named) {
    || NamedIn(sessionId, first, events, p) || p == Named(e.aggregateKind, e.aggregateId, e.sequence)
    || (e.actorId != "" && p == Named("actor", e.actorId, e.sequence))
  }

  lemma NamedStep(sessionId: string, first: int, events: seq<Event>, e: Event, p: Named)
    requires first <= e.sequence && forall x :: x in events ==> x.sequence <= e.sequence
    ensures NamedEarly(sessionId, first, events, e, p) <==>
              || NamedIn(sessionId, first, events, p) || p == Named(e.aggregateKind, e.aggregateId, e.sequence)
              || (e.actorId != "" && p == Named("actor", e.actorId, e.sequence))
    ensures NamedEarly(sessionId, first, events, e, p) ==> p.sequence <= e.sequence
    ensures NamedIn(sessionId, first, events + [e], p) <==>
        || NamedEarly(sessionId, first, events, e, p)
        || (TextOf(e, "workPackageId") != "" && p == Named("work_package", TextOf(e, "workPackageId"), e.sequence))
        || (TextOf(e, "artifactId") != "" && p == Named("artifact", TextOf(e, "artifactId"), e.sequence))
  {
    assert NamedIn(sessionId, first, events, p) ==> p.sequence <= e.sequence;
    TextIs(e, "workPackageId");
    TextIs(e, "artifactId");
    NamedOneMore(sessionId, first, events, e, p);
    hide NamedIn, Says, TextOf;
  }

  lemma {:induction false} FoldNodesExact(sessionId: string, first: int, events: seq<Event>)
    requires FoldAll(sessionId, first, events).Some? && InOrder(events)
    requires events != [] ==> first <= events[0].sequence
    ensures NodesExact(sessionId, first, events, FoldAll(sessionId, first, events).value.nodes)
  {
    hide *;
    if events == [] {
      FoldNone(sessionId, first);
      StartNodes(sessionId, first);
    } else {
      var init, e := events[..|events| - 1], events[|events| - 1];
      FoldLast(sessionId, first, events);
      LastInOrder(first, events);
      FoldNodesExact(sessionId, first, init);
      StepNodesExact(sessionId, first, FoldAll(sessionId, first, init).value, init, e);
    }
  }

  lemma LastInOrder(first: int, events: seq<Event>)
    requires events != [] && InOrder(events) && first <= events[0].sequence
    ensures var init, e := events[..|events| - 1], events[|events| - 1];
            && InOrder(init) && (init != [] ==> first <= init[0].sequence) && first <= e.sequence
            && forall x :: x in init ==> x.sequence <= e.sequence
  {
  }

  lemma StartNodes(sessionId: string, first: int)
    ensures NodesExact(sessionId, first, [], FoldStart(sessionId, first).nodes)
  {
    ghost var named := (p: Named) => NamedIn(sessionId, first, [], p);
    assert named(Named("session", sessionId, first));
    assert forall p :: named(p) <==> p == Named("session", sessionId, first);
  }

  // ----- what is noted on a node

  /** The list an event carries under a key, or, without it, under its alias; without
      repetitions. */
  function ListOf(e: Event, key: string, alias: string): seq<string> {
    var found := if key in e.payload then e.payload[key] else if alias in e.payload then e.payload[alias] else Null;
    match found
    case Text(text) => if text == "" then [] else [text]
    case Texts(texts) => Dedup(texts)
    case _ => []
  }

  /** Repetitions go, the first occurrences stay in their order. */
  lemma {:induction false} DedupKeepsFirsts(values: seq<string>)
    ensures Distinct(Dedup(values)) && Elems(Dedup(values)) == Elems(values)
    ensures forall i, j :: 0 <= i < j < |Dedup(values)| ==> FirstBefore(values, Dedup(values)[i], Dedup(values)[j])
  {
    if values != [] {
      var init, last := values[..|values| - 1], values[|values| - 1];
      DedupKeepsFirsts(init);
      assert values == init + [last];
      assert last in Dedup(init) <==> last in Elems(Dedup(init));
      assert Elems(init + [last]) == Elems(init) + {last};
      hide Dedup;
      forall x, y | FirstBefore(init, x, y) ensures FirstBefore(values, x, y) {
        FirstStill(init, last, x, y);
      }
      if last !in Dedup(init) {
        assert Elems(Dedup(init) + [last]) == Elems(Dedup(init)) + {last};
        forall x | x in Dedup(init) ensures FirstBefore(values, x, last) {
          assert x in Elems(init) && last !in Elems(init);
          var a :| 0 <= a < |init| && init[a] == x;
          assert values[a] == x && forall b :: 0 <= b <= a ==> values[b] == init[b];
        }
      }
      DedupOneMore(init, last);
    }
  }

  lemma DedupOneMore(init: seq<string>, last: string)
    ensures Dedup(init + [last]) == if last in Dedup(init) then Dedup(init) else Dedup(init) + [last]
  {
    assert (init + [last])[..|init|] == init;
  }

  /** x occurs before any y does. */
  predicate FirstBefore(values: seq<string>, x: string, y: string) {
    exists a :: 0 <= a < |values| && values[a] == x && forall b :: 0 <= b <= a ==> values[b] != y
  }

  lemma FirstStill(init: seq<string>, last: string, x: string, y: string)
    requires FirstBefore(init, x, y)
    ensures FirstBefore(init + [last], x, y)
  {
    var a :| 0 <= a < |init| && init[a] == x && forall b :: 0 <= b <= a ==> init[b] != y;
    assert (init + [last])[a] == x && forall b :: 0 <= b <= a ==> (init + [last])[b] == init[b];
  }

  /** The list with commas between its parts. */
  function Commas(parts: seq<string>): string {
    if parts == [] then "" else if |parts| == 1 then parts[0] else parts[0] + "," + Commas(parts[1..])
  }

  lemma {:induction false} JoinIsCommas(parts: seq<string>)
    ensures Join(parts) == Commas(parts)
  {
    if |parts| > 1 {
      JoinIsCommas(parts[..|parts| - 1]);
      CommasSnoc(parts[..|parts| - 1], parts[|parts| - 1]);
      assert parts == parts[..|parts| - 1] + [parts[|parts| - 1]];
    }
  }

  lemma {:induction false} CommasSnoc(parts: seq<string>, last: string)
    requires parts != []
    ensures Commas(parts + [last]) == Commas(parts) + "," + last
  {
    if |parts| > 1 {
      CommasSnoc(parts[1..], last);
      assert (parts + [last])[1..] == parts[1..] + [last];
      assert parts[0] + "," + (Commas(parts[1..]) + "," + last) == (parts[0] + "," + Commas(parts[1..])) + "," + last;
    } else {
      assert (parts + [last])[1..] == [last];
    }
  }

  /** The i-th event is the last about node k that carries a list under the key. */
  predicate LastNoting(events: seq<Event>, k: string, key: string, alias: string, i: int) {
    && 0 <= i < |events| && About(events[i]) == k && ListOf(events[i], key, alias) != []
    && forall j :: i < j < |events| ==> About(events[j]) != k || ListOf(events[j], key, alias) == []
  }

  /** Under the key stands the last list noted, or nothing if none was. */
  ghost predicate NoteIs(events: seq<Event>, k: string, metadata: map<string, string>, key: string, alias: string) {
    if exists i :: LastNoting(events, k, key, alias, i) then
      key in metadata && exists i :: LastNoting(events, k, key, alias, i)
                                     && metadata[key] == Commas(ListOf(events[i], key, alias))
    else key !in metadata
  }

  ghost predicate NotesAre(events: seq<Event>, k: string, metadata: map<string, string>) {
    && metadata.Keys <= {"secondary_paths", "access_sequence"}
    && NoteIs(events, k, metadata, "secondary_paths", "secondaryPaths")
    && NoteIs(events, k, metadata, "access_sequence", "accessSequence")
  }

  ghost predicate NotesExact(events: seq<Event>, nodes: Nodes) {
    && (forall k :: k in nodes ==> NotesAre(events, k, nodes[k].metadata))
    && (forall e :: e in events ==> About(e) in nodes)
  }

  lemma NoteOneMore(events: seq<Event>, e: Event, k: string, before: map<string, string>, after: map<string, string>,
      key: string, alias: string)
    requires NoteIs(events, k, before, key, alias)
    requires if About(e) == k && ListOf(e, key, alias) != [] then key in after
             && after[key] == Commas(ListOf(e, key, alias))
             else (key in after <==> key in before) && (key in before ==> after[key] == before[key])
    ensures NoteIs(events + [e], k, after, key, alias)
  {
    var whole := events + [e];
    hide ListOf, Commas;
    if About(e) == k && ListOf(e, key, alias) != [] {
      assert LastNoting(whole, k, key, alias, |events|);
    } else {
      assert forall j :: 0 <= j < |events| ==> whole[j] == events[j];
      assert whole[|events|] == e;
      forall i
        ensures LastNoting(whole, k, key, alias, i) <==> LastNoting(events, k, key, alias, i)
        ensures LastNoting(events, k, key, alias, i) ==> 0 <= i < |events| && whole[i] == events[i]
      {
        LastStill(events, e, k, key, alias, i);
      }
      hide LastNoting;
    }
  }

  lemma LastStill(events: seq<Event>, e: Event, k: string, key: string, alias: string, i: int)
    requires About(e) != k || ListOf(e, key, alias) == []
    ensures LastNoting(events + [e], k, key, alias, i) <==> LastNoting(events, k, key, alias, i)
    ensures LastNoting(events, k, key, alias, i) ==> 0 <= i < |events| && (events + [e])[i] == events[i]
  {
    var whole := events + [e];
    hide ListOf;
    if LastNoting(events, k, key, alias, i) {
      forall j | i < j < |whole| ensures About(whole[j]) != k || ListOf(whole[j], key, alias) == [] {
        if j < |events| { assert whole[j] == events[j]; }
      }
    }
    if LastNoting(whole, k, key, alias, i) {
      assert i != |events|;
      forall j | i < j < |events| ensures About(events[j]) != k || ListOf(events[j], key, alias) == [] {
        assert whole[j] == events[j];
      }
    }
  }

  lemma NormalizeReads(e: Event)
    requires Normalize(e).Some?
    ensures Normalize(e).value.secondaryPaths == ListOf(e, "secondary_paths", "secondaryPaths")
    ensures Normalize(e).value.accessSequence == ListOf(e, "access_sequence", "accessSequence")
  {
  }

  /** What a step leaves noted on a node. */
  lemma StepNotes(session: string, f: Fold, e: Event, k: string)
    requires StepEvent(session, f, e).Some?
    ensures Normalize(e).Some?
    ensures var after := StepEvent(session, f, e).value.nodes;
            var before := MetadataOf(f.nodes, k);
            && About(e) in after && f.nodes.Keys <= after.Keys
            && MetadataOf(after, k) == if k == About(e) then Annotated(before, Normalize(e).value) else before
  {
    hide *;
    StepNodes(session, f, e);
    var kept, m := NodesBefore(f.nodes, e), Normalize(e).value;
    BeforeNotes(f.nodes, e, k);
    AnnotateNotes(kept, e, m, k);
    AfterNotes(AnnotateNode(kept, Aggregate(e), m), e, k);
  }

  lemma AnnotateNotes(nodes: Nodes, e: Event, m: Metadata, k: string)
    requires About(e) in nodes
    ensures AnnotateNode(nodes, Aggregate(e), m).Keys == nodes.Keys
    ensures MetadataOf(AnnotateNode(nodes, Aggregate(e), m), k) ==
            if k == About(e) then Annotated(MetadataOf(nodes, k), m) else MetadataOf(nodes, k)
  {
    hide Annotated;
  }

  function MetadataOf(nodes: Nodes, k: string): map<string, string> {
    if k in nodes then nodes[k].metadata else map[]
  }

  lemma BeforeNotes(nodes: Nodes, e: Event, k: string)
    ensures About(e) in NodesBefore(nodes, e) && nodes.Keys <= NodesBefore(nodes, e).Keys
    ensures MetadataOf(NodesBefore(nodes, e), k) == MetadataOf(nodes, k)
  {
  }

  lemma AfterNotes(nodes: Nodes, e: Event, k: string)
    ensures nodes.Keys <= NodesAfter(nodes, e).Keys
    ensures MetadataOf(NodesAfter(nodes, e), k) == MetadataOf(nodes, k)
  {
    hide TextOf;
  }

  lemma StepNotesExact(session: string, f: Fold, events: seq<Event>, e: Event)
    requires StepEvent(session, f, e).Some? && NotesExact(events, f.nodes)
    ensures NotesExact(events + [e], StepEvent(session, f, e).value.nodes)
  {
    var after := StepEvent(session, f, e).value.nodes;
    hide StepEvent, Normalize, NotesAre;
    forall k | k in after ensures NotesAre(events + [e], k, after[k].metadata) {
      StepNotes(session, f, e, k);
      if k !in f.nodes {
        FreshNotes(events, k);
      }
      NotesOneMore(events, e, k, MetadataOf(f.nodes, k), after[k].metadata);
    }
    StepNotes(session, f, e, About(e));
  }

  lemma FreshNotes(events: seq<Event>, k: string)
    requires forall e :: e in events ==> About(e) != k
    ensures NotesAre(events, k, map[])
  {
    assert forall i :: 0 <= i < |events| ==> events[i] in events;
  }

  lemma NotesOneMore(events: seq<Event>, e: Event, k: string, before: map<string, string>, after: map<string, string>)
    requires NotesAre(events, k, before) && Normalize(e).Some?
    requires after == if k == About(e) then Annotated(before, Normalize(e).value) else before
    ensures NotesAre(events + [e], k, after)
  {
    NormalizeReads(e);
    JoinIsCommas(ListOf(e, "secondary_paths", "secondaryPaths"));
    JoinIsCommas(ListOf(e, "access_sequence", "accessSequence"));
    assert "secondary_paths"[0] != "access_sequence"[0];
    hide ListOf, Commas, Join, Normalize, NoteIs;
    NoteOneMore(events, e, k, before, after, "secondary_paths", "secondaryPaths");
    NoteOneMore(events, e, k, before, after, "access_sequence", "accessSequence");
  }

  lemma {:induction false} FoldNotesExact(sessionId: string, first: int, events: seq<Event>)
    requires FoldAll(sessionId, first, events).Some?
    ensures NotesExact(events, FoldAll(sessionId, first, events).value.nodes)
  {
    hide *;
    if events != [] {
      var init, e := events[..|events| - 1], events[|events| - 1];
      FoldLast(sessionId, first, events);
      FoldNotesExact(sessionId, first, init);
      StepNotesExact(NodeId("session", sessionId), FoldAll(sessionId, first, init).value, init, e);
    } else {
      FoldNone(sessionId, first);
      StartNotes(sessionId, first);
    }
  }

  lemma StartNotes(sessionId: string, first: int)
    ensures NotesExact([], FoldStart(sessionId, first).nodes)
  {
    FreshNotes([], "session:" + sessionId);
  }

  // ----- the whole graph

  /** What a payload must not hold. */
  predicate Unreadable(e: Event, key: string, alias: string) {
    if key in e.payload then e.payload[key].Unusable? else alias in e.payload && e.payload[alias].Unusable?
  }

  predicate BadEvent(e: Event) {
    Unreadable(e, "secondary_paths", "secondaryPaths") || Unreadable(e, "access_sequence", "accessSequence")
  }

  lemma {:induction false} FoldFailsExactly(sessionId: string, first: int, events: seq<Event>)
    ensures FoldAll(sessionId, first, events).None? <==> exists e :: e in events && BadEvent(e)
  {
    hide *;
    if events == [] {
      FoldNone(sessionId, first);
    } else {
      var init, e := events[..|events| - 1], events[|events| - 1];
      FoldFailsExactly(sessionId, first, init);
      FailsLast(sessionId, first, events);
      forall x ensures x in events <==> x in init || x == e { assert events == init + [e]; }
    }
  }

  lemma FailsLast(sessionId: string, first: int, events: seq<Event>)
    requires events != []
    ensures FoldAll(sessionId, first, events).None? <==>
              FoldAll(sessionId, first, events[..|events| - 1]).None? || BadEvent(events[|events| - 1])
  {
    BadIsUnreadable(events[|events| - 1]);
    hide Normalize, BadEvent;
  }

  lemma BadIsUnreadable(e: Event)
    ensures Normalize(e).None? <==> BadEvent(e)
  {
  }

  /** The graph of a stream of valid events: exactly the nodes they name, exactly the
      edges they ask for, and on each node exactly the lists last noted. */
  ghost predicate IsGraphOf(sessionId: string, ordered: seq<Event>, g: Graph)
    requires ordered != []
  {
    && g.sessionId == sessionId
    && NodesExact(sessionId, ordered[0].sequence, ordered, g.nodes)
    && NotesExact(ordered, g.nodes)
    && EdgesAre(Ident("session", sessionId), ordered, g.edges)
  }

  /** The events in order of their sequence numbers. */
  ghost predicate IsInOrder(events: seq<Event>, ordered: seq<Event>) {
    && multiset(ordered) == multiset(events)
    && forall i, j :: 0 <= i < j < |ordered| ==> ordered[i].sequence <= ordered[j].sequence
  }

  /** Projecting fails exactly without a session, without events, or for metadata that
      cannot be read; otherwise it gives exactly the graph of the events in order. */
  lemma ProjectionIsExactly(sessionId: string, events: seq<Event>)
    requires forall e :: e in events ==> ValidEvent(e)
    ensures Projected(sessionId, events) == Err(InvalidSession) <==> sessionId == ""
    ensures Projected(sessionId, events) == Err(Empty) <==> sessionId != "" && events == []
    ensures Projected(sessionId, events) == Err(BadMetadata) <==>
            sessionId != "" && exists e :: e in events && BadEvent(e)
    ensures Projected(sessionId, events).Ok? ==>
            var ordered := Ordered(events);
            && ordered != [] && IsInOrder(events, ordered)
            && IsGraphOf(sessionId, ordered, Projected(sessionId, events).value)
    ensures Projected(sessionId, events).Err? ==> Projected(sessionId, events).error != OverBudget
  {
    if sessionId != "" && events != [] {
      var ordered := Ordered(events);
      OrderedInOrder(events);
      forall e ensures e in ordered <==> e in events {
        assert e in ordered <==> e in multiset(ordered);
        assert e in events <==> e in multiset(events);
      }
      FoldFailsExactly(sessionId, ordered[0].sequence, ordered);
      hide ValidEvent, BadEvent, FoldAll, Ordered, EdgesAre, NodesExact, NotesExact, EdgesExact;
      var f := FoldAll(sessionId, ordered[0].sequence, ordered);
      if f.Some? {
        FoldNodesExact(sessionId, ordered[0].sequence, ordered);
        FoldNotesExact(sessionId, ordered[0].sequence, ordered);
        FoldEdgesExact(sessionId, ordered[0].sequence, ordered);
        ExactMeans(Ident("session", sessionId), ordered, f.value.edges);
      }
    }
  }
}
