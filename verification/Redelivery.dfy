/**
 What a reader sees of ties and copies: which streams project, and replay, the
 same whatever the order of delivery and however often an event is delivered
 (visualizer/session/session.go, visualizer/replay/replay.go).
 */
module Redelivery {
  import opened Lex
  import opened Outcomes
  import opened Contracts
  import opened SessionProjection
  import opened ProjectionGuarantees
  import opened Replay

  // ----- frames and the order of delivery

  /** No two different events share an id. */
  ghost predicate IdsDetermine(events: seq<Event>) {
    forall e, f :: e in events && f in events && e.id == f.id ==> e == f
  }

  /** Lists of frames that are equal come from events folded in the same order. */
  lemma FramesTellOrder<P>(place: Graph -> P, sessionId: string, a: seq<Event>, b: seq<Event>)
    requires multiset(a) == multiset(b) && IdsDetermine(a)
    requires Frames(place, sessionId, a).Ok? && Frames(place, sessionId, a) == Frames(place, sessionId, b)
    ensures Ordered(a) == Ordered(b)
  {
    var x, y := Ordered(a), Ordered(b);
    SameLength(a, b);
    SameMembers(a, x);
    SameMembers(a, y);
    forall i | 0 <= i < |x| ensures x[i] == y[i] {
      FramesShow(place, sessionId, a, i);
      FramesShow(place, sessionId, b, i);
      hide Frames, Ordered, Projected;
      assert x[i] in x && y[i] in y;
    }
  }

  /** Every order of delivery gives the same frames. */
  ghost predicate FramesOrderFree<P(!new)>(place: Graph -> P, sessionId: string, events: seq<Event>) {
    forall other :: multiset(other) == multiset(events) ==>
      Frames(place, sessionId, other) == Frames(place, sessionId, events)
  }

  /** A replay is free of the order of delivery exactly when different events have
      different sequence numbers. */
  lemma FramesOrderFreeExactly<P(!new)>(place: Graph -> P, sessionId: string, events: seq<Event>)
    requires IdsDetermine(events) && Frames(place, sessionId, events).Ok?
    ensures FramesOrderFree(place, sessionId, events) <==> TiesAgree(events)
  {
    hide Frames, Ordered, TiesAgree;
    if TiesAgree(events) {
      forall other | multiset(other) == multiset(events)
        ensures Frames(place, sessionId, other) == Frames(place, sessionId, events)
      {
        FramesIgnoreDelivery(place, sessionId, events, other);
      }
    } else {
      TiedNotOrderFree(events);
      var other :| multiset(other) == multiset(events) && Ordered(other) != Ordered(events);
      if Frames(place, sessionId, other) == Frames(place, sessionId, events) {
        FramesTellOrder(place, sessionId, events, other);
      }
    }
  }

  // ----- a tied pair whose graphs differ

  /** A plain event: no correlation, nothing in the payload. */
  function Plain(id: string, sequence: int, aggregateId: string, causationId: string): Event {
    Event(id, sequence, "WORK_ACCEPTED", "issue", aggregateId, "ann", causationId, "", map[])
  }

  lemma PlainIsValid(id: string, sequence: int, aggregateId: string, causationId: string)
    requires IsIdentifier(id) && IsIdentifier(aggregateId) && sequence >= 0
    requires causationId == "" || IsIdentifier(causationId)
    ensures ValidEvent(Plain(id, sequence, aggregateId, causationId))
  {
    assert AGGREGATE_KINDS[5] == "issue";
    assert "ann"[0] == 'a' && "ann"[1] == 'n' && "ann"[2] == 'n';
  }

  ghost predicate HasCausation(edges: Edges) {
    exists k :: k in edges && edges[k].kind == "causation"
  }

  /** Only containment and access so far; their keys end in 's'. */
  ghost predicate OnlyPlain(edges: Edges) {
    forall k :: k in edges ==> edges[k].kind != "causation" && k != [] && k[|k| - 1] == 's'
  }

  lemma PlainStep(session: string, f: Fold, e: Event)
    requires e == Plain(e.id, e.sequence, e.aggregateId, e.causationId)
    ensures StepEvent(session, f, e) == Some(WithCausation(WithActor(WithAggregate(session, f, e), e), e))
  {
  }

  lemma KeyEnds(source: string, target: string)
    ensures EdgeKey(source, target, "contains") != [] && EdgeKey(source, target, "access") != []
    ensures EdgeKey(source, target, "causation") != []
    ensures EdgeKey(source, target, "contains")[|EdgeKey(source, target, "contains")| - 1] == 's'
    ensures EdgeKey(source, target, "access")[|EdgeKey(source, target, "access")| - 1] == 's'
    ensures EdgeKey(source, target, "causation")[|EdgeKey(source, target, "causation")| - 1] == 'n'
  {
    assert "contains"[7] == 's' && "access"[5] == 's' && "causation"[8] == 'n';
  }

  lemma AddsPlain(edges: Edges, source: string, target: string, kind: string, seqNo: int)
    requires OnlyPlain(edges) && (kind == "contains" || kind == "access")
    ensures OnlyPlain(Added(edges, source, target, kind, seqNo))
  {
    var key := EdgeKey(source, target, kind);
    KindsDiffer();
    KeyEnds(source, target);
    var after := Added(edges, source, target, kind, seqNo);
    hide EdgeKey;
    forall k | k in after ensures after[k].kind != "causation" && k != [] && k[|k| - 1] == 's' {
      if k != key { assert k in edges && after[k] == edges[k]; }
    }
  }

  lemma KindsDiffer()
    ensures "contains" != "causation" && "access" != "causation"
  {
    assert "contains"[1] == 'o' && "access"[1] == 'c' && "causation"[1] == 'a';
  }

  lemma AggregatePlain(session: string, f: Fold, e: Event)
    requires OnlyPlain(f.edges)
    ensures OnlyPlain(WithAggregate(session, f, e).edges)
  {
    AddsPlain(f.edges, session, Aggregate(e), "contains", e.sequence);
    hide Aggregate, Added, OnlyPlain;
  }

  lemma ActorPlain(f: Fold, e: Event)
    requires OnlyPlain(f.edges)
    ensures OnlyPlain(WithActor(f, e).edges) && WithActor(f, e).byEventId == f.byEventId
  {
    AddsPlain(f.edges, NodeId("actor", e.actorId), Aggregate(e), "access", e.sequence);
    hide Aggregate, Added, OnlyPlain, NodeId;
  }

  lemma BeforeCausation(session: string, f: Fold, e: Event)
    requires OnlyPlain(f.edges)
    ensures OnlyPlain(WithActor(WithAggregate(session, f, e), e).edges)
    ensures WithActor(WithAggregate(session, f, e), e).byEventId == f.byEventId[e.id := Aggregate(e)]
  {
    AggregatePlain(session, f, e);
    ActorPlain(WithAggregate(session, f, e), e);
    hide WithActor, OnlyPlain, Aggregate;
  }

  lemma CausationShows(linked: Fold, f: Event)
    requires OnlyPlain(linked.edges)
    ensures HasCausation(WithCausation(linked, f).edges) <==>
            f.causationId != "" && f.causationId in linked.byEventId && linked.byEventId[f.causationId] != Aggregate(f)
    ensures !HasCausation(WithCausation(linked, f).edges) ==> WithCausation(linked, f) == linked
  {
    if f.causationId != "" && f.causationId in linked.byEventId && linked.byEventId[f.causationId] != Aggregate(f) {
      var key := EdgeKey(linked.byEventId[f.causationId], Aggregate(f), "causation");
      KeyEnds(linked.byEventId[f.causationId], Aggregate(f));
      assert WithCausation(linked, f).edges[key].kind == "causation";
    }
  }

  /** A plain event folded while there are no causation edges. */
  lemma PlainFolded(session: string, f: Fold, e: Event)
    requires e == Plain(e.id, e.sequence, e.aggregateId, e.causationId) && OnlyPlain(f.edges)
    ensures StepEvent(session, f, e).Some?
    ensures var g := StepEvent(session, f, e).value;
            var known := f.byEventId[e.id := Aggregate(e)];
            && g.byEventId == known
            && (HasCausation(g.edges) <==>
                e.causationId != "" && e.causationId in known && known[e.causationId] != Aggregate(e))
            && (!HasCausation(g.edges) ==> OnlyPlain(g.edges))
  {
    PlainStep(session, f, e);
    BeforeCausation(session, f, e);
    CausationShows(WithActor(WithAggregate(session, f, e), e), e);
    hide WithActor, WithAggregate, Aggregate, StepEvent, HasCausation, OnlyPlain;
  }

  /** Two plain events folded one after the other. */
  lemma PairCausation(sessionId: string, first: int, e: Event, f: Event)
    requires e == Plain(e.id, e.sequence, e.aggregateId, e.causationId)
    requires f == Plain(f.id, f.sequence, f.aggregateId, f.causationId) && f.causationId != f.id
    requires e.causationId == "" || e.causationId == f.id != e.id
    ensures FoldAll(sessionId, first, [e, f]).Some?
    ensures HasCausation(FoldAll(sessionId, first, [e, f]).value.edges) <==>
            f.causationId != "" && f.causationId == e.id && Aggregate(e) != Aggregate(f)
  {
    var session := NodeId("session", sessionId);
    var start := FoldStart(sessionId, first);
    PlainFolded(session, start, e);
    var one := StepEvent(session, start, e).value;
    assert one.byEventId == map[e.id := Aggregate(e)];
    assert e.id in one.byEventId && one.byEventId[e.id] == Aggregate(e);
    assert f.causationId in one.byEventId <==> f.causationId == e.id;
    hide Aggregate, StepEvent, HasCausation, NodeId, OnlyPlain, FoldStart, Plain, FoldAll;
    PlainFolded(session, one, f);
    FoldTwo(sessionId, first, e, f);
  }

  lemma FoldTwo(sessionId: string, first: int, e: Event, f: Event)
    requires StepEvent(NodeId("session", sessionId), FoldStart(sessionId, first), e).Some?
    ensures FoldAll(sessionId, first, [e, f]) ==
              StepEvent(NodeId("session", sessionId),
                  StepEvent(NodeId("session", sessionId), FoldStart(sessionId, first), e).value, f)
  {
    hide StepEvent, NodeId, FoldStart;
    assert [e, f][..1] == [e] && [e][..0] == [];
    assert FoldAll(sessionId, first, [e]) == StepEvent(NodeId("session", sessionId), FoldStart(sessionId, first), e);
  }

  /** Delivery order shows: of two valid events with one sequence number, one the
      cause of the other, the graph has the causation edge exactly when the cause is
      delivered first. */
  lemma TiedCauseShowsDelivery(sessionId: string, e: Event, f: Event)
    requires sessionId != "" && e.sequence == f.sequence && e.id != f.id && e.aggregateId != f.aggregateId
    requires e == Plain(e.id, e.sequence, e.aggregateId, "") && f == Plain(f.id, f.sequence, f.aggregateId, e.id)
    requires ValidEvent(e) && ValidEvent(f)
    ensures multiset([e, f]) == multiset([f, e])
    ensures Projected(sessionId, [e, f]).Ok? && Projected(sessionId, [f, e]).Ok?
    ensures HasCausation(Projected(sessionId, [e, f]).value.edges)
    ensures !HasCausation(Projected(sessionId, [f, e]).value.edges)
  {
    OrderedStable([e, f]);
    OrderedStable([f, e]);
    AggregatesDiffer(e, f);
    PairCausation(sessionId, e.sequence, e, f);
    PairCausation(sessionId, e.sequence, f, e);
    hide FoldAll, HasCausation, Ordered;
  }

  lemma AggregatesDiffer(e: Event, f: Event)
    requires e.aggregateKind == f.aggregateKind && e.aggregateId != f.aggregateId
    ensures Aggregate(e) != Aggregate(f)
  {
    var kind := e.aggregateKind + ":";
    assert Aggregate(e)[|kind|..] == e.aggregateId && Aggregate(f)[|kind|..] == f.aggregateId;
  }

  /** There are such events: two issues, one accepted because of the other. */
  lemma TiedCausesExist()
    ensures var e, f := Plain("e1", 7, "i1", ""), Plain("e2", 7, "i2", "e1");
            ValidEvent(e) && ValidEvent(f) && e.id != f.id && e.aggregateId != f.aggregateId
  {
    ShortIdentifier("e1", 'e', '1');
    ShortIdentifier("e2", 'e', '2');
    ShortIdentifier("i1", 'i', '1');
    ShortIdentifier("i2", 'i', '2');
    PlainIsValid("e1", 7, "i1", "");
    PlainIsValid("e2", 7, "i2", "e1");
    assert "e1"[1] != "e2"[1] && "i1"[1] != "i2"[1];
  }

  lemma ShortIdentifier(s: string, a: char, b: char)
    requires s == [a, b] && IsAlphanumeric(a) && IsAlphanumeric(b)
    ensures IsIdentifier(s)
  {
  }

  // ----- copies

  ghost predicate EdgeThere(edges: Edges, source: string, target: string, kind: string, seqNo: int) {
    var key := EdgeKey(source, target, kind);
    key in edges && edges[key].sequence <= seqNo
  }

  /** What each part of a step leaves, so that doing the part again changes nothing. */
  ghost predicate AggregateDone(session: string, f: Fold, e: Event) {
    && Aggregate(e) in f.nodes
    && (Aggregate(e) == session || EdgeThere(f.edges, session, Aggregate(e), "contains", e.sequence))
    && e.id in f.byEventId && f.byEventId[e.id] == Aggregate(e)
  }

  ghost predicate ActorDone(f: Fold, e: Event) {
    e.actorId == "" ||
    (NodeId("actor", e.actorId) in f.nodes
        && EdgeThere(f.edges, NodeId("actor", e.actorId), Aggregate(e), "access", e.sequence))
  }

  ghost predicate CausationDone(f: Fold, e: Event) {
    e.causationId == "" || e.causationId !in f.byEventId || f.byEventId[e.causationId] == Aggregate(e) ||
    EdgeThere(f.edges, f.byEventId[e.causationId], Aggregate(e), "causation", e.sequence)
  }

  ghost predicate CorrelationDone(f: Fold, e: Event) {
    e.correlationId == "" ||
    (e.correlationId in f.firstByCorrelation &&
     (f.firstByCorrelation[e.correlationId] == Aggregate(e) ||
      EdgeThere(f.edges, f.firstByCorrelation[e.correlationId], Aggregate(e), "correlation", e.sequence)))
  }

  ghost predicate MetadataDone(f: Fold, e: Event, m: Metadata) {
    Aggregate(e) in f.nodes && Annotated(f.nodes[Aggregate(e)].metadata, m) == f.nodes[Aggregate(e)].metadata
  }

  ghost predicate NamedDone(f: Fold, e: Event, key: string, kind: string, edgeKind: string) {
    var ref := PayloadString(e.payload, key);
    ref.None? ||
    (NodeId(kind, ref.value) in f.nodes &&
     (NodeId(kind, ref.value) == Aggregate(e)
         || EdgeThere(f.edges, Aggregate(e), NodeId(kind, ref.value), edgeKind, e.sequence)))
  }

  /** From f to g links are kept, and nodes and edges only added. */
  ghost predicate Further(f: Fold, g: Fold) {
    && f.nodes.Keys <= g.nodes.Keys
    && (forall k :: k in f.edges ==> k in g.edges && g.edges[k] == f.edges[k])
    && g.byEventId == f.byEventId && g.firstByCorrelation == f.firstByCorrelation
  }

  lemma FurtherTransitive(f: Fold, g: Fold, h: Fold)
    requires Further(f, g) && Further(g, h)
    ensures Further(f, h)
  {
  }

  lemma DoneFurther(session: string, f: Fold, g: Fold, e: Event)
    requires Further(f, g)
    ensures AggregateDone(session, f, e) ==> AggregateDone(session, g, e)
    ensures ActorDone(f, e) ==> ActorDone(g, e)
    ensures CausationDone(f, e) ==> CausationDone(g, e)
    ensures CorrelationDone(f, e) ==> CorrelationDone(g, e)
  {
    hide Aggregate, EdgeKey, NodeId;
  }

  lemma NamedFurther(f: Fold, g: Fold, e: Event, key: string, kind: string, edgeKind: string)
    requires Further(f, g) && NamedDone(f, e, key, kind, edgeKind)
    ensures NamedDone(g, e, key, kind, edgeKind)
  {
    hide Aggregate, EdgeKey, NodeId, PayloadString;
  }

  ghost predicate AllDone(session: string, f: Fold, e: Event, m: Metadata) {
    && AggregateDone(session, f, e) && ActorDone(f, e) && CausationDone(f, e) && CorrelationDone(f, e)
    && MetadataDone(f, e, m)
    && NamedDone(f, e, "workPackageId", "work_package", "assigns")
    && NamedDone(f, e, "artifactId", "artifact", "produces")
  }

  /** A fold in which everything of an event is done is not changed by its copy. */
  lemma CopyChangesNothing(session: string, f: Fold, e: Event, m: Metadata)
    requires Normalize(e) == Some(m) && AllDone(session, f, e, m)
    ensures StepEvent(session, f, e) == Some(f)
  {
    LinksAgain(session, f, e);
    MetadataAgain(f, e, m);
    NamedAgain(f, e, "workPackageId", "work_package", "assigns");
    NamedAgain(f, e, "artifactId", "artifact", "produces");
    hide WithAggregate, WithActor, WithCausation, WithCorrelation, WithMetadata, WithNamed, Normalize, AllDone;
  }

  lemma LinksAgain(session: string, f: Fold, e: Event)
    requires AggregateDone(session, f, e) && ActorDone(f, e) && CausationDone(f, e) && CorrelationDone(f, e)
    ensures WithCorrelation(WithCausation(WithActor(WithAggregate(session, f, e), e), e), e) == f
  {
    hide EdgeKey, NodeId;
    assert f.byEventId[e.id := Aggregate(e)] == f.byEventId;
    assert WithAggregate(session, f, e) == f;
    assert WithActor(f, e) == f;
    assert WithCausation(f, e) == f;
    assert WithCorrelation(f, e) == f;
  }

  lemma MetadataAgain(f: Fold, e: Event, m: Metadata)
    requires MetadataDone(f, e, m)
    ensures WithMetadata(f, e, m) == f
  {
    hide Annotated, Aggregate;
    var n := f.nodes[Aggregate(e)];
    assert f.nodes[Aggregate(e) := n] == f.nodes;
  }

  lemma NamedAgain(f: Fold, e: Event, key: string, kind: string, edgeKind: string)
    requires NamedDone(f, e, key, kind, edgeKind)
    ensures WithNamed(f, e, key, kind, edgeKind) == f
  {
    hide Aggregate, EdgeKey, NodeId, PayloadString;
  }

  // ----- what a step leaves done

  lemma AggregateLeaves(session: string, f: Fold, e: Event)
    requires NoYounger(f, e.sequence)
    ensures AggregateDone(session, WithAggregate(session, f, e), e)
  {
    hide EdgeKey, NodeId;
  }

  lemma ActorLeaves(f: Fold, e: Event)
    requires NoYounger(f, e.sequence)
    ensures ActorDone(WithActor(f, e), e) && Further(f, WithActor(f, e))
  {
    hide EdgeKey, NodeId, Aggregate;
  }

  lemma CausationLeaves(f: Fold, e: Event)
    requires NoYounger(f, e.sequence)
    ensures CausationDone(WithCausation(f, e), e) && Further(f, WithCausation(f, e))
  {
    hide EdgeKey, NodeId, Aggregate;
  }

  lemma CorrelationLeaves(f: Fold, e: Event)
    requires NoYounger(f, e.sequence)
    ensures CorrelationDone(WithCorrelation(f, e), e)
    ensures Further(f, WithCorrelation(f, e).(firstByCorrelation := f.firstByCorrelation))
  {
    hide EdgeKey, NodeId, Aggregate;
  }

  lemma AnnotatedTwice(metadata: map<string, string>, m: Metadata)
    ensures Annotated(Annotated(metadata, m), m) == Annotated(metadata, m)
  {
    assert "secondary_paths"[0] != "access_sequence"[0];
    hide Join;
  }

  lemma MetadataLeaves(f: Fold, e: Event, m: Metadata)
    requires Aggregate(e) in f.nodes
    ensures MetadataDone(WithMetadata(f, e, m), e, m) && Further(f, WithMetadata(f, e, m))
  {
    AnnotatedTwice(f.nodes[Aggregate(e)].metadata, m);
    if m.secondaryPaths == [] && m.accessSequence == [] {
      assert Annotated(f.nodes[Aggregate(e)].metadata, m) == f.nodes[Aggregate(e)].metadata;
    }
    hide Annotated, Aggregate;
  }

  lemma NamedLeaves(f: Fold, e: Event, key: string, kind: string, edgeKind: string)
    requires NoYounger(f, e.sequence)
    ensures NamedDone(WithNamed(f, e, key, kind, edgeKind), e, key, kind, edgeKind)
    ensures Further(f, WithNamed(f, e, key, kind, edgeKind))
    ensures forall n :: n in f.nodes ==> WithNamed(f, e, key, kind, edgeKind).nodes[n] == f.nodes[n]
  {
    hide EdgeKey, NodeId, Aggregate, PayloadString;
  }

  /** After the links. */
  lemma LinksLeave(session: string, f: Fold, e: Event)
    requires Linked(session, f) && NoYounger(f, e.sequence)
    ensures var c := WithCorrelation(WithCausation(WithActor(WithAggregate(session, f, e), e), e), e);
            && AggregateDone(session, c, e) && ActorDone(c, e) && CausationDone(c, e) && CorrelationDone(c, e)
            && Linked(session, c) && NoYounger(c, e.sequence)
  {
    AggregateKeeps(session, f, e);
    AggregateLeaves(session, f, e);
    var a := WithAggregate(session, f, e);
    ActorKeeps(session, a, e);
    ActorLeaves(a, e);
    var b := WithActor(a, e);
    CausationKeeps(session, b, e);
    CausationLeaves(b, e);
    var b2 := WithCausation(b, e);
    CorrelationKeeps(session, b2, e);
    CorrelationLeaves(b2, e);
    var c := WithCorrelation(b2, e);
    hide *;
    LinksStay(session, a, b, b2, c, e);
  }

  lemma LinksStay(session: string, a: Fold, b: Fold, b2: Fold, c: Fold, e: Event)
    requires AggregateDone(session, a, e) && Further(a, b) && ActorDone(b, e)
    requires Further(b, b2) && CausationDone(b2, e) && Further(b2, c.(firstByCorrelation := b2.firstByCorrelation))
    ensures AggregateDone(session, c, e) && ActorDone(c, e) && CausationDone(c, e)
  {
    var c1 := c.(firstByCorrelation := b2.firstByCorrelation);
    DoneFurther(session, a, b, e);
    DoneFurther(session, b, b2, e);
    DoneFurther(session, b2, c1, e);
    hide EdgeThere, Further, Aggregate;
  }

  lemma StepLeavesDone(session: string, f: Fold, e: Event, m: Metadata)
    requires Linked(session, f) && NoYounger(f, e.sequence) && Normalize(e) == Some(m)
    ensures StepEvent(session, f, e).Some? && AllDone(session, StepEvent(session, f, e).value, e, m)
  {
    var c := WithCorrelation(WithCausation(WithActor(WithAggregate(session, f, e), e), e), e);
    LinksLeave(session, f, e);
    assert Aggregate(e) in c.nodes;
    MetadataLeaves(c, e, m);
    MetadataKeeps(session, c, e, m);
    var d := WithMetadata(c, e, m);
    NamedLeaves(d, e, "workPackageId", "work_package", "assigns");
    NamedKeeps(session, d, e, "workPackageId", "work_package", "assigns");
    var g := WithNamed(d, e, "workPackageId", "work_package", "assigns");
    NamedLeaves(g, e, "artifactId", "artifact", "produces");
    var h := WithNamed(g, e, "artifactId", "artifact", "produces");
    assert StepEvent(session, f, e) == Some(h);
    hide *;
    NotesStay(session, c, d, g, h, e, m);
  }

  lemma NotesStay(session: string, c: Fold, d: Fold, g: Fold, h: Fold, e: Event, m: Metadata)
    requires AggregateDone(session, c, e) && ActorDone(c, e) && CausationDone(c, e) && CorrelationDone(c, e)
    requires Further(c, d) && MetadataDone(d, e, m)
    requires Further(d, g) && NamedDone(g, e, "workPackageId", "work_package", "assigns")
    requires Further(g, h) && NamedDone(h, e, "artifactId", "artifact", "produces")
    requires Aggregate(e) in g.nodes && g.nodes[Aggregate(e)] == d.nodes[Aggregate(e)]
    requires Aggregate(e) in h.nodes && h.nodes[Aggregate(e)] == g.nodes[Aggregate(e)]
    ensures AllDone(session, h, e, m)
  {
    FurtherTransitive(c, d, g);
    FurtherTransitive(c, g, h);
    DoneFurther(session, c, h, e);
    NamedFurther(g, h, e, "workPackageId", "work_package", "assigns");
    hide Further, AggregateDone, ActorDone, CausationDone, CorrelationDone, NamedDone, Annotated;
  }

  /** Folding an event again at once changes nothing. */
  lemma StepTwice(session: string, f: Fold, e: Event)
    requires Linked(session, f) && NoYounger(f, e.sequence) && StepEvent(session, f, e).Some?
    ensures StepEvent(session, StepEvent(session, f, e).value, e) == StepEvent(session, f, e)
  {
    var m := Normalize(e).value;
    StepLeavesDone(session, f, e, m);
    CopyChangesNothing(session, StepEvent(session, f, e).value, e, m);
  }

  // ----- streams with copies

  /** Copies next to each other taken out. */
  function Thin(events: seq<Event>): seq<Event> {
    if events == [] then []
    else
      var init, last := events[..|events| - 1], events[|events| - 1];
      if init != [] && init[|init| - 1] == last then Thin(init) else Thin(init) + [last]
  }

  lemma {:induction false} ThinEnds(events: seq<Event>)
    requires events != []
    ensures Thin(events) != [] && Thin(events)[|Thin(events)| - 1] == events[|events| - 1]
            && Thin(events)[0] == events[0]
    ensures forall e :: e in Thin(events) <==> e in events
  {
    var init, last := events[..|events| - 1], events[|events| - 1];
    assert events == init + [last];
    if init != [] {
      ThinEnds(init);
    }
  }

  lemma {:induction false} FoldThin(sessionId: string, first: int, events: seq<Event>)
    requires InOrder(events)
    ensures FoldAll(sessionId, first, events) == FoldAll(sessionId, first, Thin(events))
  {
    if events != [] {
      var init, last := events[..|events| - 1], events[|events| - 1];
      FoldThin(sessionId, first, init);
      hide InOrder, StepEvent;
      if init != [] && init[|init| - 1] == last {
        if FoldAll(sessionId, first, init).Some? {
          LastTwice(sessionId, first, init);
        }
      } else {
        assert (Thin(init) + [last])[..|Thin(init)|] == Thin(init);
      }
    }
  }

  lemma LastTwice(sessionId: string, first: int, init: seq<Event>)
    requires InOrder(init) && init != [] && FoldAll(sessionId, first, init).Some?
    ensures StepEvent(NodeId("session", sessionId), FoldAll(sessionId, first, init).value, init[|init| - 1]) ==
            FoldAll(sessionId, first, init)
  {
    var before, last := init[..|init| - 1], init[|init| - 1];
    FoldKeeps(sessionId, first, before);
    var f := FoldAll(sessionId, first, before).value;
    assert NoYounger(f, last.sequence) by {
      if before != [] { assert before[|before| - 1].sequence <= last.sequence; }
    }
    StepTwice(NodeId("session", sessionId), f, last);
  }

  ghost predicate Rising(events: seq<Event>) {
    forall i, j :: 0 <= i < j < |events| ==> events[i].sequence < events[j].sequence
  }

  lemma {:induction false} ThinRises(events: seq<Event>)
    requires InOrder(events) && TiesAgree(events)
    ensures Rising(Thin(events))
  {
    if events != [] {
      var init, last := events[..|events| - 1], events[|events| - 1];
      LastFacts(events);
      hide InOrder, TiesAgree, Rising;
      ThinRises(init);
      if init == [] || init[|init| - 1] != last {
        if init != [] { ThinEnds(init); }
        RisesOn(Thin(init), last);
      }
    }
  }

  lemma LastFacts(events: seq<Event>)
    requires InOrder(events) && TiesAgree(events) && events != []
    ensures InOrder(events[..|events| - 1]) && TiesAgree(events[..|events| - 1])
    ensures |events| > 1 ==>
              events[|events| - 2] == events[|events| - 1]
                  || events[|events| - 2].sequence < events[|events| - 1].sequence
  {
    PrefixTies(events, |events| - 1);
    if |events| > 1 {
      assert events[|events| - 2] in events && events[|events| - 1] in events;
    }
  }

  lemma RisesOn(events: seq<Event>, last: Event)
    requires Rising(events) && (events != [] ==> events[|events| - 1].sequence < last.sequence)
    ensures Rising(events + [last])
  {
  }

  lemma {:induction false} RisingUnique(a: seq<Event>, b: seq<Event>)
    requires Rising(a) && Rising(b) && forall e :: e in a <==> e in b
    ensures a == b
  {
    SameEmpty(a, b);
    if a != [] {
      SameLast(a, b);
      var a1, b1 := a[..|a| - 1], b[..|b| - 1];
      assert a == a1 + [a[|a| - 1]] && b == b1 + [b[|b| - 1]];
      forall e ensures e in a1 <==> e in b1 {
        assert e in a1 <==> e in a && e != a[|a| - 1];
        assert e in b1 <==> e in b && e != b[|b| - 1];
      }
      RisingUnique(a1, b1);
    }
  }

  lemma NoMembers(a: seq<Event>)
    ensures a == [] <==> forall e :: e !in a
  {
    if a != [] { assert a[0] in a; }
  }

  lemma SameEmpty(a: seq<Event>, b: seq<Event>)
    requires forall e :: e in a <==> e in b
    ensures a == [] <==> b == []
  {
    NoMembers(a);
    NoMembers(b);
  }

  lemma SameLast(a: seq<Event>, b: seq<Event>)
    requires Rising(a) && Rising(b) && (forall e :: e in a <==> e in b) && a != [] && b != []
    ensures a[|a| - 1] == b[|b| - 1]
  {
    var x, y := a[|a| - 1], b[|b| - 1];
    assert x in b && y in a;
    var i :| 0 <= i < |a| && a[i] == y;
    var j :| 0 <= j < |b| && b[j] == x;
    assert x.sequence <= y.sequence && y.sequence <= x.sequence;
  }

  /** Ordered streams of the same events fold the same. */
  lemma FoldIsOfTheSet(sessionId: string, x: seq<Event>, y: seq<Event>)
    requires InOrder(x) && InOrder(y) && TiesAgree(x) && TiesAgree(y) && x != [] && y != []
    requires forall e :: e in x <==> e in y
    ensures x[0] == y[0] && FoldAll(sessionId, x[0].sequence, x) == FoldAll(sessionId, y[0].sequence, y)
  {
    ThinEnds(x);
    ThinEnds(y);
    ThinRises(x);
    ThinRises(y);
    FoldThin(sessionId, x[0].sequence, x);
    FoldThin(sessionId, y[0].sequence, y);
    hide Thin, FoldAll, InOrder, TiesAgree, Rising;
    RisingUnique(Thin(x), Thin(y));
  }

  /** The projection depends only on which events were delivered: not on their
      order, and not on how often each was. */
  lemma ProjectionIsOfTheSet(sessionId: string, a: seq<Event>, b: seq<Event>)
    requires TiesAgree(a) && forall e :: e in a <==> e in b
    ensures Projected(sessionId, a) == Projected(sessionId, b)
  {
    var x, y := Ordered(a), Ordered(b);
    OrderedInOrder(a);
    OrderedInOrder(b);
    SameMembers(a, x);
    SameMembers(b, y);
    SameTies(a, y);
    SameEmpty(a, b);
    hide Ordered, FoldAll, InOrder, TiesAgree;
    if a != [] {
      FoldIsOfTheSet(sessionId, x, y);
    }
  }

  lemma SameTies(a: seq<Event>, b: seq<Event>)
    requires TiesAgree(a) && forall e :: e in a <==> e in b
    ensures TiesAgree(b)
  {
  }

  // ----- time travel

  /** Events up to a sequence number. */
  function Until(events: seq<Event>, sequence: int): seq<Event> {
    if events == [] then []
    else
      var rest := Until(events[..|events| - 1], sequence);
      if events[|events| - 1].sequence <= sequence then rest + [events[|events| - 1]] else rest
  }

  lemma {:induction false} UntilMembers(events: seq<Event>, sequence: int, e: Event)
    ensures e in Until(events, sequence) <==> e in events && e.sequence <= sequence
  {
    if events != [] {
      UntilMembers(events[..|events| - 1], sequence, e);
      assert events == events[..|events| - 1] + [events[|events| - 1]];
    }
  }

  lemma PrefixMembers(ordered: seq<Event>, i: nat, e: Event)
    requires InOrder(ordered) && TiesAgree(ordered) && i < |ordered|
    ensures e in ordered[..i + 1] <==> e in ordered && e.sequence <= ordered[i].sequence
  {
    if e in ordered && e.sequence <= ordered[i].sequence {
      var j :| 0 <= j < |ordered| && ordered[j] == e;
      assert ordered[i] in ordered;
      if j > i {
        assert e == ordered[i];
      }
      assert ordered[..i + 1][if j > i then i else j] == e;
    }
    if e in ordered[..i + 1] {
      var j :| 0 <= j < i + 1 && ordered[..i + 1][j] == e;
      assert ordered[j] == e && (j < i ==> ordered[j].sequence <= ordered[i].sequence);
    }
  }

  /** Time travel: the frame at a sequence number shows what was, or would have
      been, projected live from just the events up to it. */
  lemma FrameShowsThePast<P>(place: Graph -> P, sessionId: string, events: seq<Event>, i: nat)
    requires TiesAgree(events) && Frames(place, sessionId, events).Ok? && i < |events|
    ensures |Frames(place, sessionId, events).value| == |events|
    ensures var frame := Frames(place, sessionId, events).value[i];
            Projected(sessionId, Until(events, frame.sequence)) == Ok(frame.graph)
  {
    var ordered := Ordered(events);
    OrderedInOrder(events);
    SameMembers(events, ordered);
    FramesShow(place, sessionId, events, i);
    var s := ordered[i].sequence;
    hide Frames, Ordered, Until, Projected, InOrder;
    forall e ensures e in ordered[..i + 1] <==> e in Until(events, s) {
      UntilMembers(events, s, e);
      PrefixMembers(ordered, i, e);
    }
    assert TiesAgree(ordered[..i + 1]) by { PrefixTies(ordered, i + 1); }
    hide TiesAgree;
    ProjectionIsOfTheSet(sessionId, ordered[..i + 1], Until(events, s));
  }

  lemma PrefixTies(events: seq<Event>, n: nat)
    requires TiesAgree(events) && n <= |events|
    ensures TiesAgree(events[..n])
  {
    assert forall e :: e in events[..n] ==> e in events;
  }
}
