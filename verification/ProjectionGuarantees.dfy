/**
 What the projection guarantees: the order of delivery does not matter, edges
 join existing nodes, the graph only grows, and self-loops have one exact cause.
 */
module ProjectionGuarantees {
  import opened Lex
  import opened Outcomes
  import opened Contracts
  import opened SessionProjection

  // ----- order of delivery

  lemma {:induction false} InOrderUnique(a: seq<Event>, b: seq<Event>)
    requires InOrder(a) && InOrder(b) && TiesAgree(a)
    requires multiset(a) == multiset(b)
    ensures a == b
  {
    SameLength(a, b);
    if a != [] {
      FirstIsLeast(a, b);
      TailsAgree(a, b);
      TailInOrder(a);
      TailInOrder(b);
      hide InOrder, TiesAgree;
      InOrderUnique(a[1..], b[1..]);
      assert a == [a[0]] + a[1..] && b == [b[0]] + b[1..];
    }
  }

  lemma SameLength(a: seq<Event>, b: seq<Event>)
    requires multiset(a) == multiset(b)
    ensures |a| == |b|
  {
    assert |multiset(a)| == |a| && |multiset(b)| == |b|;
  }

  lemma TailsAgree(a: seq<Event>, b: seq<Event>)
    requires multiset(a) == multiset(b) && a != [] && b != [] && a[0] == b[0]
    ensures multiset(a[1..]) == multiset(b[1..])
  {
    assert a == [a[0]] + a[1..] && b == [b[0]] + b[1..];
    assert multiset(a[1..]) == multiset(a) - multiset{a[0]};
    assert multiset(b[1..]) == multiset(b) - multiset{b[0]};
  }

  lemma TailInOrder(a: seq<Event>)
    requires InOrder(a) && a != []
    ensures InOrder(a[1..]) && (TiesAgree(a) ==> TiesAgree(a[1..]))
  {
  }

  lemma FirstIsLeast(a: seq<Event>, b: seq<Event>)
    requires a != [] && b != [] && InOrder(a) && InOrder(b) && TiesAgree(a)
    requires multiset(a) == multiset(b)
    ensures a[0] == b[0]
  {
    assert b[0] in multiset(a) && a[0] in multiset(b);
    var i :| 0 <= i < |a| && a[i] == b[0];
    var j :| 0 <= j < |b| && b[j] == a[0];
    assert b[0].sequence <= b[j].sequence;
    assert a[0].sequence <= a[i].sequence;
  }

  lemma SameMembers(a: seq<Event>, b: seq<Event>)
    requires multiset(a) == multiset(b)
    ensures forall e :: e in a <==> e in b
    ensures TiesAgree(a) <==> TiesAgree(b)
  {
    forall e ensures e in a <==> e in b {
      assert e in a <==> e in multiset(a);
    }
  }

  lemma OrderIrrelevant(a: seq<Event>, b: seq<Event>)
    requires TiesAgree(a) && multiset(a) == multiset(b)
    ensures Ordered(a) == Ordered(b)
  {
    OrderedInOrder(a);
    OrderedInOrder(b);
    SameMembers(a, Ordered(a));
    hide InOrder, TiesAgree, Ordered;
    InOrderUnique(Ordered(a), Ordered(b));
  }

  /** Events are projected the same way in whatever order they are delivered, as
      long as different events have different sequence numbers. */
  lemma DeliveryOrderIrrelevant(a: seq<Event>, b: seq<Event>, sessionId: string)
    requires TiesAgree(a) && multiset(a) == multiset(b)
    ensures Projected(sessionId, a) == Projected(sessionId, b)
  {
    OrderIrrelevant(a, b);
    SameLength(a, b);
    hide Ordered, FoldAll, TiesAgree;
  }

  // ----- ties

  /** The events of one sequence number. */
  function At(events: seq<Event>, sequence: int): seq<Event> {
    if events == [] then []
    else (if events[0].sequence == sequence then [events[0]] else []) + At(events[1..], sequence)
  }

  lemma AtCons(e: Event, rest: seq<Event>, sequence: int)
    ensures At([e] + rest, sequence) == (if e.sequence == sequence then [e] else []) + At(rest, sequence)
  {
    assert ([e] + rest)[1..] == rest;
  }

  lemma {:induction false} InsertKeepsTies(e: Event, events: seq<Event>, sequence: int)
    ensures At(InsertEvent(e, events), sequence) == (if e.sequence == sequence then [e] else []) + At(events, sequence)
  {
    if events == [] || e.sequence <= events[0].sequence {
      assert InsertEvent(e, events) == [e] + events;
      AtCons(e, events, sequence);
    } else {
      InsertKeepsTies(e, events[1..], sequence);
      hide At;
      AtCons(events[0], InsertEvent(e, events[1..]), sequence);
      assert events == [events[0]] + events[1..];
      AtCons(events[0], events[1..], sequence);
    }
  }

  /** The sort keeps tied events in the order of delivery. */
  lemma {:induction false} TiesFollowDelivery(events: seq<Event>, sequence: int)
    ensures At(Ordered(events), sequence) == At(events, sequence)
  {
    if events != [] {
      TiesFollowDelivery(events[1..], sequence);
      InsertKeepsTies(events[0], Ordered(events[1..]), sequence);
    }
  }

  /** Swapping two tied events at the front changes the order of the fold. */
  lemma TiedEventsMatter(e: Event, f: Event, rest: seq<Event>)
    requires e.sequence == f.sequence && e != f
    ensures multiset([e] + ([f] + rest)) == multiset([f] + ([e] + rest))
    ensures Ordered([e] + ([f] + rest)) != Ordered([f] + ([e] + rest))
  {
    var s := e.sequence;
    TiesFollowDelivery([e] + ([f] + rest), s);
    TiesFollowDelivery([f] + ([e] + rest), s);
    AtCons(e, [f] + rest, s);
    AtCons(f, rest, s);
    AtCons(f, [e] + rest, s);
    AtCons(e, rest, s);
    hide At, Ordered;
    assert At([e] + ([f] + rest), s)[0] == e && At([f] + ([e] + rest), s)[0] == f;
  }

  ghost predicate OrderFree(events: seq<Event>) {
    forall other :: multiset(other) == multiset(events) ==> Ordered(other) == Ordered(events)
  }

  /** The order in which events are folded is free of the order of delivery exactly
      when different events have different sequence numbers. */
  lemma OrderFreeExactly(events: seq<Event>)
    ensures OrderFree(events) <==> TiesAgree(events)
  {
    if TiesAgree(events) {
      forall other | multiset(other) == multiset(events) ensures Ordered(other) == Ordered(events) {
        OrderIrrelevant(events, other);
      }
    } else {
      TiedNotOrderFree(events);
    }
  }

  lemma TiedNotOrderFree(events: seq<Event>)
    requires !TiesAgree(events)
    ensures !OrderFree(events)
  {
    var e, f :| e in events && f in events && e.sequence == f.sequence && e != f;
    var rest := PullOutBoth(events, e, f);
    TiedEventsMatter(e, f, rest);
    hide Ordered, TiesAgree, OrderFree;
    TwoOrders(events, [e] + ([f] + rest), [f] + ([e] + rest));
  }

  lemma TwoOrders(events: seq<Event>, a: seq<Event>, b: seq<Event>)
    requires multiset(a) == multiset(events) && multiset(b) == multiset(events) && Ordered(a) != Ordered(b)
    ensures !OrderFree(events)
  {
    hide Ordered;
    assert Ordered(a) != Ordered(events) || Ordered(b) != Ordered(events);
  }

  lemma PullOutBoth(events: seq<Event>, e: Event, f: Event) returns (rest: seq<Event>)
    requires e in events && f in events && e != f
    ensures multiset([e] + ([f] + rest)) == multiset(events)
  {
    var without := PullOut(events, e);
    assert f in [e] + without by { SameMembers(events, [e] + without); }
    rest := PullOut(without, f);
    assert multiset([e] + ([f] + rest)) == multiset{e} + multiset([f] + rest);
  }

  /** The other events, once one of them is taken out. */
  lemma PullOut(events: seq<Event>, e: Event) returns (rest: seq<Event>)
    requires e in events
    ensures multiset([e] + rest) == multiset(events)
  {
    var i :| 0 <= i < |events| && events[i] == e;
    rest := events[..i] + events[i + 1..];
    assert events == events[..i] + [e] + events[i + 1..];
  }

  // ----- what one step keeps

  /** Every edge joins nodes of the graph, and so does every link still open. */
  ghost predicate Linked(session: string, f: Fold) {
    && session in f.nodes
    && (forall k :: k in f.edges ==> f.edges[k].source in f.nodes && f.edges[k].target in f.nodes)
    && (forall k :: k in f.byEventId ==> f.byEventId[k] in f.nodes)
    && (forall k :: k in f.firstByCorrelation ==> f.firstByCorrelation[k] in f.nodes)
  }

  /** Everything in f is in g, under the same kind, reference and sequence. */
  ghost predicate Grows(f: Fold, g: Fold) {
    && (forall n :: n in f.nodes ==> n in g.nodes && g.nodes[n] == f.nodes[n].(metadata := g.nodes[n].metadata))
    && (forall k :: k in f.edges ==> k in g.edges && g.edges[k] == f.edges[k])
  }

  /** No edge is younger than the sequence number given. */
  ghost predicate NoYounger(f: Fold, seqNo: int) {
    forall k :: k in f.edges ==> f.edges[k].sequence <= seqNo
  }

  ghost predicate Keeps(session: string, f: Fold, g: Fold, seqNo: int) {
    Linked(session, g) && Grows(f, g) && NoYounger(g, seqNo)
  }

  lemma AddKeeps(session: string, f: Fold, source: string, target: string, kind: string, seqNo: int)
    requires Linked(session, f) && NoYounger(f, seqNo) && source in f.nodes && target in f.nodes
    ensures Keeps(session, f, f.(edges := Added(f.edges, source, target, kind, seqNo)), seqNo)
  {
  }

  lemma EnsureKeeps(session: string, f: Fold, kind: string, ref: string, seqNo: int)
    requires Linked(session, f) && NoYounger(f, seqNo)
    ensures Keeps(session, f, f.(nodes := Ensured(f.nodes, kind, ref, seqNo)), seqNo)
    ensures NodeId(kind, ref) in Ensured(f.nodes, kind, ref, seqNo)
  {
  }

  lemma GrowsTransitive(f: Fold, g: Fold, h: Fold)
    requires Grows(f, g) && Grows(g, h)
    ensures Grows(f, h)
  {
  }

  lemma AggregateKeeps(session: string, f: Fold, e: Event)
    requires Linked(session, f) && NoYounger(f, e.sequence)
    ensures Keeps(session, f, WithAggregate(session, f, e), e.sequence)
    ensures Aggregate(e) in WithAggregate(session, f, e).nodes
  {
    EnsureKeeps(session, f, e.aggregateKind, e.aggregateId, e.sequence);
    var g := f.(nodes := Ensured(f.nodes, e.aggregateKind, e.aggregateId, e.sequence));
    AddKeeps(session, g, session, Aggregate(e), "contains", e.sequence);
  }

  lemma ActorKeeps(session: string, f: Fold, e: Event)
    requires Linked(session, f) && NoYounger(f, e.sequence) && Aggregate(e) in f.nodes
    ensures Keeps(session, f, WithActor(f, e), e.sequence)
    ensures Aggregate(e) in WithActor(f, e).nodes
  {
    EnsureKeeps(session, f, "actor", e.actorId, e.sequence);
    var g := f.(nodes := Ensured(f.nodes, "actor", e.actorId, e.sequence));
    AddKeeps(session, g, NodeId("actor", e.actorId), Aggregate(e), "access", e.sequence);
  }

  lemma CausationKeeps(session: string, f: Fold, e: Event)
    requires Linked(session, f) && NoYounger(f, e.sequence) && Aggregate(e) in f.nodes
    ensures Keeps(session, f, WithCausation(f, e), e.sequence) && WithCausation(f, e).nodes == f.nodes
  {
    if e.causationId in f.byEventId {
      AddKeeps(session, f, f.byEventId[e.causationId], Aggregate(e), "causation", e.sequence);
    }
  }

  lemma CorrelationKeeps(session: string, f: Fold, e: Event)
    requires Linked(session, f) && NoYounger(f, e.sequence) && Aggregate(e) in f.nodes
    ensures Keeps(session, f, WithCorrelation(f, e), e.sequence) && WithCorrelation(f, e).nodes == f.nodes
  {
    if e.correlationId in f.firstByCorrelation {
      AddKeeps(session, f, f.firstByCorrelation[e.correlationId], Aggregate(e), "correlation", e.sequence);
    }
  }

  lemma NamedKeeps(session: string, f: Fold, e: Event, key: string, kind: string, edgeKind: string)
    requires Linked(session, f) && NoYounger(f, e.sequence) && Aggregate(e) in f.nodes
    ensures Keeps(session, f, WithNamed(f, e, key, kind, edgeKind), e.sequence)
    ensures Aggregate(e) in WithNamed(f, e, key, kind, edgeKind).nodes
  {
    var ref := PayloadString(e.payload, key);
    if ref.Some? {
      EnsureKeeps(session, f, kind, ref.value, e.sequence);
      var g := f.(nodes := Ensured(f.nodes, kind, ref.value, e.sequence));
      AddKeeps(session, g, Aggregate(e), NodeId(kind, ref.value), edgeKind, e.sequence);
    }
  }

  /** One step: nodes and edges only appear, never change their sequence, and
      every edge joins nodes of the graph. */
  lemma StepKeeps(session: string, f: Fold, e: Event)
    requires Linked(session, f) && NoYounger(f, e.sequence)
    requires StepEvent(session, f, e).Some?
    ensures Keeps(session, f, StepEvent(session, f, e).value, e.sequence)
  {
    hide Linked, Grows, NoYounger, WithAggregate, WithActor, WithCausation, WithCorrelation, WithNamed, Normalize;
    AggregateKeeps(session, f, e);
    var a := WithAggregate(session, f, e);
    ActorKeeps(session, a, e);
    var b := WithActor(a, e);
    var b2 := WithCausation(b, e);
    CausationKeeps(session, b, e);
    var c := WithCorrelation(b2, e);
    CorrelationKeeps(session, b2, e);
    GrowsTransitive(b, b2, c);
    var d := WithMetadata(c, e, Normalize(e).value);
    MetadataKeeps(session, c, e, Normalize(e).value);
    NamedKeeps(session, d, e, "workPackageId", "work_package", "assigns");
    var g := WithNamed(d, e, "workPackageId", "work_package", "assigns");
    NamedKeeps(session, g, e, "artifactId", "artifact", "produces");
    var h := WithNamed(g, e, "artifactId", "artifact", "produces");
    GrowsTransitive(f, a, b);
    GrowsTransitive(f, b, c);
    GrowsTransitive(f, c, d);
    GrowsTransitive(f, d, g);
    GrowsTransitive(f, g, h);
  }

  lemma MetadataKeeps(session: string, f: Fold, e: Event, m: Metadata)
    requires Linked(session, f) && NoYounger(f, e.sequence)
    ensures Keeps(session, f, WithMetadata(f, e, m), e.sequence)
    ensures Aggregate(e) in f.nodes ==> Aggregate(e) in WithMetadata(f, e, m).nodes
  {
  }

  // ----- whole projections

  lemma {:induction false} FoldKeeps(sessionId: string, first: int, events: seq<Event>)
    requires InOrder(events) && FoldAll(sessionId, first, events).Some?
    ensures Linked(NodeId("session", sessionId), FoldAll(sessionId, first, events).value)
    ensures events != [] ==> NoYounger(FoldAll(sessionId, first, events).value, events[|events| - 1].sequence)
    ensures events == [] ==> FoldAll(sessionId, first, events).value.edges == map[]
  {
    if events != [] {
      var init, last := events[..|events| - 1], events[|events| - 1];
      FoldKeeps(sessionId, first, init);
      var f := FoldAll(sessionId, first, init).value;
      assert NoYounger(f, last.sequence) by {
        if init != [] { assert init[|init| - 1].sequence <= last.sequence; }
      }
      StepKeeps(NodeId("session", sessionId), f, last);
    }
  }

  /** In every projected graph, edges join nodes of the graph. */
  lemma EdgesHaveEndpoints(sessionId: string, events: seq<Event>)
    requires Projected(sessionId, events).Ok?
    ensures var g := Projected(sessionId, events).value;
            forall k :: k in g.edges ==> g.edges[k].source in g.nodes && g.edges[k].target in g.nodes
  {
    OrderedInOrder(events);
    FoldKeeps(sessionId, Ordered(events)[0].sequence, Ordered(events));
  }

  // ----- self-loops

  ghost predicate NoSelfLoop(f: Fold) {
    forall k :: k in f.edges ==> f.edges[k].source != f.edges[k].target
  }

  /** The event's actor and its aggregate are the same node. */
  predicate ActorIsAggregate(e: Event) {
    e.actorId != "" && NodeId("actor", e.actorId) == Aggregate(e)
  }

  /** A step brings in a self-loop exactly when an event names its own aggregate
      as actor, unless that edge key is taken. */
  lemma SelfLoopExactly(session: string, f: Fold, e: Event)
    requires NoSelfLoop(f) && StepEvent(session, f, e).Some?
    ensures NoSelfLoop(StepEvent(session, f, e).value) <==>
            !(ActorIsAggregate(e)
                && EdgeKey(Aggregate(e), Aggregate(e), "access") !in WithAggregate(session, f, e).edges)
  {
    hide Normalize, WithCausation, WithCorrelation, WithMetadata, WithNamed, Aggregate, NodeId;
    var a := WithAggregate(session, f, e);
    assert NoSelfLoop(a);
    var b := WithActor(a, e);
    var key := EdgeKey(NodeId("actor", e.actorId), Aggregate(e), "access");
    LaterEdgesAreProper(b, e, Normalize(e).value);
    var end := StepEvent(session, f, e).value;
    if ActorIsAggregate(e) && key !in a.edges {
      assert b.edges[key].source == b.edges[key].target;
      assert end.edges[key].source == end.edges[key].target;
    } else {
      assert NoSelfLoop(b);
    }
  }

  /** Every edge of a is still in b between the same nodes, and every other edge
      of b joins two different nodes. */
  ghost predicate AddsProper(a: Edges, b: Edges) {
    && (forall k :: k in a ==> k in b && b[k].source == a[k].source && b[k].target == a[k].target)
    && (forall k :: k in b && k !in a ==> b[k].source != b[k].target)
  }

  lemma AddsProperTransitive(a: Edges, b: Edges, c: Edges)
    requires AddsProper(a, b) && AddsProper(b, c)
    ensures AddsProper(a, c)
  {
  }

  lemma AddedProper(edges: Edges, source: string, target: string, kind: string, seqNo: int)
    ensures AddsProper(edges, AddedUnless(source == target, edges, source, target, kind, seqNo))
  {
  }

  lemma CausationProper(f: Fold, e: Event)
    ensures AddsProper(f.edges, WithCausation(f, e).edges)
  {
    if e.causationId in f.byEventId {
      AddedProper(f.edges, f.byEventId[e.causationId], Aggregate(e), "causation", e.sequence);
    }
  }

  lemma CorrelationProper(f: Fold, e: Event)
    ensures AddsProper(f.edges, WithCorrelation(f, e).edges)
  {
    if e.correlationId in f.firstByCorrelation {
      AddedProper(f.edges, f.firstByCorrelation[e.correlationId], Aggregate(e), "correlation", e.sequence);
    }
  }

  lemma NamedProper(f: Fold, e: Event, key: string, kind: string, edgeKind: string)
    ensures AddsProper(f.edges, WithNamed(f, e, key, kind, edgeKind).edges)
  {
    var ref := PayloadString(e.payload, key);
    if ref.Some? {
      assert (NodeId(kind, ref.value) == Aggregate(e)) == (Aggregate(e) == NodeId(kind, ref.value));
      AddedProper(f.edges, Aggregate(e), NodeId(kind, ref.value), edgeKind, e.sequence);
    }
  }

  /** What follows the actor link adds no self-loop. */
  lemma LaterEdgesAreProper(b: Fold, e: Event, m: Metadata)
    ensures AddsProper(b.edges,
                       WithNamed(WithNamed(WithMetadata(WithCorrelation(WithCausation(b, e), e), e, m), e,
                           "workPackageId", "work_package", "assigns"),
                                 e, "artifactId", "artifact", "produces").edges)
  {
    hide AddsProper, WithCausation, WithCorrelation, WithNamed;
    var c := WithCausation(b, e);
    var d := WithCorrelation(c, e);
    CausationProper(b, e);
    CorrelationProper(c, e);
    AddsProperTransitive(b.edges, c.edges, d.edges);
    var n := WithMetadata(d, e, m);
    assert n.edges == d.edges;
    var g := WithNamed(n, e, "workPackageId", "work_package", "assigns");
    NamedProper(n, e, "workPackageId", "work_package", "assigns");
    AddsProperTransitive(b.edges, d.edges, g.edges);
    NamedProper(g, e, "artifactId", "artifact", "produces");
    AddsProperTransitive(b.edges, g.edges, WithNamed(g, e, "artifactId", "artifact", "produces").edges);
  }

  /** Valid events never do: no aggregate kind is "actor". */
  lemma ValidEventsHaveNoSelfLoop(e: Event)
    requires ValidEvent(e)
    ensures !ActorIsAggregate(e)
  {
    var k := e.aggregateKind;
    assert NodeId("actor", e.actorId)[0] == 'a' && NodeId("actor", e.actorId)[1] == 'c';
    assert Aggregate(e)[0] == k[0] && Aggregate(e)[1] == k[1];
    assert k[0] != 'a' || k[1] != 'c';
  }

  lemma {:induction false} FoldHasNoSelfLoop(sessionId: string, first: int, events: seq<Event>)
    requires forall e :: e in events ==> ValidEvent(e)
    requires FoldAll(sessionId, first, events).Some?
    ensures NoSelfLoop(FoldAll(sessionId, first, events).value)
  {
    if events != [] {
      var init, last := events[..|events| - 1], events[|events| - 1];
      assert last in events && forall e :: e in init ==> e in events;
      FoldHasNoSelfLoop(sessionId, first, init);
      ValidEventsHaveNoSelfLoop(last);
      SelfLoopExactly(NodeId("session", sessionId), FoldAll(sessionId, first, init).value, last);
    }
  }

  lemma ProjectionHasNoSelfLoop(sessionId: string, events: seq<Event>)
    requires forall e :: e in events ==> ValidEvent(e)
    requires Projected(sessionId, events).Ok?
    ensures var g := Projected(sessionId, events).value;
            forall k :: k in g.edges ==> g.edges[k].source != g.edges[k].target
  {
    var ordered := Ordered(events);
    forall e | e in ordered ensures ValidEvent(e) {
      assert e in multiset(ordered);
    }
    FoldHasNoSelfLoop(sessionId, ordered[0].sequence, ordered);
  }
}
