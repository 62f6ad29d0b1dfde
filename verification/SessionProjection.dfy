/**
 The projection of an event stream into a session graph
 (visualizer/session/session.go, with the metadata profile of
 visualizer/compat/compat.go).

 A graph is kept as its node and edge tables; the sorted lists of the original
 are determined by them.
 */
module SessionProjection {
  import opened Lex
  import opened Outcomes
  import opened Contracts

  /** Payload values; Unusable is anything the profile rejects. */
  datatype Value = Text(text: string) | Texts(texts: seq<string>) | Null | Unusable

  datatype Event = Event(
    id: string,
    sequence: int,
    eventType: string,
    aggregateKind: string,
    aggregateId: string,
    actorId: string,
    causationId: string,
    correlationId: string,
    payload: map<string, Value>)

  datatype Node = Node(id: string, kind: string, ref: string, sequence: int, metadata: map<string, string>)

  datatype Edge = Edge(source: string, target: string, kind: string, sequence: int)

  type Nodes = map<string, Node>
  type Edges = map<string, Edge>

  datatype Graph = Graph(sessionId: string, nodes: Nodes, edges: Edges)

  datatype ProjectError = InvalidSession | Empty | BadMetadata | OverBudget

  const AGGREGATE_KINDS: seq<string> :=
    ["project", "work_package", "assignment", "attempt", "artifact", "issue", "strategy", "memory", "tool", "workflow"]

  /** The part of the event contract the projection relies on. */
  predicate ValidEvent(e: Event) {
    && IsIdentifier(e.id)
    && e.sequence >= 0
    && e.aggregateKind in AGGREGATE_KINDS
    && IsIdentifier(e.aggregateId)
    && IsIdentifier(e.actorId)
    && (e.causationId == "" || IsIdentifier(e.causationId))
    && (e.correlationId == "" || IsIdentifier(e.correlationId))
  }

  function NodeId(kind: string, ref: string): string {
    kind + ":" + ref
  }

  // ----- metadata

  datatype Metadata = Metadata(secondaryPaths: seq<string>, accessSequence: seq<string>)

  function Lookup(payload: map<string, Value>, key: string, alias: string): Option<Value> {
    if key in payload then Some(payload[key]) else if alias in payload then Some(payload[alias]) else None
  }

  function Strings(v: Option<Value>): Option<seq<string>> {
    match v
    case None => Some([])
    case Some(Null) => Some([])
    case Some(Text(t)) => Some(if t == "" then [] else [t])
    case Some(Texts(ts)) => Some(Dedup(ts))
    case Some(Unusable) => None
  }

  /** First occurrences only. */
  function Dedup(values: seq<string>): seq<string> {
    if values == [] then []
    else
      var init := Dedup(values[..|values| - 1]);
      if values[|values| - 1] in init then init else init + [values[|values| - 1]]
  }

  function Normalize(e: Event): Option<Metadata> {
    var paths := Strings(Lookup(e.payload, "secondary_paths", "secondaryPaths"));
    var access := Strings(Lookup(e.payload, "access_sequence", "accessSequence"));
    if paths.None? || access.None? then None else Some(Metadata(paths.value, access.value))
  }

  function Join(values: seq<string>): string {
    if values == [] then "" else if |values| == 1 then values[0]
    else Join(values[..|values| - 1]) + "," + values[|values| - 1]
  }

  function Annotated(metadata: map<string, string>, m: Metadata): map<string, string> {
    var withPaths := if m.secondaryPaths != [] then metadata["secondary_paths" := Join(m.secondaryPaths)] else metadata;
    if m.accessSequence != [] then withPaths["access_sequence" := Join(m.accessSequence)] else withPaths
  }

  /** A non-empty string under the key. */
  function PayloadString(payload: map<string, Value>, key: string): Option<string> {
    if key in payload && payload[key].Text? && payload[key].text != "" then Some(payload[key].text) else None
  }

  // ----- the reference fold

  function Ensured(nodes: Nodes, kind: string, ref: string, seqNo: int): Nodes {
    var id := NodeId(kind, ref);
    if id in nodes then nodes else nodes[id := Node(id, kind, ref, seqNo, map[])]
  }

  function AnnotateNode(nodes: Nodes, id: string, m: Metadata): Nodes {
    if id in nodes then nodes[id := nodes[id].(metadata := Annotated(nodes[id].metadata, m))] else nodes
  }

  function EdgeKey(source: string, target: string, kind: string): string {
    source + "\0" + target + "\0" + kind
  }

  function Added(edges: Edges, source: string, target: string, kind: string, seqNo: int): Edges {
    var key := EdgeKey(source, target, kind);
    if key in edges then
      if seqNo < edges[key].sequence then edges[key := edges[key].(sequence := seqNo)] else edges
    else edges[key := Edge(source, target, kind, seqNo)]
  }

  function AddedUnless(skip: bool, edges: Edges, source: string, target: string, kind: string, seqNo: int): Edges {
    if skip then edges else Added(edges, source, target, kind, seqNo)
  }

  datatype Fold = Fold(
    nodes: Nodes,
    edges: Edges,
    byEventId: map<string, string>,
    firstByCorrelation: map<string, string>)

  function Aggregate(e: Event): string {
    NodeId(e.aggregateKind, e.aggregateId)
  }

  /** The aggregate itself, contained in the session. */
  function WithAggregate(session: string, f: Fold, e: Event): Fold {
    f.(nodes := Ensured(f.nodes, e.aggregateKind, e.aggregateId, e.sequence),
       edges := AddedUnless(Aggregate(e) == session, f.edges, session, Aggregate(e), "contains", e.sequence),
       byEventId := f.byEventId[e.id := Aggregate(e)])
  }

  function WithActor(f: Fold, e: Event): Fold {
    if e.actorId == "" then f
    else f.(nodes := Ensured(f.nodes, "actor", e.actorId, e.sequence),
            edges := Added(f.edges, NodeId("actor", e.actorId), Aggregate(e), "access", e.sequence))
  }

  function WithCausation(f: Fold, e: Event): Fold {
    if e.causationId != "" && e.causationId in f.byEventId && f.byEventId[e.causationId] != Aggregate(e)
    then f.(edges := Added(f.edges, f.byEventId[e.causationId], Aggregate(e), "causation", e.sequence))
    else f
  }

  function WithCorrelation(f: Fold, e: Event): Fold {
    if e.correlationId == "" then f
    else if e.correlationId !in f.firstByCorrelation then
      f.(firstByCorrelation := f.firstByCorrelation[e.correlationId := Aggregate(e)])
    else f.(edges := AddedUnless(f.firstByCorrelation[e.correlationId] == Aggregate(e), f.edges,
                                 f.firstByCorrelation[e.correlationId], Aggregate(e), "correlation", e.sequence))
  }

  function WithMetadata(f: Fold, e: Event, m: Metadata): Fold {
    if m.secondaryPaths == [] && m.accessSequence == [] then f
    else f.(nodes := AnnotateNode(f.nodes, Aggregate(e), m))
  }

  /** A node named in the payload, linked from the aggregate. */
  function WithNamed(f: Fold, e: Event, key: string, kind: string, edgeKind: string): Fold {
    var ref := PayloadString(e.payload, key);
    if ref.None? then f
    else f.(nodes := Ensured(f.nodes, kind, ref.value, e.sequence),
            edges := AddedUnless(NodeId(kind, ref.value) == Aggregate(e), f.edges, Aggregate(e),
                NodeId(kind, ref.value), edgeKind, e.sequence))
  }

  function StepEvent(session: string, f: Fold, e: Event): Option<Fold> {
    var linked := WithCorrelation(WithCausation(WithActor(WithAggregate(session, f, e), e), e), e);
    var m := Normalize(e);
    if m.None? then None
    else
      var noted := WithMetadata(linked, e, m.value);
      Some(WithNamed(WithNamed(noted, e, "workPackageId", "work_package", "assigns"), e, "artifactId", "artifact",
          "produces"))
  }

  function FoldStart(sessionId: string, first: int): Fold {
    Fold(Ensured(map[], "session", sessionId, first), map[], map[], map[])
  }

  /** The fold over events already in order. */
  function FoldAll(sessionId: string, first: int, events: seq<Event>): Option<Fold> {
    if events == [] then Some(FoldStart(sessionId, first))
    else
      var before := FoldAll(sessionId, first, events[..|events| - 1]);
      if before.None? then None else StepEvent(NodeId("session", sessionId), before.value, events[|events| - 1])
  }

  // ----- ordering

  function InsertEvent(e: Event, events: seq<Event>): (r: seq<Event>)
    ensures multiset(r) == multiset(events) + multiset{e}
  {
    if events == [] then [e]
    else if e.sequence <= events[0].sequence then [e] + events
    else
      assert events == [events[0]] + events[1..];
      [events[0]] + InsertEvent(e, events[1..])
  }

  /** The stable sort by sequence number. */
  function Ordered(events: seq<Event>): (r: seq<Event>)
    ensures multiset(r) == multiset(events) && |r| == |events|
  {
    if events == [] then []
    else
      assert events == [events[0]] + events[1..];
      var r := InsertEvent(events[0], Ordered(events[1..]));
      assert |multiset(r)| == |multiset(events)|;
      r
  }

  predicate InOrder(events: seq<Event>) {
    forall i, j :: 0 <= i < j < |events| ==> events[i].sequence <= events[j].sequence
  }

  lemma {:induction false} OrderedInOrder(events: seq<Event>)
    ensures InOrder(Ordered(events))
  {
    if events != [] {
      OrderedInOrder(events[1..]);
      InsertInOrder(events[0], Ordered(events[1..]));
    }
  }

  lemma {:induction false} InsertInOrder(e: Event, events: seq<Event>)
    requires InOrder(events)
    ensures InOrder(InsertEvent(e, events))
  {
    if events != [] && e.sequence > events[0].sequence {
      InsertInOrder(e, events[1..]);
      var r := InsertEvent(e, events[1..]);
      forall x | x in r ensures events[0].sequence <= x.sequence {
        assert x in multiset(r);
        assert x == e || x in events[1..];
      }
    }
  }

  /** Sorting what is in order changes nothing. */
  lemma {:induction false} OrderedStable(events: seq<Event>)
    requires InOrder(events)
    ensures Ordered(events) == events
  {
    if events != [] {
      OrderedStable(events[1..]);
    }
  }

  /** Events that share a sequence number are the same event, delivered again. */
  ghost predicate TiesAgree(events: seq<Event>) {
    forall e, f :: e in events && f in events && e.sequence == f.sequence ==> e == f
  }

  /** The reference projection. */
  function Projected(sessionId: string, events: seq<Event>): Result<Graph, ProjectError> {
    if sessionId == "" then Err(InvalidSession)
    else if events == [] then Err(Empty)
    else
      var ordered := Ordered(events);
      var f := FoldAll(sessionId, ordered[0].sequence, ordered);
      if f.None? then Err(BadMetadata) else Ok(Graph(sessionId, f.value.nodes, f.value.edges))
  }

  // ----- the code

  class NodeSet {
    var nodes: Nodes

    constructor ()
      ensures nodes == map[]
    {
      nodes := map[];
    }

    method Ensure(kind: string, ref: string, seqNo: int) returns (id: string)
      modifies this
      ensures nodes == Ensured(old(nodes), kind, ref, seqNo) && id == NodeId(kind, ref)
    {
      id := NodeId(kind, ref);
      if id !in nodes {
        nodes := nodes[id := Node(id, kind, ref, seqNo, map[])];
      }
    }

    method Annotate(id: string, m: Metadata)
      modifies this
      ensures nodes == AnnotateNode(old(nodes), id, m)
    {
      if id !in nodes {
        return;
      }
      var n := nodes[id];
      if |m.secondaryPaths| > 0 {
        n := n.(metadata := n.metadata["secondary_paths" := Join(m.secondaryPaths)]);
      }
      if |m.accessSequence| > 0 {
        n := n.(metadata := n.metadata["access_sequence" := Join(m.accessSequence)]);
      }
      nodes := nodes[id := n];
    }
  }

  class EdgeSet {
    var edges: Edges

    constructor ()
      ensures edges == map[]
    {
      edges := map[];
    }

    method Add(source: string, target: string, kind: string, seqNo: int)
      modifies this
      ensures edges == Added(old(edges), source, target, kind, seqNo)
    {
      var key := EdgeKey(source, target, kind);
      if key in edges {
        if seqNo < edges[key].sequence {
          edges := edges[key := edges[key].(sequence := seqNo)];
        }
        return;
      }
      edges := edges[key := Edge(source, target, kind, seqNo)];
    }
  }

  /** The links of one event up to its correlation. */
  method LinkEvent(session: string, nodes: NodeSet, edges: EdgeSet, byEventId0: map<string, string>,
      first0: map<string, string>, e: Event)
    returns (byEventId: map<string, string>, first: map<string, string>)
    modifies nodes, edges
    ensures Fold(nodes.nodes, edges.edges, byEventId, first) ==
              WithCorrelation(WithCausation(WithActor(WithAggregate(session,
                  old(Fold(nodes.nodes, edges.edges, byEventId0, first0)), e), e), e), e)
  {
    byEventId, first := byEventId0, first0;
    var agg := nodes.Ensure(e.aggregateKind, e.aggregateId, e.sequence);
    if agg != session {
      edges.Add(session, agg, "contains", e.sequence);
    }
    byEventId := byEventId[e.id := agg];
    if e.actorId != "" {
      var actor := nodes.Ensure("actor", e.actorId, e.sequence);
      edges.Add(actor, agg, "access", e.sequence);
    }
    if e.causationId != "" {
      if e.causationId in byEventId && byEventId[e.causationId] != agg {
        edges.Add(byEventId[e.causationId], agg, "causation", e.sequence);
      }
    }
    if e.correlationId != "" {
      if e.correlationId in first {
        if first[e.correlationId] != agg {
          edges.Add(first[e.correlationId], agg, "correlation", e.sequence);
        }
      } else {
        first := first[e.correlationId := agg];
      }
    }
  }

  /** The nodes an event's payload names. */
  method NameNodes(nodes: NodeSet, edges: EdgeSet, ghost f: Fold, e: Event)
    requires nodes.nodes == f.nodes && edges.edges == f.edges
    modifies nodes, edges
    ensures var after :=
            WithNamed(WithNamed(f, e, "workPackageId", "work_package", "assigns"), e, "artifactId", "artifact",
                "produces");
            after == f.(nodes := nodes.nodes, edges := edges.edges)
  {
    var agg := Aggregate(e);
    var wp := PayloadString(e.payload, "workPackageId");
    if wp.Some? {
      var id := nodes.Ensure("work_package", wp.value, e.sequence);
      if id != agg {
        edges.Add(agg, id, "assigns", e.sequence);
      }
    }
    var artifact := PayloadString(e.payload, "artifactId");
    if artifact.Some? {
      var id := nodes.Ensure("artifact", artifact.value, e.sequence);
      if id != agg {
        edges.Add(agg, id, "produces", e.sequence);
      }
    }
  }

  /** Folds events into a graph. */
  method Project(sessionId: string, events: seq<Event>) returns (r: Result<Graph, ProjectError>)
    ensures r == Projected(sessionId, events)
  {
    if sessionId == "" {
      return Err(InvalidSession);
    }
    if |events| == 0 {
      return Err(Empty);
    }
    hide Ordered, StepEvent, FoldAll;
    var ordered := Ordered(events);
    var nodes := new NodeSet();
    var edges := new EdgeSet();
    var byEventId: map<string, string> := map[];
    var first: map<string, string> := map[];
    var session := nodes.Ensure("session", sessionId, ordered[0].sequence);
    FoldNone(sessionId, ordered[0].sequence);
    for i := 0 to |ordered|
      invariant FoldAll(sessionId, ordered[0].sequence, ordered[..i]) ==
                Some(Fold(nodes.nodes, edges.edges, byEventId, first))
    {
      ghost var f := Fold(nodes.nodes, edges.edges, byEventId, first);
      FoldOneMore(sessionId, ordered[0].sequence, ordered, i);
      var ok;
      ok, byEventId, first := FoldEvent(session, nodes, edges, byEventId, first, ordered[i]);
      if !ok {
        FoldFails(sessionId, ordered[0].sequence, ordered, i + 1);
        return Err(BadMetadata);
      }
    }
    assert ordered[..|ordered|] == ordered;
    return Ok(Graph(sessionId, nodes.nodes, edges.edges));
  }

  lemma FoldNone(sessionId: string, first: int)
    ensures FoldAll(sessionId, first, []) == Some(FoldStart(sessionId, first))
  {
  }

  lemma FoldOneMore(sessionId: string, first: int, events: seq<Event>, i: nat)
    requires i < |events| && FoldAll(sessionId, first, events[..i]).Some?
    ensures FoldAll(sessionId, first, events[..i + 1]) ==
            StepEvent(NodeId("session", sessionId), FoldAll(sessionId, first, events[..i]).value, events[i])
  {
    assert events[..i + 1][..i] == events[..i];
  }

  /** One round of the projection loop. */
  method FoldEvent(session: string, nodes: NodeSet, edges: EdgeSet, byEventId0: map<string, string>,
      first0: map<string, string>, e: Event)
    returns (ok: bool, byEventId: map<string, string>, first: map<string, string>)
    modifies nodes, edges
    ensures StepEvent(session, old(Fold(nodes.nodes, edges.edges, byEventId0, first0)), e) ==
              if ok then Some(Fold(nodes.nodes, edges.edges, byEventId, first)) else None
  {
    hide Normalize, WithAggregate, WithActor, WithCausation, WithCorrelation, WithNamed;
    byEventId, first := LinkEvent(session, nodes, edges, byEventId0, first0, e);
    ghost var linked := Fold(nodes.nodes, edges.edges, byEventId, first);
    var m := Normalize(e);
    if m.None? {
      return false, byEventId, first;
    }
    if m.value.secondaryPaths != [] || m.value.accessSequence != [] {
      nodes.Annotate(Aggregate(e), m.value);
    }
    ghost var noted := WithMetadata(linked, e, m.value);
    NameNodes(nodes, edges, noted, e);
    ok := true;
  }

  lemma {:induction false} FoldFails(sessionId: string, first: int, events: seq<Event>, i: nat)
    requires i <= |events| && FoldAll(sessionId, first, events[..i]).None?
    ensures FoldAll(sessionId, first, events).None?
    decreases |events|
  {
    if i == |events| {
      assert events[..i] == events;
    } else {
      assert events[..|events| - 1][..i] == events[..i];
      FoldFails(sessionId, first, events[..|events| - 1], i);
    }
  }
}
