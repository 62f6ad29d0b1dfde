/**
 Which nodes and edges a projected graph has, said of the events themselves
 (visualizer/session/session.go): every link an event asks for is there, in its
 direction and under the earliest sequence number, and nothing else is.
 */
module ProjectionExactly {
  import opened Lex
  import opened Outcomes
  import opened Contracts
  import opened SessionProjection

  datatype Link = Link(source: string, target: string, kind: string)

  function Ident(kind: string, ref: string): string {
    kind + ":" + ref
  }

  /** The node of the aggregate an event is about. */
  function About(e: Event): string {
    Ident(e.aggregateKind, e.aggregateId)
  }

  /** The non-empty text a payload holds under a key. */
  predicate Says(e: Event, key: string, text: string) {
    key in e.payload && e.payload[key] == Text(text) && text != ""
  }

  // ----- the links an event asks for

  /** Among the first n events the j-th is the last with this id. */
  predicate LastWithId(events: seq<Event>, n: nat, id: string, j: int) {
    0 <= j < n <= |events| && events[j].id == id && forall k :: j < k < n ==> events[k].id != id
  }

  /** Among the first n events the j-th is the first with this correlation. */
  predicate FirstCorrelated(events: seq<Event>, n: nat, correlation: string, j: int) {
    0 <= j < n <= |events| && events[j].correlationId == correlation
    && forall k :: 0 <= k < j ==> events[k].correlationId != correlation
  }

  /** source is the aggregate of the last of the first n events with this id. */
  ghost predicate CausedBy(events: seq<Event>, n: nat, id: string, source: string) {
    exists j :: LastWithId(events, n, id, j) && source == About(events[j])
  }

  /** source is the aggregate of the first of the first n events with this correlation. */
  ghost predicate BegunBy(events: seq<Event>, n: nat, correlation: string, source: string) {
    exists j :: FirstCorrelated(events, n, correlation, j) && source == About(events[j])
  }

  ghost predicate Asks(session: string, events: seq<Event>, n: nat, l: Link)
    requires n < |events|
  {
    var e := events[n];
    || (l.kind == "contains" && l.source == session && l.target == About(e) && l.source != l.target)
    || (l.kind == "access" && e.actorId != "" && l.source == Ident("actor", e.actorId) && l.target == About(e))
    || (l.kind == "causation" && e.causationId != "" && l.target == About(e) && l.source != l.target
        && CausedBy(events, n + 1, e.causationId, l.source))
    || (l.kind == "correlation" && e.correlationId != "" && l.target == About(e) && l.source != l.target
        && BegunBy(events, n + 1, e.correlationId, l.source))
    || (l.kind == "assigns" && l.source == About(e) && l.source != l.target
        && exists text :: Says(e, "workPackageId", text) && l.target == Ident("work_package", text))
    || (l.kind == "produces" && l.source == About(e) && l.source != l.target
        && exists text :: Says(e, "artifactId", text) && l.target == Ident("artifact", text))
  }

  // ----- edge tables and the links they hold

  function Key(l: Link): string {
    l.source + "\0" + l.target + "\0" + l.kind
  }

  function LinkOf(edge: Edge): Link {
    Link(edge.source, edge.target, edge.kind)
  }

  /** A link together with a sequence number it was asked for under. */
  datatype Placed = Placed(link: Link, sequence: int)

  /** The table holds exactly these links: each under its key, from the earliest
      sequence number asked for under that key. */
  ghost predicate Holds(edges: Edges, asked: Placed -> bool) {
    && (forall k :: k in edges ==> HeldAt(edges, k, asked))
    && (forall p :: asked(p) ==> Key(p.link) in edges && edges[Key(p.link)].sequence <= p.sequence)
  }

  ghost predicate HeldAt(edges: Edges, k: string, asked: Placed -> bool)
    requires k in edges
  {
    && k == Key(LinkOf(edges[k]))
    && (exists q :: asked(Placed(LinkOf(edges[k]), q)))
    && (exists p :: asked(p) && Key(p.link) == k && p.sequence == edges[k].sequence)
  }

  /** Adding a link adds just that. */
  lemma AddHolds(edges: Edges, asked: Placed -> bool, l: Link, seqNo: int, more: Placed -> bool)
    requires Holds(edges, asked)
    requires forall p :: more(p) <==> asked(p) || p == Placed(l, seqNo)
    ensures Holds(Added(edges, l.source, l.target, l.kind, seqNo), more)
  {
    var after := Added(edges, l.source, l.target, l.kind, seqNo);
    assert EdgeKey(l.source, l.target, l.kind) == Key(l);
    assert l == Link(l.source, l.target, l.kind);
    forall k | k in after ensures HeldAt(after, k, more) {
      AddHeld(edges, asked, l, seqNo, more, k);
    }
    hide EdgeKey, Key;
  }

  lemma AddHeld(edges: Edges, asked: Placed -> bool, l: Link, seqNo: int, more: Placed -> bool, k: string)
    requires Holds(edges, asked) && k in Added(edges, l.source, l.target, l.kind, seqNo)
    requires forall p :: more(p) <==> asked(p) || p == Placed(l, seqNo)
    ensures HeldAt(Added(edges, l.source, l.target, l.kind, seqNo), k, more)
  {
    var after := Added(edges, l.source, l.target, l.kind, seqNo);
    assert EdgeKey(l.source, l.target, l.kind) == Key(l);
    hide EdgeKey, Key;
    if k in edges {
      assert HeldAt(edges, k, asked);
      assert LinkOf(after[k]) == LinkOf(edges[k]);
      var q :| asked(Placed(LinkOf(edges[k]), q));
      assert more(Placed(LinkOf(after[k]), q));
      var p :| asked(p) && Key(p.link) == k && p.sequence == edges[k].sequence;
      assert more(p) && more(Placed(l, seqNo));
    } else {
      assert LinkOf(after[k]) == l && more(Placed(l, seqNo));
    }
  }

  // ----- one event

  /** A link to be added, if it is wanted. */
  datatype Want = Want(wanted: bool, link: Link)

  function AddAll(edges: Edges, wants: seq<Want>, seqNo: int): Edges {
    if wants == [] then edges
    else
      var before, w := AddAll(edges, wants[..|wants| - 1], seqNo), wants[|wants| - 1];
      if w.wanted then Added(before, w.link.source, w.link.target, w.link.kind, seqNo) else before
  }

  /** One of the links wanted. */
  ghost predicate Wanted(wants: seq<Want>, l: Link) {
    exists i :: 0 <= i < |wants| && wants[i] == Want(true, l)
  }

  lemma {:induction false} AddAllHolds(edges: Edges, asked: Placed -> bool, wants: seq<Want>, seqNo: int,
      more: Placed -> bool)
    requires Holds(edges, asked)
    requires forall p :: more(p) <==> asked(p) || (p.sequence == seqNo && Wanted(wants, p.link))
    ensures Holds(AddAll(edges, wants, seqNo), more)
  {
    if wants == [] {
      assert forall p :: more(p) <==> asked(p);
      SameHolds(edges, asked, more);
    } else {
      var init, w := wants[..|wants| - 1], wants[|wants| - 1];
      ghost var most := (p: Placed) => asked(p) || (p.sequence == seqNo && Wanted(init, p.link));
      AddAllHolds(edges, asked, init, seqNo, most);
      forall l ensures Wanted(wants, l) <==> Wanted(init, l) || w == Want(true, l) {
        WantedOneMore(init, w, l);
        assert wants == init + [w];
      }
      hide Wanted, Holds;
      if w.wanted {
        AddHolds(AddAll(edges, init, seqNo), most, w.link, seqNo, more);
      } else {
        assert forall p :: more(p) <==> most(p);
        SameHolds(AddAll(edges, init, seqNo), most, more);
      }
    }
  }

  lemma WantedOneMore(init: seq<Want>, w: Want, l: Link)
    ensures Wanted(init + [w], l) <==> Wanted(init, l) || w == Want(true, l)
  {
    if Wanted(init, l) {
      var i :| 0 <= i < |init| && init[i] == Want(true, l);
      assert (init + [w])[i] == Want(true, l);
    }
    assert (init + [w])[|init|] == w;
  }

  lemma SameHolds(edges: Edges, asked: Placed -> bool, more: Placed -> bool)
    requires Holds(edges, asked) && forall p :: more(p) <==> asked(p)
    ensures Holds(edges, more)
  {
    forall k | k in edges ensures HeldAt(edges, k, more) { assert HeldAt(edges, k, asked); }
  }

  function TextOf(e: Event, key: string): string {
    if PayloadString(e.payload, key).Some? then PayloadString(e.payload, key).value else ""
  }

  /** The six links a step may add, in its order. */
  function Wants(session: string, f: Fold, e: Event): seq<Want> {
    var ids := f.byEventId[e.id := Aggregate(e)];
    var cause := if e.causationId in ids then ids[e.causationId] else "";
    var first := if e.correlationId in f.firstByCorrelation then f.firstByCorrelation[e.correlationId] else "";
    var package, artifact := TextOf(e, "workPackageId"), TextOf(e, "artifactId");
    [Want(Aggregate(e) != session, Link(session, Aggregate(e), "contains")),
     Want(e.actorId != "", Link(NodeId("actor", e.actorId), Aggregate(e), "access")),
     Want(e.causationId != "" && e.causationId in ids && cause != Aggregate(e), Link(cause, Aggregate(e), "causation")),
     Want(e.correlationId != "" && e.correlationId in f.firstByCorrelation && first != Aggregate(e),
          Link(first, Aggregate(e), "correlation")),
     Want(package != "" && NodeId("work_package", package) != Aggregate(e),
          Link(Aggregate(e), NodeId("work_package", package), "assigns")),
     Want(artifact != "" && NodeId("artifact", artifact) != Aggregate(e),
          Link(Aggregate(e), NodeId("artifact", artifact), "produces"))]
  }

  lemma StepAddsWants(session: string, f: Fold, e: Event)
    requires StepEvent(session, f, e).Some?
    ensures StepEvent(session, f, e).value.edges == AddAll(f.edges, Wants(session, f, e), e.sequence)
  {
    var w := Wants(session, f, e);
    var b := WithAggregate(session, f, e);
    var c := WithActor(b, e);
    var d := WithCausation(c, e);
    var x := WithCorrelation(d, e);
    var y := WithMetadata(x, e, Normalize(e).value);
    var z := WithNamed(y, e, "workPackageId", "work_package", "assigns");
    LinksAdd(session, f, b, c, d, e);
    NamesAdd(session, f, x, y, z, e);
    hide AddAll, AddIf, Wants, WithAggregate, WithActor, WithCausation, WithCorrelation, WithMetadata, WithNamed,
        Normalize, NodeId;
    AddSix(f.edges, w, e.sequence);
  }

  function AddIf(w: Want, edges: Edges, seqNo: int): Edges {
    if w.wanted then Added(edges, w.link.source, w.link.target, w.link.kind, seqNo) else edges
  }

  lemma AddSix(edges: Edges, w: seq<Want>, seqNo: int)
    requires |w| == 6
    ensures AddAll(edges, w, seqNo) ==
            AddIf(w[5], AddIf(w[4], AddIf(w[3], AddIf(w[2], AddIf(w[1], AddIf(w[0], edges, seqNo), seqNo), seqNo),
                seqNo), seqNo), seqNo)
  {
    hide Added, AddAll;
    AddLast(edges, w[..0], w[0], seqNo);
    AddLast(edges, w[..1], w[1], seqNo);
    AddLast(edges, w[..2], w[2], seqNo);
    AddLast(edges, w[..3], w[3], seqNo);
    AddLast(edges, w[..4], w[4], seqNo);
    AddLast(edges, w[..5], w[5], seqNo);
    AddNone(edges, seqNo);
    assert w[..0] == [] && w[..0] + [w[0]] == w[..1] && w[..1] + [w[1]] == w[..2] && w[..2] + [w[2]] == w[..3];
    assert w[..3] + [w[3]] == w[..4] && w[..4] + [w[4]] == w[..5] && w[..5] + [w[5]] == w;
  }

  lemma AddNone(edges: Edges, seqNo: int)
    ensures AddAll(edges, [], seqNo) == edges
  {
  }

  lemma AddLast(edges: Edges, init: seq<Want>, w: Want, seqNo: int)
    ensures AddAll(edges, init + [w], seqNo) == AddIf(w, AddAll(edges, init, seqNo), seqNo)
  {
    assert (init + [w])[..|init|] == init;
  }

  /** Each part of a step adds its link. */
  lemma LinksAdd(session: string, f: Fold, b: Fold, c: Fold, d: Fold, e: Event)
    requires b == WithAggregate(session, f, e) && c == WithActor(b, e) && d == WithCausation(c, e)
    ensures var w := Wants(session, f, e);
            && b.edges == AddIf(w[0], f.edges, e.sequence) && c.edges == AddIf(w[1], b.edges, e.sequence)
            && d.edges == AddIf(w[2], c.edges, e.sequence)
            && WithCorrelation(d, e).edges == AddIf(w[3], d.edges, e.sequence)
  {
    assert b.byEventId == c.byEventId == f.byEventId[e.id := Aggregate(e)];
    assert f.firstByCorrelation == d.firstByCorrelation;
    ActorAdds(session, f, b, e);
    CausationAdds(session, f, c, e);
    CorrelationAdds(session, f, d, e);
    hide WithActor, WithCausation, WithCorrelation, Added, NodeId, Ensured, TextOf;
  }

  lemma ActorAdds(session: string, f: Fold, g: Fold, e: Event)
    ensures WithActor(g, e).edges == AddIf(Wants(session, f, e)[1], g.edges, e.sequence)
  {
    hide Added, NodeId, Ensured, TextOf;
  }

  lemma CausationAdds(session: string, f: Fold, g: Fold, e: Event)
    requires g.byEventId == f.byEventId[e.id := Aggregate(e)]
    ensures WithCausation(g, e).edges == AddIf(Wants(session, f, e)[2], g.edges, e.sequence)
  {
    hide Added, NodeId, TextOf;
  }

  lemma CorrelationAdds(session: string, f: Fold, g: Fold, e: Event)
    requires g.firstByCorrelation == f.firstByCorrelation
    ensures WithCorrelation(g, e).edges == AddIf(Wants(session, f, e)[3], g.edges, e.sequence)
  {
    hide Added, NodeId, TextOf;
  }

  lemma NamesAdd(session: string, f: Fold, x: Fold, y: Fold, z: Fold, e: Event)
    requires Normalize(e).Some? && y == WithMetadata(x, e, Normalize(e).value)
    requires z == WithNamed(y, e, "workPackageId", "work_package", "assigns")
    ensures var w := Wants(session, f, e);
            && y.edges == x.edges && z.edges == AddIf(w[4], y.edges, e.sequence)
            && WithNamed(z, e, "artifactId", "artifact", "produces").edges == AddIf(w[5], z.edges, e.sequence)
  {
    hide Added, NodeId, Ensured, AnnotateNode, Normalize;
  }

  /** The table of ids: the aggregate of the last event with each id. */
  ghost predicate KnowsIds(events: seq<Event>, ids: map<string, string>) {
    && (forall j :: 0 <= j < |events| ==> events[j].id in ids)
    && (forall id :: id in ids ==> exists j :: LastWithId(events, |events|, id, j) && ids[id] == About(events[j]))
  }

  /** The table of correlations: the aggregate of the first event with each. */
  ghost predicate KnowsFirst(events: seq<Event>, first: map<string, string>) {
    && (forall j :: 0 <= j < |events| && events[j].correlationId != "" ==> events[j].correlationId in first)
    && (forall c :: c in first ==>
          c != "" && exists j :: FirstCorrelated(events, |events|, c, j) && first[c] == About(events[j]))
  }

  lemma StepKnows(session: string, f: Fold, events: seq<Event>, e: Event)
    requires StepEvent(session, f, e).Some? && KnowsIds(events, f.byEventId) && KnowsFirst(events, f.firstByCorrelation)
    ensures var after := StepEvent(session, f, e).value;
            && after.byEventId == f.byEventId[e.id := About(e)]
            && KnowsIds(events + [e], after.byEventId) && KnowsFirst(events + [e], after.firstByCorrelation)
  {
    StepTables(session, f, e);
    hide *;
    IdsOneMore(events, f.byEventId, e);
    FirstOneMore(events, f.firstByCorrelation, e);
  }

  lemma StepTables(session: string, f: Fold, e: Event)
    requires StepEvent(session, f, e).Some?
    ensures var after := StepEvent(session, f, e).value;
            && after.byEventId == f.byEventId[e.id := About(e)]
            && after.firstByCorrelation ==
                 (if e.correlationId == "" || e.correlationId in f.firstByCorrelation then f.firstByCorrelation
                  else f.firstByCorrelation[e.correlationId := About(e)])
  {
    hide Added, AddedUnless, Ensured, AnnotateNode, Normalize, PayloadString, EdgeKey;
    var b := WithActor(WithAggregate(session, f, e), e);
    assert b.byEventId == f.byEventId[e.id := About(e)] && b.firstByCorrelation == f.firstByCorrelation;
    hide WithAggregate, WithActor;
  }

  lemma IdsOneMore(events: seq<Event>, ids: map<string, string>, e: Event)
    requires KnowsIds(events, ids)
    ensures KnowsIds(events + [e], ids[e.id := About(e)])
  {
    var whole, after := events + [e], ids[e.id := About(e)];
    forall id | id in after ensures exists j :: LastWithId(whole, |whole|, id, j) && after[id] == About(whole[j]) {
      if id == e.id {
        assert LastWithId(whole, |whole|, id, |events|);
      } else {
        var j :| LastWithId(events, |events|, id, j) && ids[id] == About(events[j]);
        assert LastWithId(whole, |whole|, id, j);
      }
    }
  }

  lemma FirstOneMore(events: seq<Event>, first: map<string, string>, e: Event)
    requires KnowsFirst(events, first)
    ensures KnowsFirst(events + [e], if e.correlationId == "" || e.correlationId in first then first
                                     else first[e.correlationId := About(e)])
  {
    var whole := events + [e];
    var after := if e.correlationId == "" || e.correlationId in first then first
                 else first[e.correlationId := About(e)];
    forall c | c in after
      ensures c != "" && exists j :: FirstCorrelated(whole, |whole|, c, j) && after[c] == About(whole[j])
    {
      if c in first {
        var j :| FirstCorrelated(events, |events|, c, j) && first[c] == About(events[j]);
        assert FirstCorrelated(whole, |whole|, c, j);
      } else {
        assert FirstCorrelated(whole, |whole|, c, |events|);
      }
    }
  }

  /** The wanted links are those the event asks for. */
  lemma WantsAreAsked(session: string, f: Fold, events: seq<Event>, e: Event, l: Link)
    requires KnowsIds(events, f.byEventId) && KnowsFirst(events, f.firstByCorrelation)
    ensures Wanted(Wants(session, f, e), l) <==> Asks(session, events + [e], |events|, l)
  {
    var whole, n := events + [e], |events|;
    WantedMeans(session, f, e, l);
    CauseIs(events, f.byEventId, e, l.source);
    if e.correlationId != "" {
      FirstIs(events, f.firstByCorrelation, e, l.source);
    }
    TextIs(e, "workPackageId");
    TextIs(e, "artifactId");
    assert whole[n] == e;
    hide KnowsIds, KnowsFirst, CausedBy, BegunBy, Wanted, Wants, PayloadString, TextOf, Says;
  }

  lemma WantedMeans(session: string, f: Fold, e: Event, l: Link)
    ensures var ids, first := f.byEventId[e.id := About(e)], f.firstByCorrelation;
            var package, artifact := TextOf(e, "workPackageId"), TextOf(e, "artifactId");
            Wanted(Wants(session, f, e), l) <==>
              || (l.kind == "contains" && l.source == session && l.target == About(e) && l.source != l.target)
              || (l.kind == "access" && e.actorId != "" && l.source == Ident("actor", e.actorId)
                  && l.target == About(e))
              || (l.kind == "causation" && e.causationId != "" && e.causationId in ids
                  && l.source == ids[e.causationId] && l.target == About(e) && l.source != l.target)
              || (l.kind == "correlation" && e.correlationId != "" && e.correlationId in first
                  && l.source == first[e.correlationId] && l.target == About(e) && l.source != l.target)
              || (l.kind == "assigns" && package != "" && l.source == About(e)
                  && l.target == Ident("work_package", package) && l.source != l.target)
              || (l.kind == "produces" && artifact != "" && l.source == About(e)
                  && l.target == Ident("artifact", artifact) && l.source != l.target)
  {
    var w := Wants(session, f, e);
    assert Wanted(w, l) <==>
           || w[0] == Want(true, l) || w[1] == Want(true, l) || w[2] == Want(true, l)
           || w[3] == Want(true, l) || w[4] == Want(true, l) || w[5] == Want(true, l);
    hide Wanted, TextOf;
  }

  lemma TextIs(e: Event, key: string)
    ensures forall text :: Says(e, key, text) <==> text == TextOf(e, key) && text != ""
  {
  }

  lemma CauseIs(events: seq<Event>, ids: map<string, string>, e: Event, source: string)
    requires KnowsIds(events, ids)
    ensures var known := ids[e.id := About(e)];
            CausedBy(events + [e], |events| + 1, e.causationId, source) <==>
            e.causationId in known && source == known[e.causationId]
  {
    IdsOneMore(events, ids, e);
    var whole, known := events + [e], ids[e.id := About(e)];
    forall i, j | LastWithId(whole, |whole|, e.causationId, i) && LastWithId(whole, |whole|, e.causationId, j)
      ensures i == j {}
    if e.causationId in known {
      var at :| LastWithId(whole, |whole|, e.causationId, at) && known[e.causationId] == About(whole[at]);
    }
  }

  lemma FirstIs(events: seq<Event>, first: map<string, string>, e: Event, source: string)
    requires KnowsFirst(events, first) && e.correlationId != ""
    ensures BegunBy(events + [e], |events| + 1, e.correlationId, source) <==>
            source == if e.correlationId in first then first[e.correlationId] else About(e)
  {
    FirstOneMore(events, first, e);
    var whole := events + [e];
    var after := if e.correlationId in first then first else first[e.correlationId := About(e)];
    forall i, j | FirstCorrelated(whole, |whole|, e.correlationId, i)
        && FirstCorrelated(whole, |whole|, e.correlationId, j)
      ensures i == j {}
    assert e.correlationId in after && KnowsFirst(whole, after);
    var at :| FirstCorrelated(whole, |whole|, e.correlationId, at) && after[e.correlationId] == About(whole[at]);
  }

  // ----- a whole stream

  ghost predicate AskedIn(session: string, events: seq<Event>, p: Placed) {
    exists n :: 0 <= n < |events| && Asks(session, events, n, p.link) && p.sequence == events[n].sequence
  }

  /** What an event asks for depends on the events up to it. */
  lemma AsksOfPrefix(session: string, events: seq<Event>, e: Event, n: nat, l: Link)
    requires n < |events|
    ensures Asks(session, events + [e], n, l) <==> Asks(session, events, n, l)
  {
    var whole := events + [e];
    SourcesOfPrefix(events, e, n + 1, events[n].causationId, events[n].correlationId, l.source);
    hide CausedBy, BegunBy, Says, About, Ident;
  }

  lemma SourcesOfPrefix(events: seq<Event>, e: Event, n: nat, id: string, c: string, source: string)
    requires n <= |events|
    ensures CausedBy(events + [e], n, id, source) <==> CausedBy(events, n, id, source)
    ensures BegunBy(events + [e], n, c, source) <==> BegunBy(events, n, c, source)
  {
    LastOfPrefix(events, e, n, id);
    FirstOfPrefix(events, e, n, c);
    hide LastWithId, FirstCorrelated, About;
  }

  lemma LastOfPrefix(events: seq<Event>, e: Event, n: nat, id: string)
    requires n <= |events|
    ensures forall j :: LastWithId(events + [e], n, id, j) <==> LastWithId(events, n, id, j)
    ensures forall j :: LastWithId(events, n, id, j) ==> 0 <= j < |events| && (events + [e])[j] == events[j]
  {
    assert forall k :: 0 <= k < n ==> (events + [e])[k] == events[k];
  }

  lemma FirstOfPrefix(events: seq<Event>, e: Event, n: nat, c: string)
    requires n <= |events|
    ensures forall j :: FirstCorrelated(events + [e], n, c, j) <==> FirstCorrelated(events, n, c, j)
    ensures forall j :: FirstCorrelated(events, n, c, j) ==> 0 <= j < |events| && (events + [e])[j] == events[j]
  {
    assert forall k :: 0 <= k < n ==> (events + [e])[k] == events[k];
  }

  lemma AskedOneMore(session: string, events: seq<Event>, e: Event, p: Placed)
    ensures AskedIn(session, events + [e], p) <==>
            AskedIn(session, events, p) ||
            (p.sequence == e.sequence && Asks(session, events + [e], |events|, p.link))
  {
    var whole := events + [e];
    forall n | 0 <= n < |events| ensures Asks(session, whole, n, p.link) <==> Asks(session, events, n, p.link) {
      AsksOfPrefix(session, events, e, n, p.link);
    }
    hide Asks;
    if AskedIn(session, events, p) {
      var n :| 0 <= n < |events| && Asks(session, events, n, p.link) && p.sequence == events[n].sequence;
      assert Asks(session, whole, n, p.link) && p.sequence == whole[n].sequence;
    }
    if p.sequence == e.sequence && Asks(session, whole, |events|, p.link) {
      assert whole[|events|].sequence == p.sequence;
    }
  }

  /** The edges of the fold are exactly the links asked for. */
  ghost predicate EdgesExact(session: string, events: seq<Event>, edges: Edges) {
    Holds(edges, p => AskedIn(session, events, p))
  }

  lemma {:induction false} FoldEdgesExact(sessionId: string, first: int, events: seq<Event>)
    requires FoldAll(sessionId, first, events).Some?
    ensures var f := FoldAll(sessionId, first, events).value;
            && KnowsIds(events, f.byEventId) && KnowsFirst(events, f.firstByCorrelation)
            && EdgesExact(Ident("session", sessionId), events, f.edges)
  {
    hide *;
    if events != [] {
      var init, e := events[..|events| - 1], events[|events| - 1];
      FoldLast(sessionId, first, events);
      FoldEdgesExact(sessionId, first, init);
      var f := FoldAll(sessionId, first, init).value;
      StepKnows(NodeId("session", sessionId), f, init, e);
      StepEdgesExact(NodeId("session", sessionId), f, init, e);
    } else {
      FoldNone(sessionId, first);
      StartEdges(sessionId, first);
    }
  }

  lemma StartEdges(sessionId: string, first: int)
    ensures var f := FoldStart(sessionId, first);
            && KnowsIds([], f.byEventId) && KnowsFirst([], f.firstByCorrelation)
            && EdgesExact(Ident("session", sessionId), [], f.edges)
  {
  }

  /** The fold over a stream is a step from the fold over all but its last event. */
  lemma FoldLast(sessionId: string, first: int, events: seq<Event>)
    requires events != [] && FoldAll(sessionId, first, events).Some?
    ensures NodeId("session", sessionId) == Ident("session", sessionId)
    ensures var init, e := events[..|events| - 1], events[|events| - 1];
            && events == init + [e] && FoldAll(sessionId, first, init).Some?
            && StepEvent(NodeId("session", sessionId), FoldAll(sessionId, first, init).value, e) ==
               FoldAll(sessionId, first, events)
  {
    hide StepEvent;
  }

  lemma StepEdgesExact(session: string, f: Fold, events: seq<Event>, e: Event)
    requires StepEvent(session, f, e).Some? && KnowsIds(events, f.byEventId) && KnowsFirst(events, f.firstByCorrelation)
    requires EdgesExact(session, events, f.edges)
    ensures EdgesExact(session, events + [e], StepEvent(session, f, e).value.edges)
  {
    StepAddsWants(session, f, e);
    ghost var asked := (p: Placed) => AskedIn(session, events, p);
    ghost var more := (p: Placed) => AskedIn(session, events + [e], p);
    forall p ensures more(p) <==> asked(p) || (p.sequence == e.sequence && Wanted(Wants(session, f, e), p.link)) {
      AskedOneMore(session, events, e, p);
      WantsAreAsked(session, f, events, e, p.link);
    }
    hide Wants, Wanted, AskedIn, Asks, Holds, AddAll, StepEvent, KnowsIds, KnowsFirst;
    AddAllHolds(f.edges, asked, Wants(session, f, e), e.sequence, more);
  }

  // ----- the edges of valid events

  predicate NoNul(s: string) {
    forall i :: 0 <= i < |s| ==> s[i] != '\0'
  }

  lemma FirstNul(a: string, x: string)
    requires NoNul(a)
    ensures var s := a + "\0" + x; s[|a|] == '\0' && forall i :: 0 <= i < |a| ==> s[i] != '\0'
  {
  }

  lemma SplitsOnce(a: string, b: string, x: string, y: string)
    requires NoNul(a) && NoNul(b) && a + "\0" + x == b + "\0" + y
    ensures a == b && x == y
  {
    var s, t := a + "\0" + x, b + "\0" + y;
    FirstNul(a, x);
    FirstNul(b, y);
    assert |a| == |b|;
    assert s[..|a|] == a && t[..|b|] == b;
    assert s[|a| + 1..] == x && t[|b| + 1..] == y;
  }

  lemma LastNul(x: string, a: string)
    requires NoNul(a)
    ensures var s := x + "\0" + a; s[|x|] == '\0' && forall i :: |x| < i < |s| ==> s[i] != '\0'
  {
  }

  lemma SplitsAtEnd(x: string, y: string, a: string, b: string)
    requires NoNul(a) && NoNul(b) && x + "\0" + a == y + "\0" + b
    ensures a == b && x == y
  {
    var s, t := x + "\0" + a, y + "\0" + b;
    LastNul(x, a);
    LastNul(y, b);
    assert |x| == |y|;
    assert s[..|x|] == x && t[..|y|] == y;
    assert s[|x| + 1..] == a && t[|y| + 1..] == b;
  }

  lemma IdentNoNul(kind: string, ref: string)
    requires NoNul(kind) && NoNul(ref)
    ensures NoNul(Ident(kind, ref))
  {
  }

  lemma IdentifierNoNul(s: string)
    requires IsIdentifier(s)
    ensures NoNul(s)
  {
    assert '\0' !in "_.:@+-";
  }

  lemma AboutNoNul(e: Event)
    requires ValidEvent(e)
    ensures NoNul(About(e)) && NoNul(Ident("actor", e.actorId))
  {
    IdentifierNoNul(e.aggregateId);
    IdentifierNoNul(e.actorId);
    IdentNoNul(e.aggregateKind, e.aggregateId);
    IdentNoNul("actor", e.actorId);
  }

  /** What valid events ask for: a link with no NUL in its kind, and none in its source,
      or in its target when it comes from the session. */
  predicate Separable(l: Link) {
    NoNul(l.kind) && if l.kind == "contains" then NoNul(l.target) else NoNul(l.source)
  }

  lemma AsksSeparable(session: string, events: seq<Event>, n: nat, l: Link)
    requires n < |events| && (forall e :: e in events ==> ValidEvent(e)) && Asks(session, events, n, l)
    ensures Separable(l)
  {
    AboutNoNul(events[n]);
    if l.kind == "causation" {
      var j :| LastWithId(events, n + 1, events[n].causationId, j) && l.source == About(events[j]);
      AboutNoNul(events[j]);
    } else if l.kind == "correlation" {
      var j :| FirstCorrelated(events, n + 1, events[n].correlationId, j) && l.source == About(events[j]);
      AboutNoNul(events[j]);
    }
    hide ValidEvent, About, Ident, Says, LastWithId, FirstCorrelated;
  }

  lemma SeparableKeys(l: Link, m: Link)
    requires Separable(l) && Separable(m) && Key(l) == Key(m)
    ensures l == m
  {
    assert Key(l) == (l.source + "\0" + l.target) + "\0" + l.kind;
    assert Key(m) == (m.source + "\0" + m.target) + "\0" + m.kind;
    SplitsAtEnd(l.source + "\0" + l.target, m.source + "\0" + m.target, l.kind, m.kind);
    if l.kind == "contains" {
      SplitsAtEnd(l.source, m.source, l.target, m.target);
    } else {
      SplitsOnce(l.source, m.source, l.target, m.target);
    }
  }

  /** The edge set, for valid events: an edge is there exactly when some event asks for
      it, pointing the way the event says, from the earliest such event on. */
  ghost predicate EdgesAre(session: string, events: seq<Event>, edges: Edges) {
    && (forall k :: k in edges ==> k == Key(LinkOf(edges[k])))
    && (forall l :: Key(l) in edges && LinkOf(edges[Key(l)]) == l <==>
          exists n :: 0 <= n < |events| && Asks(session, events, n, l))
    && (forall k :: k in edges ==> EarliestFor(session, events, edges[k]))
  }

  ghost predicate EarliestFor(session: string, events: seq<Event>, edge: Edge) {
    && (exists n :: 0 <= n < |events| && Asks(session, events, n, LinkOf(edge)) && edge.sequence == events[n].sequence)
    && (forall n :: 0 <= n < |events| && Asks(session, events, n, LinkOf(edge)) ==>
          edge.sequence <= events[n].sequence)
  }

  /** Links asked for have keys of their own. */
  ghost predicate KeysApart(asked: Placed -> bool) {
    forall p, q :: asked(p) && asked(q) && Key(p.link) == Key(q.link) ==> p.link == q.link
  }

  lemma ValidKeysApart(session: string, events: seq<Event>)
    requires forall e :: e in events ==> ValidEvent(e)
    ensures KeysApart(p => AskedIn(session, events, p))
  {
    forall p, q | AskedIn(session, events, p) && AskedIn(session, events, q) && Key(p.link) == Key(q.link)
      ensures p.link == q.link
    {
      var m :| 0 <= m < |events| && Asks(session, events, m, p.link);
      var n :| 0 <= n < |events| && Asks(session, events, n, q.link);
      AsksSeparable(session, events, m, p.link);
      AsksSeparable(session, events, n, q.link);
      SeparableKeys(p.link, q.link);
    }
  }

  lemma HeldEarliest(session: string, events: seq<Event>, edges: Edges, k: string)
    requires EdgesExact(session, events, edges) && KeysApart(p => AskedIn(session, events, p)) && k in edges
    ensures k == Key(LinkOf(edges[k])) && EarliestFor(session, events, edges[k])
  {
    ghost var asked := (p: Placed) => AskedIn(session, events, p);
    assert HeldAt(edges, k, asked);
    hide Key, Asks;
    var l := LinkOf(edges[k]);
    var q :| asked(Placed(l, q));
    var p :| asked(p) && Key(p.link) == k && p.sequence == edges[k].sequence;
    assert p.link == l;
    forall n | 0 <= n < |events| && Asks(session, events, n, l) ensures edges[k].sequence <= events[n].sequence {
      assert asked(Placed(l, events[n].sequence));
    }
  }

  lemma AskedIsThere(session: string, events: seq<Event>, edges: Edges, n: nat, l: Link)
    requires EdgesExact(session, events, edges) && KeysApart(p => AskedIn(session, events, p))
    requires n < |events| && Asks(session, events, n, l)
    ensures Key(l) in edges && LinkOf(edges[Key(l)]) == l
  {
    ghost var asked := (p: Placed) => AskedIn(session, events, p);
    assert asked(Placed(l, events[n].sequence));
    assert HeldAt(edges, Key(l), asked);
    hide Key, Asks;
    var q :| asked(Placed(LinkOf(edges[Key(l)]), q));
  }

  lemma ExactMeans(session: string, events: seq<Event>, edges: Edges)
    requires EdgesExact(session, events, edges) && forall e :: e in events ==> ValidEvent(e)
    ensures EdgesAre(session, events, edges)
  {
    ValidKeysApart(session, events);
    hide EdgesExact, KeysApart, Asks, Key;
    forall k | k in edges ensures k == Key(LinkOf(edges[k])) && EarliestFor(session, events, edges[k]) {
      HeldEarliest(session, events, edges, k);
    }
    forall l ensures Key(l) in edges && LinkOf(edges[Key(l)]) == l <==>
                     exists n :: 0 <= n < |events| && Asks(session, events, n, l) {
      if n :| 0 <= n < |events| && Asks(session, events, n, l) {
        AskedIsThere(session, events, edges, n, l);
      }
    }
  }
}
