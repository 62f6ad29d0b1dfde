/**
 Frame lists and the cursor over them (visualizer/replay/replay.go). The
 original projects every prefix of the events afresh; the frames are shown to be
 those of one incremental fold.
 */
module Replay {
  import opened Lex
  import opened Outcomes
  import opened SessionProjection
  import opened ProjectionGuarantees

  datatype Frame<P> = Frame(index: nat, sequence: int, eventId: string, eventType: string, graph: Graph, placement: P)

  const MAX_NODES := 250000
  const MAX_EDGES := 1000000

  predicate WithinBudget(g: Graph) {
    |g.nodes| <= MAX_NODES && |g.edges| <= MAX_EDGES
  }

  /** The layout: positions are any function of the graph. */
  function Layout<P>(place: Graph -> P, g: Graph): Result<P, ProjectError> {
    if WithinBudget(g) then Ok(place(g)) else Err(OverBudget)
  }

  // ----- the incremental fold

  datatype Film<P> = Film(fold: Fold, frames: seq<Frame<P>>)

  function Exposed<P>(place: Graph -> P, sessionId: string, film: Film<P>, e: Event): Result<Film<P>, ProjectError> {
    match StepEvent(NodeId("session", sessionId), film.fold, e)
    case None => Err(BadMetadata)
    case Some(f) =>
      var g := Graph(sessionId, f.nodes, f.edges);
      match Layout(place, g)
      case Err(error) => Err(error)
      case Ok(p) => Ok(Film(f, film.frames + [Frame(|film.frames|, e.sequence, e.id, e.eventType, g, p)]))
  }

  /** One frame a step: the graph is carried along, never projected again. */
  function Filmed<P>(place: Graph -> P, sessionId: string, first: int, events: seq<Event>)
    : Result<Film<P>, ProjectError>
  {
    if events == [] then Ok(Film(FoldStart(sessionId, first), []))
    else
      match Filmed(place, sessionId, first, events[..|events| - 1])
      case Err(error) => Err(error)
      case Ok(film) => Exposed(place, sessionId, film, events[|events| - 1])
  }

  /** The frame list of a session. */
  function Frames<P>(place: Graph -> P, sessionId: string, events: seq<Event>): Result<seq<Frame<P>>, ProjectError> {
    if sessionId == "" then Err(InvalidSession)
    else if events == [] then Err(Empty)
    else
      match Filmed(place, sessionId, Ordered(events)[0].sequence, Ordered(events))
      case Err(error) => Err(error)
      case Ok(film) => Ok(film.frames)
  }

  lemma {:induction false} FilmCarriesFold<P>(place: Graph -> P, sessionId: string, first: int, events: seq<Event>)
    requires Filmed(place, sessionId, first, events).Ok?
    ensures FoldAll(sessionId, first, events) == Some(Filmed(place, sessionId, first, events).value.fold)
    ensures |Filmed(place, sessionId, first, events).value.frames| == |events|
  {
    if events != [] {
      FilmCarriesFold(place, sessionId, first, events[..|events| - 1]);
    }
  }

  lemma {:induction false} FilmFails<P>(place: Graph -> P, sessionId: string, first: int, events: seq<Event>, i: nat)
    requires i <= |events| && Filmed(place, sessionId, first, events[..i]).Err?
    ensures Filmed(place, sessionId, first, events) == Filmed(place, sessionId, first, events[..i])
    decreases |events|
  {
    if i == |events| {
      assert events[..i] == events;
    } else {
      assert events[..|events| - 1][..i] == events[..i];
      FilmFails(place, sessionId, first, events[..|events| - 1], i);
    }
  }

  lemma PrefixInOrder(events: seq<Event>, i: nat)
    requires InOrder(events) && i <= |events|
    ensures InOrder(events[..i]) && Ordered(events[..i]) == events[..i]
  {
    OrderedStable(events[..i]);
  }

  /** Projecting a prefix afresh gives the graph carried along so far. */
  lemma PrefixProjection(sessionId: string, events: seq<Event>, i: nat)
    requires sessionId != "" && InOrder(events) && i < |events|
    ensures Projected(sessionId, events[..i + 1]) ==
              match FoldAll(sessionId, events[0].sequence, events[..i + 1])
              case None => Err(BadMetadata)
              case Some(f) => Ok(Graph(sessionId, f.nodes, f.edges))
  {
    PrefixInOrder(events, i + 1);
    assert events[..i + 1][0] == events[0];
  }

  /** One more event on film, seen as a fresh projection of the longer prefix. */
  lemma NextFrame<P>(place: Graph -> P, sessionId: string, events: seq<Event>, i: nat)
    requires sessionId != "" && InOrder(events) && i < |events|
    requires Filmed(place, sessionId, events[0].sequence, events[..i]).Ok?
    ensures var film := Filmed(place, sessionId, events[0].sequence, events[..i]).value;
            var next := Filmed(place, sessionId, events[0].sequence, events[..i + 1]);
            match Projected(sessionId, events[..i + 1])
            case Err(error) => next == Err(error)
            case Ok(g) =>
              match Layout(place, g)
              case Err(error) => next == Err(error)
              case Ok(p) =>
                  next.Ok? && next.value.frames ==
                      film.frames + [Frame(i, events[i].sequence, events[i].id, events[i].eventType, g, p)]
  {
    hide StepEvent, Ordered;
    assert events[..i + 1][..i] == events[..i];
    PrefixProjection(sessionId, events, i);
    FilmCarriesFold(place, sessionId, events[0].sequence, events[..i]);
  }

  /** Builds one frame per event by projecting every prefix. */
  method Build<P>(place: Graph -> P, sessionId: string, events: seq<Event>)
      returns (r: Result<seq<Frame<P>>, ProjectError>)
    ensures r == Frames(place, sessionId, events)
  {
    if sessionId == "" {
      return Err(InvalidSession);
    }
    if |events| == 0 {
      return Err(Empty);
    }
    var ordered := Ordered(events);
    OrderedInOrder(events);
    hide Ordered, Filmed, Projected, InOrder;
    var frames: seq<Frame<P>> := [];
    FilmStart(place, sessionId, ordered);
    for i := 0 to |ordered|
      invariant Filmed(place, sessionId, ordered[0].sequence, ordered[..i]).Ok?
      invariant frames == Filmed(place, sessionId, ordered[0].sequence, ordered[..i]).value.frames
    {
      NextFrame(place, sessionId, ordered, i);
      var graph := Project(sessionId, ordered[..i + 1]);
      if graph.Err? {
        FilmFails(place, sessionId, ordered[0].sequence, ordered, i + 1);
        return Err(graph.error);
      }
      var placement := Layout(place, graph.value);
      if placement.Err? {
        FilmFails(place, sessionId, ordered[0].sequence, ordered, i + 1);
        return Err(placement.error);
      }
      frames := frames
          + [Frame(i, ordered[i].sequence, ordered[i].id, ordered[i].eventType, graph.value, placement.value)];
    }
    assert ordered[..|ordered|] == ordered;
    return Ok(frames);
  }

  lemma FilmStart<P>(place: Graph -> P, sessionId: string, ordered: seq<Event>)
    requires ordered != []
    ensures Filmed(place, sessionId, ordered[0].sequence, ordered[..0]) ==
            Ok(Film(FoldStart(sessionId, ordered[0].sequence), []))
  {
  }

  // ----- what frames are

  /** The frame of the i-th event in order shows the projection of the events up
      to it. */
  ghost predicate FrameShows<P>(place: Graph -> P, sessionId: string, ordered: seq<Event>, frame: Frame<P>, i: nat)
    requires i < |ordered|
  {
    && Projected(sessionId, ordered[..i + 1]) == Ok(frame.graph)
    && WithinBudget(frame.graph)
    && frame == Frame(i, ordered[i].sequence, ordered[i].id, ordered[i].eventType, frame.graph, place(frame.graph))
  }

  lemma {:induction false} FilmShows<P>(place: Graph -> P, sessionId: string, events: seq<Event>, n: nat, i: nat)
    requires sessionId != "" && InOrder(events) && i < n <= |events|
    requires Filmed(place, sessionId, events[0].sequence, events[..n]).Ok?
    ensures |Filmed(place, sessionId, events[0].sequence, events[..n]).value.frames| == n
    ensures FrameShows(place, sessionId, events,
            Filmed(place, sessionId, events[0].sequence, events[..n]).value.frames[i], i)
    decreases n
  {
    FilmCarriesFold(place, sessionId, events[0].sequence, events[..n]);
    assert events[..n][..n - 1] == events[..n - 1];
    FilmBefore(place, sessionId, events[0].sequence, events[..n]);
    FilmCarriesFold(place, sessionId, events[0].sequence, events[..n - 1]);
    NextFrame(place, sessionId, events, n - 1);
    if i < n - 1 {
      FilmShows(place, sessionId, events, n - 1, i);
    }
    hide Filmed, FoldAll, Projected, InOrder;
  }

  lemma FilmBefore<P>(place: Graph -> P, sessionId: string, first: int, events: seq<Event>)
    requires events != [] && Filmed(place, sessionId, first, events).Ok?
    ensures Filmed(place, sessionId, first, events[..|events| - 1]).Ok?
  {
  }

  /** A built list has one frame per event, in sequence order, and each frame is
      the projection of the events up to it. */
  lemma FramesShow<P>(place: Graph -> P, sessionId: string, events: seq<Event>, i: nat)
    requires Frames(place, sessionId, events).Ok? && i < |events|
    ensures |Frames(place, sessionId, events).value| == |events|
    ensures FrameShows(place, sessionId, Ordered(events), Frames(place, sessionId, events).value[i], i)
  {
    var ordered := Ordered(events);
    OrderedInOrder(events);
    assert ordered[..|ordered|] == ordered;
    FilmShows(place, sessionId, ordered, |ordered|, i);
  }

  /** The last frame is the live graph. */
  lemma LastFrameIsProjection<P>(place: Graph -> P, sessionId: string, events: seq<Event>)
    requires Frames(place, sessionId, events).Ok?
    ensures |Frames(place, sessionId, events).value| == |events| > 0
    ensures Projected(sessionId, events) == Ok(Frames(place, sessionId, events).value[|events| - 1].graph)
  {
    FramesShow(place, sessionId, events, |events| - 1);
    var ordered := Ordered(events);
    assert ordered[..|ordered|] == ordered;
    OrderedInOrder(events);
    OrderedStable(ordered);
  }

  // ----- frames only grow

  /** Everything shown stays shown: nodes under the same kind, reference and
      sequence, edges unchanged. */
  ghost predicate GraphGrows(g: Graph, h: Graph) {
    && (forall n :: n in g.nodes ==> n in h.nodes && h.nodes[n] == g.nodes[n].(metadata := h.nodes[n].metadata))
    && (forall k :: k in g.edges ==> k in h.edges && h.edges[k] == g.edges[k])
  }

  lemma {:induction false} FoldGrows(sessionId: string, first: int, events: seq<Event>, i: nat)
    requires i <= |events| && InOrder(events) && FoldAll(sessionId, first, events).Some?
    ensures FoldAll(sessionId, first, events[..i]).Some?
    ensures Grows(FoldAll(sessionId, first, events[..i]).value, FoldAll(sessionId, first, events).value)
    decreases |events|
  {
    if i == |events| {
      assert events[..i] == events;
    } else {
      var init, last := events[..|events| - 1], events[|events| - 1];
      assert init[..i] == events[..i];
      FoldGrows(sessionId, first, init, i);
      var f := FoldAll(sessionId, first, init).value;
      FoldKeeps(sessionId, first, init);
      assert NoYounger(f, last.sequence) by {
        if init != [] { assert init[|init| - 1].sequence <= last.sequence; }
      }
      StepKeeps(NodeId("session", sessionId), f, last);
      GrowsTransitive(FoldAll(sessionId, first, events[..i]).value, f, FoldAll(sessionId, first, events).value);
    }
  }

  /** g is the state of the fold after n of the ordered events. */
  ghost predicate ShowsFold(sessionId: string, ordered: seq<Event>, n: nat, g: Graph)
    requires 0 < n <= |ordered|
  {
    var f := FoldAll(sessionId, ordered[0].sequence, ordered[..n]);
    f.Some? && g == Graph(sessionId, f.value.nodes, f.value.edges)
  }

  /** Each frame shows the state of the fold after its event. */
  lemma FrameShowsFold<P>(place: Graph -> P, sessionId: string, events: seq<Event>, i: nat)
    requires Frames(place, sessionId, events).Ok? && i < |events|
    ensures |Frames(place, sessionId, events).value| == |Ordered(events)| == |events|
    ensures Frames(place, sessionId, events).value[i].sequence == Ordered(events)[i].sequence
    ensures ShowsFold(sessionId, Ordered(events), i + 1, Frames(place, sessionId, events).value[i].graph)
  {
    FramesShow(place, sessionId, events, i);
    OrderedInOrder(events);
    hide Ordered, Filmed, InOrder, FoldAll;
    PrefixProjection(sessionId, Ordered(events), i);
  }

  /** Frames only grow, and their sequence numbers never fall. */
  lemma FramesGrow<P>(place: Graph -> P, sessionId: string, events: seq<Event>, i: nat, j: nat)
    requires Frames(place, sessionId, events).Ok? && i <= j < |events|
    ensures |Frames(place, sessionId, events).value| == |events|
    ensures Frames(place, sessionId, events).value[i].sequence <= Frames(place, sessionId, events).value[j].sequence
    ensures GraphGrows(Frames(place, sessionId, events).value[i].graph, Frames(place, sessionId, events).value[j].graph)
  {
    FrameShowsFold(place, sessionId, events, i);
    FrameShowsFold(place, sessionId, events, j);
    OrderedInOrder(events);
    SequencesRise(Ordered(events), i, j);
    hide *;
    ShownGrows(sessionId, Ordered(events), i + 1, j + 1, Frames(place, sessionId, events).value[i].graph,
        Frames(place, sessionId, events).value[j].graph);
  }

  lemma SequencesRise(ordered: seq<Event>, i: nat, j: nat)
    requires InOrder(ordered) && i <= j < |ordered|
    ensures ordered[i].sequence <= ordered[j].sequence
  {
  }

  lemma ShownGrows(sessionId: string, ordered: seq<Event>, m: nat, n: nat, g: Graph, h: Graph)
    requires 0 < m <= n <= |ordered| && InOrder(ordered)
    requires ShowsFold(sessionId, ordered, m, g) && ShowsFold(sessionId, ordered, n, h)
    ensures GraphGrows(g, h)
  {
    hide FoldAll;
    assert ordered[..n][..m] == ordered[..m];
    PrefixInOrder(ordered, n);
    FoldGrows(sessionId, ordered[0].sequence, ordered[..n], m);
  }

  /** h is one step of the fold after g, for the n-th ordered event. */
  ghost predicate OneStep(sessionId: string, ordered: seq<Event>, n: nat, g: Graph, h: Graph)
    requires 0 < n < |ordered|
  {
    var before := FoldAll(sessionId, ordered[0].sequence, ordered[..n]);
    && before.Some?
    && g == Graph(sessionId, before.value.nodes, before.value.edges)
    && var after := StepEvent(NodeId("session", sessionId), before.value, ordered[n]);
    && after.Some?
    && h == Graph(sessionId, after.value.nodes, after.value.edges)
  }

  lemma ShownStep(sessionId: string, ordered: seq<Event>, n: nat, g: Graph, h: Graph)
    requires 0 < n < |ordered|
    requires ShowsFold(sessionId, ordered, n, g) && ShowsFold(sessionId, ordered, n + 1, h)
    ensures OneStep(sessionId, ordered, n, g, h)
  {
    hide StepEvent;
    assert ordered[..n + 1][..n] == ordered[..n];
  }

  /** Each frame is one step of the fold from the frame before. */
  lemma FrameIsOneStep<P>(place: Graph -> P, sessionId: string, events: seq<Event>, i: nat)
    requires Frames(place, sessionId, events).Ok? && 0 < i < |events|
    ensures |Frames(place, sessionId, events).value| == |Ordered(events)| == |events|
    ensures OneStep(sessionId, Ordered(events), i, Frames(place, sessionId, events).value[i - 1].graph,
            Frames(place, sessionId, events).value[i].graph)
  {
    FrameShowsFold(place, sessionId, events, i - 1);
    FrameShowsFold(place, sessionId, events, i);
    hide Frames, Ordered, ShowsFold, OneStep;
    ShownStep(sessionId, Ordered(events), i, Frames(place, sessionId, events).value[i - 1].graph,
        Frames(place, sessionId, events).value[i].graph);
  }

  // ----- when a list can be built

  lemma GrowsInSize(f: Fold, g: Fold)
    requires Grows(f, g)
    ensures |f.nodes| <= |g.nodes| && |f.edges| <= |g.edges|
  {
    assert f.nodes.Keys <= g.nodes.Keys && f.edges.Keys <= g.edges.Keys;
    KeysWithin(f.nodes, g.nodes);
    KeysWithin(f.edges, g.edges);
  }

  lemma KeysWithin<V>(a: map<string, V>, b: map<string, V>)
    requires a.Keys <= b.Keys
    ensures |a| <= |b|
  {
    assert |b.Keys - a.Keys| == |b.Keys| - |a.Keys|;
    assert |a| == |a.Keys| && |b| == |b.Keys|;
  }

  lemma {:induction false} FilmedExactly<P>(place: Graph -> P, sessionId: string, first: int, events: seq<Event>)
    requires events != [] && InOrder(events)
    ensures Filmed(place, sessionId, first, events).Ok? <==>
            FoldAll(sessionId, first, events).Some? &&
            WithinBudget(Graph(sessionId, FoldAll(sessionId, first, events).value.nodes,
                FoldAll(sessionId, first, events).value.edges))
  {
    hide StepEvent, Grows, NoYounger, FoldStart;
    var init := events[..|events| - 1];
    if Filmed(place, sessionId, first, events).Ok? {
      FilmCarriesFold(place, sessionId, first, events);
      FilmCarriesFold(place, sessionId, first, init);
    } else if FoldAll(sessionId, first, events).Some? {
      FoldGrows(sessionId, first, events, |init|);
      GrowsInSize(FoldAll(sessionId, first, init).value, FoldAll(sessionId, first, events).value);
      if init != [] {
        FilmedExactly(place, sessionId, first, init);
      }
      if Filmed(place, sessionId, first, init).Ok? {
        FilmCarriesFold(place, sessionId, first, init);
      }
    }
  }

  /** A frame list exists exactly when the whole stream projects to a graph within
      the layout budget: no earlier prefix can fail on its own. */
  lemma BuildSucceedsExactly<P>(place: Graph -> P, sessionId: string, events: seq<Event>)
    ensures Frames(place, sessionId, events).Ok? <==>
            && Projected(sessionId, events).Ok?
            && |Projected(sessionId, events).value.nodes| <= 250000
            && |Projected(sessionId, events).value.edges| <= 1000000
  {
    if sessionId != "" && events != [] {
      OrderedInOrder(events);
      FilmedExactly(place, sessionId, Ordered(events)[0].sequence, Ordered(events));
    }
  }

  /** The first prefix that cannot be shown decides. */
  lemma {:induction false} FirstFailure<P>(place: Graph -> P, sessionId: string, first: int, events: seq<Event>, n: nat)
      returns (i: nat)
    requires n <= |events| && Filmed(place, sessionId, first, events[..n]).Err?
    ensures i < n && Filmed(place, sessionId, first, events[..i]).Ok?
    ensures Filmed(place, sessionId, first, events[..i + 1]) == Filmed(place, sessionId, first, events[..n])
  {
    hide Exposed, StepEvent;
    assert n > 0;
    assert events[..n][..n - 1] == events[..n - 1];
    if Filmed(place, sessionId, first, events[..n - 1]).Ok? {
      i := n - 1;
    } else {
      i := FirstFailure(place, sessionId, first, events, n - 1);
    }
  }

  /** The projection of the first i + 1 events is too large to lay out. */
  predicate TooLarge(sessionId: string, ordered: seq<Event>, i: nat)
    requires i < |ordered|
  {
    var g := Projected(sessionId, ordered[..i + 1]);
    g.Ok? && (|g.value.nodes| > 250000 || |g.value.edges| > 1000000)
  }

  ghost predicate SomeTooLarge(sessionId: string, ordered: seq<Event>) {
    exists i :: 0 <= i < |ordered| && TooLarge(sessionId, ordered, i)
  }

  /** Why there is no list: some prefix is too large to lay out, or else, with every
      prefix that projects small enough, an event cannot be projected. */
  lemma BuildFailsExactly<P>(place: Graph -> P, sessionId: string, events: seq<Event>)
    ensures Frames(place, sessionId, events) == Err(InvalidSession) <==> sessionId == ""
    ensures Frames(place, sessionId, events) == Err(Empty) <==> sessionId != "" && events == []
    ensures Frames(place, sessionId, events) == Err(OverBudget) <==>
              sessionId != "" && SomeTooLarge(sessionId, Ordered(events))
  {
    OrderedInOrder(events);
    assert |Ordered(events)| == |events| by { SameLength(Ordered(events), events); }
    assert events == [] ==> !SomeTooLarge(sessionId, Ordered(events));
    hide Ordered, Filmed, SomeTooLarge;
    if sessionId != "" && events != [] {
      SomeFails(place, sessionId, events);
    }
  }

  lemma SomeFails<P>(place: Graph -> P, sessionId: string, events: seq<Event>)
    requires sessionId != "" && events != []
    ensures Frames(place, sessionId, events) in {Err(BadMetadata), Err(OverBudget)}
            || Frames(place, sessionId, events).Ok?
    ensures Frames(place, sessionId, events) == Err(OverBudget) <==>
              SomeTooLarge(sessionId, Ordered(events))
  {
    hide Filmed, Ordered, InOrder, SomeTooLarge;
    OrderedInOrder(events);
    assert |Ordered(events)| == |events| by { SameLength(Ordered(events), events); }
    var film := Filmed(place, sessionId, Ordered(events)[0].sequence, Ordered(events));
    var r := Frames(place, sessionId, events);
    assert r.Ok? <==> film.Ok?;
    if film.Err? {
      assert r == Err(film.error);
      OneFailure(place, sessionId, Ordered(events));
    } else {
      NoneTooLarge(place, sessionId, Ordered(events));
    }
  }

  lemma NoneTooLarge<P>(place: Graph -> P, sessionId: string, ordered: seq<Event>)
    requires sessionId != "" && InOrder(ordered) && ordered != []
    requires Filmed(place, sessionId, ordered[0].sequence, ordered).Ok?
    ensures !SomeTooLarge(sessionId, ordered)
  {
    hide Filmed, Projected, InOrder;
    assert ordered[..|ordered|] == ordered;
    forall k | 0 <= k < |ordered| ensures !TooLarge(sessionId, ordered, k) {
      FilmShows(place, sessionId, ordered, |ordered|, k);
    }
  }

  lemma OneFailure<P>(place: Graph -> P, sessionId: string, ordered: seq<Event>)
    requires sessionId != "" && InOrder(ordered) && ordered != []
    requires Filmed(place, sessionId, ordered[0].sequence, ordered).Err?
    ensures var error := Filmed(place, sessionId, ordered[0].sequence, ordered).error;
            && (error == BadMetadata || error == OverBudget)
            && (error == OverBudget <==> SomeTooLarge(sessionId, ordered))
  {
    hide Filmed, Projected, InOrder, TooLarge;
    assert ordered[..|ordered|] == ordered;
    var i := FirstFailure(place, sessionId, ordered[0].sequence, ordered, |ordered|);
    FailsAt(place, sessionId, ordered, i);
    forall k | 0 <= k < |ordered| && TooLarge(sessionId, ordered, k)
      ensures Projected(sessionId, ordered[..i + 1]).Ok? {
      TooLargeStops(place, sessionId, ordered, k, i);
    }
  }

  lemma FailsAt<P>(place: Graph -> P, sessionId: string, ordered: seq<Event>, i: nat)
    requires sessionId != "" && InOrder(ordered) && i < |ordered|
    requires Filmed(place, sessionId, ordered[0].sequence, ordered[..i]).Ok?
    requires Filmed(place, sessionId, ordered[0].sequence, ordered[..i + 1]).Err?
    ensures Filmed(place, sessionId, ordered[0].sequence, ordered[..i + 1]).error ==
              if Projected(sessionId, ordered[..i + 1]).Ok? then OverBudget else BadMetadata
    ensures Projected(sessionId, ordered[..i + 1]).Ok? ==> TooLarge(sessionId, ordered, i)
  {
    NextFrame(place, sessionId, ordered, i);
    OnlyMetadataFails(sessionId, ordered, i);
    hide Filmed, Projected, InOrder;
  }

  lemma OnlyMetadataFails(sessionId: string, ordered: seq<Event>, i: nat)
    requires sessionId != "" && InOrder(ordered) && i < |ordered|
    ensures Projected(sessionId, ordered[..i + 1]).Err? ==> Projected(sessionId, ordered[..i + 1]) == Err(BadMetadata)
  {
    PrefixProjection(sessionId, ordered, i);
  }

  /** A prefix that is too large comes no sooner than the first failure, and so no
      event up to there fails to project. */
  lemma TooLargeStops<P>(place: Graph -> P, sessionId: string, ordered: seq<Event>, k: nat, i: nat)
    requires sessionId != "" && InOrder(ordered) && k < |ordered| && i < |ordered|
    requires TooLarge(sessionId, ordered, k) && Filmed(place, sessionId, ordered[0].sequence, ordered[..i]).Ok?
    ensures Projected(sessionId, ordered[..i + 1]).Ok?
  {
    hide Filmed, Projected, InOrder;
    if k < i {
      FilmShows(place, sessionId, ordered, i, k);
      assert false;
    } else {
      PrefixProjects(sessionId, ordered, i, k);
    }
  }

  /** What projects, projects up to any event of it. */
  lemma PrefixProjects(sessionId: string, ordered: seq<Event>, i: nat, k: nat)
    requires sessionId != "" && InOrder(ordered) && i <= k < |ordered| && Projected(sessionId, ordered[..k + 1]).Ok?
    ensures Projected(sessionId, ordered[..i + 1]).Ok?
  {
    PrefixProjection(sessionId, ordered, i);
    PrefixProjection(sessionId, ordered, k);
    assert ordered[..k + 1][..i + 1] == ordered[..i + 1];
    hide Projected, InOrder, FoldAll;
    if FoldAll(sessionId, ordered[0].sequence, ordered[..i + 1]).None? {
      FoldFails(sessionId, ordered[0].sequence, ordered[..k + 1], i + 1);
    }
  }

  /** Frame lists do not depend on the order of delivery. */
  lemma FramesIgnoreDelivery<P>(place: Graph -> P, sessionId: string, a: seq<Event>, b: seq<Event>)
    requires TiesAgree(a) && multiset(a) == multiset(b)
    ensures Frames(place, sessionId, a) == Frames(place, sessionId, b)
  {
    OrderIrrelevant(a, b);
    SameLength(a, b);
    hide Ordered, Filmed, TiesAgree;
  }

  // ----- the cursor

  class Cursor<P> {
    const frames: seq<Frame<P>>
    var index: int

    predicate Valid()
      reads this
    {
      0 <= index < |frames|
    }

    constructor (frames: seq<Frame<P>>)
      requires frames != []
      ensures Valid() && this.frames == frames && index == 0
    {
      this.frames := frames;
      index := 0;
    }

    /** Moves to an absolute index, or stays. */
    method Seek(target: int) returns (r: Option<Frame<P>>)
      requires Valid()
      modifies this
      ensures Valid()
      ensures 0 <= target < |frames| ==> index == target && r == Some(frames[target])
      ensures !(0 <= target < |frames|) ==> index == old(index) && r == None
    {
      if target < 0 || target >= |frames| {
        return None;
      }
      index := target;
      return Some(frames[index]);
    }

    method Step(delta: int) returns (r: Option<Frame<P>>)
      requires Valid()
      modifies this
      ensures Valid()
      ensures 0 <= old(index) + delta < |frames| ==> index == old(index) + delta && r == Some(frames[index])
      ensures !(0 <= old(index) + delta < |frames|) ==> index == old(index) && r == None
    {
      r := Seek(index + delta);
    }

    /** Moves to the first frame of a sequence number, or stays. */
    method SeekSequence(sequence: int) returns (r: Option<Frame<P>>)
      requires Valid()
      modifies this
      ensures Valid()
      ensures r.Some? <==> exists i :: 0 <= i < |frames| && frames[i].sequence == sequence
      ensures r.Some? ==> r.value == frames[index] && r.value.sequence == sequence
                          && forall i :: 0 <= i < index ==> frames[i].sequence != sequence
      ensures r.None? ==> index == old(index)
    {
      for i := 0 to |frames|
        invariant index == old(index)
        invariant forall j :: 0 <= j < i ==> frames[j].sequence != sequence
      {
        if frames[i].sequence == sequence {
          index := i;
          return Some(frames[i]);
        }
      }
      return None;
    }
  }
}
