/**
 The live bridge (visualizer/bridge/bridge.go): accepted events accumulate and
 the frame list is derived again only when something new was accepted.
 */
module Bridge {
  import opened Lex
  import opened Outcomes
  import opened SessionProjection
  import opened ProjectionGuarantees
  import opened Replay

  datatype Live<P> = Live(events: seq<Event>, frames: seq<Frame<P>>, built: bool)

  predicate AllValid(batch: seq<Event>) {
    forall e :: e in batch ==> ValidEvent(e)
  }

  /** A batch is taken whole or not at all. */
  function Delivered<P>(s: Live<P>, batch: seq<Event>): Live<P> {
    if AllValid(batch) then s.(events := s.events + batch, built := false) else s
  }

  /** A read fills the cache when it is stale; a failed read leaves it. */
  function AfterRead<P>(place: Graph -> P, sessionId: string, s: Live<P>): Live<P> {
    if s.built then s
    else
      match Frames(place, sessionId, s.events)
      case Err(_) => s
      case Ok(frames) => s.(frames := frames, built := true)
  }

  function ReadResult<P>(place: Graph -> P, sessionId: string, s: Live<P>): Result<seq<Frame<P>>, ProjectError> {
    if s.built then Ok(s.frames) else Frames(place, sessionId, s.events)
  }

  class LiveBridge<P> {
    const sessionId: string
    const place: Graph -> P
    var events: seq<Event>
    var frames: seq<Frame<P>>
    var built: bool

    function View(): Live<P>
      reads this
    {
      Live(events, frames, built)
    }

    constructor (place: Graph -> P, sessionId: string)
      requires sessionId != ""
      ensures View() == Live([], [], false) && this.sessionId == sessionId && this.place == place
    {
      this.place := place;
      this.sessionId := sessionId;
      events, frames, built := [], [], false;
    }

    method Apply(batch: seq<Event>) returns (ok: bool)
      modifies this
      ensures ok <==> AllValid(batch)
      ensures View() == Delivered(old(View()), batch)
    {
      for i := 0 to |batch|
        invariant forall j :: 0 <= j < i ==> ValidEvent(batch[j])
        invariant View() == old(View())
      {
        if !ValidEvent(batch[i]) {
          return false;
        }
      }
      events := events + batch;
      built := false;
      ok := true;
    }

    method FrameList() returns (r: Result<seq<Frame<P>>, ProjectError>)
      modifies this
      ensures r == ReadResult(place, sessionId, old(View()))
      ensures View() == AfterRead(place, sessionId, old(View()))
    {
      if !built {
        var list := Build(place, sessionId, events);
        if list.Err? {
          return list;
        }
        frames := list.value;
        built := true;
      }
      return Ok(frames);
    }

    /** Applies a subscription event by event, up to the first invalid one. */
    method Consume(stream: seq<Event>) returns (ok: bool)
      modifies this
      ensures ok <==> AllValid(stream)
      ensures exists n :: && 0 <= n <= |stream| && AllValid(stream[..n]) && (n < |stream| ==> !ValidEvent(stream[n]))
                          && events == old(events) + stream[..n] && (n > 0 ==> !built)
                          && (n == 0 ==> View() == old(View()))
    {
      for i := 0 to |stream|
        invariant AllValid(stream[..i]) && events == old(events) + stream[..i]
        invariant i > 0 ==> !built
        invariant i == 0 ==> View() == old(View())
      {
        ok := Apply([stream[i]]);
        assert ok <==> ValidEvent(stream[i]) by { assert stream[i] in [stream[i]]; }
        if !ok {
          assert stream[i] in stream;
          return;
        }
        assert stream[..i + 1] == stream[..i] + [stream[i]];
      }
      assert stream[..|stream|] == stream;
      ok := true;
    }
  }

  // ----- whole runs

  datatype Call = Apply(batch: seq<Event>) | FrameList

  function Stepped<P>(place: Graph -> P, sessionId: string, s: Live<P>, call: Call): Live<P> {
    match call
    case Apply(batch) => Delivered(s, batch)
    case FrameList => AfterRead(place, sessionId, s)
  }

  function RunCalls<P>(place: Graph -> P, sessionId: string, calls: seq<Call>): Live<P> {
    if calls == [] then Live([], [], false)
    else Stepped(place, sessionId, RunCalls(place, sessionId, calls[..|calls| - 1]), calls[|calls| - 1])
  }

  /** The events of the batches that were valid, as delivered. */
  function Accepted(calls: seq<Call>): seq<Event> {
    if calls == [] then []
    else
      var before := Accepted(calls[..|calls| - 1]);
      match calls[|calls| - 1]
      case Apply(batch) => if AllValid(batch) then before + batch else before
      case FrameList => before
  }

  /** The cache is never stale when it says it is built. */
  lemma {:induction false} CacheIsFresh<P>(place: Graph -> P, sessionId: string, calls: seq<Call>)
    ensures var s := RunCalls(place, sessionId, calls);
            s.events == Accepted(calls) && (s.built ==> Frames(place, sessionId, s.events) == Ok(s.frames))
  {
    if calls != [] {
      CacheIsFresh(place, sessionId, calls[..|calls| - 1]);
    }
  }

  /** Live equals replay: after any interleaving of calls, reading the bridge
      gives what Build gives for the accepted events in any other order. */
  lemma LiveEqualsReplay<P>(place: Graph -> P, sessionId: string, calls: seq<Call>, events: seq<Event>)
    requires multiset(events) == multiset(Accepted(calls)) && TiesAgree(events)
    ensures ReadResult(place, sessionId, RunCalls(place, sessionId, calls)) == Frames(place, sessionId, events)
  {
    CacheIsFresh(place, sessionId, calls);
    FramesIgnoreDelivery(place, sessionId, events, Accepted(calls));
  }

  /** Accepted events are valid, so no live graph ever has a self-loop. */
  lemma {:induction false} AcceptedValid(calls: seq<Call>)
    ensures AllValid(Accepted(calls))
  {
    if calls != [] {
      AcceptedValid(calls[..|calls| - 1]);
    }
  }

  lemma LiveGraphsAreProper<P>(place: Graph -> P, sessionId: string, calls: seq<Call>, i: nat)
    requires ReadResult(place, sessionId, RunCalls(place, sessionId, calls)).Ok?
    requires i < |Accepted(calls)|
    ensures var frames := ReadResult(place, sessionId, RunCalls(place, sessionId, calls)).value;
            && |frames| == |Accepted(calls)|
            && forall k :: k in frames[i].graph.edges ==>
                var edge := frames[i].graph.edges[k];
                edge.source != edge.target && edge.source in frames[i].graph.nodes
                    && edge.target in frames[i].graph.nodes
  {
    CacheIsFresh(place, sessionId, calls);
    var events := Accepted(calls);
    FramesShow(place, sessionId, events, i);
    AcceptedValid(calls);
    var prefix := Ordered(events)[..i + 1];
    forall e | e in prefix ensures ValidEvent(e) {
      assert e in Ordered(events) && e in multiset(Ordered(events));
    }
    hide Frames, Ordered, Projected, RunCalls, ReadResult;
    ProjectionHasNoSelfLoop(sessionId, prefix);
    EdgesHaveEndpoints(sessionId, prefix);
  }
}
