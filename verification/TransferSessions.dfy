/**
 Series of transfer sessions, each possibly cut short: nothing is sent twice,
 nothing wrong is kept, and the first uncut session returns the payload.
 */
module TransferSessions {
  import opened Lex
  import opened Outcomes
  import opened ChunkTransfer

  /** How a session goes wrong, if it does: the offer is dropped, or only so many
      sends get through. */
  datatype Cut = OfferDropped | Sends(budget: Option<nat>)

  function Missing(m: Manifest, held: Held): seq<int> {
    Listed(held.have, 0, |m.chunks|, false)
  }

  /** What reaches the receiver once the offer has arrived. */
  function Arriving(src: Source, held: Held, budget: Option<nat>): seq<Frame> {
    Delivered(Outgoing(src, Elems(Listed(held.have, 0, |src.manifest.chunks|, true))), budget)
  }

  function Session(hash: Bytes -> string, src: Source, held: Held, cut: Cut): (Held, Option<Result<Bytes,
      TransferError>>) {
    match cut
    case OfferDropped => (held, None)
    case Sends(budget) => Consume(hash, src.manifest, held, Arriving(src, held, budget))
  }

  /** One session over the two halves of the connection. */
  method RunSession(hash: Bytes -> string, src: Source, recv: Receiver, cut: Cut)
      returns (r: Option<Result<Bytes, TransferError>>)
    requires recv.hash == hash && recv.manifest == src.manifest
    modifies recv
    ensures (recv.View(), r) == Session(hash, src, old(recv.View()), cut)
  {
    var offer := recv.Have();
    if cut.OfferDropped? {
      return None;
    }
    var wire := new Wire(cut.budget);
    var _ := Push(src, wire, offer);
    assert (set i | i in offer) == Elems(offer);
    assert wire.inbox == Arriving(src, old(recv.View()), cut.budget);
    r := recv.Run(wire.inbox);
  }

  /** Everything held is a chunk of the payload. */
  ghost predicate Genuine(src: Source, held: Held)
    requires src.manifest.chunkSize > 0
  {
    && held.parts.Keys == held.have
    && forall i :: i in held.have ==>
         0 <= i < |src.manifest.chunks| && held.parts[i] == Piece(src.data, src.manifest.chunkSize, i)
  }

  // ----- index lists

  lemma {:induction false} ListedFacts(have: set<int>, k: nat, n: nat, wanted: bool)
    requires k <= n
    ensures forall i :: i in Listed(have, k, n, wanted) <==> k <= i < n && ((i in have) == wanted)
    ensures Ascending(Listed(have, k, n, wanted))
    decreases n - k
  {
    if k < n {
      ListedFacts(have, k + 1, n, wanted);
      var rest := Listed(have, k + 1, n, wanted);
      forall j | 0 <= j < |rest| ensures k < rest[j] { assert rest[j] in rest; }
      assert Listed(have, k, n, wanted) == (if (k in have) == wanted then [k] else []) + rest;
    }
  }

  predicate Ascending(s: seq<int>) {
    forall i, j :: 0 <= i < j < |s| ==> s[i] < s[j]
  }

  predicate InRange(src: Source, indices: seq<int>) {
    forall j :: 0 <= j < |indices| ==> 0 <= indices[j] < |src.manifest.chunks|
  }

  /** The data frames for a list of chunk indices. */
  function DataFrames(src: Source, indices: seq<int>): seq<Frame>
    requires InRange(src, indices) && src.manifest.chunkSize > 0
  {
    seq(|indices|, j requires 0 <= j < |indices| =>
      Data(src.manifest.chunks[indices[j]], Piece(src.data, src.manifest.chunkSize, indices[j])))
  }

  lemma {:induction false} FramesAreMissing(hash: Bytes -> string, src: Source, have: set<int>, k: nat)
    requires Describes(hash, src.data, src.manifest) && k <= |src.manifest.chunks|
    ensures InRange(src, Listed(have, k, |src.manifest.chunks|, false))
    ensures FramesFrom(src, have, k) == DataFrames(src, Listed(have, k, |src.manifest.chunks|, false))
    ensures Fault(src, have, k) == None
    decreases |src.manifest.chunks| - k
  {
    if k < |src.manifest.chunks| {
      FramesAreMissing(hash, src, have, k + 1);
      ChunkIndex(hash, src, k);
      ChunkDataIsPiece(hash, src, k);
      var rest := Listed(have, k + 1, |src.manifest.chunks|, false);
      if k !in have {
        assert Listed(have, k, |src.manifest.chunks|, false) == [k] + rest;
        assert DataFrames(src, [k] + rest) ==
               [Data(src.manifest.chunks[k], Piece(src.data, src.manifest.chunkSize, k))] + DataFrames(src, rest);
      } else {
        assert Listed(have, k, |src.manifest.chunks|, false) == rest;
      }
    }
  }

  /** The chunks a session delivers: the missing ones in order, as far as it gets. */
  function DeliveredChunks(m: Manifest, held: Held, cut: Cut): seq<int> {
    match cut
    case OfferDropped => []
    case Sends(budget) =>
      if budget.Some? && budget.value < |Missing(m, held)| then Missing(m, held)[..budget.value] else Missing(m, held)
  }

  /** A session is cut unless the close frame, too, gets through. */
  predicate IsCut(m: Manifest, held: Held, cut: Cut) {
    cut.OfferDropped? || (cut.budget.Some? && cut.budget.value <= |Missing(m, held)|)
  }

  /** The frames that arrive are those of the missing chunks, in index order, and
      the close frame exactly when the session is not cut. */
  lemma SendsExactlyTheMissing(hash: Bytes -> string, src: Source, held: Held, budget: Option<nat>)
    requires Describes(hash, src.data, src.manifest) && Genuine(src, held)
    ensures InRange(src, DeliveredChunks(src.manifest, held, Sends(budget)))
    ensures Arriving(src, held, budget) ==
              DataFrames(src, DeliveredChunks(src.manifest, held, Sends(budget)))
              + (if IsCut(src.manifest, held, Sends(budget)) then [] else [Close])
  {
    OfferIsHave(src, held);
    FramesAreMissing(hash, src, held.have, 0);
    CutFrames(src, Missing(src.manifest, held), budget);
  }

  lemma OfferIsHave(src: Source, held: Held)
    requires src.manifest.chunkSize > 0 && Genuine(src, held)
    ensures Elems(Listed(held.have, 0, |src.manifest.chunks|, true)) == held.have
  {
    var offered := Listed(held.have, 0, |src.manifest.chunks|, true);
    ListedFacts(held.have, 0, |src.manifest.chunks|, true);
    forall i ensures i in Elems(offered) <==> i in held.have {
      assert i in Elems(offered) <==> i in offered;
    }
  }

  lemma CutFrames(src: Source, missing: seq<int>, budget: Option<nat>)
    requires InRange(src, missing) && src.manifest.chunkSize > 0
    ensures var upTo := if budget.Some? && budget.value < |missing| then missing[..budget.value] else missing;
            Delivered(DataFrames(src, missing) + [Close], budget) ==
              DataFrames(src, upTo) + (if budget.Some? && budget.value <= |missing| then [] else [Close])
  {
    if budget.Some? && budget.value <= |missing| {
      assert (DataFrames(src, missing) + [Close])[..budget.value] == DataFrames(src, missing[..budget.value]);
      assert missing[..|missing|] == missing;
    }
  }

  /** A genuine data frame is accepted. */
  lemma AcceptsGenuine(hash: Bytes -> string, src: Source, held: Held, i: nat)
    requires Describes(hash, src.data, src.manifest) && Genuine(src, held) && i < |src.manifest.chunks|
    ensures var piece := Piece(src.data, src.manifest.chunkSize, i);
            var next := Held(held.have + {i}, held.parts[i := piece]);
            Genuine(src, next) && AcceptInto(hash, src.manifest, held, src.manifest.chunks[i], piece) == (next, Ok(()))
  {
    assert ChunkOk(hash, src.data, src.manifest.chunkSize, i, src.manifest.chunks[i]);
  }

  /** Frames for chunks of the payload are all taken, whatever follows them. */
  lemma {:induction false} ConsumesData(hash: Bytes -> string, src: Source, held: Held, indices: seq<int>,
      tail: seq<Frame>) returns (after: Held)
    requires Describes(hash, src.data, src.manifest) && Genuine(src, held)
    requires InRange(src, indices)
    ensures Genuine(src, after) && after.have == held.have + Elems(indices)
    ensures Consume(hash, src.manifest, held, DataFrames(src, indices) + tail) ==
            Consume(hash, src.manifest, after, tail)
    decreases |indices|
  {
    if indices == [] {
      assert DataFrames(src, indices) + tail == tail;
      after := held;
    } else {
      var i := indices[0];
      AcceptsGenuine(hash, src, held, i);
      var next := Held(held.have + {i}, held.parts[i := Piece(src.data, src.manifest.chunkSize, i)]);
      hide Describes, Genuine;
      after := ConsumesData(hash, src, next, indices[1..], tail);
      FirstFrame(src, indices, tail);
      assert indices == [i] + indices[1..];
      assert Elems(indices) == {i} + Elems(indices[1..]);
    }
  }

  lemma FirstFrame(src: Source, indices: seq<int>, tail: seq<Frame>)
    requires indices != [] && InRange(src, indices)
    requires src.manifest.chunkSize > 0
    ensures var frames := DataFrames(src, indices) + tail;
            && frames[0] == Data(src.manifest.chunks[indices[0]], Piece(src.data, src.manifest.chunkSize, indices[0]))
            && frames[1..] == DataFrames(src, indices[1..]) + tail
  {
  }

  lemma CompleteIsPayload(hash: Bytes -> string, src: Source, held: Held)
    requires Describes(hash, src.data, src.manifest) && Genuine(src, held) && Missing(src.manifest, held) == []
    ensures Completed(hash, src.manifest, held) == Ok(src.data)
  {
    var n := |src.manifest.chunks|;
    ListedFacts(held.have, 0, n, false);
    forall i: int | 0 <= i < n ensures i in held.have { assert i !in Missing(src.manifest, held); }
    AssembledIsData(held.parts, src.data, src.manifest.chunkSize, n);
    assert src.data[..|src.data|] == src.data;
  }

  /** One session: what is held stays genuine and grows by exactly the delivered
      chunks; an uncut session ends with the payload, a cut one without result. */
  lemma SessionFacts(hash: Bytes -> string, src: Source, held: Held, cut: Cut)
    requires Describes(hash, src.data, src.manifest) && Genuine(src, held)
    ensures var (after, r) := Session(hash, src, held, cut);
            && Genuine(src, after)
            && after.have == held.have + Elems(DeliveredChunks(src.manifest, held, cut))
            && r == (if IsCut(src.manifest, held, cut) then None else Some(Ok(src.data)))
  {
    if cut.Sends? {
      SendsExactlyTheMissing(hash, src, held, cut.budget);
      var indices := DeliveredChunks(src.manifest, held, cut);
      var tail := if IsCut(src.manifest, held, cut) then [] else [Close];
      var after := ConsumesData(hash, src, held, indices, tail);
      hide Describes, Genuine;
      if !IsCut(src.manifest, held, cut) {
        NothingMissing(src, held, after);
        CompleteIsPayload(hash, src, after);
      }
    } else {
      assert Elems(DeliveredChunks(src.manifest, held, cut)) == {};
    }
  }

  lemma NothingMissing(src: Source, held: Held, after: Held)
    requires after.have == held.have + Elems(Missing(src.manifest, held))
    ensures Missing(src.manifest, after) == []
  {
    var n := |src.manifest.chunks|;
    ListedFacts(held.have, 0, n, false);
    ListedFacts(after.have, 0, n, false);
    forall i: int | 0 <= i < n ensures i in after.have {
      assert i in held.have || i in Missing(src.manifest, held);
    }
    ElemsEmpty(Missing(src.manifest, after));
    forall i ensures i !in Missing(src.manifest, after) {}
  }

  // ----- a series

  function After(hash: Bytes -> string, src: Source, held: Held, cuts: seq<Cut>): Held
    decreases |cuts|
  {
    if cuts == [] then held else After(hash, src, Session(hash, src, held, cuts[0]).0, cuts[1..])
  }

  function AllDelivered(hash: Bytes -> string, src: Source, held: Held, cuts: seq<Cut>): seq<int>
    decreases |cuts|
  {
    if cuts == [] then []
    else
      DeliveredChunks(src.manifest, held, cuts[0])
      + AllDelivered(hash, src, Session(hash, src, held, cuts[0]).0, cuts[1..])
  }

  /** Over any series of sessions only genuine chunks are held, no chunk is
      delivered twice, and none the receiver started with is delivered at all. */
  lemma {:induction false} SeriesFacts(hash: Bytes -> string, src: Source, held: Held, cuts: seq<Cut>)
    requires Describes(hash, src.data, src.manifest) && Genuine(src, held)
    ensures var delivered := AllDelivered(hash, src, held, cuts);
            var after := After(hash, src, held, cuts);
            && Genuine(src, after)
            && after.have == held.have + Elems(delivered)
            && Distinct(delivered)
            && (forall i :: i in delivered ==> i !in held.have)
    decreases |cuts|
  {
    hide Describes, Genuine;
    if cuts == [] {
      assert held.have == held.have + Elems<int>([]);
    } else {
      SessionFacts(hash, src, held, cuts[0]);
      var next := Session(hash, src, held, cuts[0]).0;
      SeriesFacts(hash, src, next, cuts[1..]);
      DeliveredOnce(src, held, cuts[0]);
      var here, later := DeliveredChunks(src.manifest, held, cuts[0]), AllDelivered(hash, src, next, cuts[1..]);
      JoinDistinct(here, later);
    }
  }

  lemma DeliveredOnce(src: Source, held: Held, cut: Cut)
    ensures Distinct(DeliveredChunks(src.manifest, held, cut))
    ensures forall i :: i in DeliveredChunks(src.manifest, held, cut) ==> i !in held.have
  {
    ListedFacts(held.have, 0, |src.manifest.chunks|, false);
    forall i | i in DeliveredChunks(src.manifest, held, cut) ensures i !in held.have {
      assert i in Missing(src.manifest, held);
    }
  }

  lemma JoinDistinct(a: seq<int>, b: seq<int>)
    requires Distinct(a) && Distinct(b) && forall i :: i in b ==> i !in Elems(a)
    ensures Distinct(a + b) && Elems(a + b) == Elems(a) + Elems(b)
  {
    forall i, j | 0 <= i < j < |a + b| ensures (a + b)[i] != (a + b)[j] {
      if i < |a| <= j {
        assert (a + b)[j] in b && (a + b)[i] in a;
      }
    }
  }

  /** However many sessions were cut before, and wherever, the next uncut session
      returns exactly the payload, for every payload and chunk size. */
  lemma FirstUncutSessionReturnsPayload(hash: Bytes -> string, src: Source, cuts: seq<Cut>, last: Cut)
    requires Describes(hash, src.data, src.manifest)
    requires !IsCut(src.manifest, After(hash, src, Held({}, map[]), cuts), last)
    ensures Session(hash, src, After(hash, src, Held({}, map[]), cuts), last).1 == Some(Ok(src.data))
  {
    assert Genuine(src, Held({}, map[]));
    hide Describes, Genuine;
    SeriesFacts(hash, src, Held({}, map[]), cuts);
    SessionFacts(hash, src, After(hash, src, Held({}, map[]), cuts), last);
  }

  // ----- corrupted frames

  ghost predicate CollisionFree(hash: Bytes -> string) {
    forall a, b :: hash(a) == hash(b) ==> a == b
  }

  /** With a collision-free hash the receiver keeps only genuine chunks, and
      completes only with the payload, whatever frames reach it. */
  lemma {:induction false} OnlyGenuineKept(hash: Bytes -> string, src: Source, held: Held, inbox: seq<Frame>)
    requires Describes(hash, src.data, src.manifest) && Genuine(src, held) && CollisionFree(hash)
    ensures var (after, r) := Consume(hash, src.manifest, held, inbox);
            Genuine(src, after) && (r.Some? && r.value.Ok? ==> r.value.value == src.data)
    decreases |inbox|
  {
    if inbox != [] && inbox[0].Data? {
      var (next, r) := AcceptInto(hash, src.manifest, held, inbox[0].chunk, inbox[0].data);
      var i := inbox[0].chunk.index;
      if r.Ok? {
        assert ChunkOk(hash, src.data, src.manifest.chunkSize, i, src.manifest.chunks[i]);
        assert inbox[0].data == Piece(src.data, src.manifest.chunkSize, i);
        OnlyGenuineKept(hash, src, next, inbox[1..]);
      }
    }
  }
}
