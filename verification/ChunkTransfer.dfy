/**
 Resumable, hash-verified chunk transfer (sync/transfer/transfer.go).

 A session offers what the receiver holds, sends the missing chunks in order and
 then a close frame. A dropped send cuts the session short; what was sent before
 it has been delivered. The hash is any function; collisions are excluded only
 where a statement says so.
 */
module ChunkTransfer {
  import opened Outcomes

  newtype Byte = b: int | 0 <= b < 256

  type Bytes = seq<Byte>

  const DEFAULT_CHUNK_SIZE: int := 64 * 1024

  datatype Chunk = Chunk(index: int, offset: nat, length: nat, hash: string)

  datatype Manifest = Manifest(id: string, name: string, size: int, chunkSize: int, hash: string, chunks: seq<Chunk>)

  datatype TransferError = Invalid | NotFound | Corrupt

  // ----- cutting a payload into chunks

  /** Where chunk i of a payload of length n starts. */
  function Start(i: nat, size: nat, n: nat): (r: nat)
    ensures r <= n
  {
    if i * size < n then i * size else n
  }

  lemma StartFacts(i: nat, size: nat, n: nat)
    requires size > 0
    ensures Start(i, size, n) <= Start(i + 1, size, n)
    ensures i * size < n ==> Start(i + 1, size, n) == if i * size + size < n then i * size + size else n
    ensures i * size >= n ==> Start(i + 1, size, n) == n
  {
    assert (i + 1) * size == i * size + size;
  }

  function Piece(data: Bytes, size: nat, i: nat): Bytes
    requires size > 0
  {
    StartFacts(i, size, |data|);
    data[Start(i, size, |data|)..Start(i + 1, size, |data|)]
  }

  /** The manifest lists every piece, in order, none of them empty, and the last
      one ends the payload. */
  ghost predicate Describes(hash: Bytes -> string, data: Bytes, m: Manifest) {
    && m.chunkSize > 0
    && m.size == |data| && m.hash == hash(data)
    && Start(|m.chunks|, m.chunkSize, |data|) == |data|
    && forall i :: 0 <= i < |m.chunks| ==> ChunkOk(hash, data, m.chunkSize, i, m.chunks[i])
  }

  ghost predicate ChunkOk(hash: Bytes -> string, data: Bytes, size: nat, i: nat, c: Chunk)
    requires size > 0
  {
    var piece := Piece(data, size, i);
    piece != [] && c == Chunk(i, Start(i, size, |data|), |piece|, hash(piece))
  }

  method Build(hash: Bytes -> string, id: string, name: string, data: Bytes, chunkSize: int)
      returns (r: Result<Manifest, TransferError>)
    ensures r.Err? <==> id == ""
    ensures r.Ok? ==> Describes(hash, data, r.value) && r.value.id == id && r.value.name == name
    ensures r.Ok? ==> r.value.chunkSize == if chunkSize <= 0 then DEFAULT_CHUNK_SIZE else chunkSize
  {
    if id == "" {
      return Err(Invalid);
    }
    var size := if chunkSize <= 0 then DEFAULT_CHUNK_SIZE else chunkSize;
    var chunks: seq<Chunk> := [];
    var offset := 0;
    while offset < |data|
      invariant offset == |chunks| * size
      invariant Start(|chunks|, size, |data|) == if offset < |data| then offset else |data|
      invariant offset >= 0
      invariant forall i :: 0 <= i < |chunks| ==>
                  ChunkOk(hash, data, size, i, chunks[i])
      decreases |data| - offset
    {
      var end := offset + size;
      if end > |data| {
        end := |data|;
      }
      var part := data[offset..end];
      StartFacts(|chunks|, size, |data|);
      assert part == Piece(data, size, |chunks|);
      assert (|chunks| + 1) * size == offset + size;
      chunks := chunks + [Chunk(|chunks|, offset, |part|, hash(part))];
      offset := offset + size;
    }
    return Ok(Manifest(id, name, |data|, size, hash(data), chunks));
  }

  datatype Source = Source(manifest: Manifest, data: Bytes) {
    /** The bytes of a chunk; an index past the list or a chunk past the payload
        is an error. */
    function ChunkData(index: int): Result<Bytes, TransferError> {
      if index < 0 || index >= |manifest.chunks| then Err(NotFound)
      else
        var ch := manifest.chunks[index];
        if ch.offset + ch.length > |data| then Err(Corrupt)
        else Ok(data[ch.offset..ch.offset + ch.length])
    }
  }

  lemma ChunkDataIsPiece(hash: Bytes -> string, src: Source, i: nat)
    requires Describes(hash, src.data, src.manifest) && i < |src.manifest.chunks|
    ensures src.ChunkData(i) == Ok(Piece(src.data, src.manifest.chunkSize, i))
  {
    StartFacts(i, src.manifest.chunkSize, |src.data|);
    assert ChunkOk(hash, src.data, src.manifest.chunkSize, i, src.manifest.chunks[i]);
  }

  lemma JoinSlices(data: Bytes, a: nat, b: nat)
    requires a <= b <= |data|
    ensures data[..a] + data[a..b] == data[..b]
  {
  }

  /** The first k pieces one after the other. */
  function Assembled(parts: map<int, Bytes>, k: nat): Bytes {
    if k == 0 then [] else Assembled(parts, k - 1) + (if k - 1 in parts then parts[k - 1] else [])
  }

  lemma {:induction false} AssembledIsData(parts: map<int, Bytes>, data: Bytes, size: nat, k: nat)
    requires size > 0
    requires forall i :: 0 <= i < k ==> i in parts && parts[i] == Piece(data, size, i)
    ensures Assembled(parts, k) == data[..Start(k, size, |data|)]
  {
    if k > 0 {
      AssembledIsData(parts, data, size, k - 1);
      StartFacts(k - 1, size, |data|);
      JoinSlices(data, Start(k - 1, size, |data|), Start(k, size, |data|));
      hide Start;
    }
  }

  // ----- the receiver

  /** The indices from k on that are, or are not, in have. */
  function Listed(have: set<int>, k: nat, n: nat, wanted: bool): seq<int>
    decreases n - k
  {
    if k >= n then []
    else (if (k in have) == wanted then [k] else []) + Listed(have, k + 1, n, wanted)
  }

  datatype Held = Held(have: set<int>, parts: map<int, Bytes>)

  class Receiver {
    const hash: Bytes -> string
    const manifest: Manifest
    var parts: map<int, Bytes>
    var have: set<int>

    constructor (hash: Bytes -> string, manifest: Manifest)
      ensures this.hash == hash && this.manifest == manifest && View() == Held({}, map[])
    {
      this.hash, this.manifest, parts, have := hash, manifest, map[], {};
    }

    ghost function View(): Held
      reads this
    {
      Held(have, parts)
    }

    /** Stores a chunk whose index, length and hash match the manifest. */
    method Accept(chunk: Chunk, data: Bytes) returns (r: Result<(), TransferError>)
      modifies this
      ensures (View(), r) == AcceptInto(hash, manifest, old(View()), chunk, data)
    {
      if chunk.index < 0 || chunk.index >= |manifest.chunks| {
        return Err(Invalid);
      }
      var want := manifest.chunks[chunk.index];
      if |data| != want.length {
        return Err(Corrupt);
      }
      if hash(data) != want.hash {
        return Err(Corrupt);
      }
      parts := parts[chunk.index := data];
      have := have + {chunk.index};
      return Ok(());
    }

    method Have() returns (out: seq<int>)
      ensures out == Listed(have, 0, |manifest.chunks|, true)
    {
      out := Collect(true);
    }

    method Missing() returns (out: seq<int>)
      ensures out == Listed(have, 0, |manifest.chunks|, false)
    {
      out := Collect(false);
    }

    method Collect(wanted: bool) returns (out: seq<int>)
      ensures out == Listed(have, 0, |manifest.chunks|, wanted)
    {
      out := [];
      for i := 0 to |manifest.chunks|
        invariant out + Listed(have, i, |manifest.chunks|, wanted) == Listed(have, 0, |manifest.chunks|, wanted)
      {
        if (i in have) == wanted {
          out := out + [i];
        }
      }
    }

    /** Assembles the payload once nothing is missing and checks its hash. */
    method Complete() returns (r: Result<Bytes, TransferError>)
      ensures r == Completed(hash, manifest, View())
    {
      var missing := Missing();
      if |missing| != 0 {
        return Err(NotFound);
      }
      var buf: Bytes := [];
      for i := 0 to |manifest.chunks|
        invariant buf == Assembled(parts, i)
      {
        buf := buf + (if i in parts then parts[i] else []);
      }
      if hash(buf) != manifest.hash {
        return Err(Corrupt);
      }
      return Ok(buf);
    }

    /** Takes frames until a close frame, an error, or the end of what the wire
        delivers. */
    method Run(inbox: seq<Frame>) returns (r: Option<Result<Bytes, TransferError>>)
      modifies this
      ensures (View(), r) == Consume(hash, manifest, old(View()), inbox)
    {
      for i := 0 to |inbox|
        invariant Consume(hash, manifest, View(), inbox[i..]) == Consume(hash, manifest, old(View()), inbox)
      {
        assert inbox[i..][0] == inbox[i] && inbox[i..][1..] == inbox[i + 1..];
        match inbox[i] {
          case Close =>
            var done := Complete();
            return Some(done);
          case Data(chunk, data) =>
            var accepted := Accept(chunk, data);
            if accepted.Err? {
              return Some(Err(accepted.error));
            }
          case Other(_) =>
            return Some(Err(Invalid));
        }
      }
      return None;
    }
  }

  /** A frame of the wire; Other stands for every kind the receiver refuses. */
  datatype Frame = Data(chunk: Chunk, data: Bytes) | Close | Other(kind: string)

  function AcceptInto(hash: Bytes -> string, m: Manifest, held: Held, chunk: Chunk, data: Bytes)
    : (Held, Result<(), TransferError>)
  {
    if chunk.index < 0 || chunk.index >= |m.chunks| then (held, Err(Invalid))
    else if |data| != m.chunks[chunk.index].length || hash(data) != m.chunks[chunk.index].hash then (held, Err(Corrupt))
    else (Held(held.have + {chunk.index}, held.parts[chunk.index := data]), Ok(()))
  }

  function Completed(hash: Bytes -> string, m: Manifest, held: Held): Result<Bytes, TransferError> {
    if Listed(held.have, 0, |m.chunks|, false) != [] then Err(NotFound)
    else if hash(Assembled(held.parts, |m.chunks|)) != m.hash then Err(Corrupt)
    else Ok(Assembled(held.parts, |m.chunks|))
  }

  function Consume(hash: Bytes -> string, m: Manifest, held: Held, inbox: seq<Frame>)
    : (Held, Option<Result<Bytes, TransferError>>)
    decreases |inbox|
  {
    if inbox == [] then (held, None)
    else
      match inbox[0]
      case Close => (held, Some(Completed(hash, m, held)))
      case Other(_) => (held, Some(Err(Invalid)))
      case Data(chunk, data) =>
        var (next, r) := AcceptInto(hash, m, held, chunk, data);
        if r.Err? then (next, Some(Err(r.error))) else Consume(hash, m, next, inbox[1..])
  }

  // ----- the sender

  /** One direction of the wire: a FIFO inbox, and how many sends succeed before
      one is dropped (None: all of them). */
  class Wire {
    var inbox: seq<Frame>
    var budget: Option<nat>

    constructor (budget: Option<nat>)
      ensures inbox == [] && this.budget == budget
    {
      inbox, this.budget := [], budget;
    }

    method Send(f: Frame) returns (ok: bool)
      modifies this
      ensures ok <==> old(budget) != Some(0)
      ensures inbox == if ok then old(inbox) + [f] else old(inbox)
      ensures budget == if ok && old(budget).Some? then Some(old(budget).value - 1) else old(budget)
    {
      if budget == Some(0) {
        return false;
      }
      inbox := inbox + [f];
      budget := if budget.Some? then Some(budget.value - 1) else None;
      return true;
    }
  }

  /** The data frames for the chunks not in skip, from position k on, up to the
      first whose bytes cannot be read. */
  function FramesFrom(src: Source, skip: set<int>, k: nat): seq<Frame>
    decreases |src.manifest.chunks| - k
  {
    if k >= |src.manifest.chunks| then []
    else
      var chunk := src.manifest.chunks[k];
      if chunk.index in skip then FramesFrom(src, skip, k + 1)
      else
        match src.ChunkData(chunk.index)
        case Err(_) => []
        case Ok(data) => [Data(chunk, data)] + FramesFrom(src, skip, k + 1)
  }

  /** The error of the first chunk from position k on that cannot be read. */
  function Fault(src: Source, skip: set<int>, k: nat): Option<TransferError>
    decreases |src.manifest.chunks| - k
  {
    if k >= |src.manifest.chunks| then None
    else
      var chunk := src.manifest.chunks[k];
      if chunk.index !in skip && src.ChunkData(chunk.index).Err? then Some(src.ChunkData(chunk.index).error)
      else Fault(src, skip, k + 1)
  }

  /** Everything a push sends if no send is dropped. */
  function Outgoing(src: Source, skip: set<int>): seq<Frame> {
    FramesFrom(src, skip, 0) + if Fault(src, skip, 0).None? then [Close] else []
  }

  /** What gets through before a drop. */
  function Delivered(frames: seq<Frame>, budget: Option<nat>): seq<Frame> {
    if budget.Some? && budget.value < |frames| then frames[..budget.value] else frames
  }

  /** The budget after n successful sends. */
  function Left(budget: Option<nat>, n: nat): Option<nat>
    requires budget.Some? ==> n <= budget.value
  {
    if budget.Some? then Some(budget.value - n) else None
  }

  datatype Pushed = Sent | Dropped | Unreadable(error: TransferError)

  /** Sends every chunk not in have, then a close frame, until a send fails or a
      chunk cannot be read. */
  method Push(src: Source, wire: Wire, have: seq<int>) returns (r: Pushed)
    modifies wire
    ensures var skip := set i | i in have;
            && wire.inbox == old(wire.inbox) + Delivered(Outgoing(src, skip), old(wire.budget))
            && (r.Dropped? <==> old(wire.budget).Some? && old(wire.budget).value < |Outgoing(src, skip)|)
            && (r.Unreadable? <==> !r.Dropped? && Fault(src, skip, 0).Some?)
            && (r.Unreadable? ==> r.error == Fault(src, skip, 0).value)
  {
    hide Delivered, Source.ChunkData, FramesFrom, Fault;
    ghost var before, budget := wire.inbox, wire.budget;
    var skip := set i | i in have;
    ghost var sent: seq<Frame> := [];
    ghost var tail := if Fault(src, skip, 0).None? then [Close] else [];
    assert before + sent == before;
    for k := 0 to |src.manifest.chunks|
      invariant wire.inbox == before + sent
      invariant sent + FramesFrom(src, skip, k) == FramesFrom(src, skip, 0)
      invariant Fault(src, skip, k) == Fault(src, skip, 0)
      invariant budget.Some? ==> |sent| <= budget.value
      invariant wire.budget == Left(budget, |sent|)
    {
      PushRound(src, skip, k);
      var chunk := src.manifest.chunks[k];
      if chunk.index in skip {
        continue;
      }
      var data := src.ChunkData(chunk.index);
      if data.Err? {
        DeliveredAll(sent, budget);
        assert sent + [] == sent;
        return Unreadable(data.error);
      }
      var frame := Data(chunk, data.value);
      NextFrame(before, sent, frame, FramesFrom(src, skip, k + 1));
      var ok := wire.Send(frame);
      if !ok {
        DeliveredCut(sent, FramesFrom(src, skip, k), tail, budget);
        return Dropped;
      }
      sent := sent + [frame];
    }
    PushEnds(src, skip);
    assert sent + [] == sent;
    NextFrame(before, sent, Close, []);
    var ok := wire.Send(Close);
    if !ok {
      DeliveredCut(sent, [], tail, budget);
      return Dropped;
    }
    DeliveredAll(sent + [Close], budget);
    return Sent;
  }

  lemma PushRound(src: Source, skip: set<int>, k: nat)
    requires k < |src.manifest.chunks|
    ensures var chunk := src.manifest.chunks[k];
            if chunk.index in skip then
              && FramesFrom(src, skip, k) == FramesFrom(src, skip, k + 1)
              && Fault(src, skip, k) == Fault(src, skip, k + 1)
            else
              match src.ChunkData(chunk.index)
              case Err(error) => FramesFrom(src, skip, k) == [] && Fault(src, skip, k) == Some(error)
              case Ok(data) =>
                && FramesFrom(src, skip, k) == [Data(chunk, data)] + FramesFrom(src, skip, k + 1)
                && Fault(src, skip, k) == Fault(src, skip, k + 1)
  {
  }

  lemma PushEnds(src: Source, skip: set<int>)
    ensures FramesFrom(src, skip, |src.manifest.chunks|) == [] && Fault(src, skip, |src.manifest.chunks|) == None
  {
  }

  lemma DeliveredAll(frames: seq<Frame>, budget: Option<nat>)
    requires budget.Some? ==> |frames| <= budget.value
    ensures Delivered(frames, budget) == frames
  {
  }

  lemma NextFrame(before: seq<Frame>, sent: seq<Frame>, frame: Frame, rest: seq<Frame>)
    ensures sent + ([frame] + rest) == (sent + [frame]) + rest
    ensures (before + sent) + [frame] == before + (sent + [frame])
  {
  }

  /** A dropped send leaves exactly what was sent. */
  lemma DeliveredCut(sent: seq<Frame>, rest: seq<Frame>, tail: seq<Frame>, budget: Option<nat>)
    requires budget == Some(|sent|)
    ensures Delivered((sent + rest) + tail, budget) == sent
  {
  }

  lemma ChunkIndex(hash: Bytes -> string, src: Source, k: nat)
    requires Describes(hash, src.data, src.manifest) && k < |src.manifest.chunks|
    ensures src.manifest.chunks[k].index == k
  {
    assert ChunkOk(hash, src.data, src.manifest.chunkSize, k, src.manifest.chunks[k]);
  }
}
