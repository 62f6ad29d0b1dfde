/**
 What a receiver makes of its inbox and what a push puts on the wire
 (sync/transfer/transfer.go), for any manifest and any frames: said of the frames,
 their lengths and their hashes.
 */
module TransferOutcomes {
  import opened Outcomes
  import opened ChunkTransfer

  // ----- the manifest

  /** A manifest describes a payload exactly when it cuts it every chunkSize bytes: as
      many chunks as that takes, the last one what is left. */
  lemma DescribesExactly(hash: Bytes -> string, data: Bytes, m: Manifest)
    ensures Describes(hash, data, m) <==>
              && m.chunkSize > 0 && m.size == |data| && m.hash == hash(data)
              && |m.chunks| * m.chunkSize >= |data|
              && forall i :: 0 <= i < |m.chunks| ==> CutFrom(hash, data, m.chunkSize, i, m.chunks[i])
  {
    if m.chunkSize > 0 {
      forall i: nat, c: Chunk
        ensures ChunkOk(hash, data, m.chunkSize, i, c) <==> CutFrom(hash, data, m.chunkSize, i, c) {
        ChunkCut(hash, data, m.chunkSize, i, c);
      }
    }
  }

  predicate CutFrom(hash: Bytes -> string, data: Bytes, size: nat, i: nat, c: Chunk) {
    var offset := i * size;
    && offset < |data| && c.index == i && c.offset == offset
    && c.length == (if |data| - offset < size then |data| - offset else size)
    && c.hash == hash(data[offset..offset + c.length])
  }

  lemma ChunkCut(hash: Bytes -> string, data: Bytes, size: nat, i: nat, c: Chunk)
    requires size > 0
    ensures ChunkOk(hash, data, size, i, c) <==> CutFrom(hash, data, size, i, c)
  {
    StartFacts(i, size, |data|);
  }

  // ----- receiving

  /** The frame carries bytes for a chunk the manifest lists under that index. */
  predicate Fitting(hash: Bytes -> string, m: Manifest, f: Frame) {
    && f.Data? && 0 <= f.chunk.index < |m.chunks|
    && |f.data| == m.chunks[f.chunk.index].length && hash(f.data) == m.chunks[f.chunk.index].hash
  }

  /** The first n frames have been taken in: a chunk is held if it was before or one of
      them brought it, with the bytes of the last to do so. */
  ghost predicate TakenIn(before: Held, frames: seq<Frame>, after: Held) {
    && (forall i :: i in after.have <==> i in before.have || Brought(frames, i))
    && (forall i :: Brought(frames, i) ==> exists k :: LastBrings(frames, k, i) && Holds(after, i, frames[k]))
    && (forall i :: !Brought(frames, i) ==> SameAt(before, after, i))
  }

  predicate Holds(held: Held, i: int, f: Frame) {
    f.Data? && i in held.parts && held.parts[i] == f.data
  }

  predicate SameAt(a: Held, b: Held, i: int) {
    (i in a.parts <==> i in b.parts) && (i in a.parts ==> a.parts[i] == b.parts[i])
  }

  predicate BringsAt(frames: seq<Frame>, k: int, i: int) {
    0 <= k < |frames| && frames[k].Data? && frames[k].chunk.index == i
  }

  ghost predicate Brought(frames: seq<Frame>, i: int) {
    exists k :: BringsAt(frames, k, i)
  }

  ghost predicate LastBrings(frames: seq<Frame>, k: int, i: int) {
    BringsAt(frames, k, i) && forall j :: BringsAt(frames, j, i) ==> j <= k
  }

  /** What completing gives: nothing while a chunk is not held, and only bytes with the
      hash of the whole, those held for each chunk one after the other. */
  ghost predicate CompletesWith(hash: Bytes -> string, m: Manifest, held: Held, r: Result<Bytes, TransferError>) {
    match r
    case Err(NotFound) => exists i :: 0 <= i < |m.chunks| && i !in held.have
    case Err(Corrupt) => Whole(m, held) && exists d :: OneAfterTheOther(m, held, d) && hash(d) != m.hash
    case Err(Invalid) => false
    case Ok(d) => Whole(m, held) && OneAfterTheOther(m, held, d) && hash(d) == m.hash
  }

  ghost predicate Whole(m: Manifest, held: Held) {
    forall i :: 0 <= i < |m.chunks| ==> i in held.have
  }

  ghost predicate OneAfterTheOther(m: Manifest, held: Held, d: Bytes) {
    exists cuts: seq<nat> :: CutAt(held.parts, d, cuts, |m.chunks|)
  }

  /** The bytes of chunk i are d between the i-th cut and the next. */
  ghost predicate CutAt(parts: map<int, Bytes>, d: Bytes, cuts: seq<nat>, n: nat) {
    && |cuts| == n + 1 && cuts[0] == 0 && cuts[n] == |d|
    && forall i :: 0 <= i < n ==> Between(parts, d, cuts[i], cuts[i + 1], i)
  }

  predicate Between(parts: map<int, Bytes>, d: Bytes, from: nat, to: nat, i: int) {
    from <= to <= |d| && d[from..to] == if i in parts then parts[i] else []
  }

  /** What becomes of an inbox: frames are taken in up to the first that is no fitting
      data; that one decides, and without one there is no result yet. */
  ghost predicate ReceivedExactly(hash: Bytes -> string, m: Manifest, before: Held, inbox: seq<Frame>, after: Held,
      r: Option<Result<Bytes, TransferError>>)
  {
    exists n: nat :: n <= |inbox| && StopsAt(hash, m, before, inbox, n, after, r)
  }

  ghost predicate StopsAt(hash: Bytes -> string, m: Manifest, before: Held, inbox: seq<Frame>, n: nat, after: Held,
      r: Option<Result<Bytes, TransferError>>)
    requires n <= |inbox|
  {
    && (forall k :: 0 <= k < n ==> Fitting(hash, m, inbox[k]))
    && TakenIn(before, inbox[..n], after)
    && if n == |inbox| then r == None
       else
         && !Fitting(hash, m, inbox[n]) && r.Some?
         && match inbox[n]
            case Close => CompletesWith(hash, m, after, r.value)
            case Other(_) => r.value == Err(Invalid)
            case Data(chunk, data) =>
              r.value == Err(if 0 <= chunk.index < |m.chunks| then Corrupt else Invalid)
  }

  // ----- proofs

  lemma NothingTaken(held: Held)
    ensures TakenIn(held, [], held)
  {
  }

  /** Taking one more frame at the front. */
  lemma TakenFirst(before: Held, f: Frame, rest: seq<Frame>, next: Held, after: Held)
    requires f.Data?
    requires next == Held(before.have + {f.chunk.index}, before.parts[f.chunk.index := f.data])
    requires TakenIn(next, rest, after)
    ensures TakenIn(before, [f] + rest, after)
  {
    var all := [f] + rest;
    forall i ensures Brought(all, i) <==> Brought(rest, i) || i == f.chunk.index { BroughtFirst(f, rest, i); }
    forall i | Brought(all, i) ensures exists k :: LastBrings(all, k, i) && Holds(after, i, all[k]) {
      LastFirst(before, f, rest, next, after, i);
    }
    hide Brought, LastBrings, Holds;
  }

  lemma BroughtFirst(f: Frame, rest: seq<Frame>, i: int)
    requires f.Data?
    ensures Brought([f] + rest, i) <==> Brought(rest, i) || i == f.chunk.index
  {
    var all := [f] + rest;
    if Brought(all, i) && i != f.chunk.index {
      var k :| BringsAt(all, k, i);
      assert BringsAt(rest, k - 1, i);
    }
    if k :| BringsAt(rest, k, i) {
      assert BringsAt(all, k + 1, i);
    }
    if i == f.chunk.index {
      assert BringsAt(all, 0, i);
    }
  }

  lemma LastFirst(before: Held, f: Frame, rest: seq<Frame>, next: Held, after: Held, i: int)
    requires f.Data? && Brought([f] + rest, i)
    requires next.parts == before.parts[f.chunk.index := f.data] && TakenIn(next, rest, after)
    ensures exists k :: LastBrings([f] + rest, k, i) && Holds(after, i, ([f] + rest)[k])
  {
    var all := [f] + rest;
    if Brought(rest, i) {
      var k :| LastBrings(rest, k, i) && Holds(after, i, rest[k]);
      forall j | BringsAt(all, j, i) ensures j <= k + 1 {
        if j > 0 { assert BringsAt(rest, j - 1, i); }
      }
      assert BringsAt(all, k + 1, i);
      assert LastBrings(all, k + 1, i) && all[k + 1] == rest[k];
    } else {
      BroughtFirst(f, rest, i);
      assert SameAt(next, after, i);
      forall j | BringsAt(all, j, i) ensures j == 0 || BringsAt(rest, j - 1, i) {}
      assert BringsAt(all, 0, i);
      assert LastBrings(all, 0, i) && Holds(after, i, all[0]);
    }
  }

  lemma {:induction false} MissingSome(have: set<int>, k: nat, n: nat)
    requires k <= n
    ensures Listed(have, k, n, false) == [] <==> forall i :: k <= i < n ==> i in have
    decreases n - k
  {
    if k < n {
      MissingSome(have, k + 1, n);
    }
  }

  lemma {:induction false} AssembledCuts(parts: map<int, Bytes>, k: nat) returns (cuts: seq<nat>)
    ensures CutAt(parts, Assembled(parts, k), cuts, k)
  {
    if k == 0 {
      cuts := [0];
    } else {
      var before := AssembledCuts(parts, k - 1);
      hide CutAt;
      cuts := before + [|Assembled(parts, k)|];
      CutOneMore(parts, Assembled(parts, k - 1), before, k - 1, if k - 1 in parts then parts[k - 1] else []);
    }
  }

  lemma CutOneMore(parts: map<int, Bytes>, d: Bytes, cuts: seq<nat>, n: nat, last: Bytes)
    requires CutAt(parts, d, cuts, n) && last == if n in parts then parts[n] else []
    ensures CutAt(parts, d + last, cuts + [|d + last|], n + 1)
  {
    var more, all := cuts + [|d + last|], d + last;
    forall i | 0 <= i < n + 1 ensures Between(parts, all, more[i], more[i + 1], i) {
      if i < n {
        assert Between(parts, d, cuts[i], cuts[i + 1], i);
        assert all[cuts[i]..cuts[i + 1]] == d[cuts[i]..cuts[i + 1]];
      } else {
        assert all[|d|..|all|] == last;
      }
    }
  }

  lemma CompletesExactly(hash: Bytes -> string, m: Manifest, held: Held)
    ensures CompletesWith(hash, m, held, Completed(hash, m, held))
  {
    MissingSome(held.have, 0, |m.chunks|);
    var cuts := AssembledCuts(held.parts, |m.chunks|);
    assert CutAt(held.parts, Assembled(held.parts, |m.chunks|), cuts, |m.chunks|);
    hide Listed, Assembled, CutAt;
  }

  /** What a receiver makes of its inbox, whatever the manifest and the frames. */
  lemma {:induction false} ReceiveExactly(hash: Bytes -> string, m: Manifest, held: Held, inbox: seq<Frame>)
    ensures ReceivedExactly(hash, m, held, inbox, Consume(hash, m, held, inbox).0, Consume(hash, m, held, inbox).1)
    decreases |inbox|
  {
    hide TakenIn, CompletesWith, Completed;
    var (after, r) := Consume(hash, m, held, inbox);
    NothingTaken(held);
    assert inbox[..0] == [];
    if inbox == [] || !Fitting(hash, m, inbox[0]) {
      CompletesExactly(hash, m, held);
      assert StopsAt(hash, m, held, inbox, 0, after, r);
    } else {
      var f, rest := inbox[0], inbox[1..];
      var next := Held(held.have + {f.chunk.index}, held.parts[f.chunk.index := f.data]);
      ReceiveExactly(hash, m, next, rest);
      var n: nat :| n <= |rest| && StopsAt(hash, m, next, rest, n, after, r);
      TakenFirst(held, f, rest[..n], next, after);
      assert [f] + rest[..n] == inbox[..n + 1];
      assert inbox == [f] + rest;
      assert StopsAt(hash, m, held, inbox, n + 1, after, r);
    }
  }

  // ----- pushing

  /** The positions from a first one on, in order, of the chunks not offered, up to the
      first of them that cannot be read, which is at position stop. */
  ghost predicate Sendable(src: Source, skip: set<int>, first: nat, at: seq<nat>, stop: nat) {
    var chunks := src.manifest.chunks;
    && first <= stop <= |chunks|
    && (forall j :: 0 <= j < |at| ==> first <= at[j] < stop && chunks[at[j]].index !in skip)
    && (forall i, j :: 0 <= i < j < |at| ==> at[i] < at[j])
    && (forall k :: first <= k < stop && chunks[k].index !in skip ==> k in at)
    && (stop < |chunks| ==> chunks[stop].index !in skip && !Readable(src, chunks[stop].index))
  }

  predicate InList(src: Source, index: int) {
    0 <= index < |src.manifest.chunks|
  }

  /** The chunk listed under this index lies within the payload. */
  predicate Readable(src: Source, index: int) {
    InList(src, index) && src.manifest.chunks[index].offset + src.manifest.chunks[index].length <= |src.data|
  }

  /** The frame for position k: its chunk, with the bytes listed under its index. */
  predicate Carries(src: Source, k: nat, f: Frame) {
    && k < |src.manifest.chunks| && f.Data? && f.chunk == src.manifest.chunks[k]
    && Readable(src, f.chunk.index)
    && var c := src.manifest.chunks[f.chunk.index]; f.data == src.data[c.offset..c.offset + c.length]
  }

  ghost predicate CarriesEach(src: Source, at: seq<nat>, frames: seq<Frame>) {
    |frames| == |at| && forall j :: 0 <= j < |at| ==> Carries(src, at[j], frames[j])
  }

  predicate FaultAt(src: Source, stop: nat, fault: Option<TransferError>) {
    if stop >= |src.manifest.chunks| then fault.None?
    else fault == Some(if InList(src, src.manifest.chunks[stop].index) then Corrupt else NotFound)
  }

  /** What a push puts on the wire if no send is dropped, and the error it ends with:
      one frame for each chunk that is not offered, in the order of the manifest, and
      the close frame; or those before the first that cannot be read, and its error. */
  ghost predicate PushesExactly(src: Source, skip: set<int>, frames: seq<Frame>, fault: Option<TransferError>) {
    exists at, stop, data :: Sendable(src, skip, 0, at, stop) && CarriesEach(src, at, data)
        && FaultAt(src, stop, fault)
        && frames == data + if stop == |src.manifest.chunks| then [Close] else []
  }

  lemma {:induction false} SendsFrom(src: Source, skip: set<int>, first: nat) returns (at: seq<nat>, stop: nat)
    requires first <= |src.manifest.chunks|
    ensures Sendable(src, skip, first, at, stop)
    ensures CarriesEach(src, at, FramesFrom(src, skip, first))
    ensures FaultAt(src, stop, Fault(src, skip, first))
    decreases |src.manifest.chunks| - first
  {
    if first == |src.manifest.chunks| {
      at, stop := [], first;
    } else {
      var chunk := src.manifest.chunks[first];
      PushRound(src, skip, first);
      if chunk.index !in skip && !Readable(src, chunk.index) {
        at, stop := [], first;
      } else {
        at, stop := SendsFrom(src, skip, first + 1);
        hide FramesFrom, Fault, FaultAt;
        if chunk.index !in skip {
          SendsBefore(src, skip, first, at, stop);
          assert Carries(src, first, FramesFrom(src, skip, first)[0]);
          hide Sendable, Carries;
          at := [first] + at;
        }
      }
    }
  }

  lemma SendsBefore(src: Source, skip: set<int>, first: nat, at: seq<nat>, stop: nat)
    requires first < |src.manifest.chunks| && src.manifest.chunks[first].index !in skip
    requires Sendable(src, skip, first + 1, at, stop)
    ensures Sendable(src, skip, first, [first] + at, stop)
  {
    hide Readable;
    var chunks := src.manifest.chunks;
    forall k | first <= k < stop && chunks[k].index !in skip ensures k in [first] + at {
      if k > first { assert k in at; }
    }
  }

  /** What a push sends, for any manifest and payload. */
  lemma PushExactly(src: Source, skip: set<int>)
    ensures PushesExactly(src, skip, Outgoing(src, skip), Fault(src, skip, 0))
  {
    var at, stop := SendsFrom(src, skip, 0);
    hide Sendable, CarriesEach, FramesFrom, Fault;
  }
}
