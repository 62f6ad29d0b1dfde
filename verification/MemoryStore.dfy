/**
 The canonical record store, its event log and the derived projection
 (memory/store/store.go, memory/store/record.go, memory/projection). Files are a
 map from kind and id to the record in them; documents are any type D with some
 hash of their canonical form.
 */
module MemoryStore {
  import opened Lex
  import opened Outcomes
  import opened Contracts

  datatype Record<D> = Record(kind: string, id: string, revision: int, data: D, hash: string)

  type Key = (string, string)

  type Records<D> = map<Key, Record<D>>

  datatype PutError = InvalidRecord | StaleRevision

  function KeyOf<D>(r: Record<D>): Key {
    (r.kind, r.id)
  }

  predicate ValidRecord<D>(hash: D -> string, r: Record<D>) {
    IsIdentifier(r.kind) && IsIdentifier(r.id) && r.revision >= 0 && hash(r.data) == r.hash
  }

  /** Every file holds a valid record under its own kind and id. */
  ghost predicate WellKeyed<D>(hash: D -> string, records: Records<D>) {
    forall k :: k in records ==> KeyOf(records[k]) == k && ValidRecord(hash, records[k])
  }

  /** PutRecord: whether the store changes, or why it refuses. */
  function PutOutcome<D>(hash: D -> string, records: Records<D>, r: Record<D>): Result<bool, PutError> {
    if !ValidRecord(hash, r) then Err(InvalidRecord)
    else if KeyOf(r) in records && records[KeyOf(r)].hash == r.hash then Ok(false)
    else if KeyOf(r) in records && r.revision <= records[KeyOf(r)].revision then Err(StaleRevision)
    else Ok(true)
  }

  function AfterPut<D>(hash: D -> string, records: Records<D>, r: Record<D>): Records<D> {
    if PutOutcome(hash, records, r) == Ok(true) then records[KeyOf(r) := r] else records
  }

  /** Records never disappear, and one that changes changes to a higher revision. */
  ghost predicate RevisionsRise<D(!new)>(before: Records<D>, after: Records<D>) {
    forall k :: k in before ==> k in after && (after[k] == before[k] || after[k].revision > before[k].revision)
  }

  lemma PutRaisesRevisions<D(!new)>(hash: D -> string, records: Records<D>, r: Record<D>)
    requires WellKeyed(hash, records)
    ensures WellKeyed(hash, AfterPut(hash, records, r))
    ensures RevisionsRise(records, AfterPut(hash, records, r))
  {
  }

  // ----- projection

  datatype Entry<D> = Entry(kind: string, id: string, revision: int, hash: string, data: D)

  type Entries<D> = map<string, Entry<D>>

  function FromRecord<D>(r: Record<D>): Entry<D> {
    Entry(r.kind, r.id, r.revision, r.hash, r.data)
  }

  /** The projection's key. */
  function EntryKey(k: Key): string {
    k.0 + "\0" + k.1
  }

  /** Put: an entry with the same hash or a lower revision changes nothing. */
  function AfterProject<D>(entries: Entries<D>, e: Entry<D>): Entries<D> {
    var k := EntryKey((e.kind, e.id));
    if e.kind == "" || e.id == "" then entries
    else if k in entries && entries[k].hash == e.hash then entries
    else if k in entries && e.revision < entries[k].revision then entries
    else entries[k := e]
  }

  lemma Joined(a: string, x: string)
    ensures |a + "\0" + x| > 0
    ensures (a + "\0" + x)[0] == if a == [] then '\0' else a[0]
    ensures (a + "\0" + x)[1..] == if a == [] then x else a[1..] + "\0" + x
  {
  }

  lemma {:induction false} KeysApart(a: string, b: string, x: string, y: string)
    requires '\0' !in a && '\0' !in b && a + "\0" + x == b + "\0" + y
    ensures a == b && x == y
  {
    Joined(a, x);
    Joined(b, y);
    assert a == [] <==> b == [];
    if a != [] {
      KeysApart(a[1..], b[1..], x, y);
      assert a == [a[0]] + a[1..] && b == [b[0]] + b[1..];
    }
  }

  /** Entry keys of identifiers do not collide. */
  lemma EntryKeysApart(j: Key, k: Key)
    requires IsIdentifier(j.0) && IsIdentifier(k.0) && EntryKey(j) == EntryKey(k)
    ensures j == k
  {
    NoNul(j.0);
    NoNul(k.0);
    KeysApart(j.0, k.0, j.1, k.1);
  }

  lemma NoNul(s: string)
    requires IsIdentifier(s)
    ensures '\0' !in s
  {
    assert '\0' !in "_.:@+-";
    assert !IsAlphanumeric('\0');
  }

  /** The projection shows what the store holds under one key. */
  ghost predicate SyncedAt<D(!new)>(records: Records<D>, entries: Entries<D>, k: Key) {
    if k in records then EntryKey(k) in entries && entries[EntryKey(k)] == FromRecord(records[k])
    else EntryKey(k) !in entries
  }

  /** Every entry belongs to the key of an identifier pair. */
  ghost predicate Proper<D(!new)>(entries: Entries<D>) {
    forall p :: p in entries ==>
        EntryKey((entries[p].kind, entries[p].id)) == p && IsIdentifier(entries[p].kind) && IsIdentifier(entries[p].id)
  }

  ghost predicate Synced<D(!new)>(records: Records<D>, entries: Entries<D>) {
    Proper(entries) && forall k: Key :: IsIdentifier(k.0) && IsIdentifier(k.1) ==> SyncedAt(records, entries, k)
  }

  /** There is only one projection in step with a store. */
  lemma SyncedUnique<D(!new)>(records: Records<D>, a: Entries<D>, b: Entries<D>)
    requires Synced(records, a) && Synced(records, b)
    ensures a == b
  {
    forall p | p in a ensures p in b && b[p] == a[p] {
      var k := (a[p].kind, a[p].id);
      assert SyncedAt(records, a, k) && SyncedAt(records, b, k);
    }
    forall p | p in b ensures p in a {
      var k := (b[p].kind, b[p].id);
      assert SyncedAt(records, a, k) && SyncedAt(records, b, k);
    }
  }

  /** A stored and projected record keeps every key in step that was. */
  lemma PutBothKeepsSync<D(!new)>(hash: D -> string, records: Records<D>, entries: Entries<D>, r: Record<D>, k: Key)
    requires WellKeyed(hash, records) && PutOutcome(hash, records, r) == Ok(true)
    requires IsIdentifier(k.0) && SyncedAt(records, entries, k)
    ensures SyncedAt(AfterPut(hash, records, r), AfterProject(entries, FromRecord(r)), k)
  {
    if EntryKey(k) == EntryKey(KeyOf(r)) {
      EntryKeysApart(k, KeyOf(r));
    }
  }

  /** A record written to the store alone puts exactly its own key out of step. */
  lemma RawPutDesyncsExactly<D(!new)>(hash: D -> string, records: Records<D>, entries: Entries<D>, r: Record<D>, k: Key)
    requires WellKeyed(hash, records) && SyncedAt(records, entries, k)
    ensures SyncedAt(AfterPut(hash, records, r), entries, k) <==>
            !(PutOutcome(hash, records, r) == Ok(true) && k == KeyOf(r))
  {
  }

  // ----- the event log

  datatype LogEvent = LogEvent(id: string, sequence: int, data: string)

  function Ids(log: seq<LogEvent>): set<string> {
    set e | e in log :: e.id
  }

  ghost predicate DistinctIds(log: seq<LogEvent>) {
    forall i, j :: 0 <= i < j < |log| ==> log[i].id != log[j].id
  }

  /** The events with an id, each id's first one only. */
  function FirstById(events: seq<LogEvent>): seq<LogEvent> {
    if events == [] then []
    else
      var before := FirstById(events[..|events| - 1]);
      var e := events[|events| - 1];
      if e.id == "" || e.id in Ids(before) then before else before + [e]
  }

  lemma {:induction false} FirstByIdFacts(events: seq<LogEvent>)
    ensures DistinctIds(FirstById(events))
    ensures Ids(FirstById(events)) == Ids(events) - {""}
  {
    if events != [] {
      var init, e := events[..|events| - 1], events[|events| - 1];
      FirstByIdFacts(init);
      var before := FirstById(init);
      assert events == init + [e];
      assert Ids(events) == Ids(init) + {e.id};
      assert Ids(before + [e]) == Ids(before) + {e.id};
      assert forall x :: x in before ==> x.id in Ids(before);
    }
  }

  function AfterAppend(log: seq<LogEvent>, e: LogEvent): seq<LogEvent> {
    if e.id == "" || e.id in Ids(log) then log else log + [e]
  }

  /** What happens to a log: an append, or the store is opened again. */
  datatype LogCall = Append(e: LogEvent) | Reopen

  function LogAfter(calls: seq<LogCall>): seq<LogEvent> {
    if calls == [] then []
    else
      match calls[|calls| - 1]
      case Append(e) => AfterAppend(LogAfter(calls[..|calls| - 1]), e)
      case Reopen => LogAfter(calls[..|calls| - 1])
  }

  function Offered(calls: seq<LogCall>): seq<LogEvent> {
    if calls == [] then []
    else
      var before := Offered(calls[..|calls| - 1]);
      if calls[|calls| - 1].Append? then before + [calls[|calls| - 1].e] else before
  }

  /** Over any appends and reopenings the log is the first event of each id, in
      the order they came. */
  lemma {:induction false} LogIsFirstById(calls: seq<LogCall>)
    ensures LogAfter(calls) == FirstById(Offered(calls)) && DistinctIds(LogAfter(calls))
  {
    if calls != [] {
      var init := calls[..|calls| - 1];
      LogIsFirstById(init);
      if calls[|calls| - 1].Append? {
        assert Offered(calls)[..|Offered(calls)| - 1] == Offered(init);
      }
    }
    FirstByIdFacts(Offered(calls));
  }

  // ----- the code

  class Store<D(!new)> {
    const hash: D -> string
    var records: Records<D>
    var log: seq<LogEvent>
    var seen: set<string>

    ghost predicate Valid()
      reads this
    {
      WellKeyed(hash, records) && (seen == {} || seen == Ids(log))
    }

    constructor (hash: D -> string)
      ensures Valid() && this.hash == hash && records == map[] && log == []
    {
      this.hash := hash;
      records, log, seen := map[], [], {};
    }

    /** Opening the same files again: only what is remembered in memory goes. */
    method Reopen()
      requires Valid()
      modifies this`seen
      ensures Valid() && seen == {}
    {
      seen := {};
    }

    method PutRecord(r: Record<D>) returns (result: Result<bool, PutError>)
      requires Valid()
      modifies this`records
      ensures Valid() && result == PutOutcome(hash, old(records), r) && records == AfterPut(hash, old(records), r)
    {
      if !ValidRecord(hash, r) {
        return Err(InvalidRecord);
      }
      if KeyOf(r) in records {
        var existing := records[KeyOf(r)];
        if existing.hash == r.hash {
          return Ok(false);
        }
        if r.revision <= existing.revision {
          return Err(StaleRevision);
        }
      }
      records := records[KeyOf(r) := r];
      return Ok(true);
    }

    /** Appends an event unless its id is in the log already; after a reopening
        the ids are read back from the log first. */
    method AppendEvent(e: LogEvent) returns (changed: Result<bool, ()>)
      requires Valid()
      modifies this`log, this`seen
      ensures Valid()
      ensures e.id == "" ==> changed == Err(()) && log == old(log)
      ensures e.id != "" ==> changed == Ok(e.id !in Ids(old(log)))
      ensures log == AfterAppend(old(log), e)
    {
      if e.id == "" {
        return Err(());
      }
      if seen == {} {
        for i := 0 to |log|
          invariant log == old(log) && seen == Ids(log[..i])
          invariant seen == {} || i > 0
        {
          assert log[..i + 1] == log[..i] + [log[i]];
          assert Ids(log[..i + 1]) == Ids(log[..i]) + {log[i].id};
          seen := seen + {log[i].id};
        }
        assert log[..|log|] == log;
      }
      if e.id in seen {
        return Ok(false);
      }
      assert Ids(log + [e]) == Ids(log) + {e.id};
      log := log + [e];
      seen := seen + {e.id};
      return Ok(true);
    }
  }

  class MemProjection<D(!new)> {
    var entries: Entries<D>

    constructor ()
      ensures entries == map[]
    {
      entries := map[];
    }

    /** Inserts or replaces an entry. */
    method Put(e: Entry<D>) returns (ok: bool)
      modifies this
      ensures entries == AfterProject(old(entries), e)
      ensures !ok <==> e.kind == "" || e.id == "" ||
                       (var k := EntryKey((e.kind, e.id));
                        k in old(entries) && old(entries[k]).hash != e.hash && e.revision < old(entries[k]).revision)
    {
      if e.kind == "" || e.id == "" {
        return false;
      }
      var k := EntryKey((e.kind, e.id));
      if k in entries {
        if entries[k].hash == e.hash {
          return true;
        }
        if e.revision < entries[k].revision {
          return false;
        }
      }
      entries := entries[k := e];
      ok := true;
    }

    method Reset()
      modifies this
      ensures entries == map[]
    {
      entries := map[];
    }
  }

  /** Rebuild: the projection becomes the one in step with the store, whatever it
      was and in whatever order the records are read. */
  method Rebuild<D(!new)>(projection: MemProjection<D>, store: Store<D>) returns (ok: bool)
    requires store.Valid()
    modifies projection
    ensures ok && Synced(store.records, projection.entries)
  {
    projection.Reset();
    var left := store.records.Keys;
    while left != {}
      invariant left <= store.records.Keys
      invariant Proper(projection.entries)
      invariant forall k: Key :: IsIdentifier(k.0) && IsIdentifier(k.1) ==>
                Reflected(store.records, projection.entries, left, k)
      decreases left
    {
      var k :| k in left;
      var r := store.records[k];
      assert ValidRecord(store.hash, r) && KeyOf(r) == k;
      assert Reflected(store.records, projection.entries, left, k);
      ghost var before := projection.entries;
      ok := projection.Put(FromRecord(r));
      PutReflects(store.hash, store.records, before, left, k);
      left := left - {k};
    }
    forall k: Key | IsIdentifier(k.0) && IsIdentifier(k.1) ensures SyncedAt(store.records, projection.entries, k) {
      assert Reflected(store.records, projection.entries, left, k);
    }
    ok := true;
  }

  /** Midway through a rebuild: in step, unless still to be read. */
  ghost predicate Reflected<D(!new)>(records: Records<D>, entries: Entries<D>, left: set<Key>, k: Key) {
    if k in left then EntryKey(k) !in entries else SyncedAt(records, entries, k)
  }

  lemma PutReflects<D(!new)>(hash: D -> string, records: Records<D>, entries: Entries<D>, left: set<Key>, j: Key)
    requires WellKeyed(hash, records) && j in left && left <= records.Keys && Proper(entries)
    requires forall k: Key :: IsIdentifier(k.0) && IsIdentifier(k.1) ==> Reflected(records, entries, left, k)
    ensures var after := AfterProject(entries, FromRecord(records[j]));
            && Proper(after)
            && forall k: Key :: IsIdentifier(k.0) && IsIdentifier(k.1) ==> Reflected(records, after, left - {j}, k)
  {
    var r := records[j];
    assert KeyOf(r) == j && ValidRecord(hash, r);
    assert Reflected(records, entries, left, j);
    var after := AfterProject(entries, FromRecord(r));
    assert after == entries[EntryKey(j) := FromRecord(r)];
    forall k: Key | IsIdentifier(k.0) && IsIdentifier(k.1) ensures Reflected(records, after, left - {j}, k) {
      assert Reflected(records, entries, left, k);
      if EntryKey(k) == EntryKey(j) {
        EntryKeysApart(k, j);
      }
    }
  }
}
