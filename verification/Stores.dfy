/** The store: each method does its file-system calls one by one and logs them,
    so that its state is always that of a machine run
    (internal/store/store.go). */
module Stores {
  import opened Results
  import opened Text
  import opened Sorting
  import Names
  import opened Deliveries
  import opened Requests
  import opened Journal
  import opened JournalProofs
  import opened Events
  import opened EventProofs
  import opened Snapshots
  import opened Disks
  import opened Machine
  import opened Selections

  // What a call did to the maps: nothing on an error, the mutation otherwise.
  ghost predicate DoneOrNot<T>(before: Mem, after: Mem, ev: Event, r: Result<T>)
    requires Enabled(before, ev)
  {
    after == if r.Ok? then Effect(before, ev) else before
  }

  ghost predicate SameFilesBut(before: Disk, after: Disk, t: nat) {
    forall i | i in before.files && i != t :: i in after.files && after.files[i] == before.files[i]
  }

  ghost predicate SameFiles(before: Disk, after: Disk) {
    forall i | i in before.files :: i in after.files && after.files[i] == before.files[i]
  }

  // More steps, and none of them an append.
  ghost predicate GrewQuietly(before: seq<Label>, after: seq<Label>) {
    before <= after && Writes(after) == Writes(before)
  }

  ghost function Sealing(c: Codec, rs: seq<Record>): File { File(Lines(c, rs), |Lines(c, rs)|) }

  // A synchronised file of one record for each live delivery, in ID order.
  ghost function SnapshotFile(c: Codec, m: Mem): File { Sealing(c, Snapshot(m)) }

  lemma LinesGrow(c: Codec, rs: seq<Record>, i: nat)
    requires i < |rs|
    ensures Lines(c, rs[..i + 1]) == Lines(c, rs[..i]) + Line(c, rs[i])
  {
    assert rs[..i + 1] == rs[..i] + [rs[i]];
    LinesConcat(c, rs[..i], [rs[i]]);
    assert Lines(c, [rs[i]]) == Line(c, rs[i]) + "";
  }

  lemma AllTaken(rs: seq<Record>, i: nat)
    requires i == |rs|
    ensures rs[..i] == rs
  {
  }

  lemma SnapshotFrom(m: Mem, ids: seq<Bytes>, rs: seq<Record>)
    requires ids == Names.Sorted(m.items.Keys) && rs == Snapshot(m)
    ensures |rs| == |ids|
    ensures forall i | 0 <= i < |ids| :: ids[i] in m.items && rs[i] == Put(m.items[ids[i]], Lookup(m.hashes, ids[i]))
  {
    SortedPermutes(m);
  }

  // What the file system makes of an append: it works, it stops after some of the
  // bytes, or it cannot be synchronised.
  datatype AppendIO = Works | WriteStops(written: nat) | SyncStops

  // Where a compaction goes wrong, if anywhere, and whether a temporary that is
  // given up can be removed. A hook's error counts with the call it stands before.
  datatype Stop =
    | Nowhere
    | AtCreate
    | AtProtect
    | AtRecord(k: nat, written: nat)
    | AtSync
    | AtRename
    | AtDirSync
    | AtClose

  datatype CompactIO = CompactIO(stop: Stop, removed: bool)

  // The old journal stays in place: a compaction of n records stops before the rename.
  predicate StopsEarly(stop: Stop, n: nat) {
    stop.AtCreate? || stop.AtProtect? || (stop.AtRecord? && stop.k < n) || stop.AtSync? || stop.AtRename?
  }

  // The first n appends work.
  predicate AllWork(io: nat -> AppendIO, n: nat) { n == 0 || (AllWork(io, n - 1) && io(n - 1).Works?) }

  // The journal is there and can be replayed, or can be made.
  predicate CanOpen(c: Codec, d: Disk, io: OpenIO)
    requires d.entries != []
  {
    && io.swept
    && if Current(d).None? then io.created && io.synced else ReplayFile(c, Content(d, Current(d))).Loaded?
  }

  function CompactResult(open: bool, stop: Stop, n: nat): Result<()> {
    if !open || StopsEarly(stop, n) || stop.AtClose? then Err(CompactionFailed)
    else if stop.AtDirSync? then Err(Persistence)
    else Ok(())
  }

  // Whether old temporaries can be removed, a new journal made, its name synchronised.
  datatype OpenIO = OpenIO(swept: bool, created: bool, synced: bool)

  lemma SyncExtends(c: Codec, start: Sys, log: seq<Label>, s: Sys, ev: Event, t: Sys)
    requires Exec(c, start, log) == Some(s) && Served(log) && s.phase == Written(ev) && Attached(s) && Enabled(s.mem, ev)
    requires t == s.(disk := SyncFile(s.disk, s.file.value), phase := Synced(ev),
                     records := s.records + |Records(s.mem, ev)|)
    ensures Served(log + [Sync]) && Writes(log + [Sync]) == Writes(log)
    ensures Exec(c, start, log + [Sync]) == Some(t)
  {
    ServeExtends(c, start, log, Sync);
  }

  lemma AppendSynced(d: Disk, i: nat, data: Bytes)
    requires i in d.files
    ensures var whole := d.files[i].data + data;
      SyncFile(AppendTo(d, i, data), i) == d.(files := d.files[i := File(whole, |whole|)])
  {
  }

  lemma AckPrune(c: Codec, s: Sys, ev: Event)
    requires s.phase == Synced(ev) && ev.Prune? && Enabled(s.mem, ev)
    ensures Do(c, s, Ack) == s.(mem := ApplyAll(s.mem, Tombstones(ev.ids)), phase := Idle)
    ensures Effect(s.mem, ev) == ApplyAll(s.mem, Tombstones(ev.ids))
  {
  }

  const NO_DELIVERY := Delivery("", "", "", "", map[], "", Pending, 0, 0, NO_TIME, NO_TIME, "", 0, NO_TIME, NO_TIME)

  class Store {
    const codec: Codec
    const maxJournalBytes: nat
    var disk: Disk
    var file: Option<nat>
    var items: map<Bytes, Delivery>
    var hashes: map<Bytes, Bytes>
    var keyToId: map<Bytes, Bytes>
    var persistenceErr: bool
    var records: nat
    var prunedDeliveries: nat
    var compactionsSucceeded: nat
    var compactionsFailed: nat

    // The machine state in which the store was opened, its steps since then, and
    // the mutation whose append failed.
    ghost const start: Sys
    ghost var log: seq<Label>
    ghost var stray: Option<Event>

    ghost function Maps(): Mem
      reads this
    {
      Mem(items, hashes, keyToId)
    }

    ghost function View(p: Phase): Sys
      reads this
    {
      Sys(disk, file, Maps(), persistenceErr, records, stray, p)
    }

    ghost predicate ValidIn(p: Phase)
      reads this
    {
      && Exec(codec, start, log) == Some(View(p)) && Served(log)
      && Indexed(Maps())
      && (file.Some? ==> file.value in disk.files)
    }

    // Between calls the store is where its log of steps leads.
    ghost predicate Valid()
      reads this
    {
      ValidIn(Idle)
    }

    constructor (codec: Codec, maxJournalBytes: nat, disk: Disk, file: nat, m: Mem, records: nat)
      requires Indexed(m) && file in disk.files
      ensures Valid() && this.codec == codec && this.maxJournalBytes == maxJournalBytes
      ensures Maps() == m && this.disk == disk && this.file == Some(file) && !persistenceErr
      ensures this.records == records && log == []
      ensures start == Sys(disk, Some(file), m, false, records, None, Idle)
    {
      this.codec, this.maxJournalBytes := codec, maxJournalBytes;
      this.disk, this.file := disk, Some(file);
      this.items, this.hashes, this.keyToId := m.items, m.hashes, m.keyToId;
      this.persistenceErr, this.records := false, records;
      this.prunedDeliveries, this.compactionsSucceeded, this.compactionsFailed := 0, 0, 0;
      this.start, this.log, this.stray := Sys(disk, Some(file), m, false, records, None, Idle), [], None;
    }

    // ---- Appending ----

    // The data is at the end of the file, and all of it is synchronised.
    twostate predicate Grown(data: Bytes)
      reads this
    {
      && file.Some? && file == old(file) && file.value in old(disk.files)
      && var whole := old(disk.files)[file.value].data + data;
        disk == old(disk).(files := old(disk.files)[file.value := File(whole, |whole|)])
    }

    // file.Write, when all of the data gets to the file.
    method WriteWhole(ghost ev: Event, data: Bytes)
      requires Valid() && Enabled(Maps(), ev) && !persistenceErr && file.Some?
      requires data == Lines(codec, Records(Maps(), ev))
      modifies this`disk, this`log
      ensures ValidIn(Written(ev)) && log == old(log) + [Write(ev)]
      ensures disk == AppendTo(old(disk), file.value, data)
    {
      ServeExtends(codec, start, log, Write(ev));
      disk, log := AppendTo(disk, file.value, data), log + [Write(ev)];
    }

    // file.Write, when it fails after some of the data.
    method WriteShort(ghost ev: Event, data: Bytes, written: nat)
      requires Valid() && Enabled(Maps(), ev) && !persistenceErr && file.Some?
      requires data == Lines(codec, Records(Maps(), ev)) && written <= |data|
      modifies this`disk, this`persistenceErr, this`log, this`stray
      ensures Valid() && persistenceErr && log == old(log) + [WriteFails(ev, written)]
    {
      ServeExtends(codec, start, log, WriteFails(ev, written));
      disk := AppendTo(disk, file.value, data[..written]);
      persistenceErr, stray, log := true, Some(ev), log + [WriteFails(ev, written)];
    }

    // file.Sync, when it works, and the record count.
    method SyncDone(ghost ev: Event, count: nat)
      requires ValidIn(Written(ev)) && file.Some? && Enabled(Maps(), ev) && count == |Records(Maps(), ev)|
      modifies this`disk, this`records, this`log
      ensures ValidIn(Synced(ev)) && log == old(log) + [Sync] && records == old(records) + count
      ensures disk == SyncFile(old(disk), file.value)
    {
      ghost var was := View(Written(ev));
      assert was.mem == Maps() && Attached(was) && count == |Records(was.mem, ev)|;
      disk, records := SyncFile(disk, file.value), records + count;
      assert View(Synced(ev))
        == was.(disk := SyncFile(was.disk, was.file.value), phase := Synced(ev), records := was.records + count);
      SyncExtends(codec, start, log, was, ev, View(Synced(ev)));
      log := log + [Sync];
    }

    method SyncFailed(ghost ev: Event)
      requires ValidIn(Written(ev))
      modifies this`persistenceErr, this`log, this`stray
      ensures Valid() && persistenceErr && log == old(log) + [SyncFails]
    {
      ServeExtends(codec, start, log, SyncFails);
      persistenceErr, stray, log := true, Some(ev), log + [SyncFails];
    }

    // Persistence fails before anything is written.
    method TripPersistence()
      requires Valid()
      modifies this`persistenceErr, this`log
      ensures Valid() && persistenceErr && log == old(log) + [Trip]
    {
      ServeExtends(codec, start, log, Trip);
      persistenceErr, log := true, log + [Trip];
    }

    // Every byte gets to the file; `works` says whether it can be synchronised.
    method WriteSynced(ghost ev: Event, data: Bytes, count: nat, works: bool)
      requires Valid() && Enabled(Maps(), ev) && !persistenceErr && file.Some?
      requires data == Lines(codec, Records(Maps(), ev)) && count == |Records(Maps(), ev)|
      modifies this`disk, this`persistenceErr, this`records, this`log, this`stray
      ensures works ==>
        && ValidIn(Synced(ev)) && !persistenceErr && log == old(log) + [Write(ev)] + [Sync]
        && records == old(records) + count && Grown(data)
      ensures !works ==> Valid() && persistenceErr && old(log) <= log && records == old(records)
    {
      AppendSynced(disk, file.value, data);
      WriteWhole(ev, data);
      if works { SyncDone(ev, count); } else { SyncFailed(ev); }
    }

    // An append can work.
    predicate Appends(io: AppendIO)
      reads this
    {
      !persistenceErr && file.Some? && io.Works?
    }

    // appendDataLocked. On success the records are synchronised and the caller
    // has yet to update the maps.
    method AppendData(ghost ev: Event, data: Bytes, count: nat, io: AppendIO) returns (r: Result<()>)
      requires Valid() && Enabled(Maps(), ev)
      requires data == Lines(codec, Records(Maps(), ev)) && count == |Records(Maps(), ev)|
      modifies this`disk, this`persistenceErr, this`records, this`log, this`stray
      ensures old(log) <= log && (r.Ok? <==> old(Appends(io)))
      ensures r.Ok? ==> ValidIn(Synced(ev)) && !persistenceErr && records == old(records) + count && Grown(data)
      ensures r.Err? ==> Valid() && persistenceErr && r.error == Persistence && records == old(records)
      ensures old(persistenceErr) ==> disk == old(disk) && log == old(log)
      ensures r.Ok? ==> log == old(log) + [Write(ev)] + [Sync]
    {
      if persistenceErr { return Err(Persistence); }
      if file.None? {
        TripPersistence();
        return Err(Persistence);
      }
      r := WriteAndSync(ev, data, count, io);
    }

    method WriteAndSync(ghost ev: Event, data: Bytes, count: nat, io: AppendIO) returns (r: Result<()>)
      requires Valid() && Enabled(Maps(), ev) && !persistenceErr && file.Some?
      requires data == Lines(codec, Records(Maps(), ev)) && count == |Records(Maps(), ev)|
      modifies this`disk, this`persistenceErr, this`records, this`log, this`stray
      ensures old(log) <= log && (r.Ok? <==> io.Works?)
      ensures r.Ok? ==> ValidIn(Synced(ev)) && !persistenceErr && records == old(records) + count && Grown(data)
      ensures r.Err? ==> Valid() && persistenceErr && r.error == Persistence && records == old(records)
      ensures r.Ok? ==> log == old(log) + [Write(ev)] + [Sync]
    {
      if io.WriteStops? {
        WriteShort(ev, data, Smaller(io.written, |data|));
        return Err(Persistence);
      }
      WriteSynced(ev, data, count, io.Works?);
      return if io.Works? then Ok(()) else Err(Persistence);
    }

    // setLocked
    method SetItem(d: Delivery, hash: Bytes)
      modifies this`items, this`hashes, this`keyToId
      ensures Maps() == Set(old(Maps()), d, hash)
    {
      items := items[d.id := d];
      hashes := hashes[d.id := hash];
      if d.key != "" { keyToId := keyToId[d.key := d.id]; }
    }

    // deleteLocked
    method DeleteItem(id: Bytes)
      modifies this`items, this`hashes, this`keyToId
      ensures Maps() == Delete(old(Maps()), id)
    {
      if id !in items { return; }
      var key := items[id].key;
      items := items - {id};
      hashes := hashes - {id};
      if key != "" && Lookup(keyToId, key) == id { keyToId := keyToId - {key}; }
    }

    // The delivery and its hash are filed under its ID, all others as they were.
    twostate predicate Stored(d: Delivery, hash: Bytes)
      reads this
    {
      && items == old(items)[d.id := d] && hashes == old(hashes)[d.id := hash]
      && keyToId == if d.key == "" then old(keyToId) else old(keyToId)[d.key := d.id]
    }

    // appendLocked and then setLocked: journal the new state of one delivery,
    // then show it.
    method Persist(ghost ev: Event, d: Delivery, hash: Bytes, io: AppendIO) returns (r: Result<()>)
      requires Valid() && Enabled(Maps(), ev) && !ev.Prune?
      requires d == Outcome(Maps(), ev) && hash == OutcomeHash(Maps(), ev)
      modifies this`disk, this`persistenceErr, this`records, this`log, this`stray, this`items, this`hashes, this`keyToId
      ensures Valid() && old(log) <= log && (r.Ok? <==> old(Appends(io)))
      ensures DoneOrNot(old(Maps()), Maps(), ev, r)
      ensures r.Ok? ==> log == old(log) + [Write(ev)] + [Sync] + [Ack] && records == old(records) + 1 && !persistenceErr
      ensures r.Ok? ==> Stored(d, hash) && Grown(codec.encode(Record(2, Some(d), hash, "")) + "\n")
      ensures r.Err? ==> r.error == Persistence && persistenceErr && records == old(records)
      ensures old(persistenceErr) ==> disk == old(disk) && log == old(log)
    {
      r := AppendPut(ev, d, hash, io);
      if r.Ok? { Show(ev, d, hash); }
    }

    // appendLocked
    method AppendPut(ghost ev: Event, d: Delivery, hash: Bytes, io: AppendIO) returns (r: Result<()>)
      requires Valid() && Enabled(Maps(), ev) && !ev.Prune?
      requires d == Outcome(Maps(), ev) && hash == OutcomeHash(Maps(), ev)
      modifies this`disk, this`persistenceErr, this`records, this`log, this`stray
      ensures r.Ok? <==> old(Appends(io))
      ensures r.Ok? ==> ValidIn(Synced(ev)) && !persistenceErr && records == old(records) + 1
      ensures r.Ok? ==> Grown(codec.encode(Record(2, Some(d), hash, "")) + "\n") && log == old(log) + [Write(ev)] + [Sync]
      ensures r.Err? ==> Valid() && old(log) <= log && persistenceErr && r.error == Persistence && records == old(records)
      ensures old(persistenceErr) ==> disk == old(disk) && log == old(log)
    {
      var data := Line(codec, Put(d, hash));
      assert Lines(codec, Records(Maps(), ev)) == data + Lines(codec, []);
      r := AppendData(ev, data, 1, io);
    }

    // setLocked after a successful append.
    method Show(ghost ev: Event, d: Delivery, hash: Bytes)
      requires ValidIn(Synced(ev)) && Enabled(Maps(), ev) && !ev.Prune?
      requires d == Outcome(Maps(), ev) && hash == OutcomeHash(Maps(), ev)
      modifies this`log, this`items, this`hashes, this`keyToId
      ensures Valid() && Maps() == Effect(old(Maps()), ev) && log == old(log) + [Ack] && Stored(d, hash)
    {
      ServeExtends(codec, start, log, Ack);
      EffectOfPut(Maps(), ev);
      OutcomeKeepsId(Maps(), ev);
      SetItem(d, hash);
      log := log + [Ack];
    }

    // ---- Transitions of one delivery ----

    method CurrentLease(id: Bytes, attempt: int) returns (r: Result<Delivery>)
      ensures r == if id !in items then Err(NotFound)
                   else if !LeaseHeld(Maps(), id, attempt) then Err(StaleLease)
                   else Ok(items[id])
    {
      if id !in items { return Err(NotFound); }
      if !items[id].status.InFlight? || items[id].attempts != attempt { return Err(StaleLease); }
      return Ok(items[id]);
    }

    method Succeed(id: Bytes, attempt: int, code: int, now: int, io: AppendIO) returns (r: Result<()>)
      requires Valid()
      modifies this`disk, this`persistenceErr, this`records, this`log, this`stray, this`items, this`hashes, this`keyToId
      ensures Valid() && old(log) <= log
      ensures id !in old(items) ==> r == Err(NotFound) && unchanged(this)
      ensures id in old(items) && !LeaseHeld(old(Maps()), id, attempt) ==> r == Err(StaleLease) && unchanged(this)
      ensures LeaseHeld(old(Maps()), id, attempt) ==>
        DoneOrNot(old(Maps()), Maps(), Event.Succeed(id, attempt, code, now), r)
        && (r.Ok? <==> old(Appends(io))) && persistenceErr == r.Err?
      ensures r == Err(StaleLease) <==>
        id in old(items) && !(old(items)[id].status.InFlight? && old(items)[id].attempts == attempt)
      ensures r.Ok? ==> id in old(items) && hashes == old(hashes) && items == old(items)[id := old(items)[id].(
        status := Status.Succeeded, lastResponseCode := code, lastError := "",
        nextAttemptAt := NO_TIME, leaseUntil := NO_TIME, updatedAt := now)]
      ensures old(persistenceErr) ==> disk == old(disk)
    {
      var lease := CurrentLease(id, attempt);
      if lease.Err? { return Err(lease.error); }
      var item := lease.value;
      item := item.(status := Succeeded, lastResponseCode := code, lastError := "",
                    nextAttemptAt := NO_TIME, leaseUntil := NO_TIME, updatedAt := now);
      r := Persist(Event.Succeed(id, attempt, code, now), item, Lookup(hashes, item.id), io);
    }

    method Fail(id: Bytes, attempt: int, code: int, message: Bytes, next: int, terminal: bool, now: int, io: AppendIO)
        returns (r: Result<()>)
      requires Valid()
      modifies this`disk, this`persistenceErr, this`records, this`log, this`stray, this`items, this`hashes, this`keyToId
      ensures Valid() && old(log) <= log
      ensures id !in old(items) ==> r == Err(NotFound) && unchanged(this)
      ensures id in old(items) && !LeaseHeld(old(Maps()), id, attempt) ==> r == Err(StaleLease) && unchanged(this)
      ensures LeaseHeld(old(Maps()), id, attempt) ==>
        && DoneOrNot(old(Maps()), Maps(), Event.Fail(id, attempt, code, message, next, terminal, now), r)
        && (r.Ok? <==> old(Appends(io))) && persistenceErr == r.Err?
      ensures r == Err(StaleLease) <==>
        id in old(items) && !(old(items)[id].status.InFlight? && old(items)[id].attempts == attempt)
      ensures r.Ok? ==> id in old(items) && hashes == old(hashes) && items == old(items)[id := old(items)[id].(
        status := if terminal then Failed else Pending, nextAttemptAt := if terminal then NO_TIME else next,
        lastResponseCode := code, lastError := message, leaseUntil := NO_TIME, updatedAt := now)]
      ensures old(persistenceErr) ==> disk == old(disk)
    {
      var lease := CurrentLease(id, attempt);
      if lease.Err? { return Err(lease.error); }
      var item := lease.value;
      item := item.(lastResponseCode := code, lastError := message, leaseUntil := NO_TIME, updatedAt := now);
      if terminal {
        item := item.(status := Failed, nextAttemptAt := NO_TIME);
      } else {
        item := item.(status := Pending, nextAttemptAt := next);
      }
      r := Persist(Event.Fail(id, attempt, code, message, next, terminal, now), item, Lookup(hashes, item.id), io);
    }

    method Cancel(id: Bytes, now: int, io: AppendIO) returns (r: Result<Delivery>)
      requires Valid()
      modifies this`disk, this`persistenceErr, this`records, this`log, this`stray, this`items, this`hashes, this`keyToId
      ensures Valid() && old(log) <= log
      ensures id !in old(items) ==> r == Err(NotFound) && unchanged(this)
      ensures id in old(items) && Terminal(old(items)[id]) ==> r == Err(InvalidTransition) && unchanged(this)
      ensures id in old(items) && !Terminal(old(items)[id]) ==>
        DoneOrNot(old(Maps()), Maps(), Event.Cancel(id, now), r)
        && (r.Ok? <==> old(Appends(io))) && persistenceErr == r.Err?
      ensures r == Err(InvalidTransition) <==>
        id in old(items) && old(items)[id].status in {Status.Succeeded, Status.Failed, Status.Canceled}
      ensures r.Ok? ==>
        && id in old(items) && hashes == old(hashes) && items == old(items)[id := r.value]
        && r.value == old(items)[id].(
          status := Canceled, nextAttemptAt := NO_TIME, leaseUntil := NO_TIME, updatedAt := now)
      ensures old(persistenceErr) ==> disk == old(disk)
    {
      if id !in items { return Err(NotFound); }
      var item := items[id];
      if !item.status.Pending? && !item.status.InFlight? { return Err(InvalidTransition); }
      item := item.(status := Canceled, nextAttemptAt := NO_TIME, leaseUntil := NO_TIME, updatedAt := now);
      EffectOfPut(Maps(), Event.Cancel(id, now));
      var done := Persist(Event.Cancel(id, now), item, Lookup(hashes, item.id), io);
      if done.Err? { return Err(done.error); }
      return Ok(item);
    }

    method Retry(id: Bytes, now: int, io: AppendIO) returns (r: Result<Delivery>)
      requires Valid()
      modifies this`disk, this`persistenceErr, this`records, this`log, this`stray, this`items, this`hashes, this`keyToId
      ensures Valid() && old(log) <= log
      ensures id !in old(items) ==> r == Err(NotFound) && unchanged(this)
      ensures id in old(items) && !old(items)[id].status.Failed? ==> r == Err(InvalidTransition) && unchanged(this)
      ensures id in old(items) && old(items)[id].status.Failed? ==>
        DoneOrNot(old(Maps()), Maps(), Event.Retry(id, now), r)
        && (r.Ok? <==> old(Appends(io))) && persistenceErr == r.Err?
      ensures r.Ok? ==>
        && id in old(items) && hashes == old(hashes) && items == old(items)[id := r.value]
        && r.value == old(items)[id].(
          status := Pending, attempts := 0, nextAttemptAt := now, leaseUntil := NO_TIME,
          lastError := "", lastResponseCode := 0, updatedAt := now)
      ensures old(persistenceErr) ==> disk == old(disk)
    {
      if id !in items { return Err(NotFound); }
      var item := items[id];
      if !item.status.Failed? { return Err(InvalidTransition); }
      item := item.(status := Pending, attempts := 0, nextAttemptAt := now, leaseUntil := NO_TIME,
                    lastError := "", lastResponseCode := 0, updatedAt := now);
      EffectOfPut(Maps(), Event.Retry(id, now));
      var done := Persist(Event.Retry(id, now), item, Lookup(hashes, item.id), io);
      if done.Err? { return Err(done.error); }
      return Ok(item);
    }

    // ---- Creation ----

    // The record fits into the journal, where that is limited.
    ghost predicate Fits(d: Delivery, hash: Bytes)
      requires Valid()
      reads this
    {
      file.Some? && |disk.files[file.value].data| + |Line(codec, Put(d, hash))| <= maxJournalBytes
    }

    // checkAdmissionLocked; `statted` says whether the file can be examined.
    method CheckAdmission(d: Delivery, hash: Bytes, statted: bool) returns (r: Result<()>)
      requires Valid()
      modifies this`persistenceErr, this`log
      ensures Valid() && old(log) <= log
      ensures r.Ok? <==> maxJournalBytes == 0 || (statted && old(Fits(d, hash)))
      ensures r == Err(JournalFull) <==> maxJournalBytes > 0 && statted && file.Some? && !old(Fits(d, hash))
      ensures r == Err(JournalFull) <==>
        && maxJournalBytes > 0 && statted && file.Some?
        && |disk.files[file.value].data| + |codec.encode(Record(2, Some(d), hash, ""))| + 1 > maxJournalBytes
      ensures r.Ok? || r == Err(JournalFull) ==> unchanged(this)
      ensures r.Err? && r.error != JournalFull ==> r.error == Persistence && persistenceErr
    {
      if maxJournalBytes == 0 { return Ok(()); }
      var data := Line(codec, Put(d, hash));
      if file.None? || !statted {
        TripPersistence();
        return Err(Persistence);
      }
      if |disk.files[file.value].data| + |data| > maxJournalBytes { return Err(JournalFull); }
      return Ok(());
    }

    // The journal is no longer than it may be, where that is limited.
    predicate InLimit()
      reads this
    {
      maxJournalBytes > 0 && file.Some? && file.value in disk.files ==>
        |disk.files[file.value].data| <= maxJournalBytes
    }

    // A new delivery is admitted and its append works.
    ghost predicate CanCreate(d: Delivery, hash: Bytes, statted: bool, io: AppendIO)
      requires Valid()
      reads this
    {
      (maxJournalBytes == 0 || (statted && Fits(d, hash))) && Appends(io)
    }

    // A Go map lookup; the zero value has no ID.
    function Item(id: Bytes): Delivery
      reads this
    {
      if id in items then items[id] else NO_DELIVERY
    }

    // The key is already taken.
    ghost predicate Known(key: Bytes)
      reads this
    {
      key != "" && key in keyToId
    }

    // Create. `newId` is what newID returns, none when the random source fails.
    method Create(lib: Library, req: Request, now: int, newId: Option<Bytes>, statted: bool, io: AppendIO)
        returns (r: Result<(Delivery, bool)>, ghost normal: Request)
      requires Valid() && ParsesNoControls(lib)
      requires newId.Some? ==> newId.value != "" && newId.value !in items
      modifies this`disk, this`persistenceErr, this`records, this`log, this`stray, this`items, this`hashes, this`keyToId
      ensures Valid() && old(log) <= log
      ensures !Accepted(lib, req) || newId.None? ==> r == Err(InvalidRequest) && unchanged(this)
      ensures Accepted(lib, req) ==> NormalForm(lib, req, normal)
      ensures Accepted(lib, req) && newId.Some? && old(Known(normal.key)) ==>
        && unchanged(this)
        && r == if Lookup(hashes, keyToId[normal.key]) == lib.digest(Preimage(normal))
                then Ok((Item(keyToId[normal.key]), false)) else Err(IdempotencyConflict)
      ensures Accepted(lib, req) && newId.Some? && !old(Known(normal.key)) ==>
        var ev := Event.Create(NewDelivery(normal, newId.value, now), lib.digest(Preimage(normal)));
        && Enabled(old(Maps()), ev) && DoneOrNot(old(Maps()), Maps(), ev, r)
        && (r.Ok? <==> old(CanCreate(ev.d, ev.hash, statted, io))) && (r.Ok? ==> r.value == (ev.d, true) && !persistenceErr)
        && (r.Err? ==> r.error == JournalFull || (r.error == Persistence && persistenceErr))
        && (r == Err(JournalFull) <==> maxJournalBytes > 0 && statted && old(file.Some? && !Fits(ev.d, ev.hash)))
        && (r == Err(JournalFull) ==> unchanged(this))
      ensures r.Ok? && r.value.1 ==>
        && newId.Some? && MadeFor(lib, req, r.value.0, newId.value, now)
        && Stored(r.value.0, lib.digest(Preimage(normal))) && InLimit()
      ensures old(persistenceErr) ==> disk == old(disk)
    {
      var normalized := Normalize(lib, req);
      if normalized.Err? {
        normal := req;
        return Err(InvalidRequest), req;
      }
      normal := normalized.value;
      if newId.None? { return Err(InvalidRequest), normal; }
      var hash := Fingerprint(lib, normalized.value);
      var candidate := NewDelivery(normalized.value, newId.value, now);
      if candidate.key != "" && candidate.key in keyToId {
        var id := keyToId[candidate.key];
        if Lookup(hashes, id) != hash { return Err(IdempotencyConflict), normal; }
        return Ok((Item(id), false)), normal;
      }
      NewIsMadeFor(lib, req, normal, newId.value, now);
      var done := Add(candidate, hash, statted, io);
      if done.Err? { return Err(done.error), normal; }
      return Ok((candidate, true)), normal;
    }

    // checkAdmissionLocked, appendLocked and setLocked for a new delivery.
    method Add(d: Delivery, hash: Bytes, statted: bool, io: AppendIO) returns (r: Result<()>)
      requires Valid() && Enabled(Maps(), Event.Create(d, hash))
      modifies this`disk, this`persistenceErr, this`records, this`log, this`stray, this`items, this`hashes, this`keyToId
      ensures Valid() && old(log) <= log
      ensures DoneOrNot(old(Maps()), Maps(), Event.Create(d, hash), r)
      ensures r.Ok? <==> old(CanCreate(d, hash, statted, io))
      ensures r.Ok? ==> !persistenceErr && Stored(d, hash) && InLimit()
      ensures r.Err? ==> r.error == JournalFull || (r.error == Persistence && persistenceErr)
      ensures r == Err(JournalFull) <==> maxJournalBytes > 0 && statted && old(file.Some? && !Fits(d, hash))
      ensures r == Err(JournalFull) ==> unchanged(this)
      ensures old(persistenceErr) ==> disk == old(disk)
    {
      r := CheckAdmission(d, hash, statted);
      if r.Err? { return; }
      r := Persist(Event.Create(d, hash), d, hash, io);
    }

    // ---- Claims ----

    method Candidates(now: int, eligible: Delivery -> bool) returns (q: seq<Delivery>)
      requires Indexed(Maps())
      ensures Elements(q) == DueSet(Maps(), now, eligible)
      ensures forall i, j | 0 <= i < j < |q| :: q[i] != q[j]
    {
      q := [];
      var left := items.Keys;
      while left != {}
        invariant left <= items.Keys
        invariant forall d :: d in q <==>
          d.id in items && d.id !in left && items[d.id] == d && Due(d, now) && eligible(d)
        invariant forall i, j | 0 <= i < j < |q| :: q[i] != q[j]
        decreases left
      {
        var id :| id in left;
        left := left - {id};
        if Due(items[id], now) && eligible(items[id]) { q := q + [items[id]]; }
      }
      forall d ensures d in Elements(q) <==> d in DueSet(Maps(), now, eligible) {
        assert d in Elements(q) <==> d in q;
        if d in DueSet(Maps(), now, eligible) { assert d.id in items && items[d.id] == d; }
      }
    }

    // ClaimDueMatching: the first `limit` due eligible deliveries, journaled one
    // by one; on an error, those journaled before it.
    method ClaimDueMatching(now: int, lease: int, limit: int, eligible: Delivery -> bool, io: nat -> AppendIO)
        returns (claimed: seq<Delivery>, ok: bool)
      requires Valid()
      modifies this`disk, this`persistenceErr, this`records, this`log, this`stray, this`items, this`hashes, this`keyToId
      ensures Valid() && old(log) <= log
      ensures limit < 1 ==> claimed == [] && ok && unchanged(this)
      ensures limit >= 1 ==>
        TookFirst(old(Maps()), items, now, lease, limit, eligible, claimed, ok) && hashes == old(hashes)
      ensures ClaimedDueOnly(old(items), items, now, lease, eligible, claimed)
      ensures limit >= 1 ==>
        |claimed| <= limit && LeftLater(old(items), items, now, eligible, claimed, ok && |claimed| < limit)
      ensures Consistent(old(Maps())) ==> keyToId == old(keyToId)
      ensures AllWork(io, |claimed|) && (claimed != [] ==> !old(persistenceErr) && file.Some?)
      ensures !ok ==> old(persistenceErr) || file.None? || !io(|claimed|).Works?
      ensures persistenceErr == (old(persistenceErr) || !ok)
      ensures records == old(records) + |claimed|
      ensures old(persistenceErr) ==> disk == old(disk)
    {
      claimed, ok := [], true;
      if limit < 1 { return; }
      ghost var m := Maps();
      var candidates := SelectDue(now, limit, eligible);
      claimed, ok := ClaimEach(m, candidates, now, lease, io);
      TookCandidates(m, items, now, lease, limit, eligible, claimed, ok, candidates);
      TookDueOnly(m, items, now, lease, limit, eligible, claimed, ok);
      TookEarliest(m, items, now, lease, limit, eligible, claimed, ok);
      if Consistent(m) { ConsistentKeysLead(m, candidates, now); }
    }

    // The loop that journals the claims one by one.
    method ClaimEach(ghost m: Mem, candidates: seq<Delivery>, now: int, lease: int, io: nat -> AppendIO)
        returns (claimed: seq<Delivery>, ok: bool)
      requires Valid() && m == Maps() && Claimable(m, candidates, now)
      modifies this`disk, this`persistenceErr, this`records, this`log, this`stray, this`items, this`hashes, this`keyToId
      ensures Valid() && old(log) <= log
      ensures ClaimedFirst(m, items, hashes, candidates, claimed, now, lease) && (ok <==> |claimed| == |candidates|)
      ensures KeysLead(m, candidates) ==> keyToId == m.keyToId
      ensures AllWork(io, |claimed|) && (claimed != [] ==> !old(persistenceErr) && file.Some?)
      ensures !ok ==> old(persistenceErr) || file.None? || !io(|claimed|).Works?
      ensures persistenceErr == (old(persistenceErr) || !ok) && records == old(records) + |claimed|
      ensures old(persistenceErr) ==> disk == old(disk)
    {
      claimed, ok := [], true;
      NoneClaimed(m, candidates, now, lease);
      while |claimed| < |candidates|
        invariant Valid() && old(log) <= log && persistenceErr == old(persistenceErr)
        invariant ClaimedFirst(m, items, hashes, candidates, claimed, now, lease)
        invariant KeysLead(m, candidates) ==> keyToId == m.keyToId
        invariant records == old(records) + |claimed| && AllWork(io, |claimed|)
        invariant claimed != [] ==> !old(persistenceErr) && file.Some?
        invariant claimed == [] ==> disk == old(disk)
        decreases |candidates| - |claimed|
      {
        var append := io(|claimed|);
        claimed, ok := ClaimNext(m, candidates, claimed, now, lease, append);
        if !ok { return; }
      }
    }

    // The candidates in claim order, cut to the limit.
    method SelectDue(now: int, limit: int, eligible: Delivery -> bool) returns (candidates: seq<Delivery>)
      requires Indexed(Maps()) && limit >= 1
      ensures var q := ClaimOrder(Maps(), now, eligible);
        |candidates| == Smaller(limit, |q|) && candidates == q[..Smaller(limit, |q|)]
      ensures Claimable(Maps(), candidates, now)
    {
      candidates := Candidates(now, eligible);
      SortedCandidates(Maps(), candidates, now, eligible);
      candidates := Sort(Before, candidates);
      if |candidates| > limit { candidates := candidates[..limit]; }
    }

    method ClaimNext(ghost m: Mem, candidates: seq<Delivery>, claimed: seq<Delivery>, now: int, lease: int, io: AppendIO)
        returns (more: seq<Delivery>, ok: bool)
      requires Valid() && Indexed(m) && Claimable(m, candidates, now) && |claimed| < |candidates|
      requires ClaimedFirst(m, items, hashes, candidates, claimed, now, lease)
      modifies this`disk, this`persistenceErr, this`records, this`log, this`stray, this`items, this`hashes, this`keyToId
      ensures Valid() && old(log) <= log && persistenceErr == !ok
      ensures ok <==> !old(persistenceErr) && file.Some? && io.Works?
      ensures ClaimedFirst(m, items, hashes, candidates, more, now, lease) && |more| == |claimed| + (if ok then 1 else 0)
      ensures KeysLead(m, candidates) && old(keyToId) == m.keyToId ==> keyToId == m.keyToId
      ensures records == old(records) + (if ok then 1 else 0)
      ensures old(persistenceErr) ==> disk == old(disk)
    {
      var i := |claimed|;
      ClaimNextItem(m, candidates, i, now, lease);
      var item;
      item, ok := ClaimOne(candidates[i], now, lease, io);
      ClaimedSeqGrows(candidates, i, now, lease);
      more := if ok then claimed + [item] else claimed;
    }

    method ClaimOne(candidate: Delivery, now: int, lease: int, io: AppendIO) returns (item: Delivery, ok: bool)
      requires Valid() && candidate.id in items && items[candidate.id] == candidate && Due(candidate, now)
      modifies this`disk, this`persistenceErr, this`records, this`log, this`stray, this`items, this`hashes, this`keyToId
      ensures Valid() && old(log) <= log && item == Claimed(candidate, now, lease)
      ensures hashes == old(hashes) && ok == old(Appends(io))
      ensures KeyLeads(old(keyToId), candidate) ==> keyToId == old(keyToId)
      ensures ok ==> items == old(items)[candidate.id := item] && records == old(records) + 1 && !persistenceErr
      ensures !ok ==> items == old(items) && records == old(records) && persistenceErr
      ensures old(persistenceErr) ==> disk == old(disk)
    {
      item := candidate;
      item := item.(status := InFlight, attempts := item.attempts + 1, leaseUntil := now + lease, updatedAt := now);
      ghost var ev := Event.Claim(candidate.id, now, lease);
      EffectOfPut(Maps(), ev);
      var done := Persist(ev, item, Lookup(hashes, item.id), io);
      ok := done.Ok?;
      assert hashes == old(hashes);
    }

    // ---- Pruning ----

    // Ranges over the map, keeps the wanted IDs and sorts them.
    method SortedIds(wanted: Delivery -> bool) returns (ids: seq<Bytes>, ghost chosen: set<Bytes>)
      ensures ids == Names.Sorted(chosen)
      ensures forall id :: id in chosen <==> id in items && wanted(items[id])
    {
      var found: seq<Bytes> := [];
      var left := items.Keys;
      while left != {}
        invariant left <= items.Keys
        invariant forall id :: id in found <==> id in items && id !in left && wanted(items[id])
        invariant forall i, j | 0 <= i < j < |found| :: found[i] != found[j]
        decreases left
      {
        var id :| id in left;
        left := left - {id};
        if wanted(items[id]) { found := found + [id]; }
      }
      Names.SortIsSorted(found);
      chosen := Elements(found);
      ids := Sort(Less, found);
    }

    // PruneTerminal: one write of all the tombstones in ID order, then the maps.
    method PruneTerminal(before: int, io: AppendIO) returns (r: Result<nat>)
      requires Valid()
      modifies this`disk, this`persistenceErr, this`records, this`log, this`stray, this`items, this`hashes, this`keyToId,
        this`prunedDeliveries
      ensures Valid() && old(log) <= log
      ensures r.Err? <==> PrunableIds(old(Maps()), before) != {} && !old(Appends(io))
      ensures r.Ok? ==> Pruned(old(Maps()), Maps(), before, r.value)
      ensures r.Ok? ==> prunedDeliveries == old(prunedDeliveries) + r.value && records == old(records) + r.value
      ensures r.Err? ==> Maps() == old(Maps()) && persistenceErr && records == old(records)
      ensures PrunableIds(old(Maps()), before) == {} ==> unchanged(this)
      ensures PrunableIds(old(Maps()), before) != {} ==> persistenceErr == r.Err?
      ensures old(persistenceErr) ==> disk == old(disk)
    {
      ghost var m := Maps();
      var ids := IdsToPrune(before, m);
      if |ids| == 0 {
        NothingToPrune(m, before);
        return Ok(0);
      }
      r := PruneChosen(ids, before, m, io);
      if r.Ok? { prunedDeliveries := prunedDeliveries + |ids|; }
    }

    method IdsToPrune(before: int, ghost m: Mem) returns (ids: seq<Bytes>)
      requires m == Maps()
      ensures ids == Names.Sorted(PrunableIds(m, before)) && |ids| == |PrunableIds(m, before)|
    {
      ghost var chosen;
      ids, chosen := SortedIds(d => Prunable(d, before));
      assert chosen == PrunableIds(m, before);
    }

    method PruneChosen(ids: seq<Bytes>, ghost before: int, ghost m: Mem, io: AppendIO) returns (r: Result<nat>)
      requires Valid() && m == Maps() && ids == Names.Sorted(PrunableIds(m, before))
      modifies this`disk, this`persistenceErr, this`records, this`log, this`stray, this`items, this`hashes, this`keyToId
      ensures Valid() && old(log) <= log && (r.Ok? <==> old(Appends(io)))
      ensures r.Ok? ==> r.value == |ids| && Maps() == PrunedMem(m, before) && records == old(records) + |ids|
      ensures r.Err? ==> Maps() == m && records == old(records)
      ensures persistenceErr == r.Err?
      ensures old(persistenceErr) ==> disk == old(disk)
    {
      PruneEnabled(m, before);
      r := PruneIds(ids, m, PruneEvent(m, before), io);
    }

    method PruneIds(ids: seq<Bytes>, ghost m: Mem, ghost ev: Event, io: AppendIO) returns (r: Result<nat>)
      requires Valid() && m == Maps() && ev.Prune? && Enabled(m, ev) && ids == ev.ids
      modifies this`disk, this`persistenceErr, this`records, this`log, this`stray, this`items, this`hashes, this`keyToId
      ensures Valid() && old(log) <= log && (r.Ok? <==> old(Appends(io)))
      ensures r.Ok? ==> r.value == |ids| && Maps() == Effect(m, ev) && records == old(records) + |ids|
      ensures r.Err? ==> Maps() == m && records == old(records)
      ensures persistenceErr == r.Err?
      ensures old(persistenceErr) ==> disk == old(disk)
    {
      var data := TombstoneLines(ids);
      var done := AppendData(ev, data, |ids|, io);
      if done.Err? { return Err(done.error); }
      DropAll(ids, ev);
      return Ok(|ids|);
    }

    method TombstoneLines(ids: seq<Bytes>) returns (data: Bytes)
      ensures data == Lines(codec, Tombstones(ids))
    {
      data := "";
      var i := 0;
      while i < |ids|
        invariant 0 <= i <= |ids| && data == Lines(codec, Tombstones(ids[..i]))
      {
        assert Tombstones(ids)[..i] == Tombstones(ids[..i]) && Tombstones(ids)[..i + 1] == Tombstones(ids[..i + 1]);
        LinesGrow(codec, Tombstones(ids), i);
        data := data + Line(codec, Tombstone(ids[i]));
        i := i + 1;
      }
      assert ids[..i] == ids;
    }

    // deleteLocked for each of the IDs after a successful append.
    method DropAll(ids: seq<Bytes>, ghost ev: Event)
      requires ValidIn(Synced(ev)) && ev.Prune? && Enabled(Maps(), ev) && ids == ev.ids
      modifies this`log, this`items, this`hashes, this`keyToId
      ensures Valid() && Maps() == Effect(old(Maps()), ev) && log == old(log) + [Ack]
    {
      ghost var m, was := Maps(), View(Synced(ev));
      ServeExtends(codec, start, log, Ack);
      AckPrune(codec, was, ev);
      DeleteEach(ids, m);
      log := log + [Ack];
      assert View(Idle) == was.(mem := ApplyAll(m, Tombstones(ids)), phase := Idle);
    }

    method DeleteEach(ids: seq<Bytes>, ghost m: Mem)
      requires m == Maps() && Indexed(m) && forall i | 0 <= i < |ids| :: ids[i] in items
      modifies this`items, this`hashes, this`keyToId
      ensures Maps() == ApplyAll(m, Tombstones(ids)) && Indexed(Maps())
    {
      var i := 0;
      while i < |ids|
        invariant 0 <= i <= |ids| && Maps() == ApplyAll(m, Tombstones(ids[..i])) && Indexed(Maps())
      {
        assert Tombstones(ids[..i + 1]) == Tombstones(ids[..i]) + [Tombstone(ids[i])];
        ApplyAllConcat(m, Tombstones(ids[..i]), [Tombstone(ids[i])]);
        OneRecord(ApplyAll(m, Tombstones(ids[..i])), Tombstone(ids[i]));
        assert ids[i] in m.items && ids[i] != "";
        DeleteItem(ids[i]);
        i := i + 1;
      }
      assert ids[..i] == ids;
    }

    // ---- Compaction ----

    // Give up before the rename: the temporary is closed and, when that works,
    // removed.
    method AbandonTemp(t: nat, ghost p: Phase, removed: bool)
      requires ValidIn(p) && (p == Drafting(t) || p == Sealed(t))
      modifies this`disk, this`log
      ensures Valid() && GrewQuietly(old(log), log)
      ensures disk.files == old(disk.files) && disk.entries == old(disk.entries)
      ensures disk.temps == if removed then old(disk.temps) - {t} else old(disk.temps)
    {
      ServeExtends(codec, start, log, Abandon(removed));
      if removed { disk := disk.(temps := disk.temps - {t}); }
      log := log + [Abandon(removed)];
    }

    method BeginTemp(t: nat)
      requires Valid() && file.Some? && t !in disk.files
      modifies this`disk, this`log
      ensures ValidIn(Drafting(t)) && GrewQuietly(old(log), log) && t in disk.files && disk.files[t].data == ""
      ensures disk.entries == old(disk.entries) && SameFiles(old(disk), disk) && disk.temps == old(disk.temps) + {t}
    {
      ServeExtends(codec, start, log, CreateTemp(t));
      disk := NewFile(disk, t).(temps := disk.temps + {t});
      log := log + [CreateTemp(t)];
    }

    // Bytes of the snapshot reach the temporary.
    method DraftPiece(t: nat, data: Bytes)
      requires ValidIn(Drafting(t)) && t in disk.files && file.Some?
      modifies this`disk, this`log
      ensures ValidIn(Drafting(t)) && GrewQuietly(old(log), log) && t in disk.files
      ensures disk.files[t].data == old(disk.files[t].data) + data
      ensures disk.entries == old(disk.entries) && SameFilesBut(old(disk), disk, t) && disk.temps == old(disk.temps)
    {
      ServeExtends(codec, start, log, Draft(data));
      disk := AppendTo(disk, t, data);
      log := log + [Draft(data)];
    }

    // The IDs in the order the snapshot lists them.
    method SnapshotIds(ghost rs: seq<Record>) returns (ids: seq<Bytes>)
      requires rs == Snapshot(Maps())
      ensures |rs| == |ids| == |items|
      ensures forall i | 0 <= i < |ids| :: ids[i] in items && rs[i] == Put(items[ids[i]], Lookup(hashes, ids[i]))
    {
      ghost var chosen;
      ids, chosen := SortedIds(d => true);
      assert chosen == items.Keys;
      SnapshotFrom(Maps(), ids, rs);
    }

    // The snapshot, record by record; it may stop in the middle of one.
    method DraftAll(t: nat, ids: seq<Bytes>, ghost rs: seq<Record>, stop: Stop) returns (ok: bool)
      requires ValidIn(Drafting(t)) && file.Some? && t in disk.files && disk.files[t].data == ""
      requires |rs| == |ids|
      requires forall i | 0 <= i < |ids| :: ids[i] in items && rs[i] == Put(items[ids[i]], Lookup(hashes, ids[i]))
      modifies this`disk, this`log
      ensures ValidIn(Drafting(t)) && GrewQuietly(old(log), log) && t in disk.files
      ensures ok <==> !(stop.AtRecord? && stop.k < |ids|)
      ensures ok ==> disk.files[t].data == Lines(codec, rs)
      ensures disk.entries == old(disk.entries) && SameFilesBut(old(disk), disk, t) && disk.temps == old(disk.temps)
    {
      var i := 0;
      while i < |ids|
        invariant 0 <= i <= |ids| && ValidIn(Drafting(t)) && GrewQuietly(old(log), log)
        invariant stop.AtRecord? ==> i <= stop.k
        invariant t in disk.files && disk.files[t].data == Lines(codec, rs[..i])
        invariant disk.entries == old(disk.entries) && SameFilesBut(old(disk), disk, t) && disk.temps == old(disk.temps)
      {
        var data := Line(codec, Put(items[ids[i]], Lookup(hashes, ids[i])));
        if stop.AtRecord? && stop.k == i {
          DraftPiece(t, data[..Smaller(stop.written, |data|)]);
          return false;
        }
        LinesGrow(codec, rs, i);
        DraftPiece(t, data);
        i := i + 1;
      }
      AllTaken(rs, i);
      return true;
    }

    // temp.Sync, once the whole snapshot is written.
    method SealTemp(t: nat, ghost rs: seq<Record>)
      requires ValidIn(Drafting(t)) && file.Some? && t in disk.files
      requires rs == Snapshot(Maps()) && disk.files[t].data == Lines(codec, rs)
      modifies this`disk, this`log
      ensures ValidIn(Sealed(t)) && GrewQuietly(old(log), log)
      ensures disk.entries == old(disk.entries) && SameFilesBut(old(disk), disk, t) && disk.temps == old(disk.temps)
      ensures t in disk.files && disk.files[t] == Sealing(codec, rs)
    {
      ServeExtends(codec, start, log, Seal);
      disk := SyncFile(disk, t);
      log := log + [Seal];
    }

    method RenameTemp(t: nat)
      requires ValidIn(Sealed(t))
      modifies this`disk, this`log
      ensures ValidIn(Renamed(t)) && GrewQuietly(old(log), log)
      ensures disk.files == old(disk.files) && disk.entries == old(disk.entries) + [Some(t)]
    {
      ServeExtends(codec, start, log, Rename);
      disk := disk.(entries := disk.entries + [Some(t)], temps := disk.temps - {t});
      log := log + [Rename];
    }

    // adoptCompactedLocked with persistence failed: the new file is in place but
    // its name may not be durable.
    method AdoptHalted(t: nat)
      requires ValidIn(Renamed(t)) && t in disk.files
      modifies this`file, this`records, this`persistenceErr, this`log
      ensures Valid() && GrewQuietly(old(log), log)
      ensures file == Some(t) && records == |items| && persistenceErr
    {
      ServeExtends(codec, start, log, Halt);
      file, records, persistenceErr := Some(t), |items|, true;
      log := log + [Halt];
    }

    // syncDirectory
    method AnchorName(t: nat)
      requires ValidIn(Renamed(t)) && disk.entries != [] && Current(disk) == Some(t)
      modifies this`disk, this`log
      ensures ValidIn(Anchored(t)) && GrewQuietly(old(log), log)
      ensures disk.files == old(disk.files) && disk.entries == [Some(t)]
    {
      ServeExtends(codec, start, log, SyncDir);
      disk, log := SyncDirectory(disk), log + [SyncDir];
    }

    // adoptCompactedLocked once the name is durable: every failure is repaired.
    method AdoptAnchored(t: nat)
      requires ValidIn(Anchored(t)) && t in disk.files
      modifies this`file, this`records, this`persistenceErr, this`log, this`stray
      ensures Valid() && GrewQuietly(old(log), log)
      ensures file == Some(t) && records == |items| && !persistenceErr && stray.None?
    {
      ServeExtends(codec, start, log, Adopt);
      file, records, persistenceErr, stray := Some(t), |items|, false, None;
      log := log + [Adopt];
    }

    // Where a compaction leaves the store: as it was, over the snapshot but not
    // to be written, or over the durable snapshot and repaired.
    twostate predicate StillOld()
      reads this
    {
      && file == old(file) && persistenceErr == old(persistenceErr) && records == old(records)
      && disk.entries == old(disk.entries) && SameFiles(old(disk), disk)
    }

    ghost predicate Over(t: nat, snapshot: File)
      reads this
    {
      file == Some(t) && t in disk.files && disk.files[t] == snapshot && records == |items|
    }

    // What a compaction comes to, by where it stops.
    twostate predicate Compacted(temp: nat, snapshot: File, stop: Stop)
      reads this
    {
      if old(file.None?) || StopsEarly(stop, |items|) then StillOld()
      else if stop.AtDirSync? then
        Over(temp, snapshot) && persistenceErr && disk.entries == old(disk.entries) + [Some(temp)]
      else Over(temp, snapshot) && !persistenceErr && stray.None? && disk.entries == [Some(temp)]
    }

    // Compact; `temp` is the file os.CreateTemp makes.
    method Compact(temp: nat, io: CompactIO) returns (r: Result<()>)
      requires Valid() && temp !in disk.files
      modifies this`disk, this`file, this`records, this`persistenceErr, this`log, this`stray,
        this`compactionsSucceeded, this`compactionsFailed
      ensures Valid() && GrewQuietly(old(log), log)
      ensures Compacted(temp, old(SnapshotFile(codec, Maps())), io.stop)
      ensures r == CompactResult(old(file.Some?), io.stop, |items|)
      ensures r.Ok? <==> old(file.Some?) && (io.stop.Nowhere? || (io.stop.AtRecord? && io.stop.k >= |items|))
      ensures io.removed && StopsEarly(io.stop, |items|) && temp !in old(disk.temps) ==> temp !in disk.temps
      ensures compactionsSucceeded == old(compactionsSucceeded) + (if r.Ok? then 1 else 0)
      ensures compactionsFailed == old(compactionsFailed) + (if r.Ok? then 0 else 1)
    {
      r := CompactFile(temp, io);
      if r.Ok? { compactionsSucceeded := compactionsSucceeded + 1; }
      else { compactionsFailed := compactionsFailed + 1; }
    }

    method CompactFile(temp: nat, io: CompactIO) returns (r: Result<()>)
      requires Valid() && temp !in disk.files
      modifies this`disk, this`file, this`records, this`persistenceErr, this`log, this`stray
      ensures Valid() && GrewQuietly(old(log), log)
      ensures Compacted(temp, old(SnapshotFile(codec, Maps())), io.stop)
      ensures r == CompactResult(old(file.Some?), io.stop, |items|)
      ensures io.removed && StopsEarly(io.stop, |items|) && temp !in old(disk.temps) ==> temp !in disk.temps
    {
      var drafted := DraftTemp(temp, io);
      if !drafted { return Err(CompactionFailed); }
      if io.stop.AtRename? {
        AbandonTemp(temp, Sealed(temp), io.removed);
        return Err(CompactionFailed);
      }
      r := SwapIn(temp, io.stop);
    }

    // From the rename on.
    method SwapIn(temp: nat, stop: Stop) returns (r: Result<()>)
      requires ValidIn(Sealed(temp)) && temp in disk.files
      modifies this`disk, this`file, this`records, this`persistenceErr, this`log, this`stray
      ensures Valid() && GrewQuietly(old(log), log) && Over(temp, old(disk.files[temp]))
      ensures stop.AtDirSync? ==>
        persistenceErr && r == Err(Persistence) && disk.entries == old(disk.entries) + [Some(temp)]
      ensures !stop.AtDirSync? ==>
        && !persistenceErr && stray.None? && disk.entries == [Some(temp)]
        && r == if stop.AtClose? then Err(CompactionFailed) else Ok(())
    {
      RenameTemp(temp);
      if stop.AtDirSync? {
        AdoptHalted(temp);
        return Err(Persistence);
      }
      AnchorName(temp);
      AdoptAnchored(temp);
      r := if stop.AtClose? then Err(CompactionFailed) else Ok(());
    }

    // Up to the rename: make the temporary, write the snapshot, synchronise.
    method DraftTemp(temp: nat, io: CompactIO) returns (ok: bool)
      requires Valid() && temp !in disk.files
      modifies this`disk, this`log
      ensures GrewQuietly(old(log), log) && disk.entries == old(disk.entries) && SameFiles(old(disk), disk)
      ensures ok <==> file.Some? && (io.stop.AtRename? || !StopsEarly(io.stop, |items|))
      ensures !ok ==> Valid() && (io.removed && temp !in old(disk.temps) ==> temp !in disk.temps)
      ensures ok ==> ValidIn(Sealed(temp)) && file.Some?
      ensures ok ==> temp in disk.files && disk.files[temp] == old(SnapshotFile(codec, Maps()))
    {
      if file.None? || io.stop.AtCreate? { return false; }
      ghost var rs := Snapshot(Maps());
      BeginTemp(temp);
      ok := FillTemp(temp, rs, io.stop);
      if !ok { AbandonTemp(temp, Drafting(temp), io.removed); }
    }

    method FillTemp(temp: nat, ghost rs: seq<Record>, stop: Stop) returns (ok: bool)
      requires ValidIn(Drafting(temp)) && file.Some? && temp in disk.files && disk.files[temp].data == ""
      requires rs == Snapshot(Maps())
      modifies this`disk, this`log
      ensures GrewQuietly(old(log), log) && disk.entries == old(disk.entries) && SameFilesBut(old(disk), disk, temp)
      ensures disk.temps == old(disk.temps)
      ensures ok <==> !stop.AtProtect? && !stop.AtSync? && !(stop.AtRecord? && stop.k < |items|)
      ensures !ok ==> ValidIn(Drafting(temp))
      ensures ok ==> ValidIn(Sealed(temp))
      ensures ok ==> temp in disk.files && disk.files[temp] == Sealing(codec, rs)
    {
      if stop.AtProtect? { return false; }
      ok := DraftSnapshot(temp, rs, stop);
      if !ok { return; }
      ok := !stop.AtSync?;
      if ok { SealTemp(temp, rs); }
    }

    method DraftSnapshot(temp: nat, ghost rs: seq<Record>, stop: Stop) returns (ok: bool)
      requires ValidIn(Drafting(temp)) && file.Some? && temp in disk.files && disk.files[temp].data == ""
      requires rs == Snapshot(Maps())
      modifies this`disk, this`log
      ensures ValidIn(Drafting(temp)) && GrewQuietly(old(log), log) && temp in disk.files
      ensures disk.entries == old(disk.entries) && SameFilesBut(old(disk), disk, temp) && disk.temps == old(disk.temps)
      ensures ok <==> !(stop.AtRecord? && stop.k < |items|)
      ensures ok ==> disk.files[temp].data == Lines(codec, rs)
    {
      var ids := SnapshotIds(rs);
      ok := DraftAll(temp, ids, rs, stop);
    }

    // ---- Starting ----

    // Open: remove what an interrupted compaction left, create the journal when
    // there is none, and replay it. `newFile` is the file a creation makes.
    static method Open(codec: Codec, maxJournalBytes: nat, disk: Disk, newFile: nat, io: OpenIO, ghost begin: Sys)
        returns (store: Store?, after: Disk, ghost boot: seq<Label>)
      requires disk.entries != [] && newFile !in disk.files
      requires forall e | e in disk.entries :: e.Some? ==> e.value in disk.files
      requires begin.disk == disk && begin.phase.Down?
      ensures store != null <==> CanOpen(codec, disk, io)
      ensures store != null ==>
        && fresh(store) && store.Valid() && store.disk == after && store.codec == codec
        && store.maxJournalBytes == maxJournalBytes && !store.persistenceErr && store.log == []
        && Runs(codec, begin, boot) && Run(codec, begin, boot) == store.start
      ensures store != null && Current(disk).Some? ==>
        && ReplayFile(codec, Content(disk, Current(disk))) == Loaded(store.Maps(), store.records)
        && store.file == Current(disk) && boot == [Sweep, Machine.Open]
        && after.entries == if disk.temps == {} then disk.entries else [Current(disk)]
      ensures store != null && Current(disk).None? ==>
        && store.Maps() == EMPTY && store.records == 0
        && store.file == Some(newFile) && boot == [Sweep, CreateJournal(newFile), SyncNewJournal]
        && after.entries == [Some(newFile)] && newFile in after.files && after.files[newFile] == File("", 0)
      ensures SameFiles(disk, after)
    {
      store, after, boot := null, disk, [];
      if !io.swept { return; }
      after := if disk.temps == {} then disk else SyncDirectory(disk).(temps := {});
      RunExtends(codec, begin, [], Sweep);
      ghost var swept := [] + [Sweep];
      assert swept == [Sweep];
      if Current(disk).None? {
        store, after, boot := OpenNew(codec, maxJournalBytes, after, newFile, io, begin, swept);
        return;
      }
      store, boot := OpenOld(codec, maxJournalBytes, after, begin, swept);
    }

    // The journal exists: replay it.
    static method OpenOld(codec: Codec, maxJournalBytes: nat, disk: Disk, ghost begin: Sys, ghost log: seq<Label>)
        returns (store: Store?, ghost boot: seq<Label>)
      requires disk.entries != [] && Current(disk).Some? && Current(disk).value in disk.files && disk.temps == {}
      requires Exec(codec, begin, log) == Some(begin.(disk := disk)) && begin.phase.Down? && log == [Sweep]
      ensures store != null <==> ReplayFile(codec, Content(disk, Current(disk))).Loaded?
      ensures store != null ==>
        && fresh(store) && store.Valid() && store.disk == disk && store.codec == codec
        && store.maxJournalBytes == maxJournalBytes && !store.persistenceErr && store.log == []
        && store.file == Current(disk) && boot == [Sweep, Machine.Open]
        && Runs(codec, begin, boot) && Run(codec, begin, boot) == store.start
        && ReplayFile(codec, Content(disk, Current(disk))) == Loaded(store.Maps(), store.records)
    {
      boot := log + [Machine.Open];
      assert boot == [Sweep, Machine.Open];
      var replayed := ReplayJournal(codec, Content(disk, Current(disk)));
      if replayed.Refused? { return null, boot; }
      RunExtends(codec, begin, log, Machine.Open);
      ReplayIndexed(codec, Content(disk, Current(disk)), EMPTY, 0);
      store := new Store(codec, maxJournalBytes, disk, Current(disk).value, replayed.mem, replayed.records);
    }

    // The journal does not exist: make it and synchronise its name.
    static method OpenNew(codec: Codec, maxJournalBytes: nat, disk: Disk, newFile: nat, io: OpenIO,
                          ghost begin: Sys, ghost log: seq<Label>)
        returns (store: Store?, after: Disk, ghost boot: seq<Label>)
      requires disk.entries != [] && Current(disk).None? && newFile !in disk.files
      requires Exec(codec, begin, log) == Some(begin.(disk := disk)) && begin.phase.Down? && log == [Sweep]
      ensures store != null <==> io.created && io.synced
      ensures store != null ==>
        && fresh(store) && store.Valid() && store.disk == after && store.codec == codec
        && store.maxJournalBytes == maxJournalBytes && !store.persistenceErr && store.log == []
        && store.Maps() == EMPTY && store.records == 0
        && store.file == Some(newFile) && boot == [Sweep, CreateJournal(newFile), SyncNewJournal]
        && Runs(codec, begin, boot) && Run(codec, begin, boot) == store.start
        && after.entries == [Some(newFile)] && newFile in after.files && after.files[newFile] == File("", 0)
      ensures SameFiles(disk, after)
    {
      store, after, boot := null, disk, log;
      if !io.created { return; }
      RunExtends(codec, begin, log, CreateJournal(newFile));
      after := NewFile(disk, newFile).(entries := disk.entries + [Some(newFile)]);
      ghost var made := log + [CreateJournal(newFile)];
      if !io.synced {
        after := after.(entries := after.entries + [None]);
        return;
      }
      RunExtends(codec, begin, made, SyncNewJournal);
      after := SyncDirectory(after);
      boot := made + [SyncNewJournal];
      assert boot == [Sweep, CreateJournal(newFile), SyncNewJournal];
      store := new Store(codec, maxJournalBytes, after, newFile, EMPTY, 0);
    }

    // replay: line by line to the end, the last line counting without its
    // newline when it decodes.
    static method ReplayJournal(codec: Codec, data: Bytes) returns (r: Replayed)
      ensures r == ReplayFile(codec, data)
    {
      var m, n, rest := EMPTY, 0, data;
      while true
        invariant ReplayFile(codec, data) == Replay(codec, rest, m, n)
        decreases |rest|
      {
        var i := IndexOf(rest, NEWLINE);
        var record := codec.decode(rest[..i]);
        if i == |rest| {
          assert rest[..i] == rest;
          if rest != "" && record.Some? {
            if !Applicable(record.value) { return Refused; }
            m, n := Apply(m, record.value), n + 1;
          }
          return Loaded(m, n);
        }
        if record.None? || !Applicable(record.value) { return Refused; }
        m, n, rest := Apply(m, record.value), n + 1, rest[i + 1..];
      }
    }

    // ---- Health ----

    // Ready; `statted` says whether the file can be examined.
    method Ready(statted: bool) returns (ready: bool)
      ensures ready <==> !persistenceErr && file.Some? && statted
    {
      if persistenceErr || file.None? { return false; }
      ready := statted;
    }

    // What Stats reports of the journal; a file that cannot be examined counts as
    // empty.
    method JournalStats(statted: bool) returns (size: nat, count: nat, live: nat)
      requires Valid()
      ensures count == records && live == |items|
      ensures size == if file.Some? && statted then |disk.files[file.value].data| else 0
    {
      size := if file.Some? && statted then |disk.files[file.value].data| else 0;
      count, live := records, |items|;
    }

    method Close()
      requires Valid()
      modifies this`file, this`log
      ensures Valid() && file.None? && old(log) <= log
    {
      ServeExtends(codec, start, log, Shut);
      file, log := None, log + [Shut];
    }
  }
}
