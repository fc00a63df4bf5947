/** The maintenance loop over the store (internal/compactor/compactor.go:80-149). */
module Compactors {
  import opened Results
  import opened Text
  import opened Deliveries
  import opened Journal
  import opened Disks
  import opened Selections
  import opened Stores

  // What the file system makes of a round: whether the two looks at the file
  // work, the append of the tombstones, and the compaction.
  datatype RoundIO = RoundIO(readyStat: bool, prune: AppendIO, sizeStat: bool, compact: CompactIO)

  // Pending and in-flight work is untouched, and nothing is added.
  predicate KeepsLiveWork(before: map<Bytes, Delivery>, after: map<Bytes, Delivery>) {
    && (forall id | id in before && !Terminal(before[id]) :: id in after && after[id] == before[id])
    && (forall id | id in after :: id in before && after[id] == before[id])
  }

  lemma PruneKeepsLiveWork(m: Mem, cutoff: int)
    requires Indexed(m)
    ensures KeepsLiveWork(m.items, PrunedMem(m, cutoff).items) && OldGone(m.items, PrunedMem(m, cutoff).items, cutoff)
  {
    var after := PrunedMem(m, cutoff);
    PruneIsExact(m, after, cutoff, |PrunableIds(m, cutoff)|);
    GoneKeepsLiveWork(m.items, after.items, cutoff);
  }

  lemma GoneKeepsLiveWork(before: map<Bytes, Delivery>, after: map<Bytes, Delivery>, cutoff: int)
    requires OldGone(before, after, cutoff)
    ensures KeepsLiveWork(before, after)
  {
  }

  lemma {:induction false} Above(used: set<nat>) returns (t: nat)
    ensures forall i | i in used :: i < t
  {
    t := 0;
    if used != {} {
      var i :| i in used;
      var rest := Above(used - {i});
      t := if rest > i then rest else i + 1;
      assert forall j | j in used :: j == i || j in used - {i};
    }
  }

  class Compactor {
    const store: Store
    const threshold: int
    const retention: int

    constructor (store: Store, threshold: int, retention: int)
      ensures this.store == store && this.threshold == threshold && this.retention == retention
    {
      this.store, this.threshold, this.retention := store, threshold, retention;
    }

    // The cutoff of retention, when there is any.
    function Cutoff(started: int): Option<int> { if retention > 0 then Some(started - retention) else None }

    // The journal is one durable name for the snapshot, and the store is sound.
    ghost predicate OnSnapshot(snapshot: File)
      reads store
    {
      && !store.persistenceErr && store.records == |store.items|
      && store.file.Some? && store.disk.entries == [store.file]
      && store.file.value in store.disk.files && store.disk.files[store.file.value] == snapshot
    }

    predicate IsReady(statted: bool)
      reads store
    {
      !store.persistenceErr && store.file.Some? && statted
    }

    // The maps after a round: pruned if the store is ready, there is a retention
    // and the append works, otherwise as they were.
    ghost function AfterRound(m: Mem, started: int, works: bool): Mem {
      if works && Cutoff(started).Some? then PrunedMem(m, Cutoff(started).value) else m
    }

    // compact. Persistence that had failed comes back only on a durable snapshot,
    // even when the call then reports an error.
    method Compact(io: CompactIO) returns (ok: bool)
      requires store.Valid()
      modifies store`disk, store`file, store`records, store`persistenceErr, store`log, store`stray,
        store`compactionsSucceeded, store`compactionsFailed
      ensures store.Valid() && GrewQuietly(old(store.log), store.log)
      ensures ok <==> CompactResult(old(store.file.Some?), io.stop, |store.items|).Ok?
      ensures store.compactionsSucceeded == old(store.compactionsSucceeded) + (if ok then 1 else 0)
      ensures ok ==>
        OnSnapshot(old(SnapshotFile(store.codec, store.Maps())))
      ensures old(store.persistenceErr) && !store.persistenceErr ==>
        OnSnapshot(old(SnapshotFile(store.codec, store.Maps())))
    {
      ghost var free := Above(store.disk.files.Keys);
      assert free !in store.disk.files;
      var temp: nat :| temp !in store.disk.files;
      var r := store.Compact(temp, io);
      ok := r.Ok?;
    }

    // The journal is big, and at least half of its records are redundant.
    predicate Redundant(statted: bool)
      requires store.Valid()
      reads store
    {
      && threshold > 0 && statted && store.file.Some?
      && |store.disk.files[store.file.value].data| >= threshold
      && store.records / 2 >= |store.items|
    }

    // compactIfNeeded
    method CompactIfNeeded(statted: bool, io: CompactIO)
      requires store.Valid()
      modifies store`disk, store`file, store`records, store`persistenceErr, store`log, store`stray,
        store`compactionsSucceeded, store`compactionsFailed
      ensures store.Valid() && GrewQuietly(old(store.log), store.log)
      ensures !old(Redundant(statted)) ==> unchanged(store)
      ensures old(Redundant(statted)) <==>
        && threshold > 0 && statted && old(store.file.Some?)
        && old(|store.disk.files[store.file.value].data|) >= threshold
        && 2 * old(|store.items|) <= old(store.records)
      ensures store.compactionsSucceeded == old(store.compactionsSucceeded)
        + (if old(Redundant(statted)) && CompactResult(true, io.stop, |store.items|).Ok? then 1 else 0)
      ensures old(Redundant(statted)) && CompactResult(true, io.stop, |store.items|).Ok? ==>
        2 * store.records <= old(store.records) && OnSnapshot(old(SnapshotFile(store.codec, store.Maps())))
    {
      if threshold <= 0 { return; }
      var size, count, live := store.JournalStats(statted);
      if size < threshold { return; }
      if count / 2 < live { return; }
      var ok := Compact(io);
    }

    // Retention finds something to remove.
    ghost predicate HasOld(m: Mem, started: int) {
      Cutoff(started).Some? && PrunableIds(m, Cutoff(started).value) != {}
    }

    // A round compacts a store that is not ready, one it has pruned, and one it
    // had nothing to prune from but whose journal is redundant.
    ghost predicate Compacting(m: Mem, started: int, io: RoundIO)
      requires store.Valid()
      reads store
    {
      if !IsReady(io.readyStat) then true
      else if HasOld(m, started) then store.Appends(io.prune)
      else Redundant(io.sizeStat)
    }

    // That is: without persistence or its file always; otherwise, if something that
    // succeeded, failed or was canceled is older than the retention, when its removal
    // is journaled; otherwise when at least half the records of a big journal are
    // redundant.
    lemma CompactsWhen(started: int, io: RoundIO)
      requires store.Valid()
      ensures Compacting(store.Maps(), started, io) <==>
        if store.persistenceErr || store.file.None? || !io.readyStat then true
        else if retention > 0 && (exists id ::
          && id in store.items && store.items[id].status in {Status.Succeeded, Status.Failed, Status.Canceled}
          && store.items[id].updatedAt <= started - retention)
        then io.prune.Works?
        else
          && threshold > 0 && io.sizeStat && |store.disk.files[store.file.value].data| >= threshold
          && 2 * |store.items| <= store.records
    {
      assert forall id :: id in PrunableIds(store.Maps(), started - retention) <==>
        id in store.items && store.items[id].status in {Status.Succeeded, Status.Failed, Status.Canceled}
        && store.items[id].updatedAt <= started - retention;
    }

    // The retention step; done when nothing more is to happen in this round.
    method Retain(started: int, ghost m: Mem, io: RoundIO) returns (done: bool)
      requires store.Valid() && m == store.Maps()
      modifies store`disk, store`file, store`persistenceErr, store`records, store`log, store`stray,
        store`items, store`hashes, store`keyToId,
        store`prunedDeliveries, store`compactionsSucceeded, store`compactionsFailed
      ensures store.Valid() && old(store.log) <= store.log
      ensures store.Maps() == AfterRound(m, started, old(store.Appends(io.prune)))
      ensures done <==> HasOld(m, started)
      ensures !done ==> unchanged(store)
      ensures done ==> CompactedAfter(old(store.Appends(io.prune)), old(store.compactionsSucceeded), io)
    {
      done := false;
      var cutoff := Cutoff(started);
      if cutoff.Some? { done := PruneAndCompact(cutoff.value, m, io); }
    }

    // If a compaction was due and works, it is counted and the journal is the
    // snapshot of the maps; otherwise none is counted.
    ghost predicate CompactedAfter(due: bool, before: nat, io: RoundIO)
      reads store
    {
      if due && CompactResult(true, io.compact.stop, |store.items|).Ok?
      then store.compactionsSucceeded == before + 1 && OnSnapshot(SnapshotFile(store.codec, store.Maps()))
      else store.compactionsSucceeded == before
    }

    method PruneAndCompact(cutoff: int, ghost m: Mem, io: RoundIO) returns (done: bool)
      requires store.Valid() && m == store.Maps()
      modifies store`disk, store`file, store`persistenceErr, store`records, store`log, store`stray,
        store`items, store`hashes, store`keyToId,
        store`prunedDeliveries, store`compactionsSucceeded, store`compactionsFailed
      ensures store.Valid() && old(store.log) <= store.log
      ensures store.Maps() == if old(store.Appends(io.prune)) then PrunedMem(m, cutoff) else m
      ensures done <==> PrunableIds(m, cutoff) != {}
      ensures !done ==> unchanged(store)
      ensures done ==> CompactedAfter(old(store.Appends(io.prune)), old(store.compactionsSucceeded), io)
    {
      var pruned := PruneOnly(cutoff, m, io.prune);
      if pruned.Err? { return true; }
      if pruned.value == 0 { return false; }
      CompactNow(io);
      return true;
    }

    method CompactNow(io: RoundIO)
      requires store.Valid() && store.file.Some?
      modifies store`disk, store`file, store`records, store`persistenceErr, store`log, store`stray,
        store`compactionsSucceeded, store`compactionsFailed
      ensures store.Valid() && old(store.log) <= store.log && store.Maps() == old(store.Maps())
      ensures CompactedAfter(true, old(store.compactionsSucceeded), io)
    {
      ghost var snapshot := SnapshotFile(store.codec, store.Maps());
      var ok := Compact(io.compact);
      assert SnapshotFile(store.codec, store.Maps()) == snapshot;
    }

    method PruneOnly(cutoff: int, ghost m: Mem, io: AppendIO) returns (r: Result<nat>)
      requires store.Valid() && m == store.Maps()
      modifies store`disk, store`persistenceErr, store`records, store`log, store`stray,
        store`items, store`hashes, store`keyToId, store`prunedDeliveries
      ensures store.Valid() && old(store.log) <= store.log
      ensures store.Maps() == if old(store.Appends(io)) then PrunedMem(m, cutoff) else m
      ensures r.Err? ==> !old(store.Appends(io)) && PrunableIds(m, cutoff) != {}
      ensures r.Ok? ==> r.value == |PrunableIds(m, cutoff)|
      ensures r.Ok? && r.value > 0 ==> old(store.Appends(io))
      ensures r.Ok? && r.value == 0 ==> unchanged(store)
    {
      r := store.PruneTerminal(cutoff, io);
      assert PrunableIds(m, cutoff) == {} ==> PrunedMem(m, cutoff) == m by {
        if PrunableIds(m, cutoff) == {} { NothingToPrune(m, cutoff); }
      }
    }

    // maintain
    method Maintain(started: int, io: RoundIO)
      requires store.Valid()
      modifies store`disk, store`file, store`persistenceErr, store`records, store`log, store`stray,
        store`items, store`hashes, store`keyToId,
        store`prunedDeliveries, store`compactionsSucceeded, store`compactionsFailed
      ensures store.Valid() && old(store.log) <= store.log
      ensures store.Maps() ==
        AfterRound(old(store.Maps()), started, old(IsReady(io.readyStat) && store.Appends(io.prune)))
      ensures retention > 0 && old(!store.persistenceErr && store.file.Some?) && io.readyStat && io.prune.Works? ==>
        OldGone(old(store.items), store.items, started - retention)
      ensures !(retention > 0 && old(!store.persistenceErr && store.file.Some?) && io.readyStat && io.prune.Works?) ==>
        store.Maps() == old(store.Maps())
      ensures KeepsLiveWork(old(store.items), store.items)
      ensures CompactedAfter(old(store.file.Some? && Compacting(store.Maps(), started, io)),
                             old(store.compactionsSucceeded), io)
      ensures old(store.persistenceErr) && !store.persistenceErr ==>
        OnSnapshot(old(SnapshotFile(store.codec, store.Maps())))
    {
      ghost var m := store.Maps();
      var ready := store.Ready(io.readyStat);
      if ready { Tidy(started, m, io); } else { var ok := Compact(io.compact); }
      RoundRemovesOld(m, started, old(IsReady(io.readyStat) && store.Appends(io.prune)));
    }

    lemma RoundRemovesOld(m: Mem, started: int, works: bool)
      requires Indexed(m)
      ensures KeepsLiveWork(m.items, AfterRound(m, started, works).items)
      ensures works && retention > 0 ==> OldGone(m.items, AfterRound(m, started, works).items, started - retention)
      ensures !(works && retention > 0) ==> AfterRound(m, started, works) == m
    {
      if works && Cutoff(started).Some? { PruneKeepsLiveWork(m, Cutoff(started).value); }
    }

    // The round of a store that is ready.
    method Tidy(started: int, ghost m: Mem, io: RoundIO)
      requires store.Valid() && m == store.Maps() && IsReady(io.readyStat)
      modifies store`disk, store`file, store`persistenceErr, store`records, store`log, store`stray,
        store`items, store`hashes, store`keyToId,
        store`prunedDeliveries, store`compactionsSucceeded, store`compactionsFailed
      ensures store.Valid() && old(store.log) <= store.log
      ensures store.Maps() == AfterRound(m, started, old(store.Appends(io.prune)))
      ensures CompactedAfter(old(Compacting(m, started, io)), old(store.compactionsSucceeded), io)
    {
      var done := Retain(started, m, io);
      if !done { CompactIfNeeded(io.sizeStat, io.compact); }
    }
  }
}
