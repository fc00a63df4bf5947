/** What the runs of the machine mean for a store object and for its callers. */
module Guarantees {
  import opened Results
  import opened Text
  import opened Deliveries
  import opened Journal
  import opened JournalProofs
  import opened Requests
  import Events
  import Snapshots
  import opened Disks
  import opened Machine
  import opened Trails
  import opened MachineProofs
  import opened Recovery
  import opened Appends
  import opened Refinement
  import opened Stores

  // ---- Safe runs of one process ----

  predicate Working(p: Phase) { p.Idle? || p.Written? || p.Synced? || p.Drafting? || p.Sealed? }

  // A sound store may append.
  ghost predicate SafeState(s: Sys) {
    Working(s.phase) && !s.failed && Attached(s) ==> SafeToAppend(s)
  }

  lemma SafeStep(c: Codec, s: Sys, tr: Trail, l: Label)
    requires Lawful(c) && Inv(c, s, tr) && SafeState(s) && Can(c, s, l) && Serving(l)
    ensures StartsSafe(s, l) && SafeState(Do(c, s, l))
  {
    assert Current(s.disk) in s.disk.entries;
    if l.Write? { SafeWrite(c, s, l); }
    else if l.Adopt? { AdoptRestores(c, s, tr); }
    else if l.Draft? || l.Seal? { SafeDraft(c, s, l); }
    else { SafeOther(c, s, l); }
  }

  lemma SafeWrite(c: Codec, s: Sys, l: Label)
    requires SafeState(s) && Can(c, s, l) && l.Write?
    ensures SafeState(Do(c, s, l))
  {
    LinesClean(c, Events.Records(s.mem, l.ev));
  }

  lemma SafeOther(c: Codec, s: Sys, l: Label)
    requires SafeState(s) && Can(c, s, l) && Serving(l) && !l.Write? && !l.Adopt? && !l.Draft? && !l.Seal?
    requires s.phase.Idle? && s.file.Some? ==> Attached(s)
    ensures SafeState(Do(c, s, l))
  {
  }

  lemma SafeDraft(c: Codec, s: Sys, l: Label)
    requires SafeState(s) && Can(c, s, l) && (l.Draft? || l.Seal?)
    requires Some(s.phase.temp) !in s.disk.entries && s.disk.entries != []
    ensures SafeState(Do(c, s, l))
  {
    assert s.disk.entries[0] in s.disk.entries;
  }

  // From a state in which the store may append, whatever the process does next
  // keeps the invariant and appends safely.
  lemma {:induction false} ServedSafely(c: Codec, s: Sys, tr: Trail, ls: seq<Label>, k: nat) returns (to: Trail)
    requires Lawful(c) && k <= |ls| && Runs(c, s, ls[..k]) && SafeRun(c, s, ls[..k])
    requires Inv(c, Run(c, s, ls[..k]), tr) && SafeState(Run(c, s, ls[..k]))
    requires Runs(c, s, ls) && Served(ls)
    ensures SafeRun(c, s, ls) && Inv(c, Run(c, s, ls), to) && SafeState(Run(c, s, ls))
    decreases |ls|
  {
    if k == |ls| {
      assert ls[..k] == ls;
      to := tr;
    } else {
      var front, last := ls[..|ls| - 1], ls[|ls| - 1];
      assert front[..k] == ls[..k];
      var at := ServedSafely(c, s, tr, front, k);
      SafeStep(c, Run(c, s, front), at, last);
      to := StepKeeps(c, Run(c, s, front), at, last);
    }
  }

  // ---- Stores ----

  // The process was started at the end of a run from nothing, and every append so
  // far was safe.
  ghost predicate Begun(c: Codec, before: seq<Label>, start: Sys, log: seq<Label>) {
    && Lawful(c) && Runs(c, BLANK, before) && Run(c, BLANK, before) == start && SafeRun(c, BLANK, before)
    && Runs(c, start, log) && SafeRun(c, start, log)
  }

  // And the next one will be.
  ghost predicate Reached(c: Codec, before: seq<Label>, start: Sys, log: seq<Label>) {
    Begun(c, before, start, log) && SafeState(Run(c, start, log))
  }

  lemma BegunInv(c: Codec, before: seq<Label>, start: Sys, log: seq<Label>) returns (tr: Trail)
    requires Begun(c, before, start, log)
    ensures Inv(c, Run(c, start, log), tr)
  {
    BlankInv(c);
    tr := RunKeeps(c, BLANK, START, before);
    tr := RunKeeps(c, start, tr, log);
  }

  // A process that only adds its own steps keeps it so, as every call of a store
  // does that leaves it valid.
  lemma CallsKeepReached(c: Codec, before: seq<Label>, start: Sys, was: seq<Label>, log: seq<Label>)
    requires Reached(c, before, start, was) && was <= log && Runs(c, start, log) && Served(log)
    ensures Reached(c, before, start, log)
  {
    var tr := BegunInv(c, before, start, was);
    assert log[..|was|] == was;
    var to := ServedSafely(c, start, tr, log, |was|);
  }

  // A store that may not append safely, over a torn journal or under a name that
  // is not durable, may once a compaction has ended on a durable snapshot.
  lemma CompactionReaches(c: Codec, before: seq<Label>, start: Sys, was: seq<Label>, log: seq<Label>)
    requires Begun(c, before, start, was) && GrewQuietly(was, log) && Runs(c, start, log)
    requires var s := Run(c, start, log);
      Attached(s) && s.disk.entries == [s.file] && Clean(s.disk.files[s.file.value].data)
    ensures Reached(c, before, start, log)
  {
    QuietIsSafe(c, start, was, log);
  }

  lemma {:induction false} QuietIsSafe(c: Codec, s: Sys, p: seq<Label>, q: seq<Label>)
    requires p <= q && Writes(q) == Writes(p) && Runs(c, s, p) && SafeRun(c, s, p) && Runs(c, s, q)
    ensures SafeRun(c, s, q)
    decreases |q|
  {
    if |p| < |q| {
      var front := q[..|q| - 1];
      MoreWrites(p, front);
      QuietIsSafe(c, s, p, front);
    } else {
      assert p == q;
    }
  }

  lemma {:induction false} MoreWrites(p: seq<Label>, q: seq<Label>)
    requires p <= q
    ensures Writes(p) <= Writes(q)
    decreases |q|
  {
    if |p| < |q| { MoreWrites(p, q[..|q| - 1]); } else { assert p == q; }
  }

  // A snapshot ends in a newline.
  lemma SnapshotIsClean(c: Codec, m: Mem)
    ensures Clean(SnapshotFile(c, m).data)
  {
    LinesClean(c, Snapshots.Snapshot(m));
  }

  // Power lost between any two calls leaves maps that are explained by the run.
  lemma StoreSurvivesPowerLoss(store: Store, before: seq<Label>, after: Disk)
    requires store.Valid() && Reached(store.codec, before, store.start, store.log)
    requires Survives(store.disk, after) && FreshWrites(before + store.log)
    ensures var ls := before + store.log + [PowerLoss(after)];
      && Runs(store.codec, BLANK, ls) && Explained(store.codec, ls)
      && RecoversTo(store.codec, after, Run(store.codec, BLANK, ls).mem)
      && Acknowledged(store.codec, BLANK, ls) == Acknowledged(store.codec, BLANK, before + store.log)
  {
    RunConcat(store.codec, BLANK, before, store.log);
    CrashRefinementFromBlank(store.codec, before + store.log, after);
  }

  lemma ConcatFront(p: seq<Label>, q: seq<Label>)
    requires q != []
    ensures (p + q)[..|p + q| - 1] == p + q[..|q| - 1] && (p + q)[|p + q| - 1] == q[|q| - 1]
  {
  }

  lemma {:induction false} RunConcat(c: Codec, s: Sys, p: seq<Label>, q: seq<Label>)
    requires Runs(c, s, p) && Runs(c, Run(c, s, p), q) && SafeRun(c, s, p) && SafeRun(c, Run(c, s, p), q)
    ensures Runs(c, s, p + q) && Run(c, s, p + q) == Run(c, Run(c, s, p), q) && SafeRun(c, s, p + q)
    decreases |q|
  {
    if q == [] {
      assert p + q == p;
    } else {
      ConcatFront(p, q);
      RunConcat(c, s, p, q[..|q| - 1]);
    }
  }

  // A sound store over one synchronised file loses nothing at all.
  lemma SettledLosesNothing(c: Codec, s: Sys, tr: Trail, after: Disk)
    requires Lawful(c) && Inv(c, s, tr) && s.phase.Idle? && !s.failed && Attached(s) && SoleName(s.disk)
    requires Synchronised(s.disk.files[s.file.value]) && Survives(s.disk, after)
    ensures RecoversTo(c, after, s.mem)
  {
    OpenFile(c, s, tr);
    assert after.entries[0] == s.file && CutOf(s.disk.files[s.file.value], after.files[s.file.value]);
    assert after.files[s.file.value].data == s.disk.files[s.file.value].data;
  }

  lemma SettledStoreLosesNothing(store: Store, before: seq<Label>, after: Disk)
    requires store.Valid() && Reached(store.codec, before, store.start, store.log) && Survives(store.disk, after)
    requires store.file.Some? && !store.persistenceErr && Synchronised(store.disk.files[store.file.value])
    ensures RecoversTo(store.codec, after, store.Maps())
  {
    var tr := BegunInv(store.codec, before, store.start, store.log);
    SettledLosesNothing(store.codec, store.View(Idle), tr, after);
  }

  // The maps agree with each other, the count covers them, and the file of a sound
  // store is terminated, has the one durable name and replays to them.
  lemma StoreIsConsistent(store: Store, before: seq<Label>)
    requires store.Valid() && Reached(store.codec, before, store.start, store.log)
    ensures Consistent(store.Maps()) && |store.items| <= store.records
    ensures store.file.Some? && !store.persistenceErr ==>
      && SafeToAppend(store.View(Idle))
      && ReplayFile(store.codec, store.disk.files[store.file.value].data).Loaded?
      && ReplayFile(store.codec, store.disk.files[store.file.value].data).mem == CanonMem(store.codec, store.Maps())
  {
    var tr := BegunInv(store.codec, before, store.start, store.log);
    if store.file.Some? && !store.persistenceErr { OpenFile(store.codec, store.View(Idle), tr); }
  }

  // A process that starts on a journal whose name is durable and that ends in a
  // newline, or on none, may append.
  lemma StartReaches(c: Codec, before: seq<Label>, begin: Sys, boot: seq<Label>)
    requires Lawful(c) && Runs(c, BLANK, before) && Run(c, BLANK, before) == begin && SafeRun(c, BLANK, before)
    requires Runs(c, begin, boot) && Writes(boot) == 0 && SafeState(Run(c, begin, boot))
    ensures Reached(c, before + boot, Run(c, begin, boot), [])
  {
    QuietIsSafe(c, begin, [], boot);
    RunConcat(c, BLANK, before, boot);
  }

  // ---- Callers ----

  // Every call keeps what the guarantees ask for: those on one delivery,
  method IssueReport(store: Store, id: Bytes, attempt: int, code: int, message: Bytes, next: int, terminal: bool,
                     good: bool, now: int, io: AppendIO, ghost before: seq<Label>)
    requires store.Valid() && Reached(store.codec, before, store.start, store.log)
    modifies store
    ensures store.Valid() && Reached(store.codec, before, store.start, store.log)
  {
    ghost var was := store.log;
    var r;
    if good { r := store.Succeed(id, attempt, code, now, io); }
    else { r := store.Fail(id, attempt, code, message, next, terminal, now, io); }
    CallsKeepReached(store.codec, before, store.start, was, store.log);
  }

  method IssueCommand(store: Store, id: Bytes, cancel: bool, now: int, io: AppendIO, ghost before: seq<Label>)
    requires store.Valid() && Reached(store.codec, before, store.start, store.log)
    modifies store
    ensures store.Valid() && Reached(store.codec, before, store.start, store.log)
  {
    ghost var was := store.log;
    var r;
    if cancel { r := store.Cancel(id, now, io); } else { r := store.Retry(id, now, io); }
    CallsKeepReached(store.codec, before, store.start, was, store.log);
  }

  // a creation,
  method IssueCreate(store: Store, lib: Library, req: Request, now: int, newId: Option<Bytes>, statted: bool,
                     io: AppendIO, ghost before: seq<Label>)
    requires store.Valid() && Reached(store.codec, before, store.start, store.log)
    requires ParsesNoControls(lib) && (newId.Some? ==> newId.value != "" && newId.value !in store.items)
    modifies store
    ensures store.Valid() && Reached(store.codec, before, store.start, store.log)
  {
    ghost var was := store.log;
    var r, normal := store.Create(lib, req, now, newId, statted, io);
    CallsKeepReached(store.codec, before, store.start, was, store.log);
  }

  // those on many,
  method IssueBatch(store: Store, now: int, lease: int, limit: int, eligible: Delivery -> bool, ios: nat -> AppendIO,
                    cutoff: int, io: AppendIO, ghost before: seq<Label>)
    requires store.Valid() && Reached(store.codec, before, store.start, store.log)
    modifies store
    ensures store.Valid() && Reached(store.codec, before, store.start, store.log)
  {
    ghost var was := store.log;
    var claimed, ok := store.ClaimDueMatching(now, lease, limit, eligible, ios);
    var r := store.PruneTerminal(cutoff, io);
    CallsKeepReached(store.codec, before, store.start, was, store.log);
  }

  // and those on the journal.
  method IssueCompact(store: Store, temp: nat, io: CompactIO, close: bool, ghost before: seq<Label>)
    requires store.Valid() && Reached(store.codec, before, store.start, store.log) && temp !in store.disk.files
    modifies store
    ensures store.Valid() && Reached(store.codec, before, store.start, store.log)
  {
    ghost var was := store.log;
    var r := store.Compact(temp, io);
    if close { store.Close(); }
    CallsKeepReached(store.codec, before, store.start, was, store.log);
  }

  // A store started on a torn journal, or under a name that is not durable, may
  // append once a compaction has worked.
  method IssueRepair(store: Store, temp: nat, io: CompactIO, ghost before: seq<Label>) returns (r: Result<()>)
    requires store.Valid() && Begun(store.codec, before, store.start, store.log) && temp !in store.disk.files
    modifies store
    ensures store.Valid() && (r.Ok? ==> Reached(store.codec, before, store.start, store.log))
  {
    ghost var was, m := store.log, store.Maps();
    r := store.Compact(temp, io);
    SnapshotIsClean(store.codec, m);
    if r.Ok? { CompactionReaches(store.codec, before, store.start, was, store.log); }
  }

  // And whatever its appends were, a compaction that works saves what it
  // acknowledged; what it acknowledges from then on lasts.
  method IssueSave(store: Store, temp: nat, io: CompactIO) returns (r: Result<()>, ghost t: Sys)
    requires store.Valid() && Lawful(store.codec) && Snapshotting(store.codec, store.start) && temp !in store.disk.files
    modifies store
    ensures store.Valid() && t == store.View(Idle) && t.mem == old(store.Maps())
    ensures r.Ok? ==> Restored(store.codec, t, t.mem) && Inv(store.codec, t, Trail(t.mem, [], 0)) && SafeState(t)
  {
    r := store.Compact(temp, io);
    t := store.View(Idle);
    if r.Ok? { ServedSaved(store.codec, store.start, store.log, t, temp); }
  }

  lemma ServedSaved(c: Codec, start: Sys, log: seq<Label>, t: Sys, i: nat)
    requires Lawful(c) && Snapshotting(c, start) && Served(log) && Exec(c, start, log) == Some(t)
    requires t.phase.Idle? && !t.failed && t.stray.None? && t.file == Some(i) && t.disk.entries == [Some(i)]
    requires i in t.disk.files && t.disk.files[i] == SnapshotFile(c, t.mem) && t.records == |t.mem.items|
    ensures Restored(c, t, t.mem) && Inv(c, t, Trail(t.mem, [], 0)) && SafeState(t)
  {
    ServedSnapshotting(c, start, log);
    SavedInv(c, t, i, t.mem);
  }

  lemma SavedInv(c: Codec, t: Sys, i: nat, m: Mem)
    requires Lawful(c) && Consistent(m) && t.mem == m && t.phase.Idle? && !t.failed && t.stray.None?
    requires WellFormed(t.disk) && i in t.disk.files && t.disk.files[i] == SnapshotFile(c, m)
    requires t.file == Some(i) && t.disk.entries == [Some(i)] && t.records == |m.items|
    ensures Restored(c, t, m) && Inv(c, t, Trail(m, [], 0)) && SafeState(t)
  {
    SnapshotReplays(c, m);
    WholeFileHolds(c, t.disk.files[i], m, []);
    SoundInv(c, t);
  }

  // Open meets it, over a journal that is durable and terminated or over none.
  method Start(codec: Codec, maxJournalBytes: nat, disk: Disk, newFile: nat, io: OpenIO, ghost before: seq<Label>)
      returns (store: Store?, ghost all: seq<Label>)
    requires Lawful(codec) && Runs(codec, BLANK, before) && SafeRun(codec, BLANK, before)
    requires Run(codec, BLANK, before).disk == disk && Run(codec, BLANK, before).phase.Down?
    requires WellFormed(disk) && newFile !in disk.files
    requires Current(disk).Some? ==> (disk.temps != {} || SoleName(disk)) && Clean(Content(disk, Current(disk)))
    ensures store != null <==> CanOpen(codec, disk, io)
    ensures store != null ==> fresh(store) && store.Valid() && store.codec == codec && before <= all
    ensures store != null ==> Reached(codec, all, store.start, store.log)
  {
    ghost var begin := Run(codec, BLANK, before);
    var after;
    ghost var boot;
    store, after, boot := Store.Open(codec, maxJournalBytes, disk, newFile, io, begin);
    all := before + boot;
    if store != null {
      assert Current(disk) in disk.entries;
      NoWritesToStart(boot, newFile);
      StartReaches(codec, before, begin, boot);
    }
  }

  lemma NoWritesToStart(boot: seq<Label>, newFile: nat)
    requires boot == [Sweep, Machine.Open] || boot == [Sweep, CreateJournal(newFile), SyncNewJournal]
    ensures Writes(boot) == 0
  {
    assert [Sweep, Machine.Open][..1] == [Sweep] && [Sweep][..0] == [];
    assert [Sweep, CreateJournal(newFile), SyncNewJournal][..2] == [Sweep, CreateJournal(newFile)];
    assert [Sweep, CreateJournal(newFile)][..1] == [Sweep];
  }
}
