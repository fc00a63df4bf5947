/** What every step of the machine keeps. */
module MachineProofs {
  import opened Results
  import opened Text
  import Names
  import opened Journal
  import opened JournalProofs
  import opened Events
  import opened EventProofs
  import opened Snapshots
  import opened Disks
  import opened Machine
  import opened Trails

  // The mutation without an answer: in progress, or with bytes that may linger.
  function Unacknowledged(s: Sys): Option<Event> {
    if s.phase.Written? || s.phase.Synced? then Some(s.phase.ev) else s.stray
  }

  ghost predicate PendingEnabled(s: Sys) {
    Unacknowledged(s).Some? ==> Enabled(s.mem, Unacknowledged(s).value)
  }

  ghost function PendingRecords(s: Sys): seq<Record>
    requires PendingEnabled(s)
  {
    if Unacknowledged(s).Some? then Records(s.mem, Unacknowledged(s).value) else []
  }

  // All the records that may follow the base.
  ghost function Loose(s: Sys, tr: Trail): seq<Record>
    requires PendingEnabled(s)
  {
    tr.lag + PendingRecords(s)
  }

  // A synchronised mutation is bound to be there before the maps show it.
  ghost function Shown(s: Sys, tr: Trail): nat
    requires PendingEnabled(s)
  {
    if s.phase.Synced? then |Loose(s, tr)| else tr.seen
  }

  ghost predicate SoleName(d: Disk)
    requires d.entries != []
  {
    forall e | e in d.entries :: e == Current(d)
  }

  // The journal is one durable name for one synchronised file, the open one.
  ghost predicate Settled(s: Sys) {
    Attached(s) && s.disk.entries != [] && Current(s.disk) == s.file && SoleName(s.disk)
    && Synchronised(s.disk.files[s.file.value])
  }

  ghost predicate HoldsSnapshot(c: Codec, d: Disk, m: Mem, t: nat) {
    t in d.files && Synchronised(d.files[t]) && d.files[t].data == Lines(c, Snapshot(m))
  }

  // Between appends: the open file is the journal, and a sound store has read it
  // or written all of it.
  ghost predicate AtRest(c: Codec, s: Sys, tr: Trail)
    requires s.disk.entries != []
  {
    && (s.stray.Some? ==> s.failed)
    && (s.file.Some? ==> Attached(s) && Current(s.disk) == s.file)
    && (s.file.Some? && !s.failed ==> CurrentReads(c, s.disk, tr.base, tr.lag, tr.seen))
    && |s.mem.items| <= s.records
  }

  // The file ends in all of the records, not yet synchronised.
  ghost predicate WrittenTo(c: Codec, f: File, tr: Trail, rs: seq<Record>) {
    exists k: nat :: k <= tr.seen && FileAt(c, f, tr.base, rs, k) && f.data[f.durable..] == Lines(c, rs[k..])
  }

  ghost predicate PhaseInv(c: Codec, s: Sys, tr: Trail)
    requires PendingEnabled(s) && s.disk.entries != []
  {
    match s.phase
    case Idle => AtRest(c, s, tr)
    case Written(_) =>
      && !s.failed && s.stray.None? && Attached(s) && SoleName(s.disk) && Current(s.disk) == s.file
      && |s.mem.items| <= s.records && WrittenTo(c, s.disk.files[s.file.value], tr, Loose(s, tr))
    case Synced(ev) =>
      && !s.failed && s.stray.None? && Settled(s) && tr.lag == []
      && Enabled(s.mem, ev) && |s.mem.items| + |Records(s.mem, ev)| <= s.records
    case Drafting(t) => AtRest(c, s, tr) && s.file.Some? && t in s.disk.files && Some(t) !in s.disk.entries
    case Sealed(t) => AtRest(c, s, tr) && s.file.Some? && HoldsSnapshot(c, s.disk, s.mem, t) && Some(t) !in s.disk.entries
    case Renamed(t) => (s.stray.Some? ==> s.failed) && HoldsSnapshot(c, s.disk, s.mem, t) && Current(s.disk) == Some(t)
    case Anchored(t) => HoldsSnapshot(c, s.disk, s.mem, t) && s.disk.entries == [Some(t)]
    case Creating(t) =>
      && s.stray.None? && tr == Trail(EMPTY, [], 0)
      && Current(s.disk) == Some(t) && t in s.disk.files && s.disk.files[t] == File("", 0)
    case Down =>
      && s.stray.None? && s.mem == Recovered(c, s.disk)
      && CurrentReads(c, s.disk, tr.base, tr.lag, tr.seen)
  }

  // The maps in memory are on the trail, and the trail can be replayed.
  ghost predicate TrailFits(c: Codec, s: Sys, tr: Trail)
    requires PendingEnabled(s)
  {
    && tr.seen <= |tr.lag| && s.mem == At(tr.base, tr.lag, tr.seen)
    && (Unacknowledged(s).Some? ==> tr.seen == |tr.lag|)
    && Chain(c, tr.base, Loose(s, tr))
  }

  // Every durable name is, and where names differ the current one shows the maps.
  ghost predicate DiskHolds(c: Codec, s: Sys, tr: Trail)
    requires PendingEnabled(s) && s.disk.entries != []
  {
    && NamesHold(c, s.disk, tr.base, Loose(s, tr), Shown(s, tr))
    && (SoleName(s.disk) || CurrentReads(c, s.disk, tr.base, Loose(s, tr), tr.seen))
  }

  ghost predicate Inv(c: Codec, s: Sys, tr: Trail) {
    && WellFormed(s.disk) && Consistent(s.mem) && PendingEnabled(s)
    && TrailFits(c, s, tr) && PhaseInv(c, s, tr) && DiskHolds(c, s, tr)
  }

  // ---- What survives a power loss ----

  // Whatever a power loss leaves replays to the base and a front part, perhaps
  // none, of the records that may follow it.
  lemma CrashSafe(c: Codec, s: Sys, tr: Trail, after: Disk) returns (j: nat)
    requires Lawful(c) && Inv(c, s, tr) && Survives(s.disk, after)
    ensures j <= |Loose(s, tr)|
    ensures ReplayFile(c, Content(after, after.entries[0])).Loaded?
    ensures ReplayFile(c, Content(after, after.entries[0])).mem == CanonMem(c, At(tr.base, Loose(s, tr), j))
    ensures EntryHolds(c, after, after.entries[0], CanonMem(c, At(tr.base, Loose(s, tr), j)), [], 0)
    ensures CurrentReads(c, after, CanonMem(c, At(tr.base, Loose(s, tr), j)), [], 0)
  {
    var e, rs := after.entries[0], Loose(s, tr);
    assert EntryHolds(c, s.disk, e, tr.base, rs, Shown(s, tr));
    if e.None? {
      j := 0;
      AtAll(tr.base, rs);
      CanonEmpty(c);
    } else {
      var f, g := s.disk.files[e.value], after.files[e.value];
      var k: nat :| FileAt(c, f, tr.base, rs, k) && k <= Shown(s, tr) <= ReadTo(c, f, tr.base, rs, k);
      j := CutFile(c, f, g, tr.base, rs, k);
      WholeFile(c, g, At(tr.base, rs, j));
    }
  }

  // A file with nothing but synchronised bytes.
  lemma WholeFile(c: Codec, f: File, m: Mem)
    requires Lawful(c) && FileHolds(c, f, m, []) && Synchronised(f)
    ensures ReplayFile(c, f.data).Loaded? && ReplayFile(c, f.data).mem == CanonMem(c, m)
    ensures Spans(c, f, CanonMem(c, m), [], 0) && ReadsAs(c, f, CanonMem(c, m), [], 0)
    ensures Spans(c, f, m, [], 0) && ReadsAs(c, f, m, [], 0)
  {
    UntouchedFile(f);
    CanonMemIdempotent(c, m);
    AtAll(m, []);
    AtAll(CanonMem(c, m), []);
    NothingWhole(c, []);
    assert FileAt(c, f, m, [], 0) && ReadTo(c, f, m, [], 0) == 0;
    assert FileAt(c, f, CanonMem(c, m), [], 0) && ReadTo(c, f, CanonMem(c, m), [], 0) == 0;
  }

  // ---- Every step keeps the invariant ----

  // The trail moves on only to maps it had: the new ones after an answer, and
  // their canonical forms after a crash.
  ghost predicate TrailMoves(c: Codec, s: Sys, l: Label, tr: Trail, to: Trail)
    requires PendingEnabled(s) && Can(c, s, l)
  {
    forall i: nat | i <= |to.lag| ::
      if l.Ack? then At(to.base, to.lag, i) == Effect(s.mem, s.phase.ev)
      else if l.PowerLoss? || l.Kill? then CanonOfOne(c, tr.base, Loose(s, tr), At(to.base, to.lag, i))
      else OneOf(tr.base, tr.lag, At(to.base, to.lag, i))
  }

  ghost predicate OneOf(m: Mem, rs: seq<Record>, n: Mem) { exists j: nat :: j <= |rs| && n == At(m, rs, j) }

  ghost predicate CanonOfOne(c: Codec, m: Mem, rs: seq<Record>, n: Mem) {
    exists j: nat :: j <= |rs| && n == CanonMem(c, At(m, rs, j))
  }

  lemma SameTrail(c: Codec, s: Sys, l: Label, tr: Trail)
    requires PendingEnabled(s) && Can(c, s, l) && !l.Ack? && !l.PowerLoss? && !l.Kill?
    ensures TrailMoves(c, s, l, tr, tr)
  {
  }

  // The trail begins again at the maps in memory.
  lemma FreshTrail(c: Codec, s: Sys, l: Label, tr: Trail)
    requires PendingEnabled(s) && Can(c, s, l) && !l.Ack? && !l.PowerLoss? && !l.Kill?
    requires tr.seen <= |tr.lag| && s.mem == At(tr.base, tr.lag, tr.seen)
    ensures TrailMoves(c, s, l, tr, Trail(s.mem, [], 0))
  {
    AtAll(s.mem, []);
    assert OneOf(tr.base, tr.lag, s.mem);
  }

  lemma NoRecords(c: Codec, m: Mem)
    requires Consistent(m)
    ensures Chain(c, m, []) && At(m, [], 0) == m
  {
    AtAll(m, []);
    assert Steady(m, [], 0);
  }

  lemma NothingLoose(s: Sys, tr: Trail)
    requires Unacknowledged(s).None?
    ensures PendingEnabled(s) && Loose(s, tr) == tr.lag && Shown(s, tr) == tr.seen
  {
  }

  lemma SameFits(c: Codec, s: Sys, t: Sys, tr: Trail)
    requires PendingEnabled(s) && TrailFits(c, s, tr)
    requires t.mem == s.mem && Unacknowledged(t) == Unacknowledged(s) && t.phase.Synced? == s.phase.Synced?
    ensures PendingEnabled(t) && TrailFits(c, t, tr) && Loose(t, tr) == Loose(s, tr) && Shown(t, tr) == Shown(s, tr)
  {
  }

  // A sound store over one durable, synchronised file.
  lemma SoundInv(c: Codec, t: Sys)
    requires Lawful(c) && WellFormed(t.disk) && Consistent(t.mem) && t.phase.Idle? && t.stray.None?
    requires Settled(t) && |t.mem.items| <= t.records && FileHolds(c, t.disk.files[t.file.value], t.mem, [])
    ensures Inv(c, t, Trail(t.mem, [], 0))
  {
    NothingLoose(t, Trail(t.mem, [], 0));
    WholeFile(c, t.disk.files[t.file.value], t.mem);
    NoRecords(c, t.mem);
  }

  lemma WriteKeeps(c: Codec, s: Sys, tr: Trail, l: Label) returns (to: Trail)
    requires Lawful(c) && Inv(c, s, tr) && Can(c, s, l) && StartsSafe(s, l) && (l.Write? || l.WriteFails?)
    ensures Inv(c, Do(c, s, l), to) && TrailMoves(c, s, l, tr, to) && (tr.lag == [] ==> to.lag == [])
  {
    to := Trail(tr.base, tr.lag[..tr.seen], tr.seen);
    WriteFits(c, s, tr, l, to);
    WrittenFile(c, s, tr, l);
    WriteDisk(c, s, Do(c, s, l), to);
    WritePhase(c, s, tr, l, to);
    ShorterTrail(c, s, l, tr);
  }

  lemma WritePhase(c: Codec, s: Sys, tr: Trail, l: Label, to: Trail)
    requires Inv(c, s, tr) && Can(c, s, l) && (l.Write? || l.WriteFails?)
    requires PendingEnabled(Do(c, s, l)) && SoleName(Do(c, s, l).disk)
    requires l.Write? ==> WrittenTo(c, Do(c, s, l).disk.files[s.file.value], to, Loose(Do(c, s, l), to))
    ensures PhaseInv(c, Do(c, s, l), to) && WellFormed(Do(c, s, l).disk)
  {
  }

  lemma WriteFits(c: Codec, s: Sys, tr: Trail, l: Label, to: Trail)
    requires Lawful(c) && Inv(c, s, tr) && Can(c, s, l) && (l.Write? || l.WriteFails?)
    requires to == Trail(tr.base, tr.lag[..tr.seen], tr.seen)
    ensures PendingEnabled(Do(c, s, l)) && TrailFits(c, Do(c, s, l), to)
    ensures Loose(Do(c, s, l), to) == to.lag + Records(s.mem, l.ev)
  {
    ChainGrows(c, s, tr, l.ev);
  }

  lemma WriteDisk(c: Codec, s: Sys, t: Sys, to: Trail)
    requires s.disk.entries != [] && SafeToAppend(s) && s.file.value in t.disk.files
    requires t.disk.entries == s.disk.entries && !t.phase.Synced? && PendingEnabled(t)
    requires Spans(c, t.disk.files[s.file.value], to.base, Loose(t, to), to.seen)
    ensures SoleName(t.disk) && Current(t.disk) == s.file && DiskHolds(c, t, to)
  {
    assert Current(s.disk) in s.disk.entries;
    OneName(c, t.disk, s.file.value, to.base, Loose(t, to), to.seen);
  }

  lemma OneName(c: Codec, d: Disk, i: nat, m: Mem, rs: seq<Record>, seen: nat)
    requires (forall x | x in d.entries :: x == Some(i)) && i in d.files && Spans(c, d.files[i], m, rs, seen)
    ensures NamesHold(c, d, m, rs, seen)
  {
  }

  lemma WrittenFile(c: Codec, s: Sys, tr: Trail, l: Label)
    requires Lawful(c) && Inv(c, s, tr) && Can(c, s, l) && StartsSafe(s, l) && (l.Write? || l.WriteFails?)
    ensures var g, all := Do(c, s, l).disk.files[s.file.value], tr.lag[..tr.seen] + Records(s.mem, l.ev);
      && Spans(c, g, tr.base, all, tr.seen)
      && (l.Write? ==> WrittenTo(c, g, Trail(tr.base, tr.lag[..tr.seen], tr.seen), all))
  {
    var f, g, ps := s.disk.files[s.file.value], Do(c, s, l).disk.files[s.file.value], Records(s.mem, l.ev);
    var piece := if l.Write? then Appended(c, s, l.ev) else Appended(c, s, l.ev)[..l.written];
    var all := tr.lag[..tr.seen] + ps;
    var k: nat :| FileAt(c, f, tr.base, tr.lag, k) && ReadTo(c, f, tr.base, tr.lag, k) == tr.seen;
    WriteFile(c, f, g, tr.base, tr.lag, k, tr.seen, ps, piece);
    Slices(tr.lag, ps, k, tr.seen);
    LinesConcat(c, tr.lag[k..tr.seen], ps);
    assert FileAt(c, g, tr.base, all, k);
  }

  lemma ShorterTrail(c: Codec, s: Sys, l: Label, tr: Trail)
    requires PendingEnabled(s) && Can(c, s, l) && !l.Ack? && !l.PowerLoss? && !l.Kill? && tr.seen <= |tr.lag|
    ensures TrailMoves(c, s, l, tr, Trail(tr.base, tr.lag[..tr.seen], tr.seen))
  {
    forall i: nat | i <= tr.seen ensures OneOf(tr.base, tr.lag, At(tr.base, tr.lag[..tr.seen], i)) {
      assert tr.lag[..tr.seen][..i] == tr.lag[..i];
      assert At(tr.base, tr.lag[..tr.seen], i) == At(tr.base, tr.lag, i);
    }
  }

  lemma ChainGrows(c: Codec, s: Sys, tr: Trail, ev: Event)
    requires Inv(c, s, tr) && Unacknowledged(s).None? && Enabled(s.mem, ev)
    ensures Chain(c, tr.base, tr.lag[..tr.seen] + Records(s.mem, ev))
    ensures s.mem == At(tr.base, tr.lag[..tr.seen], tr.seen)
  {
    assert Loose(s, tr) == tr.lag;
    ChainPrefix(c, tr.base, tr.lag, tr.seen);
    MutationChain(c, s.mem, ev);
    ChainConcat(c, tr.base, tr.lag[..tr.seen], Records(s.mem, ev));
  }

  lemma SyncKeeps(c: Codec, s: Sys, tr: Trail) returns (to: Trail)
    requires Lawful(c) && Inv(c, s, tr) && Can(c, s, Sync)
    ensures Inv(c, Do(c, s, Sync), to) && TrailMoves(c, s, Sync, tr, to) && (tr.lag == [] ==> to.lag == [])
  {
    to := Trail(s.mem, [], 0);
    SyncedReads(c, s, tr);
    SyncFits(c, s, to);
    SyncedDisk(c, s, tr, to);
    FreshTrail(c, s, Sync, tr);
  }

  lemma SyncFits(c: Codec, s: Sys, to: Trail)
    requires PendingEnabled(s) && Consistent(s.mem) && Can(c, s, Sync) && to == Trail(s.mem, [], 0)
    ensures PendingEnabled(Do(c, s, Sync)) && TrailFits(c, Do(c, s, Sync), to)
    ensures Loose(Do(c, s, Sync), to) == PendingRecords(s)
  {
    MutationChain(c, s.mem, s.phase.ev);
    NoRecords(c, s.mem);
    assert Loose(Do(c, s, Sync), to) == PendingRecords(s);
  }

  lemma SyncedDisk(c: Codec, s: Sys, tr: Trail, to: Trail)
    requires Inv(c, s, tr) && Can(c, s, Sync) && PendingEnabled(Do(c, s, Sync)) && to == Trail(s.mem, [], 0)
    requires Loose(Do(c, s, Sync), to) == PendingRecords(s)
    requires Spans(c, Do(c, s, Sync).disk.files[s.file.value], s.mem, PendingRecords(s), |PendingRecords(s)|)
    ensures PhaseInv(c, Do(c, s, Sync), to) && DiskHolds(c, Do(c, s, Sync), to)
  {
    var t := Do(c, s, Sync);
    forall x | x in t.disk.entries ensures EntryHolds(c, t.disk, x, to.base, PendingRecords(s), |PendingRecords(s)|) {
      assert x == s.file;
    }
  }

  lemma SyncedReads(c: Codec, s: Sys, tr: Trail)
    requires Lawful(c) && Inv(c, s, tr) && Can(c, s, Sync)
    ensures Spans(c, Do(c, s, Sync).disk.files[s.file.value], s.mem, PendingRecords(s), |PendingRecords(s)|)
  {
    var f, g, ps := s.disk.files[s.file.value], Do(c, s, Sync).disk.files[s.file.value], PendingRecords(s);
    var k: nat :| k <= tr.seen && FileAt(c, f, tr.base, Loose(s, tr), k) && f.data[f.durable..] == Lines(c, Loose(s, tr)[k..]);
    SyncedFile(c, f, g, tr.base, Loose(s, tr), k);
    AtAll(tr.base, tr.lag);
    ApplyAllConcat(tr.base, tr.lag, ps);
    AtAll(s.mem, ps);
    NothingWhole(c, []);
    assert ps[|ps|..] == [];
    assert FileAt(c, g, s.mem, ps, |ps|) && ReadTo(c, g, s.mem, ps, |ps|) == |ps|;
  }

  lemma AckKeeps(c: Codec, s: Sys, tr: Trail) returns (to: Trail)
    requires Lawful(c) && Inv(c, s, tr) && Can(c, s, Ack)
    ensures Inv(c, Do(c, s, Ack), to) && TrailMoves(c, s, Ack, tr, to)
    ensures to == Trail(Do(c, s, Ack).mem, [], 0)
  {
    var m := Effect(s.mem, s.phase.ev);
    to := Trail(m, [], 0);
    EffectConsistent(s.mem, s.phase.ev);
    ApplyAllCount(s.mem, PendingRecords(s));
    AckedFile(c, s, tr);
    AtAll(m, []);
    SoundInv(c, Do(c, s, Ack));
  }

  lemma AckedFile(c: Codec, s: Sys, tr: Trail)
    requires Lawful(c) && Inv(c, s, tr) && Can(c, s, Ack)
    ensures FileHolds(c, s.disk.files[s.file.value], Effect(s.mem, s.phase.ev), [])
  {
    var f, ps := s.disk.files[s.file.value], PendingRecords(s);
    assert Loose(s, tr) == ps;
    assert EntryHolds(c, s.disk, s.file, tr.base, ps, |ps|);
    var k: nat :| FileAt(c, f, tr.base, ps, k) && k <= |ps| <= ReadTo(c, f, tr.base, ps, k);
    UntouchedFile(f);
    NothingWhole(c, ps[k..]);
    assert k == |ps| && ps[k..] == [];
    AtAll(s.mem, ps);
    AtAll(tr.base, tr.lag);
  }

  lemma SnapshotHolds(c: Codec, s: Sys, t: nat, rs: seq<Record>)
    requires Lawful(c) && Consistent(s.mem) && HoldsSnapshot(c, s.disk, s.mem, t)
    ensures FileHolds(c, s.disk.files[t], s.mem, rs) && Clean(s.disk.files[t].data)
    ensures ReplayFile(c, s.disk.files[t].data) == Loaded(CanonMem(c, s.mem), |s.mem.items|)
  {
    SnapshotReplays(c, s.mem);
    WholeFileHolds(c, s.disk.files[t], s.mem, rs);
  }

  lemma SnapshotReplays(c: Codec, m: Mem)
    requires Lawful(c) && Consistent(m)
    ensures ReplayFile(c, Lines(c, Snapshot(m))) == Loaded(CanonMem(c, m), |m.items|)
    ensures Clean(Lines(c, Snapshot(m)))
  {
    SortedPermutes(m);
    LosslessCompaction(c, m, Names.Sorted(m.items.Keys));
    LinesClean(c, Snapshot(m));
  }

  lemma WholeFileHolds(c: Codec, f: File, m: Mem, rs: seq<Record>)
    requires Synchronised(f) && Clean(f.data)
    requires ReplayFile(c, f.data).Loaded? && ReplayFile(c, f.data).mem == CanonMem(c, m)
    ensures FileHolds(c, f, m, rs)
  {
    CleanIffNoTail(f.data);
    assert f.data[..f.durable] == f.data && f.data[f.durable..] == "";
    assert Tail(f.data) <= c.encode(Tombstone(""));
  }

  // A file no entry names can change freely.
  lemma OtherFilesKeep(c: Codec, d: Disk, e: Disk, i: nat, m: Mem, rs: seq<Record>, seen: nat)
    requires NamesHold(c, d, m, rs, seen) && Some(i) !in d.entries
    requires e.entries == d.entries && forall k | k in d.files && k != i :: k in e.files && e.files[k] == d.files[k]
    ensures NamesHold(c, e, m, rs, seen)
  {
    forall x | x in e.entries ensures EntryHolds(c, e, x, m, rs, seen) { assert EntryHolds(c, d, x, m, rs, seen); }
  }

  lemma CreateTempKeeps(c: Codec, s: Sys, tr: Trail, i: nat)
    requires Lawful(c) && Inv(c, s, tr) && Can(c, s, CreateTemp(i))
    ensures Inv(c, Do(c, s, CreateTemp(i)), tr)
  {
    TempInv(c, s, tr, i);
  }

  lemma TempInv(c: Codec, s: Sys, tr: Trail, i: nat)
    requires Inv(c, s, tr) && s.phase.Idle? && s.file.Some? && i !in s.disk.files
    ensures Inv(c, s.(disk := NewFile(s.disk, i).(temps := s.disk.temps + {i}), phase := Drafting(i)), tr)
  {
    var t := s.(disk := NewFile(s.disk, i).(temps := s.disk.temps + {i}), phase := Drafting(i));
    SameFits(c, s, t, tr);
    assert Current(s.disk) in s.disk.entries;
    StillAtRest(c, s, t, tr);
    DraftNames(c, s, tr, t, i);
  }

  lemma DraftKeeps(c: Codec, s: Sys, tr: Trail, piece: Bytes)
    requires Lawful(c) && Inv(c, s, tr) && Can(c, s, Draft(piece))
    ensures Inv(c, Do(c, s, Draft(piece)), tr)
  {
    DraftedInv(c, s, tr, s.phase.temp, piece);
  }

  lemma DraftedInv(c: Codec, s: Sys, tr: Trail, i: nat, piece: Bytes)
    requires Inv(c, s, tr) && s.phase == Drafting(i) && i in s.disk.files
    ensures Inv(c, s.(disk := AppendTo(s.disk, i, piece)), tr)
  {
    var t := s.(disk := AppendTo(s.disk, i, piece));
    SameFits(c, s, t, tr);
    assert Current(s.disk) in s.disk.entries;
    StillAtRest(c, s, t, tr);
    DraftNames(c, s, tr, t, i);
  }

  lemma SealKeeps(c: Codec, s: Sys, tr: Trail)
    requires Lawful(c) && Inv(c, s, tr) && Can(c, s, Seal)
    ensures Inv(c, Do(c, s, Seal), tr)
  {
    SealedInv(c, s, tr, s.phase.temp);
  }

  lemma SealedInv(c: Codec, s: Sys, tr: Trail, i: nat)
    requires Inv(c, s, tr) && s.phase == Drafting(i) && i in s.disk.files
    requires s.disk.files[i].data == Lines(c, Snapshot(s.mem))
    ensures Inv(c, s.(disk := SyncFile(s.disk, i), phase := Sealed(i)), tr)
  {
    var t := s.(disk := SyncFile(s.disk, i), phase := Sealed(i));
    SameFits(c, s, t, tr);
    assert Current(s.disk) in s.disk.entries;
    StillAtRest(c, s, t, tr);
    DraftNames(c, s, tr, t, i);
    assert HoldsSnapshot(c, t.disk, t.mem, i);
  }

  lemma DraftNames(c: Codec, s: Sys, tr: Trail, t: Sys, i: nat)
    requires PendingEnabled(s) && WellFormed(s.disk) && DiskHolds(c, s, tr) && !s.phase.Synced? && !t.phase.Synced?
    requires PendingEnabled(t) && Loose(t, tr) == Loose(s, tr) && Some(i) !in s.disk.entries
    requires t.disk.entries == s.disk.entries
    requires forall k | k in s.disk.files && k != i :: k in t.disk.files && t.disk.files[k] == s.disk.files[k]
    ensures DiskHolds(c, t, tr)
  {
    assert Current(s.disk) in s.disk.entries;
    OtherFilesKeep(c, s.disk, t.disk, i, tr.base, Loose(s, tr), tr.seen);
  }

  lemma StillAtRest(c: Codec, s: Sys, t: Sys, tr: Trail)
    requires s.disk.entries != [] && t.disk.entries == s.disk.entries && AtRest(c, s, tr)
    requires t.file == s.file && t.mem == s.mem && t.stray == s.stray && t.failed == s.failed && t.records == s.records
    requires s.file.Some? ==> s.file.value in t.disk.files && t.disk.files[s.file.value] == s.disk.files[s.file.value]
    ensures AtRest(c, t, tr)
  {
  }

  // The snapshot holds what the maps show.
  lemma SnapshotReads(c: Codec, s: Sys, tr: Trail, i: nat)
    requires Lawful(c) && Inv(c, s, tr) && HoldsSnapshot(c, s.disk, s.mem, i)
    ensures Spans(c, s.disk.files[i], tr.base, Loose(s, tr), tr.seen)
    ensures ReadsAs(c, s.disk.files[i], tr.base, Loose(s, tr), tr.seen)
  {
    var f, rs := s.disk.files[i], Loose(s, tr);
    SnapshotHolds(c, s, i, rs[tr.seen..]);
    AtFront(tr.base, tr.lag, PendingRecords(s), tr.seen);
    NothingWhole(c, rs[tr.seen..]);
    UntouchedFile(f);
    assert FileAt(c, f, tr.base, rs, tr.seen) && ReadTo(c, f, tr.base, rs, tr.seen) == tr.seen;
  }

  lemma RenameKeeps(c: Codec, s: Sys, tr: Trail)
    requires Lawful(c) && Inv(c, s, tr) && Can(c, s, Rename)
    ensures Inv(c, Do(c, s, Rename), tr)
  {
    SnapshotReads(c, s, tr, s.phase.temp);
    RenamedInv(c, s, tr, s.phase.temp);
  }

  lemma RenamedInv(c: Codec, s: Sys, tr: Trail, i: nat)
    requires Inv(c, s, tr) && s.phase == Sealed(i)
    requires Spans(c, s.disk.files[i], tr.base, Loose(s, tr), tr.seen)
    requires ReadsAs(c, s.disk.files[i], tr.base, Loose(s, tr), tr.seen)
    ensures Inv(c, s.(disk := s.disk.(entries := s.disk.entries + [Some(i)], temps := s.disk.temps - {i}),
                      phase := Renamed(i)), tr)
  {
    var t := s.(disk := s.disk.(entries := s.disk.entries + [Some(i)], temps := s.disk.temps - {i}), phase := Renamed(i));
    SameFits(c, s, t, tr);
    assert HoldsSnapshot(c, t.disk, t.mem, i);
    RenamedDisk(c, s, tr, t);
  }

  lemma RenamedDisk(c: Codec, s: Sys, tr: Trail, t: Sys)
    requires PendingEnabled(s) && WellFormed(s.disk) && DiskHolds(c, s, tr) && s.phase.Sealed? && HasTemp(s)
    requires Spans(c, s.disk.files[s.phase.temp], tr.base, Loose(s, tr), tr.seen)
    requires ReadsAs(c, s.disk.files[s.phase.temp], tr.base, Loose(s, tr), tr.seen)
    requires PendingEnabled(t) && Loose(t, tr) == Loose(s, tr) && !t.phase.Synced?
    requires t.disk.files == s.disk.files && t.disk.entries == s.disk.entries + [Some(s.phase.temp)]
    ensures WellFormed(t.disk) && DiskHolds(c, t, tr)
  {
    NewName(c, s.disk, t.disk, s.phase.temp, tr.base, Loose(s, tr), tr.seen);
  }

  lemma NewName(c: Codec, d: Disk, e: Disk, i: nat, m: Mem, rs: seq<Record>, seen: nat)
    requires NamesHold(c, d, m, rs, seen) && i in d.files
    requires e.files == d.files && e.entries == d.entries + [Some(i)]
    requires Spans(c, d.files[i], m, rs, seen) && ReadsAs(c, d.files[i], m, rs, seen)
    ensures NamesHold(c, e, m, rs, seen) && CurrentReads(c, e, m, rs, seen)
  {
    forall x | x in e.entries ensures EntryHolds(c, e, x, m, rs, seen) {
      assert x in d.entries ==> EntryHolds(c, d, x, m, rs, seen);
    }
  }

  lemma AdoptKeeps(c: Codec, s: Sys, tr: Trail) returns (to: Trail)
    requires Lawful(c) && Inv(c, s, tr) && Can(c, s, Adopt)
    ensures Inv(c, Do(c, s, Adopt), to) && TrailMoves(c, s, Adopt, tr, to)
    ensures to == Trail(s.mem, [], 0)
  {
    to := Trail(s.mem, [], 0);
    SnapshotHolds(c, s, s.phase.temp, []);
    SoundInv(c, Do(c, s, Adopt));
    FreshTrail(c, s, Adopt, tr);
  }

  lemma SyncDirKeeps(c: Codec, s: Sys, tr: Trail)
    requires Lawful(c) && Inv(c, s, tr) && Can(c, s, SyncDir)
    ensures Inv(c, Do(c, s, SyncDir), tr)
  {
    AnchoredInv(c, s, tr, s.phase.temp);
  }

  lemma AnchoredInv(c: Codec, s: Sys, tr: Trail, i: nat)
    requires Inv(c, s, tr) && s.phase == Renamed(i)
    ensures Inv(c, s.(disk := SyncDirectory(s.disk), phase := Anchored(i)), tr)
  {
    SameFits(c, s, s.(disk := SyncDirectory(s.disk), phase := Anchored(i)), tr);
    assert Current(s.disk) in s.disk.entries;
    assert EntryHolds(c, s.disk, Current(s.disk), tr.base, Loose(s, tr), tr.seen);
  }

  predicate Quiet(l: Label) { l.SyncFails? || l.Trip? || l.Shut? || l.Abandon? || l.Halt? }

  // Steps that leave the files and their names alone.
  lemma SyncFailsKeeps(c: Codec, s: Sys, tr: Trail)
    requires Lawful(c) && Inv(c, s, tr) && Can(c, s, SyncFails)
    ensures Inv(c, Do(c, s, SyncFails), tr)
  {
    DiskStays(c, s, Do(c, s, SyncFails), tr);
  }

  lemma TripKeeps(c: Codec, s: Sys, tr: Trail)
    requires Lawful(c) && Inv(c, s, tr) && Can(c, s, Trip)
    ensures Inv(c, Do(c, s, Trip), tr)
  {
    DiskStays(c, s, Do(c, s, Trip), tr);
  }

  lemma ShutKeeps(c: Codec, s: Sys, tr: Trail)
    requires Lawful(c) && Inv(c, s, tr) && Can(c, s, Shut)
    ensures Inv(c, Do(c, s, Shut), tr)
  {
    DiskStays(c, s, Do(c, s, Shut), tr);
  }

  lemma AbandonKeeps(c: Codec, s: Sys, tr: Trail, removed: bool)
    requires Lawful(c) && Inv(c, s, tr) && Can(c, s, Abandon(removed))
    ensures Inv(c, Do(c, s, Abandon(removed)), tr)
  {
    AbandonedInv(c, s, tr, Do(c, s, Abandon(removed)).disk);
  }

  lemma AbandonedInv(c: Codec, s: Sys, tr: Trail, d: Disk)
    requires Inv(c, s, tr) && (s.phase.Drafting? || s.phase.Sealed?)
    requires d.files == s.disk.files && d.entries == s.disk.entries
    ensures Inv(c, s.(disk := d, phase := Idle), tr)
  {
    DiskStays(c, s, s.(disk := d, phase := Idle), tr);
    RestOn(c, s, s.(disk := d, phase := Idle), tr);
  }

  lemma HaltKeeps(c: Codec, s: Sys, tr: Trail)
    requires Lawful(c) && Inv(c, s, tr) && Can(c, s, Halt)
    ensures Inv(c, Do(c, s, Halt), tr)
  {
    DiskStays(c, s, Do(c, s, Halt), tr);
  }

  lemma QuietKeeps(c: Codec, s: Sys, tr: Trail, l: Label)
    requires Lawful(c) && Inv(c, s, tr) && Can(c, s, l) && Quiet(l)
    ensures Inv(c, Do(c, s, l), tr)
  {
    match l
    case SyncFails => SyncFailsKeeps(c, s, tr);
    case Trip => TripKeeps(c, s, tr);
    case Shut => ShutKeeps(c, s, tr);
    case Abandon(removed) => AbandonKeeps(c, s, tr, removed);
    case Halt => HaltKeeps(c, s, tr);
  }

  lemma DiskStays(c: Codec, s: Sys, t: Sys, tr: Trail)
    requires Inv(c, s, tr) && t.disk.files == s.disk.files && t.disk.entries == s.disk.entries
    requires t.mem == s.mem && Unacknowledged(t) == Unacknowledged(s) && !t.phase.Synced? && !s.phase.Synced?
    ensures PendingEnabled(t) && TrailFits(c, t, tr) && DiskHolds(c, t, tr) && Loose(t, tr) == Loose(s, tr)
  {
    SameFits(c, s, t, tr);
    var rs := Loose(s, tr);
    forall x | x in t.disk.entries ensures EntryHolds(c, t.disk, x, tr.base, rs, tr.seen) {
      assert EntryHolds(c, s.disk, x, tr.base, rs, tr.seen);
    }
  }

  lemma RestOn(c: Codec, s: Sys, t: Sys, tr: Trail)
    requires s.disk.entries != [] && AtRest(c, s, tr)
    requires t.disk.files == s.disk.files && t.disk.entries == s.disk.entries
    requires t.file == s.file && t.mem == s.mem && t.stray == s.stray && (s.failed ==> t.failed) && t.records == s.records
    ensures AtRest(c, t, tr)
  {
  }

  // ---- Crashes and starts ----

  lemma PowerLossKeeps(c: Codec, s: Sys, tr: Trail, after: Disk) returns (to: Trail)
    requires Lawful(c) && Inv(c, s, tr) && Survives(s.disk, after)
    ensures Inv(c, Do(c, s, PowerLoss(after)), to) && TrailMoves(c, s, PowerLoss(after), tr, to) && to.lag == []
  {
    var j := CrashSafe(c, s, tr, after);
    var m := At(tr.base, Loose(s, tr), j);
    to := Trail(CanonMem(c, m), [], 0);
    assert Steady(tr.base, Loose(s, tr), j);
    CanonConsistent(c, m);
    SurvivorWellFormed(s.disk, after);
    AtAll(CanonMem(c, m), []);
    DownInv(c, Do(c, s, PowerLoss(after)));
  }

  lemma DownInv(c: Codec, t: Sys)
    requires WellFormed(t.disk) && Consistent(t.mem) && t.phase.Down? && t.stray.None?
    requires t.mem == Recovered(c, t.disk) && SoleName(t.disk)
    requires EntryHolds(c, t.disk, Current(t.disk), t.mem, [], 0) && CurrentReads(c, t.disk, t.mem, [], 0)
    ensures Inv(c, t, Trail(t.mem, [], 0))
  {
    NothingLoose(t, Trail(t.mem, [], 0));
    NoRecords(c, t.mem);
  }

  lemma SurvivorWellFormed(d: Disk, after: Disk)
    requires WellFormed(d) && Survives(d, after)
    ensures WellFormed(after) && SoleName(after)
  {
  }

  // How many of the loose records the next process will find.
  lemma KillFinds(c: Codec, s: Sys, tr: Trail) returns (seen: nat)
    requires Lawful(c) && Inv(c, s, tr)
    ensures seen <= |Loose(s, tr)|
    ensures NamesHold(c, s.disk, tr.base, Loose(s, tr), seen)
    ensures CurrentReads(c, s.disk, tr.base, Loose(s, tr), seen)
    ensures Current(s.disk).None? ==> tr.base == EMPTY && Loose(s, tr) == []
    ensures ReplayFile(c, Content(s.disk, Current(s.disk))).Loaded?
    ensures ReplayFile(c, Content(s.disk, Current(s.disk))).mem == CanonMem(c, At(tr.base, Loose(s, tr), seen))
  {
    var e, rs := Current(s.disk), Loose(s, tr);
    assert e in s.disk.entries && EntryHolds(c, s.disk, e, tr.base, rs, Shown(s, tr));
    if e.None? {
      seen := 0;
      AtAll(tr.base, rs);
      CanonEmpty(c);
      if !SoleName(s.disk) { OtherNames(c, s, tr); }
    } else {
      seen := CurrentFinds(c, s, tr);
    }
  }

  // Where names differ the maps show what the current file has.
  lemma OtherNames(c: Codec, s: Sys, tr: Trail)
    requires Inv(c, s, tr) && !SoleName(s.disk)
    ensures Shown(s, tr) == tr.seen && NamesHold(c, s.disk, tr.base, Loose(s, tr), tr.seen)
  {
  }

  lemma CurrentFinds(c: Codec, s: Sys, tr: Trail) returns (seen: nat)
    requires Lawful(c) && Inv(c, s, tr) && Current(s.disk).Some?
    ensures seen <= |Loose(s, tr)|
    ensures NamesHold(c, s.disk, tr.base, Loose(s, tr), seen)
    ensures CurrentReads(c, s.disk, tr.base, Loose(s, tr), seen)
    ensures ReplayFile(c, Content(s.disk, Current(s.disk))).Loaded?
    ensures ReplayFile(c, Content(s.disk, Current(s.disk))).mem == CanonMem(c, At(tr.base, Loose(s, tr), seen))
  {
    var e, rs := Current(s.disk), Loose(s, tr);
    assert e in s.disk.entries && EntryHolds(c, s.disk, e, tr.base, rs, Shown(s, tr));
    var f := s.disk.files[e.value];
    var k: nat;
    if SoleName(s.disk) {
      k :| FileAt(c, f, tr.base, rs, k) && k <= Shown(s, tr) <= ReadTo(c, f, tr.base, rs, k);
      seen := ReadTo(c, f, tr.base, rs, k);
      assert Spans(c, f, tr.base, rs, seen);
    } else {
      OtherNames(c, s, tr);
      seen := tr.seen;
      k :| FileAt(c, f, tr.base, rs, k) && ReadTo(c, f, tr.base, rs, k) == seen;
    }
    FileRead(c, f, tr.base, rs, k);
  }

  lemma KillKeeps(c: Codec, s: Sys, tr: Trail) returns (to: Trail)
    requires Lawful(c) && Inv(c, s, tr)
    ensures Inv(c, Do(c, s, Kill), to) && TrailMoves(c, s, Kill, tr, to)
    ensures to.base == CanonMem(c, tr.base) && to.lag == CanonRecords(c, Loose(s, tr))
  {
    var rs := Loose(s, tr);
    var seen := KillFinds(c, s, tr);
    to := Trail(CanonMem(c, tr.base), CanonRecords(c, rs), seen);
    KillFits(c, s, tr, seen);
    CanonNames(c, s.disk, tr.base, rs, seen);
    forall i: nat | i <= |to.lag| ensures CanonOfOne(c, tr.base, rs, At(to.base, to.lag, i)) { CanonAt(c, tr.base, rs, i); }
  }

  lemma KillFits(c: Codec, s: Sys, tr: Trail, seen: nat)
    requires Lawful(c) && Inv(c, s, tr) && seen <= |Loose(s, tr)|
    requires ReplayFile(c, Content(s.disk, Current(s.disk))).Loaded?
    requires ReplayFile(c, Content(s.disk, Current(s.disk))).mem == CanonMem(c, At(tr.base, Loose(s, tr), seen))
    ensures var t, to := Do(c, s, Kill), Trail(CanonMem(c, tr.base), CanonRecords(c, Loose(s, tr)), seen);
      && PendingEnabled(t) && TrailFits(c, t, to) && Consistent(t.mem) && Loose(t, to) == to.lag
  {
    var rs := Loose(s, tr);
    ChainCanon(c, tr.base, rs);
    CanonAt(c, tr.base, rs, seen);
    assert Steady(tr.base, rs, seen);
    CanonConsistent(c, At(tr.base, rs, seen));
    NothingLoose(Do(c, s, Kill), Trail(CanonMem(c, tr.base), CanonRecords(c, rs), seen));
  }

  lemma CanonNames(c: Codec, d: Disk, m: Mem, rs: seq<Record>, seen: nat)
    requires Lawful(c) && NamesHold(c, d, m, rs, seen) && d.entries != [] && CurrentReads(c, d, m, rs, seen)
    ensures NamesHold(c, d, CanonMem(c, m), CanonRecords(c, rs), seen)
    ensures CurrentReads(c, d, CanonMem(c, m), CanonRecords(c, rs), seen)
  {
    forall e | e in d.entries ensures EntryHolds(c, d, e, CanonMem(c, m), CanonRecords(c, rs), seen) {
      assert EntryHolds(c, d, e, m, rs, seen);
      if e.None? { CanonEmpty(c); } else {
        var f := d.files[e.value];
        var k: nat :| FileAt(c, f, m, rs, k) && k <= seen <= ReadTo(c, f, m, rs, k);
        FileCanon(c, f, m, rs, k);
      }
    }
    if Current(d).Some? {
      var f := d.files[Current(d).value];
      var k: nat :| FileAt(c, f, m, rs, k) && ReadTo(c, f, m, rs, k) == seen;
      FileCanon(c, f, m, rs, k);
    }
  }

  lemma EmptyHolds(c: Codec)
    requires Lawful(c)
    ensures Spans(c, File("", 0), EMPTY, [], 0) && ReadsAs(c, File("", 0), EMPTY, [], 0)
  {
    CanonEmpty(c);
    assert Tail("") <= c.encode(Tombstone(""));
    assert FileHolds(c, File("", 0), EMPTY, []);
    WholeFile(c, File("", 0), EMPTY);
  }

  lemma SweepKeeps(c: Codec, s: Sys, tr: Trail)
    requires Lawful(c) && Inv(c, s, tr) && Can(c, s, Sweep)
    ensures Inv(c, Do(c, s, Sweep), tr)
  {
    var t := Do(c, s, Sweep);
    NothingLoose(s, tr);
    NothingLoose(t, tr);
    assert Current(s.disk) in s.disk.entries;
    forall x | x in t.disk.entries ensures EntryHolds(c, t.disk, x, tr.base, tr.lag, tr.seen) {
      assert EntryHolds(c, s.disk, x, tr.base, Loose(s, tr), tr.seen);
    }
  }

  lemma CreateJournalKeeps(c: Codec, s: Sys, tr: Trail, l: Label)
    requires Lawful(c) && Inv(c, s, tr) && Can(c, s, l) && l.CreateJournal?
    ensures Inv(c, Do(c, s, l), tr)
  {
    var t := Do(c, s, l);
    EmptyHolds(c);
    assert Current(s.disk) in s.disk.entries;
    assert EntryHolds(c, s.disk, Current(s.disk), tr.base, Loose(s, tr), tr.seen);
    forall x | x in t.disk.entries ensures EntryHolds(c, t.disk, x, EMPTY, [], 0) {
      assert x in s.disk.entries ==> EntryHolds(c, s.disk, x, EMPTY, [], 0);
    }
  }

  lemma NewNames(c: Codec, s: Sys, tr: Trail)
    requires Lawful(c) && Inv(c, s, tr) && s.phase.Creating?
    ensures NamesHold(c, s.disk, EMPTY, [], 0) && s.mem == EMPTY && Loose(s, tr) == []
    ensures Spans(c, s.disk.files[s.phase.temp], EMPTY, [], 0) && ReadsAs(c, s.disk.files[s.phase.temp], EMPTY, [], 0)
  {
    EmptyHolds(c);
    AtAll(EMPTY, []);
    NothingLoose(s, tr);
  }

  lemma SyncNewKeeps(c: Codec, s: Sys, tr: Trail)
    requires Lawful(c) && Inv(c, s, tr) && Can(c, s, SyncNewJournal)
    ensures Inv(c, Do(c, s, SyncNewJournal), tr)
  {
    NewNames(c, s, tr);
    NothingLoose(Do(c, s, SyncNewJournal), tr);
    assert Current(s.disk) in s.disk.entries;
  }

  lemma DropNewKeeps(c: Codec, s: Sys, tr: Trail)
    requires Lawful(c) && Inv(c, s, tr) && Can(c, s, DropNewJournal)
    ensures Inv(c, Do(c, s, DropNewJournal), tr)
  {
    var t := Do(c, s, DropNewJournal);
    NewNames(c, s, tr);
    NothingLoose(t, tr);
    CanonEmpty(c);
    forall x | x in t.disk.entries ensures EntryHolds(c, t.disk, x, EMPTY, [], 0) {
      assert x in s.disk.entries ==> EntryHolds(c, s.disk, x, EMPTY, [], 0);
    }
  }

  lemma OpenKeeps(c: Codec, s: Sys, tr: Trail)
    requires Lawful(c) && Inv(c, s, tr) && Can(c, s, Open)
    ensures Inv(c, Do(c, s, Open), tr) && Do(c, s, Open).mem == s.mem
  {
    ReplayCount(c, Content(s.disk, Current(s.disk)), EMPTY, 0);
    var t := Do(c, s, Open);
    assert Loose(t, tr) == Loose(s, tr);
  }

  predicate Appending(l: Label) { l.Write? || l.WriteFails? || l.Sync? || l.Ack? }

  predicate Compacting(l: Label) {
    l.CreateTemp? || l.Draft? || l.Seal? || l.Rename? || l.SyncDir? || l.Adopt?
  }

  predicate Crashing(l: Label) { l.PowerLoss? || l.Kill? }

  lemma AppendStepKeeps(c: Codec, s: Sys, tr: Trail, l: Label) returns (to: Trail)
    requires Lawful(c) && Inv(c, s, tr) && Can(c, s, l) && StartsSafe(s, l) && Appending(l)
    ensures Inv(c, Do(c, s, l), to) && TrailMoves(c, s, l, tr, to) && (tr.lag == [] ==> to.lag == [])
  {
    if l.Sync? { to := SyncKeeps(c, s, tr); }
    else if l.Ack? { to := AckKeeps(c, s, tr); }
    else { to := WriteKeeps(c, s, tr, l); }
  }

  lemma CompactStepKeeps(c: Codec, s: Sys, tr: Trail, l: Label) returns (to: Trail)
    requires Lawful(c) && Inv(c, s, tr) && Can(c, s, l) && Compacting(l)
    ensures Inv(c, Do(c, s, l), to) && TrailMoves(c, s, l, tr, to) && (tr.lag == [] ==> to.lag == [])
  {
    to := tr;
    SameTrail(c, s, l, tr);
    if l.Rename? { RenameKeeps(c, s, tr); }
    else if l.SyncDir? { SyncDirKeeps(c, s, tr); }
    else if l.Adopt? { to := AdoptKeeps(c, s, tr); }
    else if l.CreateTemp? { CreateTempKeeps(c, s, tr, l.temp); }
    else if l.Draft? { DraftKeeps(c, s, tr, l.piece); }
    else { SealKeeps(c, s, tr); }
  }

  lemma StartStepKeeps(c: Codec, s: Sys, tr: Trail, l: Label)
    requires Lawful(c) && Inv(c, s, tr) && Can(c, s, l)
    requires !Appending(l) && !Compacting(l) && !Quiet(l) && !Crashing(l)
    ensures Inv(c, Do(c, s, l), tr)
  {
    if l.Sweep? { SweepKeeps(c, s, tr); }
    else if l.CreateJournal? { CreateJournalKeeps(c, s, tr, l); }
    else if l.Open? { OpenKeeps(c, s, tr); }
    else if l.SyncNewJournal? { SyncNewKeeps(c, s, tr); }
    else { DropNewKeeps(c, s, tr); }
  }

  lemma StepKeeps(c: Codec, s: Sys, tr: Trail, l: Label) returns (to: Trail)
    requires Lawful(c) && Inv(c, s, tr) && Can(c, s, l) && StartsSafe(s, l)
    ensures Inv(c, Do(c, s, l), to) && TrailMoves(c, s, l, tr, to)
    ensures !l.Kill? && tr.lag == [] ==> to.lag == []
  {
    if Appending(l) { to := AppendStepKeeps(c, s, tr, l); }
    else if Compacting(l) { to := CompactStepKeeps(c, s, tr, l); }
    else if l.PowerLoss? { to := PowerLossKeeps(c, s, tr, l.after); }
    else if l.Kill? { to := KillKeeps(c, s, tr); }
    else { to := QuietStepKeeps(c, s, tr, l); }
  }

  lemma QuietStepKeeps(c: Codec, s: Sys, tr: Trail, l: Label) returns (to: Trail)
    requires Lawful(c) && Inv(c, s, tr) && Can(c, s, l)
    requires !Appending(l) && !Compacting(l) && !Crashing(l)
    ensures Inv(c, Do(c, s, l), to) && TrailMoves(c, s, l, tr, to) && (tr.lag == [] ==> to.lag == [])
  {
    to := tr;
    SameTrail(c, s, l, tr);
    if Quiet(l) { QuietKeeps(c, s, tr, l); } else { StartStepKeeps(c, s, tr, l); }
  }

  const START := Trail(EMPTY, [], 0)

  lemma BlankInv(c: Codec)
    requires Lawful(c)
    ensures Inv(c, BLANK, START)
  {
    NoRecords(c, EMPTY);
    CanonEmpty(c);
    NothingWhole(c, []);
  }

  lemma {:induction false} RunKeeps(c: Codec, s: Sys, tr: Trail, ls: seq<Label>) returns (to: Trail)
    requires Lawful(c) && Inv(c, s, tr) && Runs(c, s, ls) && SafeRun(c, s, ls)
    ensures Inv(c, Run(c, s, ls), to)
    decreases |ls|
  {
    to := tr;
    if ls != [] {
      var front := ls[..|ls| - 1];
      to := RunKeeps(c, s, tr, front);
      to := StepKeeps(c, Run(c, s, front), to, ls[|ls| - 1]);
    }
  }
}
