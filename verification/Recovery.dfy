/** Crash refinement, sticky failure and repair. */
module Recovery {
  import opened Results
  import opened Journal
  import opened Events
  import opened EventProofs
  import opened Snapshots
  import opened Disks
  import opened Machine
  import opened Trails
  import opened MachineProofs

  // Replay of the disk's journal succeeds and loads m, up to canonical form.
  ghost predicate RecoversTo(c: Codec, d: Disk, m: Mem) {
    && d.entries != []
    && ReplayFile(c, Content(d, Current(d))).Loaded?
    && ReplayFile(c, Content(d, Current(d))).mem == CanonMem(c, m)
  }

  // The acknowledged state, or that state and a front part of the mutation without
  // an answer: all of it when it is not a prune.
  ghost predicate RecoversAcknowledged(c: Codec, d: Disk, s: Sys) {
    || RecoversTo(c, d, s.mem)
    || (Unacknowledged(s).Some? && Enabled(s.mem, Unacknowledged(s).value)
        && exists j: nat :: 0 < j <= |Records(s.mem, Unacknowledged(s).value)|
             && Enabled(s.mem, Part(Unacknowledged(s).value, j))
             && RecoversTo(c, d, Effect(s.mem, Part(Unacknowledged(s).value, j))))
  }

  // Nothing that a killed process left unsynchronised is in doubt.
  lemma InvRecovers(c: Codec, s: Sys, tr: Trail, after: Disk)
    requires Lawful(c) && Inv(c, s, tr) && tr.lag == [] && Survives(s.disk, after)
    ensures RecoversAcknowledged(c, after, s)
  {
    var j := CrashSafe(c, s, tr, after);
    AtAll(tr.base, []);
    var ps := PendingRecords(s);
    assert Loose(s, tr) == ps;
    if j == 0 {
      AtAll(s.mem, ps);
    } else {
      PartialEffect(s.mem, Unacknowledged(s).value, j);
      assert At(s.mem, ps, j) == ApplyAll(s.mem, ps[..j]);
    }
  }

  lemma {:induction false} UnkilledRun(c: Codec, s: Sys, tr: Trail, ls: seq<Label>) returns (to: Trail)
    requires Lawful(c) && Inv(c, s, tr) && tr.lag == [] && Runs(c, s, ls) && SafeRun(c, s, ls) && Kill !in ls
    ensures Inv(c, Run(c, s, ls), to) && to.lag == []
    decreases |ls|
  {
    to := tr;
    if ls != [] {
      var front := ls[..|ls| - 1];
      to := UnkilledRun(c, s, tr, front);
      to := StepKeeps(c, Run(c, s, front), to, ls[|ls| - 1]);
    }
  }

  // For every run, from a state with nothing in doubt, in which no process is
  // killed beside unsynchronised bytes, and for every point at which power is lost.
  lemma CrashRefinement(c: Codec, s: Sys, tr: Trail, ls: seq<Label>, after: Disk)
    requires Lawful(c) && Inv(c, s, tr) && tr.lag == [] && Runs(c, s, ls) && SafeRun(c, s, ls) && Kill !in ls
    requires Survives(Run(c, s, ls).disk, after)
    ensures RecoversAcknowledged(c, after, Run(c, s, ls))
  {
    var to := UnkilledRun(c, s, tr, ls);
    InvRecovers(c, Run(c, s, ls), to, after);
  }

  // Whoever is told of success is told of a mutation no power loss can undo, after
  // whatever kills and crashes: the open file is synchronised and its name durable.
  lemma AcknowledgedIsDurable(c: Codec, s: Sys, tr: Trail, ls: seq<Label>, after: Disk)
    requires Lawful(c) && Inv(c, s, tr) && Runs(c, s, ls + [Ack]) && SafeRun(c, s, ls + [Ack])
    requires Survives(Run(c, s, ls + [Ack]).disk, after)
    ensures Settled(Run(c, s, ls + [Ack]))
    ensures RecoversTo(c, after, Run(c, s, ls + [Ack]).mem)
  {
    assert (ls + [Ack])[..|ls + [Ack]| - 1] == ls;
    var to := RunKeeps(c, s, tr, ls);
    AckIsDurable(c, Run(c, s, ls), to, after);
  }

  lemma AckIsDurable(c: Codec, t: Sys, tr: Trail, after: Disk)
    requires Lawful(c) && Inv(c, t, tr) && Can(c, t, Ack) && Survives(Do(c, t, Ack).disk, after)
    ensures Settled(Do(c, t, Ack)) && RecoversTo(c, after, Do(c, t, Ack).mem)
  {
    var to := AckKeeps(c, t, tr);
    NothingPending(c, Do(c, t, Ack), to, after);
  }

  lemma NothingPending(c: Codec, t: Sys, tr: Trail, after: Disk)
    requires Lawful(c) && Inv(c, t, tr) && Survives(t.disk, after) && Unacknowledged(t).None? && tr.lag == []
    ensures RecoversTo(c, after, t.mem)
  {
    var j := CrashSafe(c, t, tr, after);
    NothingLoose(t, tr);
    AtAll(tr.base, []);
  }

  // ---- Sticky failure ----

  predicate Repairs(l: Label) { l.Adopt? || l.PowerLoss? || l.Kill? }

  // The compaction steps of a failed store up to the point where it is repaired.
  ghost predicate Stuck(s: Sys) {
    s.failed && !s.phase.Written? && !s.phase.Synced? && !s.phase.Creating? && !s.phase.Down?
  }

  ghost predicate NoRepair(ls: seq<Label>) { forall i | 0 <= i < |ls| :: !Repairs(ls[i]) }

  // The files of s that no compaction in s is writing are as they were.
  ghost predicate Kept(s: Sys, t: Sys) {
    && (forall i | i in s.disk.files && s.phase != Drafting(i) ::
          i in t.disk.files && t.disk.files[i] == s.disk.files[i])
    && (forall i | i in s.disk.files :: i in t.disk.files)
    && (t.phase.Drafting? && t.phase.temp in s.disk.files ==> t.phase == s.phase)
  }

  lemma StuckStep(c: Codec, s: Sys, l: Label)
    requires Can(c, s, l) && Stuck(s) && !Repairs(l)
    ensures Stuck(Do(c, s, l)) && Do(c, s, l).mem == s.mem
    ensures !l.Write? && !l.WriteFails? && !l.Ack? && !l.Open?
  {
  }

  lemma KeptStep(c: Codec, s: Sys, t: Sys, l: Label)
    requires Can(c, t, l) && Stuck(t) && !Repairs(l) && Kept(s, t)
    ensures Kept(s, Do(c, t, l))
  {
    if t.phase.Drafting? { assert t.phase.temp in s.disk.files ==> s.phase == Drafting(t.phase.temp); }
  }

  // Once persistence has failed, no mutation is acknowledged and no file the
  // journal's name may denote gets a byte, until a compaction passes its
  // directory synchronisation.
  lemma {:induction false} FailureSticks(c: Codec, s: Sys, ls: seq<Label>)
    requires Stuck(s) && Runs(c, s, ls) && NoRepair(ls)
    ensures Stuck(Run(c, s, ls)) && Run(c, s, ls).mem == s.mem && Kept(s, Run(c, s, ls))
    ensures forall i | 0 <= i < |ls| :: !ls[i].Write? && !ls[i].WriteFails? && !ls[i].Ack? && !ls[i].Open?
    decreases |ls|
  {
    if ls != [] {
      var front, last := ls[..|ls| - 1], ls[|ls| - 1];
      assert ls == front + [last];
      FailureSticks(c, s, front);
      StuckStep(c, Run(c, s, front), last);
      KeptStep(c, s, Run(c, s, front), last);
    }
  }

  lemma {:induction false} StuckRunKeeps(c: Codec, s: Sys, tr: Trail, ls: seq<Label>) returns (to: Trail)
    requires Lawful(c) && Inv(c, s, tr) && Stuck(s) && Runs(c, s, ls) && NoRepair(ls)
    ensures Inv(c, Run(c, s, ls), to)
    decreases |ls|
  {
    to := tr;
    if ls != [] {
      var front := ls[..|ls| - 1];
      to := StuckRunKeeps(c, s, tr, front);
      FailureSticks(c, s, front);
      StuckStep(c, Run(c, s, front), ls[|ls| - 1]);
      to := StepKeeps(c, Run(c, s, front), to, ls[|ls| - 1]);
    }
  }

  lemma NamedFilesSurviveFailure(c: Codec, s: Sys, tr: Trail, ls: seq<Label>, e: Option<nat>)
    requires Lawful(c) && Inv(c, s, tr) && Stuck(s) && Runs(c, s, ls) && NoRepair(ls)
    requires e in s.disk.entries
    ensures Content(Run(c, s, ls).disk, e) == Content(s.disk, e)
  {
    FailureSticks(c, s, ls);
  }

  // That compaction leaves a healthy store over a clean journal that holds the
  // maps exactly, one record a delivery, whatever had failed before.
  lemma RepairRestores(c: Codec, s: Sys, tr: Trail, ls: seq<Label>)
    requires Lawful(c) && Inv(c, s, tr) && Stuck(s) && Runs(c, s, ls) && NoRepair(ls)
    requires Can(c, Run(c, s, ls), Adopt)
    ensures Restored(c, Do(c, Run(c, s, ls), Adopt), s.mem)
  {
    var to := StuckRunKeeps(c, s, tr, ls);
    FailureSticks(c, s, ls);
    AdoptRestores(c, Run(c, s, ls), to);
  }

  // A sound store over one durable terminated file of exactly these maps.
  ghost predicate Restored(c: Codec, t: Sys, m: Mem) {
    && !t.failed && t.stray.None? && t.mem == m && Settled(t) && SafeToAppend(t)
    && ReplayFile(c, Content(t.disk, t.file)) == Loaded(CanonMem(c, m), |m.items|)
    && t.records == |m.items|
  }

  // So does a compaction of a healthy store, and one of a store that was started
  // over a torn journal or under a name that is not durable.
  lemma AdoptRestores(c: Codec, s: Sys, tr: Trail)
    requires Lawful(c) && Inv(c, s, tr) && Can(c, s, Adopt)
    ensures Restored(c, Do(c, s, Adopt), s.mem)
  {
    SnapshotHolds(c, s, s.phase.temp, []);
  }

  // ---- Compactions after whatever appends ----

  // The maps are consistent, and a compaction's file is their snapshot.
  ghost predicate Snapshotting(c: Codec, s: Sys) {
    && WellFormed(s.disk) && Consistent(s.mem)
    && match s.phase
      case Drafting(t) => t in s.disk.files && Some(t) !in s.disk.entries
      case Sealed(t) => HoldsSnapshot(c, s.disk, s.mem, t) && Some(t) !in s.disk.entries
      case Renamed(t) => HoldsSnapshot(c, s.disk, s.mem, t) && Current(s.disk) == Some(t)
      case Anchored(t) => HoldsSnapshot(c, s.disk, s.mem, t) && s.disk.entries == [Some(t)]
      case _ => true
  }

  lemma SnapshottingStep(c: Codec, s: Sys, l: Label)
    requires Snapshotting(c, s) && Can(c, s, l) && Serving(l)
    ensures Snapshotting(c, Do(c, s, l))
  {
    assert Current(s.disk) in s.disk.entries;
    if l.Ack? { EffectConsistent(s.mem, s.phase.ev); }
    else if l.Seal? { SealSnapshots(c, s); }
    else if l.CreateTemp? || l.Draft? { DraftSnapshots(c, s, l); }
    else if Compacting(l) { SwapSnapshots(c, s, l); }
    else { OtherSnapshots(c, s, l); }
  }

  lemma SealSnapshots(c: Codec, s: Sys)
    requires Snapshotting(c, s) && Can(c, s, Seal)
    ensures Snapshotting(c, Do(c, s, Seal))
  {
    SyncedSnapshot(c, s.disk, s.mem, s.phase.temp);
    assert Do(c, s, Seal) == s.(disk := SyncFile(s.disk, s.phase.temp), phase := Sealed(s.phase.temp));
  }

  lemma SyncedSnapshot(c: Codec, d: Disk, m: Mem, i: nat)
    requires WellFormed(d) && i in d.files && d.files[i].data == Lines(c, Snapshot(m))
    ensures HoldsSnapshot(c, SyncFile(d, i), m, i) && WellFormed(SyncFile(d, i))
  {
  }

  lemma DraftSnapshots(c: Codec, s: Sys, l: Label)
    requires Snapshotting(c, s) && Can(c, s, l) && (l.CreateTemp? || l.Draft?)
    ensures Snapshotting(c, Do(c, s, l))
  {
    assert Current(s.disk) in s.disk.entries;
  }

  lemma SwapSnapshots(c: Codec, s: Sys, l: Label)
    requires Snapshotting(c, s) && Can(c, s, l) && (l.Rename? || l.SyncDir? || l.Adopt?)
    ensures Snapshotting(c, Do(c, s, l))
  {
    assert Current(s.disk) in s.disk.entries;
  }

  lemma OtherSnapshots(c: Codec, s: Sys, l: Label)
    requires WellFormed(s.disk) && Consistent(s.mem) && Can(c, s, l) && Serving(l) && !l.Ack? && !Compacting(l)
    ensures Snapshotting(c, Do(c, s, l))
  {
  }

  lemma InvSnapshots(c: Codec, s: Sys, tr: Trail)
    requires Inv(c, s, tr)
    ensures Snapshotting(c, s)
  {
  }

  // Also when appends were unsafe: over a torn journal, or under a name that is
  // not durable.
  lemma {:induction false} ServedSnapshotting(c: Codec, s: Sys, ls: seq<Label>)
    requires Snapshotting(c, s) && Runs(c, s, ls) && Served(ls)
    ensures Snapshotting(c, Run(c, s, ls))
    decreases |ls|
  {
    if ls != [] {
      var front := ls[..|ls| - 1];
      ServedSnapshotting(c, s, front);
      SnapshottingStep(c, Run(c, s, front), ls[|ls| - 1]);
    }
  }

  // Whatever a process has done since it started, safely or not, an adopted
  // compaction saves what it acknowledged: it leaves one durable, synchronised,
  // terminated file that holds the maps, and the invariant of safe runs.
  lemma CompactionSaves(c: Codec, s: Sys, tr: Trail, ls: seq<Label>)
    requires Lawful(c) && Inv(c, s, tr) && Runs(c, s, ls) && Served(ls) && Can(c, Run(c, s, ls), Adopt)
    ensures var t := Do(c, Run(c, s, ls), Adopt);
      Restored(c, t, Run(c, s, ls).mem) && Inv(c, t, Trail(t.mem, [], 0))
  {
    InvSnapshots(c, s, tr);
    ServedSnapshotting(c, s, ls);
    var a := Run(c, s, ls);
    SnapshotHolds(c, a, a.phase.temp, []);
    SoundInv(c, Do(c, a, Adopt));
  }
}
