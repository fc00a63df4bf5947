/** Runs from nothing that reach what the other modules speak of. */
module Witnesses {
  import opened Results
  import opened Text
  import Names
  import opened Journal
  import opened JournalProofs
  import opened Events
  import opened EventProofs
  import opened Snapshots
  import opened Disks
  import opened Machine
  import opened MachineProofs
  import opened Refinement
  import Waiting

  lemma Further(c: Codec, ls: seq<Label>, l: Label) returns (more: seq<Label>)
    requires Runs(c, BLANK, ls) && SafeRun(c, BLANK, ls)
    requires Can(c, Run(c, BLANK, ls), l) && StartsSafe(Run(c, BLANK, ls), l)
    ensures more == ls + [l] && Runs(c, BLANK, more) && Run(c, BLANK, more) == Do(c, Run(c, BLANK, ls), l)
    ensures SafeRun(c, BLANK, more)
  {
    RunExtends(c, BLANK, ls, l);
    more := ls + [l];
    assert more[..|more| - 1] == ls;
  }

  const NEW_JOURNAL := Sys(Disk(map[0 := File("", 0)], [Some(0)], {}), Some(0), EMPTY, false, 0, None, Idle)

  lemma FirstStart(c: Codec) returns (ls: seq<Label>)
    ensures ls == [Sweep, CreateJournal(0), SyncNewJournal]
    ensures Runs(c, BLANK, ls) && Run(c, BLANK, ls) == NEW_JOURNAL && SafeRun(c, BLANK, ls)
  {
    ls := Further(c, [], Sweep);
    ls := Further(c, ls, CreateJournal(0));
    ls := Further(c, ls, SyncNewJournal);
  }

  // Under any codec: an empty machine starts, makes its journal and acknowledges a
  // first delivery.
  lemma FirstDelivery(c: Codec) returns (ls: seq<Label>)
    ensures Runs(c, BLANK, ls) && SafeRun(c, BLANK, ls) && FreshWrites(ls) && ls != [] && ls[|ls| - 1].Ack?
    ensures Run(c, BLANK, ls).mem.items == map["a" := Waiting.SAMPLE]
  {
    var ev := Create(Waiting.SAMPLE, "h");
    ls := FirstStart(c);
    ls := Further(c, ls, Write(ev));
    ls := Further(c, ls, Sync);
    EffectOfPut(EMPTY, ev);
    ls := Further(c, ls, Ack);
    OneCreation(ev);
    assert ls == [Sweep, CreateJournal(0), SyncNewJournal, Write(ev), Sync, Ack];
  }

  lemma OneCreation(ev: Event)
    ensures FreshWrites([Sweep, CreateJournal(0), SyncNewJournal, Write(ev), Sync, Ack])
  {
  }

  // A started store that could append, and what stands against it.
  ghost predicate Started(c: Codec, ls: seq<Label>) {
    && Runs(c, BLANK, ls) && SafeRun(c, BLANK, ls)
    && var s := Run(c, BLANK, ls); s.phase.Idle? && !s.failed && Attached(s)
  }

  lemma Restarts(c: Codec, ls: seq<Label>) returns (more: seq<Label>)
    requires Lawful(c) && Runs(c, BLANK, ls) && SafeRun(c, BLANK, ls)
    requires var s := Run(c, BLANK, ls); s.phase.Down? && s.disk.temps == {} && Current(s.disk).Some?
    ensures Started(c, more) && Run(c, BLANK, more).disk == Run(c, BLANK, ls).disk
    ensures Run(c, BLANK, more).file == Current(Run(c, BLANK, ls).disk)
  {
    var s := Run(c, BLANK, ls);
    BlankInv(c);
    var tr := RunKeeps(c, BLANK, START, ls);
    var seen := KillFinds(c, s, tr);
    assert Current(s.disk) in s.disk.entries;
    more := Further(c, ls, Sweep);
    more := Further(c, more, Open);
  }

  // Power is lost when one byte of a first append has reached the disk: the next
  // process starts on a journal that ends inside a line.
  lemma TornStart(c: Codec) returns (ls: seq<Label>)
    requires Lawful(c)
    ensures Started(c, ls) && !Clean(Content(Run(c, BLANK, ls).disk, Run(c, BLANK, ls).file))
  {
    var ev := Create(Waiting.SAMPLE, "h");
    var line := Lines(c, Records(EMPTY, ev));
    FirstByte(c, EMPTY, ev);
    ls := FirstStart(c);
    ls := Further(c, ls, Write(ev));
    var d := Run(c, BLANK, ls).disk;
    assert "" + line == line;
    assert d == Disk(map[0 := File(line, 0)], [Some(0)], {});
    var after := Disk(map[0 := File(line[..1], 1)], [Some(0)], {});
    assert Survives(d, after);
    ls := Further(c, ls, PowerLoss(after));
    ls := Restarts(c, ls);
  }

  lemma FirstByte(c: Codec, m: Mem, ev: Event)
    requires Lawful(c) && Enabled(m, ev) && !ev.Prune?
    ensures |Lines(c, Records(m, ev))| > 0 && Lines(c, Records(m, ev))[0] != NEWLINE
  {
    var r := Records(m, ev)[0];
    EncodingNotEmpty(c, r);
    assert Lines(c, Records(m, ev))[0] == c.encode(r)[0] && c.encode(r)[0] in c.encode(r);
  }

  // A process is killed between the rename of a compaction and the directory
  // synchronisation: the next one starts under a name that is not durable.
  lemma UnnamedStart(c: Codec) returns (ls: seq<Label>)
    requires Lawful(c)
    ensures Started(c, ls) && Run(c, BLANK, ls).disk.entries == [Some(0), Some(1)]
    ensures !SafeToAppend(Run(c, BLANK, ls))
  {
    ls := RenamedTemp(c);
    ls := Further(c, ls, Kill);
    ls := Restarts(c, ls);
    TwoNames(Run(c, BLANK, ls), 0);
  }

  lemma RenamedTemp(c: Codec) returns (ls: seq<Label>)
    ensures Runs(c, BLANK, ls) && SafeRun(c, BLANK, ls)
    ensures Run(c, BLANK, ls).disk == Disk(map[0 := File("", 0), 1 := File("", 0)], [Some(0), Some(1)], {})
  {
    EmptySnapshot(c);
    ls := FirstStart(c);
    ls := Further(c, ls, CreateTemp(1));
    ls := Further(c, ls, Seal);
    ls := Further(c, ls, Rename);
  }

  lemma TwoNames(s: Sys, i: nat)
    requires i + 1 < |s.disk.entries| && s.disk.entries[i] != s.disk.entries[i + 1]
    ensures !SafeToAppend(s)
  {
    assert s.disk.entries[i] in s.disk.entries && s.disk.entries[i + 1] in s.disk.entries;
  }

  lemma EmptySnapshot(c: Codec)
    ensures Lines(c, Snapshot(EMPTY)) == ""
  {
    SortedPermutes(EMPTY);
    PermutationSize(Names.Sorted(EMPTY.items.Keys), {});
  }

  // A process is killed while it makes the journal: the next one starts on a
  // journal that a power loss may take away.
  lemma UncreatedStart(c: Codec) returns (ls: seq<Label>)
    requires Lawful(c)
    ensures Started(c, ls) && Run(c, BLANK, ls).disk.entries == [None, Some(0)]
    ensures !SafeToAppend(Run(c, BLANK, ls))
  {
    ls := Further(c, [], Sweep);
    ls := Further(c, ls, CreateJournal(0));
    ls := Further(c, ls, Kill);
    ls := Restarts(c, ls);
    TwoNames(Run(c, BLANK, ls), 0);
  }
}
