/** Files and directory entries with volatile and durable content. */
module Disks {
  import opened Results
  import opened Text

  // The first `durable` bytes are synchronised; the rest may be lost from the end.
  datatype File = File(data: Bytes, durable: nat)

  // `entries` are the values the journal's directory entry has had since the
  // directory was last synchronised, the current one last; None is no file.
  // `temps` are the files named as compaction temporaries.
  datatype Disk = Disk(files: map<nat, File>, entries: seq<Option<nat>>, temps: set<nat>)

  ghost predicate WellFormed(d: Disk) {
    && d.entries != []
    && (forall e | e in d.entries :: e.Some? ==> e.value in d.files)
    && (forall i | i in d.files :: d.files[i].durable <= |d.files[i].data|)
  }

  function Current(d: Disk): Option<nat>
    requires d.entries != []
  {
    d.entries[|d.entries| - 1]
  }

  function Content(d: Disk, e: Option<nat>): Bytes {
    if e.Some? && e.value in d.files then d.files[e.value].data else ""
  }

  function AppendTo(d: Disk, i: nat, piece: Bytes): Disk
    requires i in d.files
  {
    d.(files := d.files[i := d.files[i].(data := d.files[i].data + piece)])
  }

  function SyncFile(d: Disk, i: nat): Disk
    requires i in d.files
  {
    d.(files := d.files[i := d.files[i].(durable := |d.files[i].data|)])
  }

  function NewFile(d: Disk, i: nat): Disk { d.(files := d.files[i := File("", 0)]) }

  function SyncDirectory(d: Disk): Disk
    requires d.entries != []
  {
    d.(entries := [Current(d)])
  }

  // Power is lost: a file keeps its synchronised bytes and any prefix of the rest,
  // and the journal's name denotes any file it may have durably denoted.
  ghost predicate CutOf(f: File, g: File) {
    g.durable == |g.data| && f.durable <= |g.data| && g.data <= f.data
  }

  ghost predicate Survives(d: Disk, after: Disk) {
    && |after.entries| == 1 && after.entries[0] in d.entries
    && after.files.Keys == d.files.Keys
    && (forall i | i in d.files :: CutOf(d.files[i], after.files[i]))
  }
}

/** The store as a state machine over its disk effects, one file-system call a
    step (internal/store/store.go:80-144, 437-525, 574-589, 719-727, 743-767). */
module Machine {
  import opened Results
  import opened Text
  import opened Journal
  import opened Events
  import opened Snapshots
  import opened Disks

  datatype Phase =
    | Idle
    | Written(ev: Event)     // the records are written, not yet synchronised
    | Synced(ev: Event)      // synchronised, the maps not yet updated
    | Drafting(temp: nat)    // a compaction is writing its temporary file
    | Sealed(temp: nat)      // the temporary is whole and synchronised
    | Renamed(temp: nat)     // and renamed over the journal
    | Anchored(temp: nat)    // and its directory entry is durable
    | Creating(temp: nat)    // a new journal whose directory entry is not durable
    | Down                   // no process

  // `stray` is the mutation whose append failed, if its bytes may linger.
  datatype Sys = Sys(
    disk: Disk, file: Option<nat>, mem: Mem, failed: bool, records: nat,
    stray: Option<Event>, phase: Phase)

  datatype Label =
    | Write(ev: Event)
    | WriteFails(ev: Event, written: nat)
    | Sync
    | SyncFails
    | Ack
    | Trip                         // persistence fails with no byte written
    | Shut
    | CreateTemp(temp: nat)
    | Draft(piece: Bytes)
    | Seal
    | Abandon(removed: bool)
    | Rename
    | Halt                         // failure between rename and directory sync
    | SyncDir
    | Adopt
    | PowerLoss(after: Disk)
    | Kill                         // the process dies; the disk is as it left it
    | Sweep
    | CreateJournal(temp: nat)
    | SyncNewJournal
    | DropNewJournal
    | Open

  ghost function Appended(c: Codec, s: Sys, ev: Event): Bytes
    requires Enabled(s.mem, ev)
  {
    Lines(c, Records(s.mem, ev))
  }

  predicate Attached(s: Sys) { s.file.Some? && s.file.value in s.disk.files }

  function TempOf(p: Phase): Option<nat> {
    match p
    case Drafting(t) => Some(t)
    case Sealed(t) => Some(t)
    case Renamed(t) => Some(t)
    case Anchored(t) => Some(t)
    case Creating(t) => Some(t)
    case _ => None
  }

  predicate HasTemp(s: Sys) { TempOf(s.phase).Some? && TempOf(s.phase).value in s.disk.files }

  ghost predicate Drafted(c: Codec, s: Sys)
    requires HasTemp(s)
  {
    s.disk.files[TempOf(s.phase).value].data == Lines(c, Snapshot(s.mem))
  }

  // The journal exists and replay accepts it.
  ghost predicate Readable(c: Codec, d: Disk)
    requires d.entries != []
  {
    Current(d).Some? && Current(d).value in d.files && ReplayFile(c, Content(d, Current(d))).Loaded?
  }

  ghost predicate Can(c: Codec, s: Sys, l: Label) {
    match l
    case Write(ev) => s.phase.Idle? && !s.failed && Attached(s) && Enabled(s.mem, ev)
    case WriteFails(ev, n) =>
      s.phase.Idle? && !s.failed && Attached(s) && Enabled(s.mem, ev) && n <= |Appended(c, s, ev)|
    case Sync => s.phase.Written? && Attached(s) && Enabled(s.mem, s.phase.ev)
    case SyncFails => s.phase.Written?
    case Ack => s.phase.Synced? && Enabled(s.mem, s.phase.ev)
    case Trip => s.phase.Idle?
    case Shut => s.phase.Idle?
    case CreateTemp(t) => s.phase.Idle? && s.file.Some? && t !in s.disk.files
    case Draft(_) => s.phase.Drafting? && HasTemp(s)
    case Seal => s.phase.Drafting? && HasTemp(s) && Drafted(c, s)
    case Abandon(_) => s.phase.Drafting? || s.phase.Sealed?
    case Rename => s.phase.Sealed?
    case Halt => s.phase.Renamed?
    case SyncDir => s.phase.Renamed? && s.disk.entries != []
    case Adopt => s.phase.Anchored?
    case PowerLoss(after) => Survives(s.disk, after)
    case Kill => s.disk.entries != []
    case Sweep => s.phase.Down? && s.disk.entries != []
    case CreateJournal(t) => s.phase.Down? && s.disk.entries != [] && Current(s.disk).None? && t !in s.disk.files
    case SyncNewJournal => s.phase.Creating? && s.disk.entries != []
    case DropNewJournal => s.phase.Creating?
    case Open => s.phase.Down? && s.disk.entries != [] && s.disk.temps == {} && Readable(c, s.disk)
  }

  // What replay makes of a recovered journal, for a process to load.
  ghost function Recovered(c: Codec, d: Disk): Mem
    requires d.entries != []
  {
    match ReplayFile(c, Content(d, Current(d)))
    case Loaded(m, _) => m
    case Refused => EMPTY
  }

  ghost function Do(c: Codec, s: Sys, l: Label): Sys
    requires Can(c, s, l)
  {
    match l
    case Write(ev) =>
      s.(disk := AppendTo(s.disk, s.file.value, Appended(c, s, ev)), phase := Written(ev))
    case WriteFails(ev, n) =>
      s.(disk := AppendTo(s.disk, s.file.value, Appended(c, s, ev)[..n]), failed := true, stray := Some(ev))
    case Sync =>
      s.(disk := SyncFile(s.disk, s.file.value), phase := Synced(s.phase.ev),
         records := s.records + |Records(s.mem, s.phase.ev)|)
    case SyncFails => s.(failed := true, stray := Some(s.phase.ev), phase := Idle)
    case Ack => s.(mem := Effect(s.mem, s.phase.ev), phase := Idle)
    case Trip => s.(failed := true)
    case Shut => s.(file := None)
    case CreateTemp(t) => s.(disk := NewFile(s.disk, t).(temps := s.disk.temps + {t}), phase := Drafting(t))
    case Draft(piece) => s.(disk := AppendTo(s.disk, s.phase.temp, piece))
    case Seal => s.(disk := SyncFile(s.disk, s.phase.temp), phase := Sealed(s.phase.temp))
    case Abandon(removed) =>
      s.(disk := if removed then s.disk.(temps := s.disk.temps - {s.phase.temp}) else s.disk, phase := Idle)
    case Rename =>
      s.(disk := s.disk.(entries := s.disk.entries + [Some(s.phase.temp)], temps := s.disk.temps - {s.phase.temp}),
         phase := Renamed(s.phase.temp))
    case Halt =>
      s.(file := Some(s.phase.temp), records := |s.mem.items|, failed := true, phase := Idle)
    case SyncDir => s.(disk := SyncDirectory(s.disk), phase := Anchored(s.phase.temp))
    case Adopt =>
      s.(file := Some(s.phase.temp), records := |s.mem.items|, failed := false, stray := None, phase := Idle)
    case PowerLoss(after) => Sys(after, None, Recovered(c, after), false, 0, None, Down)
    case Kill => Sys(s.disk, None, Recovered(c, s.disk), false, 0, None, Down)
    case Sweep => s.(disk := if s.disk.temps == {} then s.disk else SyncDirectory(s.disk).(temps := {}))
    case CreateJournal(t) =>
      s.(disk := NewFile(s.disk, t).(entries := s.disk.entries + [Some(t)]), phase := Creating(t))
    case SyncNewJournal =>
      Sys(SyncDirectory(s.disk), Some(s.phase.temp), EMPTY, false, 0, None, Idle)
    case DropNewJournal => s.(disk := s.disk.(entries := s.disk.entries + [None]), phase := Down)
    case Open =>
      var replayed := ReplayFile(c, Content(s.disk, Current(s.disk)));
      Sys(s.disk, Current(s.disk), replayed.mem, false, replayed.records, None, Idle)
  }

  // ---- Runs ----

  // The state after the labels, if each of them can be taken in turn.
  ghost function Exec(c: Codec, s: Sys, ls: seq<Label>): Option<Sys>
    decreases |ls|
  {
    if ls == [] then Some(s) else
      var front, last := Exec(c, s, ls[..|ls| - 1]), ls[|ls| - 1];
      if front.Some? && Can(c, front.value, last) then Some(Do(c, front.value, last)) else None
  }

  ghost predicate Runs(c: Codec, s: Sys, ls: seq<Label>) { Exec(c, s, ls).Some? }

  ghost function Run(c: Codec, s: Sys, ls: seq<Label>): Sys
    requires Runs(c, s, ls)
  {
    Exec(c, s, ls).value
  }

  lemma RunExtends(c: Codec, s: Sys, ls: seq<Label>, l: Label)
    requires Runs(c, s, ls) && Can(c, Run(c, s, ls), l)
    ensures Runs(c, s, ls + [l]) && Run(c, s, ls + [l]) == Do(c, Run(c, s, ls), l)
  {
    assert (ls + [l])[..|ls + [l]| - 1] == ls;
  }

  // ---- One process ----

  // A step of a process that has started.
  predicate Serving(l: Label) {
    && !l.PowerLoss? && !l.Kill? && !l.Sweep? && !l.Open?
    && !l.CreateJournal? && !l.SyncNewJournal? && !l.DropNewJournal?
  }

  ghost predicate Served(ls: seq<Label>) { ls == [] || (Served(ls[..|ls| - 1]) && Serving(ls[|ls| - 1])) }

  // The appends begun in a run.
  ghost function Writes(ls: seq<Label>): nat {
    if ls == [] then 0
    else Writes(ls[..|ls| - 1]) + (if ls[|ls| - 1].Write? || ls[|ls| - 1].WriteFails? then 1 else 0)
  }

  lemma ServeExtends(c: Codec, s: Sys, ls: seq<Label>, l: Label)
    requires Runs(c, s, ls) && Can(c, Run(c, s, ls), l) && Served(ls) && Serving(l)
    ensures Runs(c, s, ls + [l]) && Run(c, s, ls + [l]) == Do(c, Run(c, s, ls), l) && Served(ls + [l])
    ensures Writes(ls + [l]) == Writes(ls) + (if l.Write? || l.WriteFails? then 1 else 0)
  {
    assert (ls + [l])[..|ls + [l]| - 1] == ls;
  }

  // ---- Safe appends ----

  // The open file ends in a newline, and no other file and no absence of one can
  // be what the journal's name durably denotes.
  ghost predicate SafeToAppend(s: Sys) {
    Attached(s) && Clean(s.disk.files[s.file.value].data) && forall e | e in s.disk.entries :: e == s.file
  }

  // Records are appended only when that is so.
  ghost predicate StartsSafe(s: Sys, l: Label) {
    (l.Write? || l.WriteFails?) && Attached(s) ==> SafeToAppend(s)
  }

  ghost predicate SafeRun(c: Codec, s: Sys, ls: seq<Label>)
    requires Runs(c, s, ls)
    decreases |ls|
  {
    ls == [] || (SafeRun(c, s, ls[..|ls| - 1]) && StartsSafe(Run(c, s, ls[..|ls| - 1]), ls[|ls| - 1]))
  }

  // A machine that has never held a journal.
  const BLANK := Sys(Disk(map[], [None], {}), None, EMPTY, false, 0, None, Down)
}
