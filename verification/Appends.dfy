/** Which acknowledged appends last, and what a killed process leaves behind
    (internal/store/store.go:92-144, 574-589, 630-671, 743-767). */
module Appends {
  import opened Results
  import opened Text
  import opened Journal
  import opened JournalProofs
  import opened Events
  import opened EventProofs
  import opened Snapshots
  import opened Disks
  import opened Machine
  import opened Trails
  import opened MachineProofs
  import opened Recovery

  ghost predicate CanAppend(s: Sys, ev: Event) {
    s.phase.Idle? && !s.failed && Attached(s) && Enabled(s.mem, ev)
  }

  // The mutation written, synchronised and acknowledged.
  ghost function Performed(c: Codec, s: Sys, ev: Event): Sys
    requires CanAppend(s, ev)
  {
    Do(c, Do(c, Do(c, s, Write(ev)), Sync), Ack)
  }

  // The disk after the append: one file longer and whole, the names as before.
  ghost function Longer(d: Disk, i: nat, lines: Bytes): Disk
    requires i in d.files
  {
    d.(files := d.files[i := File(d.files[i].data + lines, |d.files[i].data + lines|)])
  }

  lemma PerformedShape(c: Codec, s: Sys, ev: Event)
    requires CanAppend(s, ev)
    ensures var t := Performed(c, s, ev);
      t.mem == Effect(s.mem, ev) && t.disk == Longer(s.disk, s.file.value, Lines(c, Records(s.mem, ev)))
  {
    var y := Do(c, Do(c, s, Write(ev)), Sync);
    assert y.disk.files == Longer(s.disk, s.file.value, Lines(c, Records(s.mem, ev))).files;
  }

  // What a sound store has open.
  lemma OpenFile(c: Codec, s: Sys, tr: Trail)
    requires Lawful(c) && Inv(c, s, tr) && s.phase.Idle? && !s.failed && Attached(s)
    ensures var data := Content(s.disk, s.file);
      && ReplayFile(c, data).Loaded? && ReplayFile(c, data).mem == CanonMem(c, s.mem) && TornTail(c, data)
    ensures s.disk.entries != [] && Current(s.disk) == s.file && s.file in s.disk.entries && Indexed(s.mem)
  {
    NothingLoose(s, tr);
    var f := s.disk.files[s.file.value];
    var k: nat :| FileAt(c, f, tr.base, tr.lag, k) && ReadTo(c, f, tr.base, tr.lag, k) == tr.seen;
    FileRead(c, f, tr.base, tr.lag, k);
  }

  // An acknowledged append leaves a journal that the next start can read exactly
  // when the journal ended in a newline before it. A tail cut by a crash is
  // ignored at the next start but not removed, so the first append after that
  // start joins it.
  lemma AppendReadableIffClean(c: Codec, s: Sys, tr: Trail, ev: Event)
    requires Lawful(c) && Inv(c, s, tr) && CanAppend(s, ev) && |Records(s.mem, ev)| > 0
    ensures ReplayFile(c, Content(Performed(c, s, ev).disk, s.file)).Loaded? <==> Clean(Content(s.disk, s.file))
    ensures Clean(Content(s.disk, s.file)) ==>
      (RecoversTo(c, Performed(c, s, ev).disk, Effect(s.mem, ev)) && Clean(Content(Performed(c, s, ev).disk, s.file)))
  {
    OpenFile(c, s, tr);
    PerformedContent(c, s, ev);
    LongerFile(c, Content(s.disk, s.file), s.mem, ev);
  }

  lemma PerformedContent(c: Codec, s: Sys, ev: Event)
    requires CanAppend(s, ev) && s.disk.entries != [] && Current(s.disk) == s.file
    ensures var t := Performed(c, s, ev);
      && t.disk.entries != [] && Current(t.disk) == s.file
      && Content(t.disk, s.file) == Content(s.disk, s.file) + Lines(c, Records(s.mem, ev))
  {
    PerformedShape(c, s, ev);
  }

  lemma LongerFile(c: Codec, data: Bytes, m: Mem, ev: Event)
    requires Lawful(c) && Indexed(m) && Enabled(m, ev) && |Records(m, ev)| > 0
    requires ReplayFile(c, data).Loaded? && ReplayFile(c, data).mem == CanonMem(c, m) && TornTail(c, data)
    ensures ReplayFile(c, data + Lines(c, Records(m, ev))).Loaded? <==> Clean(data)
    ensures Clean(data) ==> Clean(data + Lines(c, Records(m, ev)))
    ensures Clean(data) ==> ReplayFile(c, data + Lines(c, Records(m, ev))).mem == CanonMem(c, Effect(m, ev))
  {
    if Clean(data) {
      RecordsApplicable(m, ev);
      AppendedReplay(c, data, m, Records(m, ev));
    } else {
      JoinedAppendIsRefused(c, data, Records(m, ev));
    }
  }

  lemma AppendedReplay(c: Codec, data: Bytes, m: Mem, rs: seq<Record>)
    requires Lawful(c) && Clean(data) && rs != [] && forall i | 0 <= i < |rs| :: Applicable(rs[i])
    requires ReplayFile(c, data).Loaded? && ReplayFile(c, data).mem == CanonMem(c, m)
    ensures ReplayFile(c, data + Lines(c, rs)).Loaded?
    ensures ReplayFile(c, data + Lines(c, rs)).mem == CanonMem(c, ApplyAll(m, rs))
    ensures Clean(data + Lines(c, rs))
  {
    ReplayConcat(c, data, Lines(c, rs), EMPTY, 0);
    assert Lines(c, rs) + "" == Lines(c, rs);
    ReplayLines(c, rs, "", CanonMem(c, m), ReplayFile(c, data).records);
    ApplyAllCanon(c, m, rs);
    LinesClean(c, rs);
  }

  // Starting on a torn journal loads the right state and leaves the bytes alone.
  lemma OpenKeepsTail(c: Codec, s: Sys, tr: Trail)
    requires Lawful(c) && Inv(c, s, tr) && Can(c, s, Open)
    ensures Do(c, s, Open).mem == s.mem && Do(c, s, Open).disk == s.disk
  {
    OpenKeeps(c, s, tr);
  }

  // ---- Appends that last ----

  // A disk that power loss may leave behind with the acknowledged mutation gone.
  ghost predicate Lost(c: Codec, t: Sys, after: Disk) {
    Survives(t.disk, after) && !RecoversTo(c, after, t.mem)
  }

  lemma SafeAppendIsDurable(c: Codec, s: Sys, tr: Trail, ev: Event, after: Disk)
    requires Lawful(c) && Inv(c, s, tr) && CanAppend(s, ev) && SafeToAppend(s)
    requires Survives(Performed(c, s, ev).disk, after)
    ensures RecoversTo(c, after, Performed(c, s, ev).mem)
  {
    var to := WriteKeeps(c, s, tr, Write(ev));
    to := SyncKeeps(c, Do(c, s, Write(ev)), to);
    to := AckKeeps(c, Do(c, Do(c, s, Write(ev)), Sync), to);
    NothingPending(c, Performed(c, s, ev), to, after);
  }

  // The power loss that cuts the named file to n bytes and leaves the others whole.
  ghost function LossAt(d: Disk, e: Option<nat>, n: nat): Disk {
    Disk(map i | i in d.files :: if e == Some(i) then Cut(d.files[i], n) else Cut(d.files[i], |d.files[i].data|), [e], {})
  }

  ghost function Cut(f: File, n: nat): File {
    if n <= |f.data| then File(f.data[..n], n) else f
  }

  lemma LossAtSurvives(d: Disk, e: Option<nat>, n: nat)
    requires WellFormed(d) && e in d.entries
    requires e.Some? ==> d.files[e.value].durable <= n <= |d.files[e.value].data|
    ensures Survives(d, LossAt(d, e, n))
    ensures e.Some? ==> Content(LossAt(d, e, n), e) == d.files[e.value].data[..n]
  {
  }

  lemma LongerWellFormed(d: Disk, i: nat, lines: Bytes)
    requires WellFormed(d) && i in d.files
    ensures WellFormed(Longer(d, i, lines))
  {
  }

  // The append joins the unterminated tail.
  lemma TornTailLoses(c: Codec, s: Sys, tr: Trail, ev: Event) returns (after: Disk)
    requires Lawful(c) && Inv(c, s, tr) && CanAppend(s, ev) && |Records(s.mem, ev)| > 0
    requires !Clean(s.disk.files[s.file.value].data)
    ensures Lost(c, Performed(c, s, ev), after)
  {
    var d := Performed(c, s, ev).disk;
    AppendReadableIffClean(c, s, tr, ev);
    OpenFile(c, s, tr);
    PerformedShape(c, s, ev);
    LongerWellFormed(s.disk, s.file.value, Lines(c, Records(s.mem, ev)));
    var f := d.files[s.file.value];
    after := LossAt(d, s.file, |f.data|);
    LossAtSurvives(d, s.file, |f.data|);
    UntouchedFile(f);
  }

  // The name may still denote another file, which the append did not reach, or none.
  lemma OtherNameLoses(c: Codec, s: Sys, tr: Trail, ev: Event, e: Option<nat>) returns (after: Disk)
    requires Lawful(c) && Inv(c, s, tr) && CanAppend(s, ev) && |Records(s.mem, ev)| > 0
    requires e in s.disk.entries && e != s.file
    ensures Lost(c, Performed(c, s, ev), after)
  {
    var d, m := Performed(c, s, ev).disk, Effect(s.mem, ev);
    PerformedShape(c, s, ev);
    LongerWellFormed(s.disk, s.file.value, Lines(c, Records(s.mem, ev)));
    EffectDiffers(c, s.mem, ev);
    NothingLoose(s, tr);
    assert EntryHolds(c, s.disk, e, tr.base, tr.lag, tr.seen);
    var n := 0;
    if e.None? {
      AtAll(EMPTY, []);
      CanonEmpty(c);
    } else {
      n := CutThatMisses(c, s.disk.files[e.value], tr.base, tr.lag, tr.seen, m);
    }
    after := LossAt(d, e, n);
    LossAtSurvives(d, e, n);
  }

  // Some cut of a file that spans the maps shows other maps than m.
  lemma CutThatMisses(c: Codec, f: File, base: Mem, rs: seq<Record>, seen: nat, m: Mem) returns (n: nat)
    requires Lawful(c) && Chain(c, base, rs) && Spans(c, f, base, rs, seen) && seen <= |rs|
    requires CanonMem(c, m) != CanonMem(c, At(base, rs, seen))
    ensures f.durable <= n <= |f.data|
    ensures ReplayFile(c, f.data[..n]).Loaded? && ReplayFile(c, f.data[..n]).mem != CanonMem(c, m)
  {
    var k: nat :| FileAt(c, f, base, rs, k) && k <= seen <= ReadTo(c, f, base, rs, k);
    if CanonMem(c, At(base, rs, k)) == CanonMem(c, m) {
      n := OneMore(c, f, base, rs, k);
      assert Changes(c, base, rs, k);
    } else {
      FileRead(c, f, base, rs, k);
      n := f.durable;
    }
  }

  lemma OneMore(c: Codec, f: File, base: Mem, rs: seq<Record>, k: nat) returns (n: nat)
    requires Lawful(c) && Chain(c, base, rs) && FileAt(c, f, base, rs, k) && k < ReadTo(c, f, base, rs, k)
    ensures f.durable <= n <= |f.data| && ReplayFile(c, f.data[..n]).Loaded?
    ensures ReplayFile(c, f.data[..n]).mem == CanonMem(c, At(base, rs, k + 1))
  {
    var e, rest := c.encode(rs[k]), f.data[f.durable..];
    FirstWhole(c, rs[k..], rest);
    OneWhole(c, rs[k..]);
    n := f.durable + |e|;
    var g := File(f.data[..n], n);
    assert g.data[f.durable..] == rest[..|e|] == e;
    CutHolds(c, f, g, base, rs, k, k + 1);
    UntouchedFile(g);
  }

  lemma FirstWhole(c: Codec, rs: seq<Record>, p: Bytes)
    requires p <= Lines(c, rs) && Whole(c, rs, p) > 0
    ensures c.encode(rs[0]) <= p
  {
    assert c.encode(rs[0]) <= Line(c, rs[0]) <= Lines(c, rs);
  }

  lemma OneWhole(c: Codec, rs: seq<Record>)
    requires rs != []
    ensures c.encode(rs[0]) <= Lines(c, rs) && Whole(c, rs, c.encode(rs[0])) == 1
  {
  }

  // An acknowledged mutation survives every power loss exactly when the journal
  // ended in a newline and its name was durable.
  lemma AppendDurableIffSafe(c: Codec, s: Sys, tr: Trail, ev: Event)
    requires Lawful(c) && Inv(c, s, tr) && CanAppend(s, ev) && |Records(s.mem, ev)| > 0
    ensures (forall after :: !Lost(c, Performed(c, s, ev), after)) <==> SafeToAppend(s)
  {
    if SafeToAppend(s) {
      forall after ensures !Lost(c, Performed(c, s, ev), after) {
        if Survives(Performed(c, s, ev).disk, after) { SafeAppendIsDurable(c, s, tr, ev, after); }
      }
    } else if e :| e in s.disk.entries && e != s.file {
      var after := OtherNameLoses(c, s, tr, ev, e);
    } else {
      var after := TornTailLoses(c, s, tr, ev);
    }
  }

  // ---- Kills ----

  // The process is killed, and the next one sweeps and opens what it left.
  ghost function Reopened(c: Codec, s: Sys): Sys
    requires s.disk.entries != [] && Can(c, Do(c, Do(c, s, Kill), Sweep), Open)
  {
    Do(c, Do(c, Do(c, s, Kill), Sweep), Open)
  }

  // In whatever phase the process is killed, the next one can start.
  lemma KillCanReopen(c: Codec, s: Sys, tr: Trail) returns (to: Trail)
    requires Lawful(c) && Inv(c, s, tr) && Current(s.disk).Some?
    ensures Can(c, Do(c, Do(c, s, Kill), Sweep), Open) && Inv(c, Reopened(c, s), to)
    ensures to.base == CanonMem(c, tr.base) && to.lag == CanonRecords(c, Loose(s, tr))
  {
    to := KillKeeps(c, s, tr);
    SweepKeeps(c, Do(c, s, Kill), to);
    SweptCanOpen(c, s, to);
    OpenKeeps(c, Do(c, Do(c, s, Kill), Sweep), to);
  }

  lemma SweptCanOpen(c: Codec, s: Sys, to: Trail)
    requires Lawful(c) && s.disk.entries != [] && Current(s.disk).Some?
    requires Inv(c, Do(c, Do(c, s, Kill), Sweep), to)
    ensures Can(c, Do(c, Do(c, s, Kill), Sweep), Open)
  {
    var w := Do(c, Do(c, s, Kill), Sweep);
    assert Current(w.disk) == Current(s.disk) && Current(w.disk) in w.disk.entries;
    var seen := KillFinds(c, w, to);
  }

  lemma ReopenedShape(c: Codec, s: Sys)
    requires s.disk.entries != [] && Can(c, Do(c, Do(c, s, Kill), Sweep), Open)
    ensures var r := Reopened(c, s);
      && r.phase.Idle? && !r.failed && Attached(r) && r.file == Current(s.disk) && r.disk.files == s.disk.files
      && r.disk.entries == (if s.disk.temps == {} then s.disk.entries else [Current(s.disk)])
  {
  }

  // No temporary makes the next start synchronise the directory, unless one does;
  // and nothing truncates the journal.
  ghost predicate KilledSafely(s: Sys)
    requires s.disk.entries != []
  {
    (s.disk.temps != {} || SoleName(s.disk)) && Clean(Content(s.disk, Current(s.disk)))
  }

  // After a kill in any phase and a new start, an acknowledged mutation survives
  // every power loss exactly when the kill left a durable name, or a temporary,
  // and a terminated journal.
  lemma KillDurableIffSafe(c: Codec, s: Sys, tr: Trail, ev: Event)
    requires Lawful(c) && Inv(c, s, tr) && Current(s.disk).Some?
    ensures Can(c, Do(c, Do(c, s, Kill), Sweep), Open)
    ensures CanAppend(Reopened(c, s), ev) && |Records(Reopened(c, s).mem, ev)| > 0 ==>
      ((forall after :: !Lost(c, Performed(c, Reopened(c, s), ev), after)) <==> KilledSafely(s))
  {
    var to := KillCanReopen(c, s, tr);
    var r := Reopened(c, s);
    SafeIffKilledSafely(c, s);
    if CanAppend(r, ev) && |Records(r.mem, ev)| > 0 { AppendDurableIffSafe(c, r, to, ev); }
  }

  lemma SafeIffKilledSafely(c: Codec, s: Sys)
    requires s.disk.entries != [] && Can(c, Do(c, Do(c, s, Kill), Sweep), Open)
    ensures SafeToAppend(Reopened(c, s)) <==> KilledSafely(s)
  {
    ReopenedShape(c, s);
    assert Current(s.disk) in s.disk.entries;
  }

  // ---- What a new process finds and answers ----

  // Under every name that may be durable the synchronised bytes replay to these
  // maps, and the others hold no whole record.
  ghost predicate AlreadyDurable(c: Codec, d: Disk, m: Mem) {
    forall e | e in d.entries :: NameShows(c, d, e, m)
  }

  ghost predicate NameShows(c: Codec, d: Disk, e: Option<nat>, m: Mem) {
    match e
    case None => CanonMem(c, m) == EMPTY
    case Some(i) => i in d.files && Shows(c, d.files[i], m)
  }

  ghost predicate Shows(c: Codec, f: File, m: Mem) {
    && f.durable <= |f.data|
    && ReplayFile(c, f.data).Loaded? && ReplayFile(c, f.data[..f.durable]).Loaded?
    && ReplayFile(c, f.data[..f.durable]).mem == CanonMem(c, m)
    && ReplayFile(c, f.data[..f.durable]).records == ReplayFile(c, f.data).records
  }

  lemma ShownSurvives(c: Codec, f: File, g: File, base: Mem, rs: seq<Record>, seen: nat, m: Mem)
    requires Lawful(c) && Chain(c, base, rs) && Spans(c, f, base, rs, seen) && CutOf(f, g) && Shows(c, f, m)
    ensures ReplayFile(c, g.data).Loaded? && ReplayFile(c, g.data).mem == CanonMem(c, m)
  {
    var k: nat :| FileAt(c, f, base, rs, k) && k <= seen <= ReadTo(c, f, base, rs, k);
    FileRead(c, f, base, rs, k);
    FileCounts(c, f, base, rs, k);
    var j := CutFile(c, f, g, base, rs, k);
    UntouchedFile(g);
  }

  lemma SurvivesShown(c: Codec, f: File, base: Mem, rs: seq<Record>, seen: nat, m: Mem)
    requires Lawful(c) && Chain(c, base, rs) && Spans(c, f, base, rs, seen)
    requires forall n | f.durable <= n <= |f.data| :: CutShows(c, f, n, m)
    ensures Shows(c, f, m)
  {
    var k: nat :| FileAt(c, f, base, rs, k) && k <= seen <= ReadTo(c, f, base, rs, k);
    FileRead(c, f, base, rs, k);
    FileCounts(c, f, base, rs, k);
    assert CutShows(c, f, f.durable, m);
    if k < ReadTo(c, f, base, rs, k) { var n := CutsDiffer(c, f, base, rs, k, m); }
  }

  lemma CutsDiffer(c: Codec, f: File, base: Mem, rs: seq<Record>, k: nat, m: Mem) returns (n: nat)
    requires Lawful(c) && Chain(c, base, rs) && FileAt(c, f, base, rs, k) && k < ReadTo(c, f, base, rs, k)
    ensures f.durable <= n <= |f.data| && !(CutShows(c, f, f.durable, m) && CutShows(c, f, n, m))
  {
    FileRead(c, f, base, rs, k);
    n := OneMore(c, f, base, rs, k);
    assert Changes(c, base, rs, k);
  }

  ghost predicate CutShows(c: Codec, f: File, n: nat, m: Mem)
    requires n <= |f.data|
  {
    ReplayFile(c, f.data[..n]).Loaded? && ReplayFile(c, f.data[..n]).mem == CanonMem(c, m)
  }

  lemma DurableSurvives(c: Codec, r: Sys, to: Trail, after: Disk)
    requires Lawful(c) && Inv(c, r, to) && Unacknowledged(r).None?
    requires AlreadyDurable(c, r.disk, r.mem) && Survives(r.disk, after)
    ensures RecoversTo(c, after, r.mem)
  {
    var e := after.entries[0];
    assert NameShows(c, r.disk, e, r.mem);
    NothingLoose(r, to);
    assert EntryHolds(c, r.disk, e, to.base, to.lag, to.seen);
    if e.Some? {
      ShownSurvives(c, r.disk.files[e.value], after.files[e.value], to.base, to.lag, to.seen, r.mem);
    }
  }

  lemma SurvivorsShow(c: Codec, r: Sys, to: Trail, e: Option<nat>)
    requires Lawful(c) && Inv(c, r, to) && Unacknowledged(r).None? && e in r.disk.entries
    requires forall after | Survives(r.disk, after) :: RecoversTo(c, after, r.mem)
    ensures NameShows(c, r.disk, e, r.mem)
  {
    NothingLoose(r, to);
    assert EntryHolds(c, r.disk, e, to.base, to.lag, to.seen);
    if e.Some? {
      var f := r.disk.files[e.value];
      forall n | f.durable <= n <= |f.data| ensures CutShows(c, f, n, r.mem) {
        LossAtSurvives(r.disk, e, n);
        assert RecoversTo(c, LossAt(r.disk, e, n), r.mem);
      }
      SurvivesShown(c, f, to.base, to.lag, to.seen, r.mem);
    } else {
      LossAtSurvives(r.disk, e, 0);
      assert RecoversTo(c, LossAt(r.disk, e, 0), r.mem);
    }
  }

  // After a kill in any phase, what the next process loads, and so what it
  // answers to a known key without appending anything, survives every power loss
  // exactly when it was durable already.
  lemma VisibleDurableIff(c: Codec, s: Sys, tr: Trail)
    requires Lawful(c) && Inv(c, s, tr) && Current(s.disk).Some?
    ensures Can(c, Do(c, Do(c, s, Kill), Sweep), Open)
    ensures var r := Reopened(c, s);
      (forall after | Survives(r.disk, after) :: RecoversTo(c, after, r.mem)) <==> AlreadyDurable(c, r.disk, r.mem)
  {
    var to := KillCanReopen(c, s, tr);
    var r := Reopened(c, s);
    ReopenedShape(c, s);
    if AlreadyDurable(c, r.disk, r.mem) {
      forall after | Survives(r.disk, after) ensures RecoversTo(c, after, r.mem) { DurableSurvives(c, r, to, after); }
    }
    if forall after | Survives(r.disk, after) :: RecoversTo(c, after, r.mem) {
      forall e | e in r.disk.entries ensures NameShows(c, r.disk, e, r.mem) { SurvivorsShow(c, r, to, e); }
    }
  }
}
