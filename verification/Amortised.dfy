/** What redundancy compactions cost over a run
    (internal/compactor/compactor.go:108-122, internal/store/store.go:587, 719-727). */
module Amortised {
  import opened Results
  import opened Text
  import opened Journal
  import opened JournalProofs
  import opened Events
  import opened EventProofs
  import opened Snapshots
  import opened Disks
  import opened Machine

  // A run between two starts, with its compactor: a look at the counts that
  // finds half the journal redundant, a compaction given up, or a step.
  datatype Entry = Look | GiveUp | Take(l: Label)

  // `written` are the records of the snapshots that redundancy compactions put in
  // place, `appended` those of mutations, `raced` those of mutations between a
  // look and the compaction it led to. `armed`: such a compaction is on its way.
  datatype Ledger = Ledger(s: Sys, written: nat, appended: nat, raced: nat, armed: bool)

  ghost predicate CanEnter(c: Codec, g: Ledger, e: Entry) {
    match e
    case Look => g.s.phase.Idle? && g.s.records / 2 >= |g.s.mem.items|
    case GiveUp => true
    case Take(l) => Serving(l) && Can(c, g.s, l)
  }

  ghost function Enter(c: Codec, g: Ledger, e: Entry): Ledger
    requires CanEnter(c, g, e)
  {
    match e
    case Look => g.(armed := true)
    case GiveUp => g.(armed := false)
    case Take(l) =>
      var t := Do(c, g.s, l);
      if l.Sync? then
        var n := |Records(g.s.mem, g.s.phase.ev)|;
        g.(s := t, appended := g.appended + n, raced := g.raced + if g.armed then n else 0)
      else if l.Adopt? || l.Halt? then
        g.(s := t, written := g.written + (if g.armed then t.records else 0), armed := false)
      else g.(s := t)
  }

  ghost function Kept(c: Codec, s: Sys, es: seq<Entry>): Option<Ledger>
    decreases |es|
  {
    if es == [] then Some(Ledger(s, 0, 0, 0, false)) else
      var front, last := Kept(c, s, es[..|es| - 1]), es[|es| - 1];
      if front.Some? && CanEnter(c, front.value, last) then Some(Enter(c, front.value, last)) else None
  }

  lemma KeptExtends(c: Codec, s: Sys, es: seq<Entry>, e: Entry)
    requires Kept(c, s, es).Some? && CanEnter(c, Kept(c, s, es).value, e)
    ensures Kept(c, s, es + [e]) == Some(Enter(c, Kept(c, s, es).value, e))
  {
    assert (es + [e])[..|es + [e]| - 1] == es;
  }

  // The live deliveries, counting those a synchronised append is about to show.
  ghost function LiveSoon(s: Sys): nat {
    |s.mem.items| + if s.phase.Synced? && Enabled(s.mem, s.phase.ev) then |Records(s.mem, s.phase.ev)| else 0
  }

  // A start finds at least one record for each live delivery.
  lemma OpenCountsCover(c: Codec, s: Sys)
    requires Can(c, s, Open)
    ensures LiveSoon(Do(c, s, Open)) <= Do(c, s, Open).records
  {
    ReplayCount(c, Content(s.disk, Current(s.disk)), EMPTY, 0);
  }

  ghost predicate Paid(g: Ledger, initial: nat) {
    && LiveSoon(g.s) <= g.s.records && g.raced <= g.appended
    && g.written + g.s.records <= initial + g.appended + g.raced
    && (g.armed ==> g.written + 2 * LiveSoon(g.s) <= initial + g.appended + g.raced)
  }

  lemma EntryIsPaid(c: Codec, g: Ledger, e: Entry, initial: nat)
    requires Paid(g, initial) && CanEnter(c, g, e)
    ensures Paid(Enter(c, g, e), initial)
  {
    if e.Take? {
      if e.l.Sync? || e.l.Ack? || e.l.Adopt? || e.l.Halt? { CountedStep(c, g.s, e.l); } else { OtherStep(c, g.s, e.l); }
    }
  }

  lemma CountedStep(c: Codec, s: Sys, l: Label)
    requires Can(c, s, l) && (l.Sync? || l.Ack? || l.Adopt? || l.Halt?)
    ensures l.Sync? ==>
      && LiveSoon(Do(c, s, l)) == LiveSoon(s) + |Records(s.mem, s.phase.ev)|
      && Do(c, s, l).records == s.records + |Records(s.mem, s.phase.ev)|
    ensures l.Ack? ==> LiveSoon(Do(c, s, l)) <= LiveSoon(s) && Do(c, s, l).records == s.records
    ensures l.Adopt? || l.Halt? ==> LiveSoon(Do(c, s, l)) == LiveSoon(s) == Do(c, s, l).records
  {
    if l.Ack? { ApplyAllCount(s.mem, Records(s.mem, s.phase.ev)); }
  }

  lemma OtherStep(c: Codec, s: Sys, l: Label)
    requires Can(c, s, l) && Serving(l) && !l.Sync? && !l.Ack? && !l.Adopt? && !l.Halt?
    ensures LiveSoon(Do(c, s, l)) == LiveSoon(s) && Do(c, s, l).records == s.records
  {
  }

  lemma {:induction false} RunIsPaid(c: Codec, s: Sys, es: seq<Entry>)
    requires Kept(c, s, es).Some? && LiveSoon(s) <= s.records
    ensures Paid(Kept(c, s, es).value, s.records)
    decreases |es|
  {
    if es != [] {
      RunIsPaid(c, s, es[..|es| - 1]);
      EntryIsPaid(c, Kept(c, s, es[..|es| - 1]).value, es[|es| - 1], s.records);
    }
  }

  // Each record redundancy compactions write is paid for by one appended, or by
  // two when it was appended between the look and the compaction.
  lemma RedundancyIsPaidFor(c: Codec, s: Sys, es: seq<Entry>)
    requires Kept(c, s, es).Some? && LiveSoon(s) <= s.records
    ensures var g := Kept(c, s, es).value;
      && g.written + g.s.records <= s.records + g.appended + g.raced
      && g.written + g.s.records <= s.records + 2 * g.appended
      && (g.raced == 0 ==> g.written + g.s.records <= s.records + g.appended)
  {
    RunIsPaid(c, s, es);
  }

  // ---- Exactly which compactions break the plain bound ----

  predicate Compacts(e: Entry) { e.Take? && (e.l.Adopt? || e.l.Halt?) }

  // The trigger as the compaction finds it when it puts the snapshot in place.
  ghost predicate StillRedundant(g: Ledger) { g.s.records / 2 >= |g.s.mem.items| }

  // A redundancy compaction writes more records than it removes exactly when the
  // trigger no longer holds.
  lemma CompactionCostsIff(c: Codec, g: Ledger, e: Entry)
    requires CanEnter(c, g, e) && Compacts(e) && g.armed
    ensures Enter(c, g, e).appended == g.appended
    ensures Enter(c, g, e).written + Enter(c, g, e).s.records > g.written + g.s.records <==> !StillRedundant(g)
  {
    CountedStep(c, g.s, e.l);
  }

  // No other entry does.
  lemma OthersCostNothing(c: Codec, g: Ledger, e: Entry)
    requires CanEnter(c, g, e) && LiveSoon(g.s) <= g.s.records && !(Compacts(e) && g.armed)
    ensures var h := Enter(c, g, e); h.written + h.s.records - h.appended <= g.written + g.s.records - g.appended
  {
    if e.Take? {
      if e.l.Sync? || e.l.Ack? || e.l.Adopt? || e.l.Halt? { CountedStep(c, g.s, e.l); } else { OtherStep(c, g.s, e.l); }
    }
  }

  // The trigger holds again whenever such a compaction puts its snapshot in place.
  ghost predicate AllRedundant(c: Codec, s: Sys, es: seq<Entry>)
    requires Kept(c, s, es).Some?
    decreases |es|
  {
    es == [] ||
    (var front, last := es[..|es| - 1], es[|es| - 1];
     AllRedundant(c, s, front) && (Compacts(last) && Kept(c, s, front).value.armed ==> StillRedundant(Kept(c, s, front).value)))
  }

  // In every such run the records these compactions write are paid for one by one.
  lemma {:induction false} PlainBound(c: Codec, s: Sys, es: seq<Entry>)
    requires Kept(c, s, es).Some? && LiveSoon(s) <= s.records && AllRedundant(c, s, es)
    ensures var g := Kept(c, s, es).value; g.written + g.s.records <= s.records + g.appended
    decreases |es|
  {
    if es != [] {
      var front, last := es[..|es| - 1], es[|es| - 1];
      PlainBound(c, s, front);
      RunIsPaid(c, s, front);
      var g := Kept(c, s, front).value;
      if Compacts(last) && g.armed { CompactionCostsIff(c, g, last); } else { OthersCostNothing(c, g, last); }
    }
  }

  // ---- The race is real ----

  ghost predicate Serves(s: Sys) { s.phase.Idle? && !s.failed && Attached(s) }

  // The journal has the records of the mutation, and the maps show it.
  ghost predicate AfterMutation(g: Ledger, h: Ledger, ev: Event)
    requires Enabled(g.s.mem, ev)
  {
    var n := |Records(g.s.mem, ev)|;
    && h.s.phase.Idle? && h.s.file == g.s.file && h.s.mem == Effect(g.s.mem, ev)
    && h.s.disk.files.Keys == g.s.disk.files.Keys && h.s.disk.entries == g.s.disk.entries
    && h.armed == g.armed && h.written == g.written && h.appended == g.appended + n
    && h.raced == g.raced + (if g.armed then n else 0)
  }

  lemma MutationEntries(c: Codec, g: Ledger, ev: Event)
    requires Serves(g.s) && Enabled(g.s.mem, ev)
    ensures CanEnter(c, g, Take(Write(ev)))
    ensures var w := Enter(c, g, Take(Write(ev)));
      && CanEnter(c, w, Take(Sync))
      && var y := Enter(c, w, Take(Sync));
        CanEnter(c, y, Take(Ack)) && AfterMutation(g, Enter(c, y, Take(Ack)), ev)
  {
  }

  lemma AppendEntries(c: Codec, s: Sys, es: seq<Entry>, ev: Event) returns (more: seq<Entry>)
    requires Kept(c, s, es).Some? && Serves(Kept(c, s, es).value.s) && Enabled(Kept(c, s, es).value.s.mem, ev)
    ensures Kept(c, s, more).Some? && AfterMutation(Kept(c, s, es).value, Kept(c, s, more).value, ev)
  {
    MutationEntries(c, Kept(c, s, es).value, ev);
    KeptExtends(c, s, es, Take(Write(ev)));
    KeptExtends(c, s, es + [Take(Write(ev))], Take(Sync));
    KeptExtends(c, s, es + [Take(Write(ev))] + [Take(Sync)], Take(Ack));
    more := es + [Take(Write(ev))] + [Take(Sync)] + [Take(Ack)];
  }

  // Only the machine has moved, and not its maps or its names.
  ghost predicate SameBooks(g: Ledger, h: Ledger) {
    h == g.(s := h.s) && h.s.mem == g.s.mem && h.s.disk.entries == g.s.disk.entries
  }

  ghost predicate DraftIs(s: Sys, t: nat, data: Bytes) {
    s.phase == Drafting(t) && t in s.disk.files && s.disk.files[t].data == data
  }

  lemma TempEntry(c: Codec, g: Ledger, t: nat)
    requires g.s.phase.Idle? && g.s.file.Some? && t !in g.s.disk.files
    ensures CanEnter(c, g, Take(CreateTemp(t)))
    ensures var h := Enter(c, g, Take(CreateTemp(t))); SameBooks(g, h) && DraftIs(h.s, t, "")
  {
  }

  lemma DraftEntry(c: Codec, g: Ledger, t: nat, lines: Bytes)
    requires DraftIs(g.s, t, "")
    ensures CanEnter(c, g, Take(Draft(lines)))
    ensures var h := Enter(c, g, Take(Draft(lines))); SameBooks(g, h) && DraftIs(h.s, t, lines)
  {
    assert "" + lines == lines;
  }

  lemma SealEntry(c: Codec, g: Ledger, t: nat)
    requires DraftIs(g.s, t, Lines(c, Snapshot(g.s.mem)))
    ensures CanEnter(c, g, Take(Seal))
    ensures var h := Enter(c, g, Take(Seal)); SameBooks(g, h) && h.s.phase == Sealed(t)
  {
    assert HasTemp(g.s) && Drafted(c, g.s);
    assert Do(c, g.s, Seal) == g.s.(disk := SyncFile(g.s.disk, t), phase := Sealed(t));
  }

  lemma DraftEntries(c: Codec, s: Sys, es: seq<Entry>, t: nat) returns (more: seq<Entry>)
    requires Kept(c, s, es).Some?
    requires var g := Kept(c, s, es).value; g.s.phase.Idle? && g.s.file.Some? && t !in g.s.disk.files
    ensures Kept(c, s, more).Some? && Kept(c, s, more).value.s.phase == Sealed(t)
    ensures SameBooks(Kept(c, s, es).value, Kept(c, s, more).value)
  {
    var g := Kept(c, s, es).value;
    var lines := Lines(c, Snapshot(g.s.mem));
    TempEntry(c, g, t);
    KeptExtends(c, s, es, Take(CreateTemp(t)));
    var made := es + [Take(CreateTemp(t))];
    DraftEntry(c, Kept(c, s, made).value, t, lines);
    KeptExtends(c, s, made, Take(Draft(lines)));
    var drafted := made + [Take(Draft(lines))];
    SealEntry(c, Kept(c, s, drafted).value, t);
    KeptExtends(c, s, drafted, Take(Seal));
    more := drafted + [Take(Seal)];
  }

  lemma AdoptEntries(c: Codec, s: Sys, es: seq<Entry>) returns (more: seq<Entry>)
    requires Kept(c, s, es).Some? && Kept(c, s, es).value.s.phase.Sealed?
    ensures Kept(c, s, more).Some?
    ensures var g, h := Kept(c, s, es).value, Kept(c, s, more).value;
      && h.s.records == |g.s.mem.items| && h.appended == g.appended && h.raced == g.raced
      && h.written == g.written + (if g.armed then |g.s.mem.items| else 0)
  {
    KeptExtends(c, s, es, Take(Rename));
    var named := es + [Take(Rename)];
    KeptExtends(c, s, named, Take(SyncDir));
    var anchored := named + [Take(SyncDir)];
    KeptExtends(c, s, anchored, Take(Adopt));
    more := anchored + [Take(Adopt)];
  }

  // A creation that gets in between the look and the compaction is written twice
  // over: the bound that leaves races out fails, and the one with them is met.
  lemma RaceCosts(c: Codec, s: Sys, ev: Event, t: nat) returns (es: seq<Entry>)
    requires Serves(s) && s.records == 2 * |s.mem.items| && t !in s.disk.files
    requires ev.Create? && Enabled(s.mem, ev)
    ensures Kept(c, s, es).Some?
    ensures var g := Kept(c, s, es).value;
      && g.written + g.s.records == s.records + g.appended + g.raced
      && g.written + g.s.records > s.records + g.appended
  {
    CreateAddsOne(s.mem, ev);
    KeptExtends(c, s, [], Look);
    var looked := Kept(c, s, [] + [Look]).value;
    assert looked == Ledger(s, 0, 0, 0, true);
    es := AppendEntries(c, s, [] + [Look], ev);
    var raced := Kept(c, s, es).value;
    assert raced.appended == raced.raced == 1 && raced.armed && |raced.s.mem.items| == |s.mem.items| + 1;
    es := DraftEntries(c, s, es, t);
    es := AdoptEntries(c, s, es);
  }

  lemma CreateAddsOne(m: Mem, ev: Event)
    requires ev.Create? && Enabled(m, ev)
    ensures |Records(m, ev)| == 1 && |Effect(m, ev).items| == |m.items| + 1
  {
    EffectOfPut(m, ev);
    assert Effect(m, ev).items.Keys == m.items.Keys + {ev.d.id};
  }
}
