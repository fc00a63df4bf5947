/** Every run of the machine, crashes and kills and all, is a run of the lifecycle. */
module Refinement {
  import opened Results
  import opened Text
  import opened Journal
  import opened JournalProofs
  import opened Events
  import opened EventProofs
  import opened Disks
  import opened Machine
  import opened Trails
  import opened MachineProofs
  import opened Recovery
  import opened Lifecycle

  // ---- Reading a machine run as a lifecycle run ----

  // A front part of the mutation without an answer was left by a crash.
  ghost predicate LeftBehind(s: Sys, j: nat, block: seq<Step>) {
    && Unacknowledged(s).Some? && Enabled(s.mem, Unacknowledged(s).value)
    && 0 < j <= |Records(s.mem, Unacknowledged(s).value)|
    && block == [Mutation(Part(Unacknowledged(s).value, j), false), Restart]
  }

  // What a step of the machine adds: an answer its mutation; a crash a restart,
  // perhaps after what it left of the mutation then without an answer; any other
  // step nothing.
  ghost predicate Adds(s: Sys, l: Label, block: seq<Step>)
    requires l.Ack? ==> s.phase.Synced?
  {
    if l.Ack? then block == [Mutation(s.phase.ev, true)]
    else if Crashing(l) then block == [Restart] || exists j: nat :: LeftBehind(s, j, block)
    else block == []
  }

  ghost predicate ReadAs(c: Codec, ls: seq<Label>, steps: seq<Step>)
    requires Runs(c, BLANK, ls)
    decreases |ls|
  {
    if ls == [] then steps == [] else
      exists n: nat :: n <= |steps| && LastAdds(c, ls, steps, n) && ReadAs(c, ls[..|ls| - 1], steps[..n])
  }

  ghost predicate LastAdds(c: Codec, ls: seq<Label>, steps: seq<Step>, n: nat)
    requires Runs(c, BLANK, ls) && ls != [] && n <= |steps|
  {
    Adds(Run(c, BLANK, ls[..|ls| - 1]), ls[|ls| - 1], steps[n..])
  }

  // A lifecycle run that the machine's run is read as, from state to state, and
  // that ends in the machine's maps.
  ghost predicate Explains(c: Codec, ls: seq<Label>, ms: seq<Mem>, steps: seq<Step>)
    requires Runs(c, BLANK, ls)
  {
    ReadAs(c, ls, steps) && History(c, ms, steps) && FreshIds(steps) && ms[|steps|] == Run(c, BLANK, ls).mem
  }

  ghost predicate Explained(c: Codec, ls: seq<Label>)
    requires Runs(c, BLANK, ls)
  {
    exists ms, steps :: Explains(c, ls, ms, steps)
  }

  lemma ReadOn(c: Codec, ls: seq<Label>, l: Label, steps: seq<Step>, block: seq<Step>)
    requires Runs(c, BLANK, ls) && Runs(c, BLANK, ls + [l]) && ReadAs(c, ls, steps)
    requires (l.Ack? ==> Run(c, BLANK, ls).phase.Synced?) && Adds(Run(c, BLANK, ls), l, block)
    ensures ReadAs(c, ls + [l], steps + block)
  {
    var more, all := ls + [l], steps + block;
    assert more[..|more| - 1] == ls && all[..|steps|] == steps && all[|steps|..] == block;
    assert LastAdds(c, more, all, |steps|);
  }

  // ---- What that says ----

  // The mutations whose callers were told of success, in order.
  ghost function Acknowledged(c: Codec, s: Sys, ls: seq<Label>): seq<Event>
    requires Runs(c, s, ls)
    decreases |ls|
  {
    if ls == [] then [] else
      var front := ls[..|ls| - 1];
      if ls[|ls| - 1].Ack? then Acknowledged(c, s, front) + [Run(c, s, front).phase.ev] else Acknowledged(c, s, front)
  }

  ghost function Crashes(ls: seq<Label>): nat {
    if ls == [] then 0 else Crashes(ls[..|ls| - 1]) + (if Crashing(ls[|ls| - 1]) then 1 else 0)
  }

  predicate IsLeft(st: Step) { st.Mutation? && !st.acknowledged }

  ghost function LeftCount(steps: seq<Step>): nat {
    if steps == [] then 0 else LeftCount(steps[..|steps| - 1]) + (if IsLeft(steps[|steps| - 1]) then 1 else 0)
  }

  lemma CountOn(steps: seq<Step>, st: Step)
    ensures LeftCount(steps + [st]) == LeftCount(steps) + (if IsLeft(st) then 1 else 0)
  {
    assert (steps + [st])[..|steps + [st]| - 1] == steps;
  }

  lemma TwoTell(front: seq<Step>, a: Step, b: Step)
    requires IsLeft(a) && b.Restart?
    ensures Told(front + [a, b]) == Told(front) && LeftCount(front + [a, b]) == LeftCount(front) + 1
  {
    assert front + [a, b] == front + [a] + [b];
    ExtendTold(front, a);
    ExtendTold(front + [a], b);
    CountOn(front, a);
    CountOn(front + [a], b);
  }

  lemma BlockTells(s: Sys, l: Label, front: seq<Step>, block: seq<Step>)
    requires (l.Ack? ==> s.phase.Synced?) && Adds(s, l, block)
    ensures Told(front + block) == if l.Ack? then Told(front) + [s.phase.ev] else Told(front)
    ensures LeftCount(front + block) <= LeftCount(front) + (if Crashing(l) then 1 else 0)
  {
    if block == [] {
      assert front + block == front;
    } else if |block| == 1 {
      ExtendTold(front, block[0]);
      CountOn(front, block[0]);
      assert block == [block[0]];
    } else {
      assert block == [block[0], block[1]];
      TwoTell(front, block[0], block[1]);
    }
  }

  lemma ReadLast(c: Codec, ls: seq<Label>, steps: seq<Step>) returns (front: seq<Step>, block: seq<Step>)
    requires Runs(c, BLANK, ls) && ReadAs(c, ls, steps) && ls != []
    ensures steps == front + block && ReadAs(c, ls[..|ls| - 1], front)
    ensures Adds(Run(c, BLANK, ls[..|ls| - 1]), ls[|ls| - 1], block)
  {
    var n: nat :| n <= |steps| && LastAdds(c, ls, steps, n) && ReadAs(c, ls[..|ls| - 1], steps[..n]);
    front, block := steps[..n], steps[n..];
  }

  // The callers are told exactly the same, and each crash leaves at most one
  // mutation without an answer behind.
  lemma {:induction false} ReadingTells(c: Codec, ls: seq<Label>, steps: seq<Step>)
    requires Runs(c, BLANK, ls) && ReadAs(c, ls, steps)
    ensures Told(steps) == Acknowledged(c, BLANK, ls) && LeftCount(steps) <= Crashes(ls)
    decreases |ls|
  {
    if ls != [] {
      var front, block := ReadLast(c, ls, steps);
      ReadingTells(c, ls[..|ls| - 1], front);
      BlockTells(Run(c, BLANK, ls[..|ls| - 1]), ls[|ls| - 1], front, block);
    }
  }

  // ---- Every run is explained ----

  predicate Asks(l: Label) { (l.Write? || l.WriteFails?) && l.ev.Create? }

  // The IDs the machine was asked to create.
  ghost function Asked(ls: seq<Label>): set<Bytes> {
    set n | 0 <= n < |ls| && Asks(ls[n]) :: ls[n].ev.d.id
  }

  ghost predicate FreshWrites(ls: seq<Label>) {
    forall i, j | 0 <= i < j < |ls| && Asks(ls[i]) && Asks(ls[j]) :: ls[i].ev.d.id != ls[j].ev.d.id
  }

  function AskedAfter(l: Label, asked: set<Bytes>): set<Bytes> {
    if Asks(l) then asked + {l.ev.d.id} else asked
  }

  lemma AskedGrows(front: seq<Label>, last: Label)
    requires FreshWrites(front + [last])
    ensures Asked(front + [last]) == AskedAfter(last, Asked(front))
    ensures Asks(last) ==> last.ev.d.id !in Asked(front)
    ensures FreshWrites(front)
  {
    var ls := front + [last];
    assert forall n | 0 <= n < |front| :: ls[n] == front[n];
    assert ls[|front|] == last;
    forall id ensures id in Asked(ls) <==> id in Asked(front) || (Asks(last) && id == last.ev.d.id) {
      if id in Asked(front) {
        var n :| 0 <= n < |front| && Asks(front[n]) && front[n].ev.d.id == id;
        assert Asks(ls[n]);
      }
    }
    if Asks(last) {
      assert forall n | 0 <= n < |front| && Asks(front[n]) :: Asks(ls[n]) && ls[n].ev.d.id != last.ev.d.id;
    }
  }

  function Underway(s: Sys): set<Bytes> {
    if Unacknowledged(s).Some? && Unacknowledged(s).value.Create? then {Unacknowledged(s).value.d.id} else {}
  }

  // The run up to here may turn out to have led to the maps m.
  ghost predicate Fits(c: Codec, ls: seq<Label>, ms: seq<Mem>, steps: seq<Step>, m: Mem)
    requires Runs(c, BLANK, ls)
  {
    && ReadAs(c, ls, steps) && History(c, ms, steps) && FreshIds(steps) && ms[|steps|] == m
    && Born(steps) + Underway(Run(c, BLANK, ls)) <= Asked(ls) && Born(steps) !! Underway(Run(c, BLANK, ls))
  }

  ghost predicate Possible(c: Codec, ls: seq<Label>, m: Mem)
    requires Runs(c, BLANK, ls)
  {
    exists ms, steps :: Fits(c, ls, ms, steps, m)
  }

  ghost predicate AllPossible(c: Codec, ls: seq<Label>, tr: Trail)
    requires Runs(c, BLANK, ls)
  {
    forall i: nat | i <= |tr.lag| :: PossibleAt(c, ls, tr, i)
  }

  ghost predicate PossibleAt(c: Codec, ls: seq<Label>, tr: Trail, i: nat)
    requires Runs(c, BLANK, ls) && i <= |tr.lag|
  {
    Possible(c, ls, At(tr.base, tr.lag, i))
  }

  // A block of steps, one or two, taken in the lifecycle.
  lemma TakeSteps(c: Codec, ms: seq<Mem>, steps: seq<Step>, st: Step) returns (ms': seq<Mem>)
    requires History(c, ms, steps) && StepEnabled(ms[|steps|], st) && FreshIds(steps)
    requires Creates(st) ==> st.ev.d.id !in Born(steps)
    ensures History(c, ms', steps + [st]) && ms'[|steps + [st]|] == Next(c, ms[|steps|], st)
    ensures FreshIds(steps + [st]) && Born(steps + [st]) == Born(steps) + (if Creates(st) then {st.ev.d.id} else {})
  {
    ExtendHistory(c, ms, steps, st);
    ExtendBirths(steps, st);
    ms' := ms + [Next(c, ms[|steps|], st)];
  }

  lemma AckPossible(c: Codec, ls: seq<Label>)
    requires Runs(c, BLANK, ls) && Runs(c, BLANK, ls + [Ack]) && Asked(ls + [Ack]) == Asked(ls)
    requires var s := Run(c, BLANK, ls);
      s.stray.None? && Can(c, s, Ack) && Run(c, BLANK, ls + [Ack]) == Do(c, s, Ack) && Possible(c, ls, s.mem)
    ensures Possible(c, ls + [Ack], Effect(Run(c, BLANK, ls).mem, Run(c, BLANK, ls).phase.ev))
  {
    var s := Run(c, BLANK, ls);
    var ms, steps :| Fits(c, ls, ms, steps, s.mem);
    var st := Mutation(s.phase.ev, true);
    var ms' := TakeSteps(c, ms, steps, st);
    ReadOn(c, ls, Ack, steps, [st]);
    assert Fits(c, ls + [Ack], ms', steps + [st], Effect(s.mem, s.phase.ev));
  }

  // A crash loses what was not synchronised after m.
  lemma LossPossible(c: Codec, ls: seq<Label>, l: Label, m: Mem)
    requires Runs(c, BLANK, ls) && Runs(c, BLANK, ls + [l]) && Asked(ls + [l]) == Asked(ls) && Crashing(l)
    requires Unacknowledged(Run(c, BLANK, ls + [l])).None? && Possible(c, ls, m)
    ensures Possible(c, ls + [l], CanonMem(c, m))
  {
    var ms, steps :| Fits(c, ls, ms, steps, m);
    var ms' := TakeSteps(c, ms, steps, Restart);
    ReadOn(c, ls, l, steps, [Restart]);
    assert Fits(c, ls + [l], ms', steps + [Restart], CanonMem(c, m));
  }

  // Or leaves some of the mutation without an answer.
  lemma LeftPossible(c: Codec, ls: seq<Label>, l: Label, j: nat)
    requires Runs(c, BLANK, ls) && Runs(c, BLANK, ls + [l]) && Asked(ls + [l]) == Asked(ls) && Crashing(l)
    requires var s := Run(c, BLANK, ls);
      && Indexed(s.mem) && PendingEnabled(s)
      && Unacknowledged(Run(c, BLANK, ls + [l])).None? && Possible(c, ls, s.mem)
      && 0 < j <= |PendingRecords(s)|
    ensures Possible(c, ls + [l], CanonMem(c, At(Run(c, BLANK, ls).mem, PendingRecords(Run(c, BLANK, ls)), j)))
  {
    var s := Run(c, BLANK, ls);
    var ev := PartLeft(s, j);
    var ms, steps :| Fits(c, ls, ms, steps, s.mem);
    var ms' := TakeTwo(c, ms, steps, ev);
    var block := [Mutation(ev, false), Restart];
    ReadOn(c, ls, l, steps, block);
    assert Fits(c, ls + [l], ms', steps + block, CanonMem(c, Effect(s.mem, ev)));
  }

  lemma PartLeft(s: Sys, j: nat) returns (ev: Event)
    requires Indexed(s.mem) && PendingEnabled(s) && 0 < j <= |PendingRecords(s)|
    ensures Enabled(s.mem, ev) && Effect(s.mem, ev) == At(s.mem, PendingRecords(s), j)
    ensures ev.Create? ==> ev.d.id in Underway(s)
    ensures LeftBehind(s, j, [Mutation(ev, false), Restart])
  {
    ev := Part(Unacknowledged(s).value, j);
    PartialEffect(s.mem, Unacknowledged(s).value, j);
  }

  lemma TakeTwo(c: Codec, ms: seq<Mem>, steps: seq<Step>, ev: Event) returns (ms': seq<Mem>)
    requires History(c, ms, steps) && Enabled(ms[|steps|], ev) && FreshIds(steps)
    requires ev.Create? ==> ev.d.id !in Born(steps)
    ensures var more := steps + [Mutation(ev, false), Restart];
      && History(c, ms', more) && ms'[|more|] == CanonMem(c, Effect(ms[|steps|], ev))
      && FreshIds(more) && Born(more) == Born(steps) + (if ev.Create? then {ev.d.id} else {})
  {
    var st := Mutation(ev, false);
    ms' := TakeSteps(c, ms, steps, st);
    ms' := TakeSteps(c, ms', steps + [st], Restart);
    assert steps + [st] + [Restart] == steps + [st, Restart];
  }

  lemma LooseAt(s: Sys, tr: Trail, j: nat)
    requires PendingEnabled(s) && tr.seen <= |tr.lag| && s.mem == At(tr.base, tr.lag, tr.seen)
    requires (Unacknowledged(s).Some? ==> tr.seen == |tr.lag|) && j <= |Loose(s, tr)|
    ensures j <= |tr.lag| ==> At(tr.base, Loose(s, tr), j) == At(tr.base, tr.lag, j)
    ensures j > |tr.lag| ==> At(tr.base, Loose(s, tr), j) == At(s.mem, PendingRecords(s), j - |tr.lag|)
  {
    if j <= |tr.lag| { AtFront(tr.base, tr.lag, PendingRecords(s), j); }
    else { AtBack(tr.base, tr.lag, PendingRecords(s), j - |tr.lag|); }
  }

  lemma CrashPossible(c: Codec, ls: seq<Label>, l: Label, tr: Trail, j: nat)
    requires Runs(c, BLANK, ls) && Runs(c, BLANK, ls + [l]) && Asked(ls + [l]) == Asked(ls) && Crashing(l)
    requires var s := Run(c, BLANK, ls);
      && Indexed(s.mem) && PendingEnabled(s) && tr.seen <= |tr.lag| && s.mem == At(tr.base, tr.lag, tr.seen)
      && (Unacknowledged(s).Some? ==> tr.seen == |tr.lag|)
      && Unacknowledged(Run(c, BLANK, ls + [l])).None? && AllPossible(c, ls, tr)
      && j <= |Loose(s, tr)|
    ensures Possible(c, ls + [l], CanonMem(c, At(tr.base, Loose(Run(c, BLANK, ls), tr), j)))
  {
    LooseAt(Run(c, BLANK, ls), tr, j);
    if j <= |tr.lag| {
      assert PossibleAt(c, ls, tr, j);
      LossPossible(c, ls, l, At(tr.base, tr.lag, j));
    } else {
      assert PossibleAt(c, ls, tr, tr.seen);
      LeftPossible(c, ls, l, j - |tr.lag|);
    }
  }

  // The other steps owe no answer they did not owe.
  lemma QuietStep(c: Codec, s: Sys, l: Label)
    requires Can(c, s, l) && !l.Ack? && !Crashing(l)
    ensures Underway(Do(c, s, l)) <= Underway(s) + (if Asks(l) then {l.ev.d.id} else {})
    ensures l.Write? || l.WriteFails? ==> Underway(Do(c, s, l)) == if Asks(l) then {l.ev.d.id} else {}
  {
    if l.Write? || l.WriteFails? || l.Sync? || l.SyncFails? {
      AppendOwes(c, s, l);
    } else {
      assert Unacknowledged(Do(c, s, l)) == Unacknowledged(s) || Unacknowledged(Do(c, s, l)).None?;
    }
  }

  lemma AppendOwes(c: Codec, s: Sys, l: Label)
    requires Can(c, s, l) && (l.Write? || l.WriteFails? || l.Sync? || l.SyncFails?)
    ensures Unacknowledged(Do(c, s, l)) == if l.Write? || l.WriteFails? then Some(l.ev) else Unacknowledged(s)
  {
  }

  lemma QuietPossible(c: Codec, ls: seq<Label>, l: Label, m: Mem)
    requires Runs(c, BLANK, ls) && Runs(c, BLANK, ls + [l]) && !l.Ack? && !Crashing(l)
    requires var s := Run(c, BLANK, ls);
      Can(c, s, l) && Run(c, BLANK, ls + [l]) == Do(c, s, l) && Possible(c, ls, m)
    requires Asked(ls + [l]) == AskedAfter(l, Asked(ls)) && (Asks(l) ==> l.ev.d.id !in Asked(ls))
    ensures Possible(c, ls + [l], m)
  {
    var ms, steps :| Fits(c, ls, ms, steps, m);
    QuietStep(c, Run(c, BLANK, ls), l);
    ReadOn(c, ls, l, steps, []);
    assert steps + [] == steps;
    assert Fits(c, ls + [l], ms, steps, m);
  }

  lemma CrashedPossible(c: Codec, ls: seq<Label>, l: Label, tr: Trail, n: Mem)
    requires Runs(c, BLANK, ls) && Runs(c, BLANK, ls + [l]) && Asked(ls + [l]) == Asked(ls) && Crashing(l)
    requires var s := Run(c, BLANK, ls);
      && Indexed(s.mem) && PendingEnabled(s) && TrailFits(c, s, tr)
      && Unacknowledged(Run(c, BLANK, ls + [l])).None? && AllPossible(c, ls, tr)
      && CanonOfOne(c, tr.base, Loose(s, tr), n)
    ensures Possible(c, ls + [l], n)
  {
    var s := Run(c, BLANK, ls);
    var j: nat :| j <= |Loose(s, tr)| && n == CanonMem(c, At(tr.base, Loose(s, tr), j));
    CrashPossible(c, ls, l, tr, j);
  }

  lemma QuietlyPossible(c: Codec, ls: seq<Label>, l: Label, tr: Trail, n: Mem)
    requires Runs(c, BLANK, ls) && Runs(c, BLANK, ls + [l]) && !l.Ack? && !Crashing(l)
    requires var s := Run(c, BLANK, ls);
      && Can(c, s, l) && Run(c, BLANK, ls + [l]) == Do(c, s, l) && AllPossible(c, ls, tr)
      && OneOf(tr.base, tr.lag, n)
    requires Asked(ls + [l]) == AskedAfter(l, Asked(ls)) && (Asks(l) ==> l.ev.d.id !in Asked(ls))
    ensures Possible(c, ls + [l], n)
  {
    var j: nat :| j <= |tr.lag| && n == At(tr.base, tr.lag, j);
    assert PossibleAt(c, ls, tr, j);
    QuietPossible(c, ls, l, At(tr.base, tr.lag, j));
  }

  lemma CrashOwesNothing(c: Codec, s: Sys, l: Label)
    requires Can(c, s, l) && Crashing(l)
    ensures Unacknowledged(Do(c, s, l)).None?
  {
  }

  lemma StepPossible(c: Codec, ls: seq<Label>, l: Label, tr: Trail, to: Trail)
    requires Lawful(c) && Runs(c, BLANK, ls) && Runs(c, BLANK, ls + [l]) && FreshWrites(ls + [l])
    requires var s := Run(c, BLANK, ls);
      && Inv(c, s, tr) && Can(c, s, l) && Run(c, BLANK, ls + [l]) == Do(c, s, l)
      && AllPossible(c, ls, tr) && TrailMoves(c, s, l, tr, to)
    ensures AllPossible(c, ls + [l], to)
  {
    AskedGrows(ls, l);
    if Crashing(l) { CrashOwesNothing(c, Run(c, BLANK, ls), l); }
    if l.Ack? {
      assert PossibleAt(c, ls, tr, tr.seen);
      AckPossible(c, ls);
    }
    forall i: nat | i <= |to.lag| ensures PossibleAt(c, ls + [l], to, i) {
      if Crashing(l) { CrashedPossible(c, ls, l, tr, At(to.base, to.lag, i)); }
      else if !l.Ack? { QuietlyPossible(c, ls, l, tr, At(to.base, to.lag, i)); }
    }
  }

  lemma {:induction false} RunPossible(c: Codec, ls: seq<Label>) returns (tr: Trail)
    requires Lawful(c) && Runs(c, BLANK, ls) && SafeRun(c, BLANK, ls) && FreshWrites(ls)
    ensures Inv(c, Run(c, BLANK, ls), tr) && AllPossible(c, ls, tr)
    decreases |ls|
  {
    if ls == [] {
      tr := START;
      BlankInv(c);
      AtAll(EMPTY, []);
      assert Fits(c, ls, [EMPTY], [], EMPTY);
    } else {
      var front, last := ls[..|ls| - 1], ls[|ls| - 1];
      assert ls == front + [last];
      AskedGrows(front, last);
      var before := RunPossible(c, front);
      tr := StepKeeps(c, Run(c, BLANK, front), before, last);
      StepPossible(c, front, last, before, tr);
    }
  }

  // The maps are always what the acknowledged mutations make of them, in order,
  // with at most a front part of the one then without an answer at each crash:
  // nothing that was acknowledged is lost, and nothing else gets in.
  lemma RunIsExplained(c: Codec, ls: seq<Label>)
    requires Lawful(c) && Runs(c, BLANK, ls) && SafeRun(c, BLANK, ls) && FreshWrites(ls)
    ensures Explained(c, ls)
  {
    var tr := RunPossible(c, ls);
    assert PossibleAt(c, ls, tr, tr.seen);
    var ms, steps :| Fits(c, ls, ms, steps, Run(c, BLANK, ls).mem);
    assert Explains(c, ls, ms, steps);
  }

  // Power lost at any step of any such run leaves a journal that replays to maps
  // explained in the same way.
  lemma CrashRefinementFromBlank(c: Codec, ls: seq<Label>, after: Disk)
    requires Lawful(c) && Runs(c, BLANK, ls) && SafeRun(c, BLANK, ls) && FreshWrites(ls)
    requires Survives(Run(c, BLANK, ls).disk, after)
    ensures Runs(c, BLANK, ls + [PowerLoss(after)]) && Explained(c, ls + [PowerLoss(after)])
    ensures RecoversTo(c, after, Run(c, BLANK, ls + [PowerLoss(after)]).mem)
    ensures Acknowledged(c, BLANK, ls + [PowerLoss(after)]) == Acknowledged(c, BLANK, ls)
  {
    var l := PowerLoss(after);
    RunExtends(c, BLANK, ls, l);
    assert (ls + [l])[..|ls + [l]| - 1] == ls;
    CrashKeepsFresh(ls, l);
    RunIsExplained(c, ls + [l]);
    var tr := RunPossible(c, ls);
    var j := CrashSafe(c, Run(c, BLANK, ls), tr, after);
    CanonMemIdempotent(c, At(tr.base, Loose(Run(c, BLANK, ls), tr), j));
  }

  lemma CrashKeepsFresh(ls: seq<Label>, l: Label)
    requires FreshWrites(ls) && !Asks(l)
    ensures FreshWrites(ls + [l])
  {
    var more := ls + [l];
    assert forall n | 0 <= n < |ls| :: more[n] == ls[n];
  }
}
