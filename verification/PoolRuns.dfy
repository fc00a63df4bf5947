/** Every interleaving of a pool's workers with each other, the API, maintenance
    and restarts (internal/worker/worker.go:75-186). */
module PoolRuns {
  import opened Results
  import opened Text
  import opened Deliveries
  import opened Journal
  import opened Events
  import opened EventProofs
  import opened Selections
  import opened Lifecycle
  import opened Targets
  import opened Attempts

  // A worker waits for work, has claimed a delivery, has recorded what came of
  // it, or has returned.
  datatype Worker = Waiting | Holding(item: Delivery) | Reported(item: Delivery) | Stopped

  datatype Settings = Settings(perTarget: nat, lease: int, key: Bytes -> Bytes)

  // `stray` is the mutation whose append failed: persistence is then off.
  // `born` are the IDs handed out so far.
  datatype State = State(
    mem: Mem, stray: Option<Event>, workers: seq<Worker>, active: map<Bytes, nat>, born: set<Bytes>)

  // `saved` says whether the append of the move's mutation works.
  datatype Move =
    | Take(w: nat, now: int, saved: bool)                                  // claimDue
    | Report(w: nat, x: Exchange, next: int, now: int, saved: bool)        // deliver
    | Release(w: nat)                                                      // releaseTarget
    | Stop(w: nat)
    | Serve(ev: Event, saved: bool)                                        // the API and maintenance
    | Repair                                                               // a compaction
    | Reboot(part: Option<nat>)             // how much of the stray mutation survives

  predicate Busy(w: Worker) { w.Holding? || w.Reported? }

  // ---- Moves ----

  ghost function NextUp(g: Settings, s: State, now: int): Option<Delivery> {
    Head(s.mem, now, Room(s.active, g.perTarget, g.key))
  }

  predicate AtWork(s: State, w: nat) { w < |s.workers| }

  ghost predicate CanMove(g: Settings, s: State, mv: Move) {
    match mv
    case Take(w, _, saved) => AtWork(s, w) && s.workers[w].Waiting? && (saved ==> s.stray.None?)
    case Report(w, _, _, _, saved) => AtWork(s, w) && s.workers[w].Holding? && (saved ==> s.stray.None?)
    case Release(w) => AtWork(s, w) && s.workers[w].Reported?
    case Stop(w) => AtWork(s, w) && s.workers[w].Waiting?
    case Serve(ev, saved) =>
      && !ev.Claim? && !ev.Succeed? && !ev.Fail? && Enabled(s.mem, ev)
      && (saved ==> s.stray.None?) && (ev.Create? ==> ev.d.id !in s.born)
    case Repair => true
    case Reboot(part) => Leaves(s, part)
  }

  // The first records of the stray mutation, at least one, or none at all.
  ghost predicate Leaves(s: State, part: Option<nat>) {
    part.Some? ==> s.stray.Some? && Enabled(s.mem, s.stray.value) && 0 < part.value <= |Records(s.mem, s.stray.value)|
  }

  ghost function Mutated(s: State, ev: Event, saved: bool): State
    requires Enabled(s.mem, ev)
  {
    if saved then s.(mem := Effect(s.mem, ev))
    else if s.stray.None? then s.(stray := Some(ev))
    else s
  }

  ghost function Taken(g: Settings, s: State, w: nat, now: int, saved: bool): State
    requires AtWork(s, w)
  {
    var d := NextUp(g, s, now);
    if d.None? || !Enabled(s.mem, Claim(d.value.id, now, g.lease)) then s
    else
      var t := Mutated(s, Claim(d.value.id, now, g.lease), saved);
      if !saved then t
      else t.(workers := s.workers[w := Holding(Claimed(d.value, now, g.lease))],
              active := Raised(s.active, g.key(d.value.url)))
  }

  ghost function ReportedBy(s: State, w: nat, x: Exchange, next: int, now: int, saved: bool): State
    requires AtWork(s, w) && s.workers[w].Holding?
  {
    var d := s.workers[w].item;
    var ev := Verdict(d, x, next, now);
    var t := if Enabled(s.mem, ev) then Mutated(s, ev, saved) else s;
    t.(workers := s.workers[w := Reported(d)])
  }

  ghost function Rebooted(c: Codec, s: State, part: Option<nat>): State
    requires Leaves(s, part)
  {
    var m := if part.Some? then ApplyAll(s.mem, Records(s.mem, s.stray.value)[..part.value]) else s.mem;
    State(CanonMem(c, m), None, Idlers(|s.workers|), map[], s.born)
  }

  function Idlers(n: nat): seq<Worker> { seq(n, i => Waiting) }

  ghost function Moved(c: Codec, g: Settings, s: State, mv: Move): State
    requires CanMove(g, s, mv)
  {
    match mv
    case Take(w, now, saved) => Taken(g, s, w, now, saved)
    case Report(w, x, next, now, saved) => ReportedBy(s, w, x, next, now, saved)
    case Release(w) =>
      var d := s.workers[w].item;
      s.(workers := s.workers[w := Waiting], active := Lowered(s.active, g.key(d.url)))
    case Stop(w) => s.(workers := s.workers[w := Stopped])
    case Serve(ev, saved) =>
      Mutated(s.(born := if ev.Create? then s.born + {ev.d.id} else s.born), ev, saved)
    case Repair => s.(stray := None)
    case Reboot(part) => Rebooted(c, s, part)
  }

  function Begin(n: nat): State { State(EMPTY, None, Idlers(n), map[], {}) }

  // The state after the moves, if each of them can be made in turn.
  ghost function Played(c: Codec, g: Settings, n: nat, mvs: seq<Move>): Option<State>
    decreases |mvs|
  {
    if mvs == [] then Some(Begin(n)) else
      var front, last := Played(c, g, n, mvs[..|mvs| - 1]), mvs[|mvs| - 1];
      if front.Some? && CanMove(g, front.value, last) then Some(Moved(c, g, front.value, last)) else None
  }

  // The lifecycle steps that a move takes: its mutation, if that was saved; for a
  // reboot what is left of the stray one, and a restart.
  ghost function MoveSteps(g: Settings, s: State, mv: Move): seq<Step>
    requires CanMove(g, s, mv)
  {
    match mv
    case Take(w, now, saved) =>
      var d := NextUp(g, s, now);
      if saved && d.Some? && Enabled(s.mem, Claim(d.value.id, now, g.lease))
      then [Mutation(Claim(d.value.id, now, g.lease), true)] else []
    case Report(w, x, next, now, saved) =>
      var ev := Verdict(s.workers[w].item, x, next, now);
      if saved && Enabled(s.mem, ev) then [Mutation(ev, true)] else []
    case Serve(ev, saved) => if saved then [Mutation(ev, true)] else []
    case Reboot(part) =>
      (if part.Some? then [Mutation(Part(s.stray.value, part.value), false)] else []) + [Step.Restart]
    case _ => []
  }

  // The lifecycle steps of a run, in the order of its moves.
  ghost function StepsOf(c: Codec, g: Settings, n: nat, mvs: seq<Move>): seq<Step>
    requires Played(c, g, n, mvs).Some?
    decreases |mvs|
  {
    if mvs == [] then [] else
      var front, last := mvs[..|mvs| - 1], mvs[|mvs| - 1];
      StepsOf(c, g, n, front) + MoveSteps(g, Played(c, g, n, front).value, last)
  }

  // ---- The targets in use ----

  predicate Holds(key: Bytes -> Bytes, w: Worker, k: Bytes) { Busy(w) && key(w.item.url) == k }

  // The workers with a delivery for origin k in hand.
  ghost function Holders(key: Bytes -> Bytes, ws: seq<Worker>, k: Bytes): set<nat> {
    set w: nat | w < |ws| && Holds(key, ws[w], k)
  }

  lemma HoldersSplit(key: Bytes -> Bytes, ws: seq<Worker>, w: nat, k: Bytes)
    requires w < |ws|
    ensures |Holders(key, ws, k)| == |Holders(key, ws, k) - {w}| + (if Holds(key, ws[w], k) then 1 else 0)
  {
    if Holds(key, ws[w], k) {
      assert Holders(key, ws, k) == (Holders(key, ws, k) - {w}) + {w};
    } else {
      assert Holders(key, ws, k) - {w} == Holders(key, ws, k);
    }
  }

  lemma HoldersAfter(key: Bytes -> Bytes, ws: seq<Worker>, w: nat, x: Worker, k: Bytes)
    requires w < |ws|
    ensures |Holders(key, ws[w := x], k)|
      == |Holders(key, ws, k)| - (if Holds(key, ws[w], k) then 1 else 0) + (if Holds(key, x, k) then 1 else 0)
  {
    HoldersSplit(key, ws, w, k);
    HoldersSplit(key, ws[w := x], w, k);
    assert Holders(key, ws[w := x], k) - {w} == Holders(key, ws, k) - {w};
  }

  // The counts are those of the holders, none of them above the limit.
  ghost predicate Counted(g: Settings, s: State) {
    && NoZeros(s.active)
    && forall k :: Load(s.active, k) == |Holders(g.key, s.workers, k)| <= g.perTarget
  }

  lemma IdlersHoldNothing(g: Settings, n: nat)
    ensures forall k :: Holders(g.key, Idlers(n), k) == {}
  {
  }

  lemma MoveCounts(c: Codec, g: Settings, s: State, mv: Move)
    requires Counted(g, s) && CanMove(g, s, mv)
    ensures Counted(g, Moved(c, g, s, mv)) && |Moved(c, g, s, mv).workers| == |s.workers|
  {
    match mv
    case Take(w, now, saved) => TakeCounts(g, s, w, now, saved);
    case Report(w, x, next, now, saved) => SwapCounts(g, s, Moved(c, g, s, mv), w, Reported(s.workers[w].item));
    case Release(w) => ReleaseCounts(c, g, s, w);
    case Stop(w) => SwapCounts(g, s, Moved(c, g, s, mv), w, Stopped);
    case Serve(_, _) =>
    case Repair =>
    case Reboot(_) => IdlersHoldNothing(g, |s.workers|);
  }

  // A worker moves on with the same origin, or none, in hand.
  lemma SwapCounts(g: Settings, s: State, t: State, w: nat, x: Worker)
    requires Counted(g, s) && AtWork(s, w) && t.active == s.active && t.workers == s.workers[w := x]
    requires forall k :: Holds(g.key, s.workers[w], k) <==> Holds(g.key, x, k)
    ensures Counted(g, t)
  {
    forall k ensures Load(t.active, k) == |Holders(g.key, t.workers, k)| <= g.perTarget {
      HoldersAfter(g.key, s.workers, w, x, k);
      assert Load(s.active, k) == |Holders(g.key, s.workers, k)| <= g.perTarget;
    }
  }

  lemma ReleaseCounts(c: Codec, g: Settings, s: State, w: nat)
    requires Counted(g, s) && AtWork(s, w) && s.workers[w].Reported?
    ensures Counted(g, Moved(c, g, s, Release(w)))
  {
    var t := Moved(c, g, s, Release(w));
    forall k ensures Load(t.active, k) == |Holders(g.key, t.workers, k)| <= g.perTarget {
      HoldersAfter(g.key, s.workers, w, Waiting, k);
      assert Load(s.active, k) == |Holders(g.key, s.workers, k)| <= g.perTarget;
    }
  }

  lemma TakeCounts(g: Settings, s: State, w: nat, now: int, saved: bool)
    requires Counted(g, s) && AtWork(s, w) && s.workers[w].Waiting?
    ensures Counted(g, Taken(g, s, w, now, saved)) && |Taken(g, s, w, now, saved).workers| == |s.workers|
  {
    var t := Taken(g, s, w, now, saved);
    if NextUp(g, s, now).Some? && t.workers != s.workers {
      var d := NextUp(g, s, now).value;
      HeadIsDue(s.mem, now, Room(s.active, g.perTarget, g.key));
      forall k ensures Load(t.active, k) == |Holders(g.key, t.workers, k)| <= g.perTarget {
        HoldersAfter(g.key, s.workers, w, Holding(Claimed(d, now, g.lease)), k);
        assert Load(s.active, k) == |Holders(g.key, s.workers, k)| <= g.perTarget;
      }
    }
  }

  lemma {:induction false} RunCounts(c: Codec, g: Settings, n: nat, mvs: seq<Move>)
    requires Played(c, g, n, mvs).Some?
    ensures Counted(g, Played(c, g, n, mvs).value) && |Played(c, g, n, mvs).value.workers| == n
    decreases |mvs|
  {
    if mvs == [] {
      IdlersHoldNothing(g, n);
    } else {
      RunCounts(c, g, n, mvs[..|mvs| - 1]);
      MoveCounts(c, g, Played(c, g, n, mvs[..|mvs| - 1]).value, mvs[|mvs| - 1]);
    }
  }

  ghost function Total(active: map<Bytes, nat>): nat {
    if active == map[] then 0 else
      var k :| k in active;
      active[k] + Total(active - {k})
  }

  ghost function BusyFor(key: Bytes -> Bytes, ws: seq<Worker>, targets: set<Bytes>): set<nat> {
    set w: nat | w < |ws| && Busy(ws[w]) && key(ws[w].item.url) in targets
  }

  lemma BusySplit(key: Bytes -> Bytes, ws: seq<Worker>, targets: set<Bytes>, k: Bytes)
    requires k in targets
    ensures |BusyFor(key, ws, targets)| == |Holders(key, ws, k)| + |BusyFor(key, ws, targets - {k})|
  {
    var rest := BusyFor(key, ws, targets - {k});
    assert BusyFor(key, ws, targets) == Holders(key, ws, k) + rest;
    assert Holders(key, ws, k) !! rest;
  }

  // Adding up the counts counts the busy workers once each.
  lemma {:induction false} TotalIsBusy(key: Bytes -> Bytes, active: map<Bytes, nat>, ws: seq<Worker>)
    requires forall k | k in active :: active[k] == |Holders(key, ws, k)|
    ensures Total(active) == |BusyFor(key, ws, active.Keys)|
    decreases |active|
  {
    if active != map[] {
      var k :| k in active && Total(active) == active[k] + Total(active - {k});
      TotalIsBusy(key, active - {k}, ws);
      assert (active - {k}).Keys == active.Keys - {k};
      BusySplit(key, ws, active.Keys, k);
    } else {
      assert BusyFor(key, ws, {}) == {};
    }
  }

  lemma {:induction false} BelowCount(s: set<nat>, n: nat)
    requires forall w | w in s :: w < n
    ensures |s| <= n
  {
    if n > 0 { BelowCount(s - {n - 1}, n - 1); } else { assert s == {}; }
  }

  // In every run: each origin's count is the number of workers that hold a
  // delivery for it, within the limit; none is zero; together they are at most
  // the workers; and none is left once no worker holds a delivery.
  lemma PoolIsConserved(c: Codec, g: Settings, n: nat, mvs: seq<Move>)
    requires Played(c, g, n, mvs).Some?
    ensures var s := Played(c, g, n, mvs).value;
      && (forall k :: Load(s.active, k) == |Holders(g.key, s.workers, k)| <= g.perTarget)
      && NoZeros(s.active) && Total(s.active) <= n
      && ((forall w | 0 <= w < |s.workers| :: !Busy(s.workers[w])) ==> s.active == map[])
  {
    RunCounts(c, g, n, mvs);
    var s := Played(c, g, n, mvs).value;
    assert forall k | k in s.active :: Load(s.active, k) == |Holders(g.key, s.workers, k)|;
    TotalIsBusy(g.key, s.active, s.workers);
    BelowCount(BusyFor(g.key, s.workers, s.active.Keys), n);
    if forall w | 0 <= w < |s.workers| :: !Busy(s.workers[w]) {
      assert forall k :: Holders(g.key, s.workers, k) == {};
      assert forall k | k in s.active :: Load(s.active, k) != 0;
      assert s.active.Keys == {};
    }
  }

  // ---- Pool runs are lifecycle runs ----

  // What the workers' code ensures of a mutation.
  ghost predicate ByTheRules(g: Settings, m: Mem, ev: Event) {
    && (ev.Claim? ==> ev.lease == g.lease)
    && (ev.Fail? && !ev.terminal ==> ev.id in m.items && ev.attempt < m.items[ev.id].maxAttempts)
  }

  predicate LeasesAre(lease: int, steps: seq<Step>) {
    forall k | 0 <= k < |steps| && steps[k].Mutation? && steps[k].ev.Claim? :: steps[k].ev.lease == lease
  }

  // A lifecycle run by the rules that ends in the pool's maps.
  ghost predicate Follows(c: Codec, g: Settings, s: State, ms: seq<Mem>, steps: seq<Step>) {
    && History(c, ms, steps) && ms[|steps|] == s.mem
    && FreshIds(steps) && Born(steps) <= s.born
    && (s.stray.Some? && s.stray.value.Create? ==> s.stray.value.d.id !in Born(steps))
    && WorkersKeepBudget(ms, steps) && LeasesAre(g.lease, steps)
  }

  ghost predicate Lawfully(g: Settings, s: State) {
    && Consistent(s.mem) && s.mem.items.Keys <= s.born
    && (forall w | 0 <= w < |s.workers| && Busy(s.workers[w]) :: Matches(s, s.workers[w].item))
    && (s.stray.Some? ==>
          && Enabled(s.mem, s.stray.value) && ByTheRules(g, s.mem, s.stray.value)
          && (s.stray.value.Create? ==> s.stray.value.d.id in s.born))
  }

  // A held copy has the budget of the delivery it was copied from.
  ghost predicate Matches(s: State, item: Delivery) {
    item.id in s.born && (item.id in s.mem.items ==> s.mem.items[item.id].maxAttempts == item.maxAttempts)
  }

  lemma VerdictByTheRules(g: Settings, s: State, item: Delivery, x: Exchange, next: int, now: int)
    requires Matches(s, item) && Enabled(s.mem, Verdict(item, x, next, now))
    ensures ByTheRules(g, s.mem, Verdict(item, x, next, now))
  {
  }

  lemma MutationLawful(c: Codec, g: Settings, s: State, ev: Event, saved: bool)
    requires Lawfully(g, s) && Enabled(s.mem, ev) && ByTheRules(g, s.mem, ev)
    requires saved ==> s.stray.None?
    requires ev.Create? ==>
      ev.d.id in s.born && forall w | 0 <= w < |s.workers| && Busy(s.workers[w]) :: s.workers[w].item.id != ev.d.id
    ensures Lawfully(g, Mutated(s, ev, saved))
  {
    if saved {
      EffectConsistent(s.mem, ev);
      var t := Mutated(s, ev, saved);
      forall id | id in t.mem.items ensures id in s.born { KeptBudget(c, s.mem, ev, id); }
      forall w | 0 <= w < |s.workers| && Busy(s.workers[w]) ensures Matches(t, s.workers[w].item) {
        KeptBudget(c, s.mem, ev, s.workers[w].item.id);
      }
    }
  }

  lemma KeptBudget(c: Codec, m: Mem, ev: Event, id: Bytes)
    requires Consistent(m) && Enabled(m, ev)
    ensures id in Effect(m, ev).items ==> id in m.items || (ev.Create? && ev.d.id == id)
    ensures id in Effect(m, ev).items && id in m.items ==> Effect(m, ev).items[id].maxAttempts == m.items[id].maxAttempts
  {
    var st := Mutation(ev, true);
    if On(st, id) { StepTouch(c, m, st, id); } else { StepFrame(c, m, st, id); }
  }

  lemma CanonLawful(c: Codec, g: Settings, s: State, m: Mem)
    requires Consistent(m) && m.items.Keys <= s.born
    ensures Lawfully(g, State(CanonMem(c, m), None, Idlers(|s.workers|), map[], s.born))
  {
    CanonConsistent(c, m);
  }

  // One more step of the run, on the lifecycle side.
  lemma ExtendRules(c: Codec, g: Settings, ms: seq<Mem>, steps: seq<Step>, st: Step) returns (ms': seq<Mem>)
    requires History(c, ms, steps) && StepEnabled(ms[|steps|], st) && FreshIds(steps)
    requires WorkersKeepBudget(ms, steps) && LeasesAre(g.lease, steps)
    requires Creates(st) ==> st.ev.d.id !in Born(steps)
    requires st.Mutation? ==> ByTheRules(g, ms[|steps|], st.ev)
    ensures History(c, ms', steps + [st]) && ms'[|steps + [st]|] == Next(c, ms[|steps|], st) && FreshIds(steps + [st])
    ensures WorkersKeepBudget(ms', steps + [st]) && LeasesAre(g.lease, steps + [st])
    ensures Born(steps + [st]) == Born(steps) + (if Creates(st) then {st.ev.d.id} else {})
  {
    ExtendHistory(c, ms, steps, st);
    ExtendBirths(steps, st);
    ms' := ms + [Next(c, ms[|steps|], st)];
  }

  // A mutation by the rules, saved or not, is followed.
  lemma MutationFollows(c: Codec, g: Settings, s: State, ev: Event, saved: bool, ms: seq<Mem>, steps: seq<Step>)
      returns (ms': seq<Mem>)
    requires Follows(c, g, s, ms, steps) && Enabled(s.mem, ev) && ByTheRules(g, s.mem, ev)
    requires saved ==> s.stray.None?
    requires ev.Create? ==> ev.d.id in s.born && ev.d.id !in Born(steps)
    ensures Follows(c, g, Mutated(s, ev, saved), ms', steps + (if saved then [Mutation(ev, true)] else []))
  {
    ms' := ms;
    if saved { ms' := ExtendRules(c, g, ms, steps, Mutation(ev, true)); }
    else { assert steps + [] == steps; }
  }

  lemma LeftFollows(c: Codec, g: Settings, ms: seq<Mem>, steps: seq<Step>, ev: Event) returns (ms': seq<Mem>)
    requires History(c, ms, steps) && Enabled(ms[|steps|], ev) && FreshIds(steps)
    requires WorkersKeepBudget(ms, steps) && LeasesAre(g.lease, steps) && ByTheRules(g, ms[|steps|], ev)
    requires ev.Create? ==> ev.d.id !in Born(steps)
    ensures var more := steps + ([Mutation(ev, false)] + [Step.Restart]);
      && History(c, ms', more) && ms'[|more|] == CanonMem(c, Effect(ms[|steps|], ev)) && FreshIds(more)
      && WorkersKeepBudget(ms', more) && LeasesAre(g.lease, more)
      && Born(more) == Born(steps) + (if ev.Create? then {ev.d.id} else {})
  {
    ms' := ExtendRules(c, g, ms, steps, Mutation(ev, false));
    ms' := ExtendRules(c, g, ms', steps + [Mutation(ev, false)], Step.Restart);
    assert steps + [Mutation(ev, false)] + [Step.Restart] == steps + ([Mutation(ev, false)] + [Step.Restart]);
  }

  // A reboot: what is left of the stray mutation, and the canonical form.
  lemma RebootFollows(c: Codec, g: Settings, s: State, part: Option<nat>, ms: seq<Mem>, steps: seq<Step>)
      returns (ms': seq<Mem>)
    requires Follows(c, g, s, ms, steps) && Lawfully(g, s) && Leaves(s, part)
    ensures Follows(c, g, Rebooted(c, s, part), ms', steps + MoveSteps(g, s, Reboot(part)))
    ensures Lawfully(g, Rebooted(c, s, part))
  {
    if part.Some? {
      var ev := Part(s.stray.value, part.value);
      PartLawful(c, g, s, part.value);
      CanonLawful(c, g, s, Effect(s.mem, ev));
      ms' := LeftFollows(c, g, ms, steps, ev);
    } else {
      ms' := ExtendRules(c, g, ms, steps, Step.Restart);
      CanonLawful(c, g, s, s.mem);
    }
  }

  lemma PartLawful(c: Codec, g: Settings, s: State, j: nat)
    requires Lawfully(g, s) && s.stray.Some? && 0 < j <= |Records(s.mem, s.stray.value)|
    ensures var ev := Part(s.stray.value, j);
      && Enabled(s.mem, ev) && Consistent(Effect(s.mem, ev)) && Effect(s.mem, ev).items.Keys <= s.born
      && Effect(s.mem, ev) == ApplyAll(s.mem, Records(s.mem, s.stray.value)[..j])
      && ByTheRules(g, s.mem, ev) && (ev.Create? ==> ev == s.stray.value)
  {
    var ev := Part(s.stray.value, j);
    PartialEffect(s.mem, s.stray.value, j);
    EffectConsistent(s.mem, ev);
    forall id | id in Effect(s.mem, ev).items ensures id in s.born { KeptBudget(c, s.mem, ev, id); }
  }

  lemma TakeFollows(c: Codec, g: Settings, s: State, w: nat, now: int, saved: bool, ms: seq<Mem>, steps: seq<Step>)
      returns (ms': seq<Mem>)
    requires Follows(c, g, s, ms, steps) && Lawfully(g, s) && CanMove(g, s, Take(w, now, saved))
    ensures Follows(c, g, Taken(g, s, w, now, saved), ms', steps + MoveSteps(g, s, Take(w, now, saved)))
    ensures Lawfully(g, Taken(g, s, w, now, saved))
  {
    ms' := ms;
    var d := NextUp(g, s, now);
    if d.Some? {
      HeadIsDue(s.mem, now, Room(s.active, g.perTarget, g.key));
      var ev := Claim(d.value.id, now, g.lease);
      MutationLawful(c, g, s, ev, saved);
      ms' := MutationFollows(c, g, s, ev, saved, ms, steps);
      TakenMatches(c, g, s, w, now, saved);
    } else {
      assert steps + [] == steps;
    }
  }

  lemma TakenMatches(c: Codec, g: Settings, s: State, w: nat, now: int, saved: bool)
    requires Lawfully(g, s) && AtWork(s, w) && s.workers[w].Waiting? && (saved ==> s.stray.None?)
    requires NextUp(g, s, now).Some? && Enabled(s.mem, Claim(NextUp(g, s, now).value.id, now, g.lease))
    requires Lawfully(g, Mutated(s, Claim(NextUp(g, s, now).value.id, now, g.lease), saved))
    ensures Lawfully(g, Taken(g, s, w, now, saved))
  {
    var d := NextUp(g, s, now).value;
    var ev := Claim(d.id, now, g.lease);
    HeadIsDue(s.mem, now, Room(s.active, g.perTarget, g.key));
    KeptBudget(c, s.mem, ev, d.id);
    var m, t := Mutated(s, ev, saved), Taken(g, s, w, now, saved);
    assert Matches(m, Claimed(d, now, g.lease));
    forall v | 0 <= v < |t.workers| && Busy(t.workers[v]) ensures Matches(t, t.workers[v].item) {
      if saved && v == w { } else { assert Matches(m, m.workers[v].item); }
    }
  }

  lemma ReportFollows(c: Codec, g: Settings, s: State, mv: Move, ms: seq<Mem>, steps: seq<Step>) returns (ms': seq<Mem>)
    requires Follows(c, g, s, ms, steps) && Lawfully(g, s) && CanMove(g, s, mv) && mv.Report?
    ensures Follows(c, g, Moved(c, g, s, mv), ms', steps + MoveSteps(g, s, mv)) && Lawfully(g, Moved(c, g, s, mv))
  {
    var d := s.workers[mv.w].item;
    var ev := Verdict(d, mv.x, mv.next, mv.now);
    var m := s;
    ms' := ms;
    if Enabled(s.mem, ev) {
      VerdictByTheRules(g, s, d, mv.x, mv.next, mv.now);
      MutationLawful(c, g, s, ev, mv.saved);
      ms' := MutationFollows(c, g, s, ev, mv.saved, ms, steps);
      m := Mutated(s, ev, mv.saved);
    } else {
      assert steps + [] == steps;
    }
    SameHands(g, m, mv.w, Reported(d));
  }

  lemma SameHands(g: Settings, s: State, w: nat, x: Worker)
    requires Lawfully(g, s) && AtWork(s, w) && (Busy(x) ==> Busy(s.workers[w]) && x.item == s.workers[w].item)
    ensures Lawfully(g, s.(workers := s.workers[w := x]))
  {
    var t := s.(workers := s.workers[w := x]);
    forall v | 0 <= v < |t.workers| && Busy(t.workers[v]) ensures Matches(t, t.workers[v].item) {
      assert Matches(s, s.workers[v].item);
    }
  }

  lemma ServeFollows(c: Codec, g: Settings, s: State, ev: Event, saved: bool, ms: seq<Mem>, steps: seq<Step>)
      returns (ms': seq<Mem>)
    requires Follows(c, g, s, ms, steps) && Lawfully(g, s) && CanMove(g, s, Serve(ev, saved))
    ensures Follows(c, g, Moved(c, g, s, Serve(ev, saved)), ms', steps + MoveSteps(g, s, Serve(ev, saved)))
    ensures Lawfully(g, Moved(c, g, s, Serve(ev, saved)))
  {
    var b := s.(born := if ev.Create? then s.born + {ev.d.id} else s.born);
    forall w | 0 <= w < |b.workers| && Busy(b.workers[w])
      ensures Matches(b, b.workers[w].item) && (ev.Create? ==> b.workers[w].item.id != ev.d.id)
    {
      assert Matches(s, s.workers[w].item);
    }
    assert Follows(c, g, b, ms, steps);
    MutationLawful(c, g, b, ev, saved);
    ms' := MutationFollows(c, g, b, ev, saved, ms, steps);
  }

  lemma HandsFollow(c: Codec, g: Settings, s: State, mv: Move, ms: seq<Mem>, steps: seq<Step>)
    requires Follows(c, g, s, ms, steps) && Lawfully(g, s) && CanMove(g, s, mv) && (mv.Release? || mv.Stop? || mv.Repair?)
    ensures Follows(c, g, Moved(c, g, s, mv), ms, steps + MoveSteps(g, s, mv)) && Lawfully(g, Moved(c, g, s, mv))
  {
    assert steps + [] == steps;
    if mv.Release? { SameHands(g, s, mv.w, Waiting); }
    if mv.Stop? { SameHands(g, s, mv.w, Stopped); }
  }

  lemma MoveFollows(c: Codec, g: Settings, s: State, mv: Move, ms: seq<Mem>, steps: seq<Step>) returns (ms': seq<Mem>)
    requires Follows(c, g, s, ms, steps) && Lawfully(g, s) && CanMove(g, s, mv)
    ensures Follows(c, g, Moved(c, g, s, mv), ms', steps + MoveSteps(g, s, mv)) && Lawfully(g, Moved(c, g, s, mv))
  {
    match mv
    case Take(w, now, saved) => ms' := TakeFollows(c, g, s, w, now, saved, ms, steps);
    case Report(_, _, _, _, _) => ms' := ReportFollows(c, g, s, mv, ms, steps);
    case Serve(ev, saved) => ms' := ServeFollows(c, g, s, ev, saved, ms, steps);
    case Reboot(part) => ms' := RebootFollows(c, g, s, part, ms, steps);
    case _ =>
      HandsFollow(c, g, s, mv, ms, steps);
      ms' := ms;
  }

  // However the workers, the API, maintenance and reboots interleave: the saved
  // mutations, in the order of the moves, and what reboots leave of stray ones are
  // a lifecycle run with fresh IDs that ends in the pool's maps, in which every
  // claim is for the configured lease and every retry has budget left.
  lemma {:induction false} PoolRunIsFollowed(c: Codec, g: Settings, n: nat, mvs: seq<Move>) returns (ms: seq<Mem>)
    requires Played(c, g, n, mvs).Some?
    ensures Follows(c, g, Played(c, g, n, mvs).value, ms, StepsOf(c, g, n, mvs))
    ensures Lawfully(g, Played(c, g, n, mvs).value)
    decreases |mvs|
  {
    if mvs == [] {
      ms := [EMPTY];
      assert Follows(c, g, Begin(n), ms, []);
    } else {
      var front := mvs[..|mvs| - 1];
      ms := PoolRunIsFollowed(c, g, n, front);
      ms := MoveFollows(c, g, Played(c, g, n, front).value, mvs[|mvs| - 1], ms, StepsOf(c, g, n, front));
    }
  }

  // So pending work always has attempts left.
  lemma PendingHasBudget(c: Codec, g: Settings, n: nat, mvs: seq<Move>, id: Bytes)
    requires Played(c, g, n, mvs).Some?
    requires id in Played(c, g, n, mvs).value.mem.items
    ensures var d := Played(c, g, n, mvs).value.mem.items[id];
      d.status.Pending? ==> d.attempts < d.maxAttempts
  {
    var ms := PoolRunIsFollowed(c, g, n, mvs);
    var steps := StepsOf(c, g, n, mvs);
    RetryBudget(c, ms, steps, |steps|, id);
  }

  // ---- Leases of a pool ----

  lemma {:induction false} PlayedFront(c: Codec, g: Settings, n: nat, mvs: seq<Move>, a: nat)
    requires Played(c, g, n, mvs).Some? && a <= |mvs|
    ensures Played(c, g, n, mvs[..a]).Some? && StepsOf(c, g, n, mvs[..a]) <= StepsOf(c, g, n, mvs)
    ensures a < |mvs| ==>
      CanMove(g, Played(c, g, n, mvs[..a]).value, mvs[a])
      && StepsOf(c, g, n, mvs[..a]) + MoveSteps(g, Played(c, g, n, mvs[..a]).value, mvs[a]) <= StepsOf(c, g, n, mvs)
    decreases |mvs|
  {
    if a == |mvs| {
      assert mvs[..a] == mvs;
    } else if a + 1 == |mvs| {
      assert mvs[..a] == mvs[..|mvs| - 1];
    } else {
      var front := mvs[..|mvs| - 1];
      assert front[..a] == mvs[..a] && front[a] == mvs[a];
      PlayedFront(c, g, n, front, a);
    }
  }

  // The maps of a history are those of its own front.
  lemma {:induction false} SameHistory(c: Codec, ms: seq<Mem>, steps: seq<Step>, ns: seq<Mem>, front: seq<Step>, k: nat)
    requires History(c, ms, steps) && History(c, ns, front) && front <= steps && k <= |front|
    ensures ms[k] == ns[k]
  {
    if k > 0 {
      SameHistory(c, ms, steps, ns, front, k - 1);
      assert front[k - 1] == steps[k - 1];
    }
  }

  // After the steps of its first a moves a run has the maps of its pool then.
  lemma MapsAt(c: Codec, g: Settings, n: nat, mvs: seq<Move>, a: nat, ms: seq<Mem>)
    requires Played(c, g, n, mvs).Some? && History(c, ms, StepsOf(c, g, n, mvs)) && a <= |mvs|
    ensures Played(c, g, n, mvs[..a]).Some? && |StepsOf(c, g, n, mvs[..a])| < |ms|
    ensures ms[|StepsOf(c, g, n, mvs[..a])|] == Played(c, g, n, mvs[..a]).value.mem
  {
    PlayedFront(c, g, n, mvs, a);
    var front := StepsOf(c, g, n, mvs[..a]);
    var ns := PoolRunIsFollowed(c, g, n, mvs[..a]);
    SameHistory(c, ms, StepsOf(c, g, n, mvs), ns, front, |front|);
  }

  // Move a claims a delivery; move b, by whoever holds that very copy, reports on
  // it and is accepted. Nothing touched the delivery in between exactly when it
  // was not retried, and then it is what the worker holds, up to a restart.
  lemma AcceptedReportIsCurrent(c: Codec, g: Settings, n: nat, mvs: seq<Move>, a: nat, b: nat)
    requires Played(c, g, n, mvs).Some? && a < b < |mvs| && mvs[a].Take? && mvs[b].Report?
    requires Played(c, g, n, mvs[..a]).Some? && Played(c, g, n, mvs[..b]).Some?
    requires var s := Played(c, g, n, mvs[..a]).value;
      && CanMove(g, s, mvs[a]) && |MoveSteps(g, s, mvs[a])| == 1
      && var t := Played(c, g, n, mvs[..b]).value;
        && CanMove(g, t, mvs[b]) && |MoveSteps(g, t, mvs[b])| == 1
        && t.workers[mvs[b].w].item == Claimed(NextUp(g, s, mvs[a].now).value, mvs[a].now, g.lease)
    ensures var steps, i, k := StepsOf(c, g, n, mvs), |StepsOf(c, g, n, mvs[..a])|, |StepsOf(c, g, n, mvs[..b])|;
      var id := NextUp(g, Played(c, g, n, mvs[..a]).value, mvs[a].now).value.id;
      var t := Played(c, g, n, mvs[..b]).value;
      && i < k < |steps| && Claims(steps[i], id) && Completes(steps[k], id)
      && (Untouched(steps, i + 1, k, id) <==> SameCycle(steps, i, k, id))
      && (SameCycle(steps, i, k, id) ==> id in t.mem.items && Core(t.mem.items[id]) == Core(t.workers[mvs[b].w].item))
  {
    var s := Played(c, g, n, mvs[..a]).value;
    var ms := PoolRunIsFollowed(c, g, n, mvs);
    var steps, i, k := StepsOf(c, g, n, mvs), |StepsOf(c, g, n, mvs[..a])|, |StepsOf(c, g, n, mvs[..b])|;
    FrontSteps(c, g, n, mvs, a, b);
    MapsAt(c, g, n, mvs, a, ms);
    MapsAt(c, g, n, mvs, b, ms);
    HeadIsDue(s.mem, mvs[a].now, Room(s.active, g.perTarget, g.key));
    var id := NextUp(g, s, mvs[a].now).value.id;
    ClaimTokenExists(c, ms, steps, i, id);
    AcceptedHolderIsCurrentIffSameCycle(c, ms, steps, i, k, id);
    if SameCycle(steps, i, k, id) { UntouchedStays(c, ms, steps, i + 1, k, id); }
  }

  lemma FrontSteps(c: Codec, g: Settings, n: nat, mvs: seq<Move>, a: nat, b: nat)
    requires Played(c, g, n, mvs).Some? && a < b < |mvs|
    requires Played(c, g, n, mvs[..a]).Some? && Played(c, g, n, mvs[..b]).Some?
    requires CanMove(g, Played(c, g, n, mvs[..a]).value, mvs[a]) && CanMove(g, Played(c, g, n, mvs[..b]).value, mvs[b])
    requires |MoveSteps(g, Played(c, g, n, mvs[..a]).value, mvs[a])| == 1
    requires |MoveSteps(g, Played(c, g, n, mvs[..b]).value, mvs[b])| == 1
    ensures var steps, i, k := StepsOf(c, g, n, mvs), |StepsOf(c, g, n, mvs[..a])|, |StepsOf(c, g, n, mvs[..b])|;
      && StepsOf(c, g, n, mvs[..a]) <= steps && i < k < |steps|
      && steps[i] == MoveSteps(g, Played(c, g, n, mvs[..a]).value, mvs[a])[0]
      && steps[k] == MoveSteps(g, Played(c, g, n, mvs[..b]).value, mvs[b])[0]
  {
    PlayedFront(c, g, n, mvs, a);
    PlayedFront(c, g, n, mvs, b);
    assert mvs[..b][..a] == mvs[..a] && mvs[..b][a] == mvs[a];
    PlayedFront(c, g, n, mvs[..b], a);
  }
}
