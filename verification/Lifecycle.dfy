/** Whole runs of the store, seen from the maps: what no sequence of mutations
    and restarts can do (internal/store/store.go:160-353, 403-435, 527-564). */
module Lifecycle {
  import opened Text
  import opened Deliveries
  import opened Journal
  import opened Events
  import opened EventProofs

  // A mutation, told to its caller or not (one whose append failed may still
  // survive a crash), or a restart, which loads the canonical form of the maps.
  datatype Step = Mutation(ev: Event, acknowledged: bool) | Restart

  ghost predicate StepEnabled(m: Mem, st: Step) { st.Mutation? ==> Enabled(m, st.ev) }

  ghost function Next(c: Codec, m: Mem, st: Step): Mem
    requires StepEnabled(m, st)
  {
    if st.Mutation? then Effect(m, st.ev) else CanonMem(c, m)
  }

  // ms are the states of a run of the steps from an empty store.
  ghost predicate History(c: Codec, ms: seq<Mem>, steps: seq<Step>) {
    && |ms| == |steps| + 1 && ms[0] == EMPTY
    && (forall k | 0 <= k < |steps| :: StepEnabled(ms[k], steps[k]) && ms[k + 1] == Next(c, ms[k], steps[k]))
  }

  // newID never repeats.
  ghost predicate FreshIds(steps: seq<Step>) {
    forall i, j | 0 <= i < j < |steps| && Creates(steps[i]) && Creates(steps[j]) ::
      steps[i].ev.d.id != steps[j].ev.d.id
  }

  predicate Creates(st: Step) { st.Mutation? && st.ev.Create? }

  predicate On(st: Step, id: Bytes) { st.Mutation? && Touches(st.ev, id) }

  predicate Claims(st: Step, id: Bytes) { st.Mutation? && st.ev.Claim? && st.ev.id == id }

  predicate Completes(st: Step, id: Bytes) {
    st.Mutation? && (st.ev.Succeed? || st.ev.Fail?) && st.ev.id == id
  }

  predicate Retries(st: Step, id: Bytes) { st.Mutation? && st.ev.Retry? && st.ev.id == id }

  ghost predicate Untouched(steps: seq<Step>, i: nat, j: nat, id: Bytes)
    requires i <= j <= |steps|
  {
    forall n | i <= n < j :: !On(steps[n], id)
  }

  ghost predicate SameCycle(steps: seq<Step>, i: nat, j: nat, id: Bytes)
    requires i <= j <= |steps|
  {
    forall n | i <= n < j :: !Retries(steps[n], id)
  }

  // The fields a restart leaves alone.
  function Core(d: Delivery): Delivery { d.(body := "", lastError := "") }

  // ---- One step ----

  lemma StepConsistent(c: Codec, m: Mem, st: Step)
    requires Consistent(m) && StepEnabled(m, st)
    ensures Consistent(Next(c, m, st))
  {
    if st.Mutation? { EffectConsistent(m, st.ev); } else { CanonConsistent(c, m); }
  }

  lemma StepFrame(c: Codec, m: Mem, st: Step, id: Bytes)
    requires Consistent(m) && StepEnabled(m, st) && !On(st, id)
    ensures id in Next(c, m, st).items <==> id in m.items
    ensures id in m.items ==> Core(Next(c, m, st).items[id]) == Core(m.items[id])
    ensures Lookup(Next(c, m, st).hashes, id) == Lookup(m.hashes, id)
  {
    if st.Mutation? { EffectFrame(m, st.ev, id); }
  }

  lemma StepTouch(c: Codec, m: Mem, st: Step, id: Bytes)
    requires Consistent(m) && StepEnabled(m, st) && On(st, id)
    ensures st.ev.Prune? ==> id !in Next(c, m, st).items && id in m.items && Terminal(m.items[id])
    ensures !st.ev.Prune? ==>
      id == Subject(st.ev) && id in Next(c, m, st).items && Next(c, m, st).items[id] == Outcome(m, st.ev)
    ensures !st.ev.Prune? ==> Lookup(Next(c, m, st).hashes, id) == OutcomeHash(m, st.ev)
  {
    if st.ev.Prune? { DeleteAll(m, st.ev.ids); } else { EffectOnSubject(m, st.ev); }
  }

  lemma {:induction false} AllConsistent(c: Codec, ms: seq<Mem>, steps: seq<Step>, k: nat)
    requires History(c, ms, steps) && k <= |steps|
    ensures Consistent(ms[k])
  {
    if k > 0 {
      AllConsistent(c, ms, steps, k - 1);
      StepConsistent(c, ms[k - 1], steps[k - 1]);
    }
  }

  lemma {:induction false} UntouchedStays(c: Codec, ms: seq<Mem>, steps: seq<Step>, i: nat, k: nat, id: Bytes)
    requires History(c, ms, steps) && i <= k <= |steps| && Untouched(steps, i, k, id)
    ensures id in ms[i].items <==> id in ms[k].items
    ensures id in ms[i].items ==> Core(ms[k].items[id]) == Core(ms[i].items[id])
    decreases k
  {
    if i < k {
      UntouchedStays(c, ms, steps, i, k - 1, id);
      AllConsistent(c, ms, steps, k - 1);
      StepFrame(c, ms[k - 1], steps[k - 1], id);
    }
  }

  lemma ExtendHistory(c: Codec, ms: seq<Mem>, steps: seq<Step>, st: Step)
    requires History(c, ms, steps) && StepEnabled(ms[|steps|], st)
    ensures History(c, ms + [Next(c, ms[|steps|], st)], steps + [st])
  {
    var longer, all := ms + [Next(c, ms[|steps|], st)], steps + [st];
    forall k | 0 <= k < |all| ensures StepEnabled(longer[k], all[k]) && longer[k + 1] == Next(c, longer[k], all[k]) {
      if k < |steps| {
        assert all[k] == steps[k] && longer[k] == ms[k] && longer[k + 1] == ms[k + 1];
      }
    }
  }

  // ---- What a run told its callers, and whom it created ----

  ghost function Told(steps: seq<Step>): seq<Event> {
    if steps == [] then [] else
      var last := steps[|steps| - 1];
      if last.Mutation? && last.acknowledged then Told(steps[..|steps| - 1]) + [last.ev] else Told(steps[..|steps| - 1])
  }

  // The IDs of the deliveries created in the steps.
  ghost function Born(steps: seq<Step>): set<Bytes> {
    set n | 0 <= n < |steps| && Creates(steps[n]) :: steps[n].ev.d.id
  }

  lemma ExtendTold(steps: seq<Step>, st: Step)
    ensures Told(steps + [st]) == if st.Mutation? && st.acknowledged then Told(steps) + [st.ev] else Told(steps)
  {
    assert (steps + [st])[..|steps + [st]| - 1] == steps;
  }

  lemma ExtendBirths(steps: seq<Step>, st: Step)
    requires FreshIds(steps) && (Creates(st) ==> st.ev.d.id !in Born(steps))
    ensures FreshIds(steps + [st])
    ensures Born(steps + [st]) == Born(steps) + (if Creates(st) then {st.ev.d.id} else {})
  {
    var more := steps + [st];
    assert forall n | 0 <= n < |steps| :: more[n] == steps[n];
    assert more[|steps|] == st;
    forall n | 0 <= n < |steps| && Creates(st) && Creates(steps[n]) ensures steps[n].ev.d.id != st.ev.d.id {
      assert steps[n].ev.d.id in Born(steps);
    }
    forall id ensures id in Born(more) <==> id in Born(steps) || (Creates(st) && id == st.ev.d.id) {
      if id in Born(steps) {
        var n :| 0 <= n < |steps| && Creates(steps[n]) && steps[n].ev.d.id == id;
        assert Creates(more[n]);
      }
    }
  }

  // ---- Births ----

  lemma {:induction false} LiveWasCreated(c: Codec, ms: seq<Mem>, steps: seq<Step>, k: nat, id: Bytes) returns (n: nat)
    requires History(c, ms, steps) && k <= |steps| && id in ms[k].items
    ensures n < k && Creates(steps[n]) && steps[n].ev.d.id == id
  {
    AllConsistent(c, ms, steps, k - 1);
    if id in ms[k - 1].items {
      n := LiveWasCreated(c, ms, steps, k - 1, id);
    } else {
      if !On(steps[k - 1], id) { StepFrame(c, ms[k - 1], steps[k - 1], id); }
      else { StepTouch(c, ms[k - 1], steps[k - 1], id); }
      n := k - 1;
    }
  }

  lemma AppearsByCreate(c: Codec, m: Mem, st: Step, id: Bytes)
    requires Consistent(m) && StepEnabled(m, st)
    ensures id in Next(c, m, st).items && id !in m.items ==> Creates(st) && st.ev.d.id == id
    ensures Creates(st) && st.ev.d.id == id ==> id !in m.items
  {
    if On(st, id) { StepTouch(c, m, st, id); } else { StepFrame(c, m, st, id); }
  }

  lemma LiveJustBefore(c: Codec, ms: seq<Mem>, steps: seq<Step>, i: nat, k: nat, id: Bytes)
    requires History(c, ms, steps) && FreshIds(steps) && i < k <= |steps|
    requires id in ms[i].items && id in ms[k].items
    ensures id in ms[k - 1].items
  {
    var born := LiveWasCreated(c, ms, steps, i, id);
    AllConsistent(c, ms, steps, k - 1);
    AppearsByCreate(c, ms[k - 1], steps[k - 1], id);
  }

  // With fresh IDs a delivery has one life.
  lemma {:induction false} LiveBetween(c: Codec, ms: seq<Mem>, steps: seq<Step>, i: nat, n: nat, k: nat, id: Bytes)
    requires History(c, ms, steps) && FreshIds(steps) && i <= n <= k <= |steps|
    requires id in ms[i].items && id in ms[k].items
    ensures id in ms[n].items
    decreases k
  {
    if n < k {
      LiveJustBefore(c, ms, steps, i, k, id);
      LiveBetween(c, ms, steps, i, n, k - 1, id);
    }
  }

  // ---- Leases ----

  lemma InFlightStep(c: Codec, m: Mem, st: Step, id: Bytes)
    requires Consistent(m) && StepEnabled(m, st)
    requires id in Next(c, m, st).items && Next(c, m, st).items[id].status.InFlight?
    ensures On(st, id) ==> Claims(st, id)
    ensures !On(st, id) ==> id in m.items && Core(Next(c, m, st).items[id]) == Core(m.items[id])
  {
    if On(st, id) { StepTouch(c, m, st, id); } else { StepFrame(c, m, st, id); }
  }

  lemma {:induction false} InFlightIsClaimed(c: Codec, ms: seq<Mem>, steps: seq<Step>, k: nat, id: Bytes) returns (i: nat)
    requires History(c, ms, steps) && k <= |steps| && id in ms[k].items && ms[k].items[id].status.InFlight?
    ensures i < k && Claims(steps[i], id) && Untouched(steps, i + 1, k, id)
    ensures id in ms[i + 1].items && Core(ms[k].items[id]) == Core(ms[i + 1].items[id])
  {
    AllConsistent(c, ms, steps, k - 1);
    InFlightStep(c, ms[k - 1], steps[k - 1], id);
    if On(steps[k - 1], id) {
      i := k - 1;
    } else {
      i := InFlightIsClaimed(c, ms, steps, k - 1, id);
    }
  }

  // The attempt number a claim hands to its holder.
  ghost function Token(ms: seq<Mem>, i: nat, id: Bytes): int
    requires i + 1 < |ms| && id in ms[i + 1].items
  {
    ms[i + 1].items[id].attempts
  }

  lemma ClaimTokenExists(c: Codec, ms: seq<Mem>, steps: seq<Step>, i: nat, id: Bytes)
    requires History(c, ms, steps) && i < |steps| && Claims(steps[i], id)
    ensures id in ms[i].items && id in ms[i + 1].items
    ensures ms[i + 1].items[id] == Claimed(ms[i].items[id], steps[i].ev.now, steps[i].ev.lease)
  {
    AllConsistent(c, ms, steps, i);
    StepTouch(c, ms[i], steps[i], id);
  }

  // A completion is accepted only for the attempt of the latest claim, and only
  // when nothing has touched the delivery since that claim.
  lemma CompletionIsFenced(c: Codec, ms: seq<Mem>, steps: seq<Step>, k: nat, id: Bytes) returns (i: nat)
    requires History(c, ms, steps) && k < |steps| && Completes(steps[k], id)
    ensures i < k && Claims(steps[i], id) && Untouched(steps, i + 1, k, id)
    ensures id in ms[i + 1].items && Token(ms, i, id) == steps[k].ev.attempt
  {
    i := InFlightIsClaimed(c, ms, steps, k, id);
  }

  // So every completion has a claim of its own.
  lemma OneCompletionPerClaim(c: Codec, ms: seq<Mem>, steps: seq<Step>, k: nat, l: nat, id: Bytes)
    requires History(c, ms, steps) && k < l < |steps| && Completes(steps[k], id) && Completes(steps[l], id)
    ensures exists i :: k < i < l && Claims(steps[i], id) && Untouched(steps, i + 1, l, id)
  {
    var i := CompletionIsFenced(c, ms, steps, l, id);
    assert On(steps[k], id);
    assert k < i;
  }

  lemma AttemptsStep(c: Codec, m: Mem, st: Step, id: Bytes)
    requires Consistent(m) && StepEnabled(m, st) && !Retries(st, id) && id in m.items && id in Next(c, m, st).items
    ensures m.items[id].attempts <= Next(c, m, st).items[id].attempts
  {
    if On(st, id) { StepTouch(c, m, st, id); } else { StepFrame(c, m, st, id); }
  }

  lemma {:induction false} AttemptsGrow(c: Codec, ms: seq<Mem>, steps: seq<Step>, i: nat, k: nat, id: Bytes)
    requires History(c, ms, steps) && FreshIds(steps) && i <= k <= |steps| && SameCycle(steps, i, k, id)
    requires id in ms[i].items && id in ms[k].items
    ensures ms[i].items[id].attempts <= ms[k].items[id].attempts
    decreases k
  {
    if i < k {
      LiveBetween(c, ms, steps, i, k - 1, k, id);
      AttemptsGrow(c, ms, steps, i, k - 1, id);
      AllConsistent(c, ms, steps, k - 1);
      AttemptsStep(c, ms[k - 1], steps[k - 1], id);
    }
  }

  // Within a retry cycle each claim gets a higher attempt number.
  lemma ClaimsIncrease(c: Codec, ms: seq<Mem>, steps: seq<Step>, i: nat, k: nat, id: Bytes)
    requires History(c, ms, steps) && FreshIds(steps) && i < k < |steps| && SameCycle(steps, i, k, id)
    requires Claims(steps[i], id) && Claims(steps[k], id)
    ensures id in ms[i + 1].items && id in ms[k + 1].items && Token(ms, i, id) < Token(ms, k, id)
  {
    ClaimTokenExists(c, ms, steps, i, id);
    ClaimTokenExists(c, ms, steps, k, id);
    AttemptsGrow(c, ms, steps, i + 1, k, id);
  }

  // The holder of claim i completes with its attempt number and is accepted. Its
  // claim is still the latest touch exactly when no retry came between: a retry
  // starts the numbers again, and a holder from before it can then pass.
  lemma AcceptedHolderIsCurrentIffSameCycle(c: Codec, ms: seq<Mem>, steps: seq<Step>, i: nat, k: nat, id: Bytes)
    requires History(c, ms, steps) && FreshIds(steps) && i < k < |steps|
    requires Claims(steps[i], id) && Completes(steps[k], id)
    requires id in ms[i + 1].items && steps[k].ev.attempt == Token(ms, i, id)
    ensures Untouched(steps, i + 1, k, id) <==> SameCycle(steps, i, k, id)
  {
    var j := CompletionIsFenced(c, ms, steps, k, id);
    assert On(steps[i], id);
    assert i <= j;
    if SameCycle(steps, i, k, id) && i < j { ClaimsIncrease(c, ms, steps, i, j, id); }
    assert Untouched(steps, i + 1, k, id) ==> SameCycle(steps, i, k, id);
  }

  ghost predicate LeaseOutstanding(m: Mem, id: Bytes, until: int) {
    id in m.items ==>
      m.items[id].status.Canceled? || (m.items[id].status.InFlight? && m.items[id].leaseUntil >= until)
  }

  lemma LeaseStep(c: Codec, m: Mem, st: Step, id: Bytes, until: int)
    requires Consistent(m) && StepEnabled(m, st) && id in m.items && LeaseOutstanding(m, id, until)
    requires !Completes(st, id) && (Claims(st, id) ==> st.ev.lease >= 0)
    ensures LeaseOutstanding(Next(c, m, st), id, until)
  {
    if On(st, id) { StepTouch(c, m, st, id); } else { StepFrame(c, m, st, id); }
  }

  lemma {:induction false} LeaseStaysOutstanding(c: Codec, ms: seq<Mem>, steps: seq<Step>, i: nat, k: nat, id: Bytes)
    requires History(c, ms, steps) && FreshIds(steps) && i < k <= |steps| && Claims(steps[i], id)
    requires forall n | i <= n < k :: Claims(steps[n], id) ==> steps[n].ev.lease >= 0
    requires forall n | i < n < k :: !Completes(steps[n], id)
    ensures LeaseOutstanding(ms[k], id, steps[i].ev.now + steps[i].ev.lease)
    decreases k
  {
    ClaimTokenExists(c, ms, steps, i, id);
    if i + 1 < k && id in ms[k].items {
      LiveBetween(c, ms, steps, i, k - 1, k, id);
      LeaseStaysOutstanding(c, ms, steps, i, k - 1, id);
      AllConsistent(c, ms, steps, k - 1);
      LeaseStep(c, ms[k - 1], steps[k - 1], id, steps[i].ev.now + steps[i].ev.lease);
    }
  }

  // Two claims with no completion between them are a lease apart.
  lemma ClaimsAreALeaseApart(c: Codec, ms: seq<Mem>, steps: seq<Step>, i: nat, k: nat, id: Bytes)
    requires History(c, ms, steps) && FreshIds(steps) && i < k < |steps|
    requires Claims(steps[i], id) && Claims(steps[k], id)
    requires forall n | i <= n < k :: Claims(steps[n], id) ==> steps[n].ev.lease >= 0
    requires forall n | i < n < k :: !Completes(steps[n], id)
    ensures steps[k].ev.now >= steps[i].ev.now + steps[i].ev.lease
  {
    LeaseStaysOutstanding(c, ms, steps, i, k, id);
    ClaimTokenExists(c, ms, steps, k, id);
  }

  // The time before which a mutation leaves its delivery alone.
  predicate NotBefore(ev: Event, id: Bytes, time: int) {
    match ev
    case Create(d, _) => d.id == id && time == d.createdAt
    case Claim(x, now, lease) => x == id && time == now + lease
    case Fail(x, _, _, _, next, terminal, _) => x == id && !terminal && time == next
    case Retry(x, now) => x == id && time == now
    case _ => false
  }

  // A delivery that nothing has touched since is not claimed before its time: the
  // one its creation, its failure or its retry gave it, or the end of its lease.
  lemma ClaimedNoEarlier(c: Codec, ms: seq<Mem>, steps: seq<Step>, i: nat, k: nat, id: Bytes, time: int)
    requires History(c, ms, steps) && i < k < |steps| && Untouched(steps, i + 1, k, id) && Claims(steps[k], id)
    requires steps[i].Mutation? && NotBefore(steps[i].ev, id, time)
    ensures steps[k].ev.now >= time
  {
    AllConsistent(c, ms, steps, i);
    assert On(steps[i], id);
    StepTouch(c, ms[i], steps[i], id);
    UntouchedStays(c, ms, steps, i + 1, k, id);
    ClaimTokenExists(c, ms, steps, k, id);
  }

  // ---- The retry budget ----

  // deliver fails an attempt for good once the budget is used up.
  ghost predicate WorkersKeepBudget(ms: seq<Mem>, steps: seq<Step>) {
    forall k | 0 <= k < |steps| && k < |ms| && steps[k].Mutation? && steps[k].ev.Fail? && !steps[k].ev.terminal ::
      steps[k].ev.id in ms[k].items && steps[k].ev.attempt < ms[k].items[steps[k].ev.id].maxAttempts
  }

  predicate StartsCycle(st: Step, id: Bytes) { On(st, id) && (st.ev.Retry? || st.ev.Create?) }

  predicate Reclaims(m: Mem, st: Step, id: Bytes) {
    Claims(st, id) && id in m.items && m.items[id].status.InFlight?
  }

  // Claims of an expired lease, and completions, in the current retry cycle.
  ghost function ReclaimCount(ms: seq<Mem>, steps: seq<Step>, k: nat, id: Bytes): nat
    requires k <= |steps| && k < |ms|
  {
    if k == 0 || StartsCycle(steps[k - 1], id) then 0
    else ReclaimCount(ms, steps, k - 1, id) + (if Reclaims(ms[k - 1], steps[k - 1], id) then 1 else 0)
  }

  ghost function CompletionCount(steps: seq<Step>, k: nat, id: Bytes): nat
    requires k <= |steps|
  {
    if k == 0 || StartsCycle(steps[k - 1], id) then 0
    else CompletionCount(steps, k - 1, id) + (if Completes(steps[k - 1], id) then 1 else 0)
  }

  // Pending work has budget left; every attempt is a completion, a reclaim or
  // the one under way.
  predicate WithinBudget(d: Delivery, completions: nat, reclaims: nat) {
    && d.maxAttempts >= 1
    && (d.status.Pending? ==> d.attempts < d.maxAttempts)
    && d.attempts <= d.maxAttempts + reclaims
    && (!d.status.Canceled? ==> d.attempts == completions + reclaims + (if d.status.InFlight? then 1 else 0))
  }

  lemma BudgetStep(c: Codec, m: Mem, st: Step, id: Bytes, completions: nat, reclaims: nat)
    requires Consistent(m) && StepEnabled(m, st) && id in Next(c, m, st).items
    requires !StartsCycle(st, id) ==> id in m.items ==> WithinBudget(m.items[id], completions, reclaims)
    requires st.Mutation? && st.ev.Fail? && !st.ev.terminal && st.ev.id == id && id in m.items ==>
      st.ev.attempt < m.items[id].maxAttempts
    requires StartsCycle(st, id) && id in m.items ==> m.items[id].maxAttempts >= 1
    ensures id in m.items || StartsCycle(st, id)
    ensures StartsCycle(st, id) ==> WithinBudget(Next(c, m, st).items[id], 0, 0)
    ensures !StartsCycle(st, id) ==>
      WithinBudget(Next(c, m, st).items[id], completions + (if Completes(st, id) then 1 else 0),
                   reclaims + (if Reclaims(m, st, id) then 1 else 0))
  {
    if On(st, id) { StepTouch(c, m, st, id); } else { StepFrame(c, m, st, id); }
  }

  lemma {:induction false} RetryBudget(c: Codec, ms: seq<Mem>, steps: seq<Step>, k: nat, id: Bytes)
    requires History(c, ms, steps) && WorkersKeepBudget(ms, steps) && k <= |steps| && id in ms[k].items
    ensures WithinBudget(ms[k].items[id], CompletionCount(steps, k, id), ReclaimCount(ms, steps, k, id))
  {
    AllConsistent(c, ms, steps, k - 1);
    if id in ms[k - 1].items { RetryBudget(c, ms, steps, k - 1, id); }
    BudgetStep(c, ms[k - 1], steps[k - 1], id,
               CompletionCount(steps, k - 1, id), ReclaimCount(ms, steps, k - 1, id));
  }

  // A cycle without an expired lease ends after at most maxAttempts completions.
  lemma BudgetEndsCycle(c: Codec, ms: seq<Mem>, steps: seq<Step>, k: nat, id: Bytes)
    requires History(c, ms, steps) && WorkersKeepBudget(ms, steps) && k <= |steps| && id in ms[k].items
    requires ReclaimCount(ms, steps, k, id) == 0 && CompletionCount(steps, k, id) >= ms[k].items[id].maxAttempts
    ensures Terminal(ms[k].items[id])
  {
    RetryBudget(c, ms, steps, k, id);
  }

  // ---- Lifecycle ----

  predicate WellTimed(d: Delivery) {
    && (!d.status.InFlight? ==> d.leaseUntil == NO_TIME)
    && (Terminal(d) ==> d.nextAttemptAt == NO_TIME)
  }

  // Only work in flight carries a lease; only live work a next attempt.
  lemma {:induction false} LeasesAndTimes(c: Codec, ms: seq<Mem>, steps: seq<Step>, k: nat, id: Bytes)
    requires History(c, ms, steps) && k <= |steps| && id in ms[k].items
    ensures WellTimed(ms[k].items[id])
  {
    AllConsistent(c, ms, steps, k - 1);
    if On(steps[k - 1], id) {
      StepTouch(c, ms[k - 1], steps[k - 1], id);
      if !steps[k - 1].ev.Create? { LeasesAndTimes(c, ms, steps, k - 1, id); }
    } else {
      StepFrame(c, ms[k - 1], steps[k - 1], id);
      LeasesAndTimes(c, ms, steps, k - 1, id);
    }
  }

  // What identifies a delivery, its body up to canonical form.
  ghost function CanonIdentity(c: Codec, d: Delivery): Identity {
    IdentityOf(d).(body := c.canonBody(d.body))
  }

  lemma StepKeepsIdentity(c: Codec, m: Mem, st: Step, id: Bytes)
    requires Lawful(c) && Consistent(m) && StepEnabled(m, st)
    requires id in m.items && id in Next(c, m, st).items
    ensures CanonIdentity(c, Next(c, m, st).items[id]) == CanonIdentity(c, m.items[id])
    ensures Lookup(Next(c, m, st).hashes, id) == Lookup(m.hashes, id)
  {
    if On(st, id) {
      StepTouch(c, m, st, id);
      OutcomeKeepsId(m, st.ev);
    } else if st.Mutation? {
      EffectFrame(m, st.ev, id);
    } else {
      assert c.canonBody(c.canonBody(m.items[id].body)) == c.canonBody(m.items[id].body);
    }
  }

  // Identity, request, budget, creation time and fingerprint never change.
  lemma {:induction false} IdentityIsImmutable(c: Codec, ms: seq<Mem>, steps: seq<Step>, i: nat, k: nat, id: Bytes)
    requires Lawful(c) && History(c, ms, steps) && FreshIds(steps) && i <= k <= |steps|
    requires id in ms[i].items && id in ms[k].items
    ensures CanonIdentity(c, ms[k].items[id]) == CanonIdentity(c, ms[i].items[id])
    ensures Lookup(ms[k].hashes, id) == Lookup(ms[i].hashes, id)
    decreases k
  {
    if i < k {
      LiveBetween(c, ms, steps, i, k - 1, k, id);
      IdentityIsImmutable(c, ms, steps, i, k - 1, id);
      AllConsistent(c, ms, steps, k - 1);
      StepKeepsIdentity(c, ms[k - 1], steps[k - 1], id);
    }
  }

  // A succeeded or canceled delivery stays so while it lives; a failed one too,
  // unless it is retried.
  lemma {:induction false} TerminalIsFinal(c: Codec, ms: seq<Mem>, steps: seq<Step>, i: nat, k: nat, id: Bytes)
    requires History(c, ms, steps) && FreshIds(steps) && i <= k <= |steps|
    requires id in ms[i].items && id in ms[k].items && Terminal(ms[i].items[id])
    requires ms[i].items[id].status.Failed? ==> SameCycle(steps, i, k, id)
    ensures ms[k].items[id].status == ms[i].items[id].status
    decreases k
  {
    if i < k {
      LiveBetween(c, ms, steps, i, k - 1, k, id);
      TerminalIsFinal(c, ms, steps, i, k - 1, id);
      AllConsistent(c, ms, steps, k - 1);
      if On(steps[k - 1], id) { StepTouch(c, ms[k - 1], steps[k - 1], id); }
      else { StepFrame(c, ms[k - 1], steps[k - 1], id); }
    }
  }

  predicate Prunes(m: Mem, st: Step, id: Bytes) {
    && On(st, id) && st.ev.Prune?
    && id in m.items && Terminal(m.items[id]) && m.items[id].updatedAt <= st.ev.before
  }

  lemma DisappearsByPrune(c: Codec, m: Mem, st: Step, id: Bytes)
    requires Consistent(m) && StepEnabled(m, st) && id in m.items && id !in Next(c, m, st).items
    ensures Prunes(m, st, id)
  {
    if On(st, id) {
      StepTouch(c, m, st, id);
      var x :| 0 <= x < |st.ev.ids| && st.ev.ids[x] == id;
    } else {
      StepFrame(c, m, st, id);
    }
  }

  // A delivery disappears only by a prune, and only once it is terminal and old.
  lemma {:induction false} OnlyPruneRemoves(c: Codec, ms: seq<Mem>, steps: seq<Step>, i: nat, k: nat, id: Bytes)
    requires History(c, ms, steps) && i <= k <= |steps| && id in ms[i].items && id !in ms[k].items
    ensures exists n :: i <= n < k && Prunes(ms[n], steps[n], id)
    decreases k
  {
    if id !in ms[k - 1].items {
      OnlyPruneRemoves(c, ms, steps, i, k - 1, id);
    } else {
      AllConsistent(c, ms, steps, k - 1);
      DisappearsByPrune(c, ms[k - 1], steps[k - 1], id);
    }
  }

  // ---- Idempotency ----

  ghost predicate CreatesWithKey(steps: seq<Step>, n: nat, key: Bytes)
    requires n < |steps|
  {
    Creates(steps[n]) && steps[n].ev.d.key == key
  }

  // A key names at most one live delivery, and is free again exactly when every
  // delivery created with it has been pruned.
  lemma KeyIsFreeIffPruned(c: Codec, ms: seq<Mem>, steps: seq<Step>, k: nat, key: Bytes)
    requires Lawful(c) && History(c, ms, steps) && FreshIds(steps) && k <= |steps| && key != ""
    ensures key !in ms[k].keyToId <==>
      forall n | 0 <= n < k && CreatesWithKey(steps, n, key) :: steps[n].ev.d.id !in ms[k].items
    ensures forall n, o | 0 <= n < k && 0 <= o < k && CreatesWithKey(steps, n, key) && CreatesWithKey(steps, o, key)
      && steps[n].ev.d.id in ms[k].items && steps[o].ev.d.id in ms[k].items :: n == o
  {
    AllConsistent(c, ms, steps, k);
    forall n | 0 <= n < k && CreatesWithKey(steps, n, key) && steps[n].ev.d.id in ms[k].items
      ensures key in ms[k].keyToId && ms[k].keyToId[key] == steps[n].ev.d.id
    {
      CreatedKeyKept(c, ms, steps, n, k);
    }
    if key in ms[k].keyToId {
      var id := ms[k].keyToId[key];
      var n := LiveWasCreated(c, ms, steps, k, id);
      CreatedKeyKept(c, ms, steps, n, k);
    }
  }

  lemma CreatedKeyKept(c: Codec, ms: seq<Mem>, steps: seq<Step>, n: nat, k: nat)
    requires Lawful(c) && History(c, ms, steps) && FreshIds(steps) && n < k <= |steps| && Creates(steps[n])
    requires steps[n].ev.d.id in ms[k].items
    ensures ms[k].items[steps[n].ev.d.id].key == steps[n].ev.d.key
  {
    var id := steps[n].ev.d.id;
    AllConsistent(c, ms, steps, n);
    StepTouch(c, ms[n], steps[n], id);
    IdentityIsImmutable(c, ms, steps, n + 1, k, id);
  }
}
