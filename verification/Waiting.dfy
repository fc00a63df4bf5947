/** Two facts about runs that depend on who calls: how long due work waits, and
    how a worker from an earlier retry cycle gets past the fence. */
module Waiting {
  import opened Results
  import opened Text
  import opened Sorting
  import opened Deliveries
  import opened Journal
  import opened Events
  import opened Selections
  import opened Lifecycle

  // The clock reading of a mutation that may make a delivery claimable.
  predicate LaterThan(ev: Event, time: int) {
    match ev
    case Create(d, _) => d.createdAt > time
    case Claim(_, now, _) => now > time
    case Fail(_, _, _, _, next, terminal, now) => now > time && (!terminal ==> next >= now)
    case Retry(_, now) => now > time
    case _ => true
  }

  // A claim of a single item takes the first due delivery; no lease has expired.
  ghost predicate TakesFirst(m: Mem, ev: Event) {
    ev.Claim? ==>
      && ev.id in m.items && m.items[ev.id].status.Pending?
      && forall x | x in m.items && x != ev.id && Due(m.items[x], ev.now) :: Before(m.items[ev.id], m.items[x])
  }

  // The pending deliveries that come before id.
  ghost function Ahead(m: Mem, id: Bytes): set<Bytes>
    requires id in m.items
  {
    set x | x in m.items && x != id && m.items[x].status.Pending? && Before(m.items[x], m.items[id])
  }

  ghost predicate Waits(m: Mem, id: Bytes, due: int) {
    id in m.items && m.items[id].status.Pending? && m.items[id].nextAttemptAt <= due
  }

  lemma WaitStep(c: Codec, m: Mem, st: Step, id: Bytes, due: int)
    requires Consistent(m) && StepEnabled(m, st) && Waits(m, id, due) && !On(st, id)
    requires st.Mutation? ==> LaterThan(st.ev, due) && TakesFirst(m, st.ev)
    ensures Waits(Next(c, m, st), id, due)
    ensures Ahead(Next(c, m, st), id) <= Ahead(m, id)
    ensures st.Mutation? && st.ev.Claim? ==> st.ev.id in Ahead(m, id) && st.ev.id !in Ahead(Next(c, m, st), id)
  {
    StepFrame(c, m, st, id);
    var n := Next(c, m, st);
    forall x | x in Ahead(n, id) ensures x in Ahead(m, id) {
      if On(st, x) { StepTouch(c, m, st, x); } else { StepFrame(c, m, st, x); }
    }
    if st.Mutation? && st.ev.Claim? { StepTouch(c, m, st, st.ev.id); }
  }

  predicate IsClaim(st: Step) { st.Mutation? && st.ev.Claim? }

  ghost function ClaimCount(steps: seq<Step>, i: nat, k: nat): nat
    requires i <= k <= |steps|
    decreases k
  {
    if i == k then 0
    else ClaimCount(steps, i, k - 1) + (if IsClaim(steps[k - 1]) then 1 else 0)
  }

  // Every clock reading is later than `due`, every claim takes the first item.
  ghost predicate Orderly(ms: seq<Mem>, steps: seq<Step>, i: nat, k: nat, due: int)
    requires i <= k <= |steps| < |ms|
    decreases k
  {
    i == k || (Orderly(ms, steps, i, k - 1, due)
      && (steps[k - 1].Mutation? ==> LaterThan(steps[k - 1].ev, due) && TakesFirst(ms[k - 1], steps[k - 1].ev)))
  }

  // While a due delivery waits, each single-item claim uses up one of those
  // ahead of it, whatever else happens: it is returned after at most
  // |Ahead| + 1 claims.
  lemma {:induction false} BoundedWaiting(c: Codec, ms: seq<Mem>, steps: seq<Step>, i: nat, k: nat, id: Bytes, due: int)
    requires History(c, ms, steps) && i <= k <= |steps| && Waits(ms[i], id, due) && Untouched(steps, i, k, id)
    requires Orderly(ms, steps, i, k, due)
    ensures Waits(ms[k], id, due)
    ensures |Ahead(ms[k], id)| + ClaimCount(steps, i, k) <= |Ahead(ms[i], id)|
    decreases k
  {
    if i < k {
      BoundedWaiting(c, ms, steps, i, k - 1, id, due);
      AllConsistent(c, ms, steps, k - 1);
      WaitStepCounts(c, ms[k - 1], steps[k - 1], id, due);
    }
  }

  lemma WaitStepCounts(c: Codec, m: Mem, st: Step, id: Bytes, due: int)
    requires Consistent(m) && StepEnabled(m, st) && Waits(m, id, due) && !On(st, id)
    requires st.Mutation? ==> LaterThan(st.ev, due) && TakesFirst(m, st.ev)
    ensures Waits(Next(c, m, st), id, due)
    ensures |Ahead(Next(c, m, st), id)| + (if IsClaim(st) then 1 else 0) <= |Ahead(m, id)|
  {
    WaitStep(c, m, st, id, due);
    var before, after := Ahead(m, id), Ahead(Next(c, m, st), id);
    if IsClaim(st) { SubsetSize(after, before - {st.ev.id}); } else { SubsetSize(after, before); }
  }

  // ---- Calls of ClaimDue for one delivery ----

  // A call of ClaimDue that asks for one delivery, and whose append works or
  // does not; or anything else.
  datatype Turn = Call(now: int, lease: int, works: bool) | Else(st: Step)

  const ANYONE: Delivery -> bool := d => true

  ghost predicate TurnEnabled(m: Mem, t: Turn) { t.Else? ==> StepEnabled(m, t.st) && !IsClaim(t.st) }

  ghost function AfterTurn(c: Codec, m: Mem, t: Turn): Mem
    requires TurnEnabled(m, t)
  {
    match t
    case Else(st) => Next(c, m, st)
    case Call(now, lease, works) =>
      var d := Head(m, now, ANYONE);
      if works && d.Some? && Enabled(m, Claim(d.value.id, now, lease)) then Effect(m, Claim(d.value.id, now, lease)) else m
  }

  ghost predicate Turns(c: Codec, ms: seq<Mem>, ts: seq<Turn>) {
    && |ms| == |ts| + 1 && Consistent(ms[0])
    && forall k | 0 <= k < |ts| :: TurnEnabled(ms[k], ts[k]) && ms[k + 1] == AfterTurn(c, ms[k], ts[k])
  }

  ghost predicate NoLeaseExpired(m: Mem, now: int) {
    forall id | id in m.items && m.items[id].status.InFlight? :: m.items[id].leaseUntil > now
  }

  // The clock has advanced, and no lease has run out.
  ghost predicate Timely(m: Mem, t: Turn, due: int) {
    match t
    case Call(now, _, _) => now > due && NoLeaseExpired(m, now)
    case Else(st) => st.Mutation? ==> LaterThan(st.ev, due)
  }

  // The call returns the delivery; or something else happens to it.
  ghost predicate Returns(m: Mem, t: Turn, id: Bytes) {
    t.Call? && t.works && Head(m, t.now, ANYONE).Some? && Head(m, t.now, ANYONE).value.id == id
  }

  ghost predicate Disturbs(t: Turn, id: Bytes) { t.Else? && On(t.st, id) }

  ghost function CallCount(ts: seq<Turn>, i: nat, k: nat): nat
    requires i <= k <= |ts|
    decreases k
  {
    if i == k then 0
    else CallCount(ts, i, k - 1) + (if ts[k - 1].Call? && ts[k - 1].works then 1 else 0)
  }

  // While a due delivery waits every call takes one, and it is the first.
  lemma CallTakesFirst(m: Mem, id: Bytes, due: int, now: int, lease: int)
    requires Consistent(m) && Waits(m, id, due) && now > due && NoLeaseExpired(m, now)
    ensures Head(m, now, ANYONE).Some?
    ensures var ev := Claim(Head(m, now, ANYONE).value.id, now, lease); Enabled(m, ev) && TakesFirst(m, ev)
  {
    var d := m.items[id];
    assert d in DueSet(m, now, ANYONE) && d in Elements(ClaimOrder(m, now, ANYONE));
    HeadIsDue(m, now, ANYONE);
    var h := Head(m, now, ANYONE).value;
    forall x | x in m.items && x != h.id && Due(m.items[x], now) ensures Before(h, m.items[x]) {
      HeadIsFirst(m, now, ANYONE, m.items[x]);
    }
  }

  // That is what ClaimDueMatching does when asked for one delivery.
  lemma ClaimCallTakesFirst(m: Mem, after: map<Bytes, Delivery>, id: Bytes, due: int, now: int, lease: int,
                            claimed: seq<Delivery>)
    requires Consistent(m) && Waits(m, id, due) && now > due && NoLeaseExpired(m, now)
    requires TookFirst(m, after, now, lease, 1, ANYONE, claimed, true)
    ensures |claimed| == 1 && Enabled(m, Claim(claimed[0].id, now, lease)) && TakesFirst(m, Claim(claimed[0].id, now, lease))
    ensures after == Effect(m, Claim(claimed[0].id, now, lease)).items
  {
    CallTakesFirst(m, id, due, now, lease);
    ClaimOfOne(m, after, now, lease, ANYONE, claimed, true);
  }

  lemma TurnCounts(c: Codec, m: Mem, t: Turn, id: Bytes, due: int)
    requires Consistent(m) && TurnEnabled(m, t) && Waits(m, id, due) && Timely(m, t, due)
    requires !Returns(m, t, id) && !Disturbs(t, id)
    ensures Consistent(AfterTurn(c, m, t)) && Waits(AfterTurn(c, m, t), id, due)
    ensures |Ahead(AfterTurn(c, m, t), id)| + (if t.Call? && t.works then 1 else 0) <= |Ahead(m, id)|
  {
    if t.Else? {
      StepConsistent(c, m, t.st);
      WaitStepCounts(c, m, t.st, id, due);
    } else if t.works {
      CallTakesFirst(m, id, due, t.now, t.lease);
      var st := Mutation(Claim(Head(m, t.now, ANYONE).value.id, t.now, t.lease), true);
      StepConsistent(c, m, st);
      WaitStepCounts(c, m, st, id, due);
    }
  }

  // The delivery goes on waiting.
  ghost predicate Passes(m: Mem, t: Turn, id: Bytes, due: int) {
    Timely(m, t, due) && !Returns(m, t, id) && !Disturbs(t, id)
  }

  lemma {:induction false} TurnsCount(c: Codec, ms: seq<Mem>, ts: seq<Turn>, i: nat, k: nat, id: Bytes, due: int)
    requires Turns(c, ms, ts) && i <= k <= |ts| && Consistent(ms[i]) && Waits(ms[i], id, due)
    requires forall n | i <= n < k :: Passes(ms[n], ts[n], id, due)
    ensures Consistent(ms[k]) && Waits(ms[k], id, due)
    ensures |Ahead(ms[k], id)| + CallCount(ts, i, k) <= |Ahead(ms[i], id)|
    decreases k
  {
    if i < k {
      TurnsCount(c, ms, ts, i, k - 1, id, due);
      assert Passes(ms[k - 1], ts[k - 1], id, due) && ms[k] == AfterTurn(c, ms[k - 1], ts[k - 1]);
      TurnCounts(c, ms[k - 1], ts[k - 1], id, due);
    }
  }

  // A due delivery is returned by one of the next |Ahead| + 1 calls that work,
  // unless it is canceled first, whatever else happens meanwhile.
  lemma ReturnedWithin(c: Codec, ms: seq<Mem>, ts: seq<Turn>, i: nat, k: nat, id: Bytes, due: int)
    requires Turns(c, ms, ts) && i <= k <= |ts| && Consistent(ms[i]) && Waits(ms[i], id, due)
    requires forall n | i <= n < k :: Timely(ms[n], ts[n], due)
    requires CallCount(ts, i, k) > |Ahead(ms[i], id)|
    ensures exists n :: i <= n < k && (Returns(ms[n], ts[n], id) || Disturbs(ts[n], id))
  {
    if forall n | i <= n < k :: Passes(ms[n], ts[n], id, due) {
      TurnsCount(c, ms, ts, i, k, id, due);
    } else {
      var n :| i <= n < k && !Passes(ms[n], ts[n], id, due);
      assert Returns(ms[n], ts[n], id) || Disturbs(ts[n], id);
    }
  }

  lemma {:induction false} SubsetSize<T>(a: set<T>, b: set<T>)
    requires a <= b
    ensures |a| <= |b|
  {
    if x :| x in a { SubsetSize(a - {x}, b - {x}); }
  }

  // ---- A stale holder ----

  const SAMPLE := Delivery("a", "", "http://h", "POST", map[], "", Pending, 0, 2, 1, NO_TIME, "", 0, 1, 1)

  // Claimed, claimed again when the lease ran out, failed for good, retried and
  // claimed: attempt 1 is held twice, and its first holder completes it.
  const STALE_RUN: seq<Step> := [
    Mutation(Create(SAMPLE, "h"), true),
    Mutation(Claim("a", 1, 1), true),
    Mutation(Claim("a", 2, 1), true),
    Mutation(Fail("a", 2, 500, "", 0, true, 3), true),
    Mutation(Retry("a", 4), true),
    Mutation(Claim("a", 5, 1), true),
    Mutation(Succeed("a", 1, 200, 5), true)]

  // The delivery after the first k steps.
  function StaleItem(k: nat): Delivery
    requires 1 <= k <= 7
  {
    if k == 1 then SAMPLE
    else if k == 2 then Claimed(StaleItem(1), 1, 1)
    else if k == 3 then Claimed(StaleItem(2), 2, 1)
    else if k == 4 then FailedWith(StaleItem(3), 500, "", 0, true, 3)
    else if k == 5 then RetriedAt(StaleItem(4), 4)
    else if k == 6 then Claimed(StaleItem(5), 5, 1)
    else SucceededWith(StaleItem(6), 200, 5)
  }

  ghost predicate StaleAt(m: Mem, k: nat) {
    Consistent(m) && if k == 0 then m == EMPTY else k <= 7 && "a" in m.items && m.items["a"] == StaleItem(k)
  }

  lemma StaleStep(c: Codec, m: Mem, k: nat)
    requires k < 7 && StaleAt(m, k)
    ensures StepEnabled(m, STALE_RUN[k]) && StaleAt(Next(c, m, STALE_RUN[k]), k + 1)
  {
    var st := STALE_RUN[k];
    assert StepEnabled(m, st);
    assert On(st, "a") && !st.ev.Prune?;
    StepConsistent(c, m, st);
    StepTouch(c, m, st, "a");
    assert Outcome(m, st.ev) == StaleItem(k + 1);
  }

  lemma FrontGrows<T>(q: seq<T>, k: nat)
    requires 0 < k <= |q|
    ensures q[..k - 1] + [q[k - 1]] == q[..k]
  {
  }

  lemma {:induction false} StaleRun(c: Codec, k: nat) returns (ms: seq<Mem>)
    requires k <= 7
    ensures History(c, ms, STALE_RUN[..k]) && StaleAt(ms[k], k)
    ensures k >= 2 ==> StaleAt(ms[2], 2)
  {
    if k == 0 {
      ms := [EMPTY];
    } else {
      var front := StaleRun(c, k - 1);
      StaleStep(c, front[k - 1], k - 1);
      ExtendHistory(c, front, STALE_RUN[..k - 1], STALE_RUN[k - 1]);
      FrontGrows(STALE_RUN, k);
      ms := front + [Next(c, front[k - 1], STALE_RUN[k - 1])];
    }
  }

  // The fence can be passed: the completion carries the number of the first
  // claim and is accepted though two later claims were made.
  lemma StaleHolderIsAccepted(c: Codec)
    ensures exists ms: seq<Mem> ::
      (History(c, ms, STALE_RUN) && "a" in ms[2].items && STALE_RUN[6].ev.attempt == Token(ms, 1, "a"))
    ensures Claims(STALE_RUN[1], "a") && Claims(STALE_RUN[5], "a") && Completes(STALE_RUN[6], "a")
    ensures FreshIds(STALE_RUN) && !Untouched(STALE_RUN, 2, 6, "a")
  {
    var ms := StaleRun(c, 7);
    assert STALE_RUN[..7] == STALE_RUN;
    StaleFirstToken(ms[2]);
    StaleRunShape();
  }

  lemma StaleRunShape()
    ensures Claims(STALE_RUN[1], "a") && Claims(STALE_RUN[5], "a") && Completes(STALE_RUN[6], "a")
    ensures FreshIds(STALE_RUN) && !Untouched(STALE_RUN, 2, 6, "a")
  {
    assert On(STALE_RUN[5], "a");
  }

  lemma StaleFirstToken(m: Mem)
    requires StaleAt(m, 2)
    ensures "a" in m.items && m.items["a"].attempts == 1
  {
  }
}
