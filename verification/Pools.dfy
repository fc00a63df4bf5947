/** The count of deliveries under way for each origin. */
module Targets {
  import opened Results
  import opened Text
  import opened Deliveries
  import opened Journal
  import opened Events
  import opened EventProofs
  import opened Selections

  // A Go map's zero value is 0.
  function Load(active: map<Bytes, nat>, k: Bytes): nat { if k in active then active[k] else 0 }

  function Raised(active: map<Bytes, nat>, k: Bytes): map<Bytes, nat> { active[k := Load(active, k) + 1] }

  function Lowered(active: map<Bytes, nat>, k: Bytes): map<Bytes, nat> {
    if Load(active, k) <= 1 then active - {k} else active[k := Load(active, k) - 1]
  }

  // claimDue takes only deliveries for origins below the limit.
  function Room(active: map<Bytes, nat>, perTarget: nat, key: Bytes -> Bytes): Delivery -> bool {
    (d: Delivery) => Load(active, key(d.url)) < perTarget
  }

  predicate NoZeros(active: map<Bytes, nat>) { forall k | k in active :: active[k] > 0 }

  // A due delivery whose origin has fewer than perTarget under way was claimed; or
  // there was none, if the call did not fail.
  ghost predicate ClaimedWithRoom(before: map<Bytes, Delivery>, after: map<Bytes, Delivery>, now: int, lease: int,
                                  active: map<Bytes, nat>, perTarget: nat, key: Bytes -> Bytes,
                                  claimed: seq<Delivery>, ok: bool) {
    && |claimed| <= 1
    && (claimed != [] ==>
          var d := claimed[0];
          && d.id in before && after == before[d.id := d]
          && (before[d.id].status.Pending? ==> before[d.id].nextAttemptAt <= now)
          && (!before[d.id].status.Pending? ==> before[d.id].status.InFlight? && before[d.id].leaseUntil <= now)
          && (key(d.url) in active ==> active[key(d.url)] < perTarget)
          && d == before[d.id].(status := InFlight, attempts := before[d.id].attempts + 1,
                                leaseUntil := now + lease, updatedAt := now))
    && (claimed == [] ==> after == before)
    && (claimed == [] && ok ==> forall id | id in before ::
          (before[id].status.Pending? && before[id].nextAttemptAt <= now)
          || (before[id].status.InFlight? && before[id].leaseUntil <= now) ==>
            key(before[id].url) in active && active[key(before[id].url)] >= perTarget)
  }

  lemma TookWithRoom(m: Mem, after: map<Bytes, Delivery>, now: int, lease: int,
                     active: map<Bytes, nat>, perTarget: nat, key: Bytes -> Bytes, claimed: seq<Delivery>, ok: bool)
    requires Indexed(m) && perTarget > 0
    requires TookFirst(m, after, now, lease, 1, Room(active, perTarget, key), claimed, ok)
    ensures ClaimedWithRoom(m.items, after, now, lease, active, perTarget, key, claimed, ok)
  {
    var room := Room(active, perTarget, key);
    ClaimOfOne(m, after, now, lease, room, claimed, ok);
    if claimed == [] {
      NoneHasRoom(m, now, lease, active, perTarget, key, ok);
    } else {
      HeadIsDue(m, now, room);
      OneHasRoom(m, Head(m, now, room).value, now, lease, active, perTarget, key, ok);
    }
  }

  lemma OneHasRoom(m: Mem, d: Delivery, now: int, lease: int,
                   active: map<Bytes, nat>, perTarget: nat, key: Bytes -> Bytes, ok: bool)
    requires Indexed(m) && d.id in m.items && m.items[d.id] == d && Due(d, now) && Room(active, perTarget, key)(d)
    ensures ClaimedWithRoom(m.items, Effect(m, Claim(d.id, now, lease)).items, now, lease,
                            active, perTarget, key, [Claimed(d, now, lease)], ok)
  {
    EffectOfPut(m, Claim(d.id, now, lease));
  }

  lemma NoneHasRoom(m: Mem, now: int, lease: int,
                    active: map<Bytes, nat>, perTarget: nat, key: Bytes -> Bytes, ok: bool)
    requires Indexed(m) && perTarget > 0 && (ok ==> Head(m, now, Room(active, perTarget, key)).None?)
    ensures ClaimedWithRoom(m.items, m.items, now, lease, active, perTarget, key, [], ok)
  {
    if ok {
      forall id | id in m.items && Due(m.items[id], now)
        ensures key(m.items[id].url) in active && active[key(m.items[id].url)] >= perTarget
      {
        NoneIsDue(m, now, Room(active, perTarget, key), id);
      }
    }
  }

  lemma ReleaseUndoesClaim(active: map<Bytes, nat>, k: Bytes)
    requires NoZeros(active)
    ensures Lowered(Raised(active, k), k) == active && NoZeros(Raised(active, k))
  {
    if k in active { assert Lowered(Raised(active, k), k) == active; }
    else { assert Raised(active, k) - {k} == active; }
  }
}

/** The worker pool (internal/worker/worker.go:55-186). */
module Pools {
  import opened Results
  import opened Text
  import opened Deliveries
  import opened Journal
  import opened Events
  import opened Selections
  import opened Stores
  import opened Targets
  import opened Attempts
  import opened Backoffs

  const SECOND: Duration := 1_000_000_000

  class Pool {
    const store: Store
    const leaseDuration: Duration
    const baseBackoff: Duration
    const maxBackoff: Duration
    const perTarget: nat
    // the origin of a URL, and the FNV hash of a string
    const targetKey: Bytes -> Bytes
    const fnv: Bytes -> nat
    var activeTargets: map<Bytes, nat>
    var attempts: nat
    var succeeded: nat
    var retryableFailure: nat
    var terminalFailure: nat

    ghost predicate Valid()
      reads this, store
    {
      store.Valid() && leaseDuration > 0 && baseBackoff > 0 && maxBackoff > 0 && perTarget > 0
    }

    constructor (store: Store, targetKey: Bytes -> Bytes, fnv: Bytes -> nat,
                 leaseDuration: Duration, baseBackoff: Duration, maxBackoff: Duration, perTarget: int)
      requires store.Valid()
      ensures Valid() && activeTargets == map[] && this.store == store
      ensures this.targetKey == targetKey && this.perTarget == (if perTarget < 1 then 1 else perTarget)
      ensures this.leaseDuration == if leaseDuration <= 0 then 30_000_000_000 else leaseDuration
      ensures this.baseBackoff == if baseBackoff <= 0 then 1_000_000_000 else baseBackoff
      ensures this.maxBackoff == if maxBackoff <= 0 then 300_000_000_000 else maxBackoff
    {
      this.store, this.targetKey, this.fnv := store, targetKey, fnv;
      this.leaseDuration := if leaseDuration <= 0 then 30 * SECOND else leaseDuration;
      this.baseBackoff := if baseBackoff <= 0 then SECOND else baseBackoff;
      this.maxBackoff := if maxBackoff <= 0 then 300 * SECOND else maxBackoff;
      this.perTarget := if perTarget < 1 then 1 else perTarget;
      this.activeTargets := map[];
      this.attempts, this.succeeded, this.retryableFailure, this.terminalFailure := 0, 0, 0, 0;
    }

    // claimDue: the first due delivery whose origin has room; it counts as under
    // way only once its claim is journaled.
    method ClaimDue(now: int, io: AppendIO) returns (claimed: seq<Delivery>, ok: bool)
      requires Valid()
      modifies this`activeTargets,
        store`disk, store`persistenceErr, store`records, store`log, store`stray, store`items, store`hashes, store`keyToId
      ensures Valid() && old(store.log) <= store.log
      ensures TookFirst(old(store.Maps()), store.items, now, leaseDuration as int, 1,
                        Room(old(activeTargets), perTarget, targetKey), claimed, ok)
      ensures store.hashes == old(store.hashes)
      ensures Consistent(old(store.Maps())) ==> store.keyToId == old(store.keyToId)
      ensures store.persistenceErr == (old(store.persistenceErr) || !ok)
      ensures |claimed| <= 1 && (!ok ==> claimed == [])
      ensures claimed != [] ==> old(store.Appends(io))
      ensures !ok ==> !old(store.Appends(io))
      ensures ClaimedWithRoom(old(store.items), store.items, now, leaseDuration as int,
                              old(activeTargets), perTarget, targetKey, claimed, ok)
      ensures activeTargets ==
        if claimed == [] then old(activeTargets) else Raised(old(activeTargets), targetKey(claimed[0].url))
    {
      ghost var m := store.Maps();
      claimed, ok := ClaimOne(now, io);
      TookWithRoom(m, store.items, now, leaseDuration as int, activeTargets, perTarget, targetKey, claimed, ok);
      if ok && |claimed| == 1 {
        activeTargets := Raised(activeTargets, targetKey(claimed[0].url));
      }
    }

    method ClaimOne(now: int, io: AppendIO) returns (claimed: seq<Delivery>, ok: bool)
      requires Valid()
      modifies store`disk, store`persistenceErr, store`records, store`log, store`stray,
        store`items, store`hashes, store`keyToId
      ensures Valid() && old(store.log) <= store.log
      ensures TookFirst(old(store.Maps()), store.items, now, leaseDuration as int, 1,
                        Room(activeTargets, perTarget, targetKey), claimed, ok)
      ensures store.hashes == old(store.hashes)
      ensures Consistent(old(store.Maps())) ==> store.keyToId == old(store.keyToId)
      ensures store.persistenceErr == (old(store.persistenceErr) || !ok)
      ensures |claimed| <= 1 && (!ok ==> claimed == [])
      ensures claimed != [] ==> old(store.Appends(io))
      ensures !ok ==> !old(store.Appends(io))
    {
      var room := Room(activeTargets, perTarget, targetKey);
      claimed, ok := store.ClaimDueMatching(now, leaseDuration as int, 1, room, i => io);
    }

    // releaseTarget
    method ReleaseTarget(item: Delivery)
      modifies this`activeTargets
      ensures activeTargets == Lowered(old(activeTargets), targetKey(item.url))
    {
      var key := targetKey(item.url);
      if Load(activeTargets, key) <= 1 {
        activeTargets := activeTargets - {key};
        return;
      }
      activeTargets := activeTargets[key := activeTargets[key] - 1];
    }

    // deliver: count the attempt and record what came of it, if the lease still
    // stands. `nextFrom` and `now` are its two readings of the clock.
    method Deliver(item: Delivery, x: Exchange, nextFrom: int, now: int, io: AppendIO)
        returns (ghost next: int, ghost stored: bool)
      requires Valid()
      modifies this`attempts, this`succeeded, this`retryableFailure, this`terminalFailure,
        store`disk, store`persistenceErr, store`records, store`log, store`stray, store`items, store`hashes, store`keyToId
      ensures Valid() && old(store.log) <= store.log && nextFrom <= next <= nextFrom + maxBackoff as int
      ensures stored <==> LeaseHeld(old(store.Maps()), item.id, item.attempts) && old(store.Appends(io))
      ensures LeaseHeld(old(store.Maps()), item.id, item.attempts) ==>
        && Enabled(old(store.Maps()), Verdict(item, x, next, now))
        && store.Maps() == (if stored then Effect(old(store.Maps()), Verdict(item, x, next, now)) else old(store.Maps()))
      ensures !LeaseHeld(old(store.Maps()), item.id, item.attempts) ==> unchanged(store)
      ensures LeaseHeld(old(store.Maps()), item.id, item.attempts) ==> store.persistenceErr == !stored
      ensures stored ==> Recorded(old(store.items), store.items, item, x, nextFrom + WaitAfter(item), now)
      ensures attempts == old(attempts) + 1
      ensures var v := Verdict(item, x, next, now);
        && succeeded == old(succeeded) + (if stored && v.Succeed? then 1 else 0)
        && retryableFailure == old(retryableFailure) + (if stored && v.Fail? && !v.terminal then 1 else 0)
        && terminalFailure == old(terminalFailure) + (if stored && v.Fail? && v.terminal then 1 else 0)
    {
      ghost var m := store.Maps();
      attempts := attempts + 1;
      next, stored := Record(item, x, nextFrom, now, io);
      if stored { VerdictIsRecorded(m, item, x, next, nextFrom + WaitAfter(item), now); }
    }

    method Record(item: Delivery, x: Exchange, nextFrom: int, now: int, io: AppendIO)
        returns (ghost next: int, ghost stored: bool)
      requires Valid()
      modifies this`succeeded, this`retryableFailure, this`terminalFailure,
        store`disk, store`persistenceErr, store`records, store`log, store`stray, store`items, store`hashes, store`keyToId
      ensures Valid() && old(store.log) <= store.log && nextFrom <= next <= nextFrom + maxBackoff as int
      ensures Verdict(item, x, next, now).Fail? ==> next == nextFrom + WaitAfter(item)
      ensures stored <==> LeaseHeld(old(store.Maps()), item.id, item.attempts) && old(store.Appends(io))
      ensures LeaseHeld(old(store.Maps()), item.id, item.attempts) ==>
        && Enabled(old(store.Maps()), Verdict(item, x, next, now))
        && store.Maps() == (if stored then Effect(old(store.Maps()), Verdict(item, x, next, now)) else old(store.Maps()))
      ensures !LeaseHeld(old(store.Maps()), item.id, item.attempts) ==> unchanged(store)
      ensures LeaseHeld(old(store.Maps()), item.id, item.attempts) ==> store.persistenceErr == !stored
      ensures var v := Verdict(item, x, next, now);
        && succeeded == old(succeeded) + (if stored && v.Succeed? then 1 else 0)
        && retryableFailure == old(retryableFailure) + (if stored && v.Fail? && !v.terminal then 1 else 0)
        && terminalFailure == old(terminalFailure) + (if stored && v.Fail? && v.terminal then 1 else 0)
    {
      next, stored := nextFrom, false;
      var code, error := Sent(x).0, Sent(x).1;
      if error.None? && Good(code) {
        var done := store.Succeed(item.id, item.attempts, code, now, io);
        if done.Err? { return; }
        succeeded, stored := succeeded + 1, true;
        return;
      }
      next, stored := Fail(item, code, error, nextFrom, now, io);
    }

    method Fail(item: Delivery, code: int, error: Option<Bytes>, nextFrom: int, now: int, io: AppendIO)
        returns (ghost next: int, ghost stored: bool)
      requires Valid() && code >= 0 && !(error.None? && Good(code))
      modifies this`retryableFailure, this`terminalFailure,
        store`disk, store`persistenceErr, store`records, store`log, store`stray, store`items, store`hashes, store`keyToId
      ensures Valid() && old(store.log) <= store.log
      ensures next == nextFrom + WaitAfter(item) && nextFrom <= next <= nextFrom + maxBackoff as int
      ensures stored <==> LeaseHeld(old(store.Maps()), item.id, item.attempts) && old(store.Appends(io))
      ensures LeaseHeld(old(store.Maps()), item.id, item.attempts) ==>
        && Enabled(old(store.Maps()), Decision(item, code, error, next, now))
        && store.Maps() == if stored then Effect(old(store.Maps()), Decision(item, code, error, next, now))
                           else old(store.Maps())
      ensures !LeaseHeld(old(store.Maps()), item.id, item.attempts) ==> unchanged(store)
      ensures LeaseHeld(old(store.Maps()), item.id, item.attempts) ==> store.persistenceErr == !stored
      ensures var v := Decision(item, code, error, next, now);
        && v.Fail?
        && retryableFailure == old(retryableFailure) + (if stored && !v.terminal then 1 else 0)
        && terminalFailure == old(terminalFailure) + (if stored && v.terminal then 1 else 0)
    {
      var message := FailureMessage(code, error);
      var retryable := RetryableStatus(code) || (error.Some? && (code == 0 || Good(code)));
      var terminal := !retryable || item.attempts >= item.maxAttempts;
      var when := NextAttempt(item, nextFrom);
      var done := FailItem(item, code, message, when, terminal, now, io);
      next, stored := when, done;
      if !done { return; }
      if terminal { terminalFailure := terminalFailure + 1; } else { retryableFailure := retryableFailure + 1; }
    }

    method FailItem(item: Delivery, code: int, message: Bytes, when: int, terminal: bool, now: int, io: AppendIO)
        returns (stored: bool)
      requires Valid()
      modifies store`disk, store`persistenceErr, store`records, store`log, store`stray,
        store`items, store`hashes, store`keyToId
      ensures Valid() && old(store.log) <= store.log
      ensures stored <==> LeaseHeld(old(store.Maps()), item.id, item.attempts) && old(store.Appends(io))
      ensures LeaseHeld(old(store.Maps()), item.id, item.attempts) ==>
        var ev := Event.Fail(item.id, item.attempts, code, message, when, terminal, now);
        && store.Maps() == (if stored then Effect(old(store.Maps()), ev) else old(store.Maps()))
        && store.persistenceErr == !stored
      ensures !LeaseHeld(old(store.Maps()), item.id, item.attempts) ==> unchanged(store)
    {
      var done := store.Fail(item.id, item.attempts, code, message, when, terminal, now, io);
      stored := done.Ok?;
    }

    // The doubled and jittered wait that follows the attempt.
    function WaitAfter(item: Delivery): int {
      var n := if item.attempts < 1 then 1 else item.attempts;
      Jittered(Delay(baseBackoff as int, maxBackoff as int, item.attempts), maxBackoff as int,
               fnv(item.id + ":" + Decimal(n)))
    }

    method NextAttempt(item: Delivery, now: int) returns (when: int)
      requires Valid()
      ensures when == now + WaitAfter(item) && now <= when <= now + maxBackoff as int
    {
      var wait := Backoff(fnv, baseBackoff, maxBackoff, item.id, item.attempts);
      WaitIsBounded(baseBackoff as int, maxBackoff as int, item.attempts);
      when := now + wait as int;
    }

    // One turn of a worker's loop; `x` is what comes of its attempt.
    method Turn(now: int, x: Exchange, nextFrom: int, later: int, claimIO: AppendIO, reportIO: AppendIO) returns (worked: bool)
      requires Valid() && NoZeros(activeTargets)
      modifies this`activeTargets, this`attempts, this`succeeded, this`retryableFailure, this`terminalFailure,
        store`disk, store`persistenceErr, store`records, store`log, store`stray, store`items, store`hashes, store`keyToId
      ensures Valid() && old(store.log) <= store.log && activeTargets == old(activeTargets)
      ensures attempts == old(attempts) + (if worked then 1 else 0)
    {
      ghost var was := activeTargets;
      var claimed, ok := ClaimDue(now, claimIO);
      if !ok || |claimed| != 1 { return false; }
      ReleaseUndoesClaim(was, targetKey(claimed[0].url));
      var next, stored := Deliver(claimed[0], x, nextFrom, later, reportIO);
      ReleaseTarget(claimed[0]);
      return true;
    }
  }

  lemma WaitIsBounded(base: int, maximum: int, attempt: int)
    requires base > 0 && maximum > 0
    ensures forall h: nat :: 0 <= Jittered(Delay(base, maximum, attempt), maximum, h) <= maximum
  {
    forall h: nat ensures 0 <= Jittered(Delay(base, maximum, attempt), maximum, h) <= maximum {
      WaitRange(base, maximum, attempt, h);
    }
  }
}
