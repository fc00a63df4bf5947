/** What the runs of PoolRuns mean for a pool object: each call of one of its
    methods, or of its store's, is a move, in whatever order the workers, the API
    and maintenance make them (internal/worker/worker.go:103-186). */
module PoolCalls {
  import opened Results
  import opened Text
  import opened Deliveries
  import opened Journal
  import opened Requests
  import opened Events
  import opened EventProofs
  import opened Selections
  import opened Stores
  import opened Targets
  import opened Attempts
  import opened Backoffs
  import opened Pools
  import opened PoolRuns

  function SettingsOf(pool: Pool): Settings { Settings(pool.perTarget, pool.leaseDuration as int, pool.targetKey) }

  // The settings of a pool made by New.
  function Configured(lease: Duration, perTarget: int, key: Bytes -> Bytes): Settings {
    Settings(if perTarget < 1 then 1 else perTarget, (if lease <= 0 then 30 * SECOND else lease) as int, key)
  }

  // The fields of the pool and its store are those of the state.
  ghost predicate Shows(pool: Pool, s: State)
    reads pool, pool.store
  {
    && s.mem == pool.store.Maps() && s.active == pool.activeTargets
    && (!pool.store.persistenceErr ==> s.stray.None?)
  }

  // The pool is where the moves of its n workers lead.
  ghost predicate InStep(pool: Pool, c: Codec, n: nat, mvs: seq<Move>)
    reads pool, pool.store
  {
    && pool.Valid() && Played(c, SettingsOf(pool), n, mvs).Some?
    && Shows(pool, Played(c, SettingsOf(pool), n, mvs).value)
  }

  ghost function StateOf(pool: Pool, c: Codec, n: nat, mvs: seq<Move>): State
    requires Played(c, SettingsOf(pool), n, mvs).Some?
  {
    Played(c, SettingsOf(pool), n, mvs).value
  }

  // What a pool in step has, whatever was called: exact counts within the limit,
  // none when no worker is busy, maps that agree, and attempts left for pending work.
  lemma CallsKeepPromises(pool: Pool, c: Codec, n: nat, mvs: seq<Move>)
    requires InStep(pool, c, n, mvs)
    ensures var s := StateOf(pool, c, n, mvs);
      && |s.workers| == n
      && (forall k :: Load(pool.activeTargets, k) == |Holders(pool.targetKey, s.workers, k)| <= pool.perTarget)
      && NoZeros(pool.activeTargets) && Total(pool.activeTargets) <= n
      && ((forall w | 0 <= w < n :: !Busy(s.workers[w])) ==> pool.activeTargets == map[])
    ensures Consistent(pool.store.Maps()) && pool.store.items.Keys <= StateOf(pool, c, n, mvs).born
    ensures forall id | id in pool.store.items && pool.store.items[id].status.Pending? ::
      pool.store.items[id].attempts < pool.store.items[id].maxAttempts
  {
    var g := SettingsOf(pool);
    RunCounts(c, g, n, mvs);
    PoolIsConserved(c, g, n, mvs);
    var ms := PoolRunIsFollowed(c, g, n, mvs);
    forall id | id in pool.store.items && pool.store.items[id].status.Pending?
      ensures pool.store.items[id].attempts < pool.store.items[id].maxAttempts
    {
      PendingHasBudget(c, g, n, mvs, id);
    }
  }

  // A move that leads to the pool's fields.
  lemma MovedBy(pool: Pool, c: Codec, n: nat, mvs: seq<Move>, mv: Move)
    requires pool.Valid() && Played(c, SettingsOf(pool), n, mvs).Some?
    requires CanMove(SettingsOf(pool), StateOf(pool, c, n, mvs), mv)
    requires Shows(pool, Moved(c, SettingsOf(pool), StateOf(pool, c, n, mvs), mv))
    ensures InStep(pool, c, n, mvs + [mv])
    ensures StateOf(pool, c, n, mvs + [mv]) == Moved(c, SettingsOf(pool), StateOf(pool, c, n, mvs), mv)
  {
    assert (mvs + [mv])[..|mvs + [mv]| - 1] == mvs;
  }

  // ---- The workers' calls ----

  // What ClaimDue does to the maps and the counts is what the move does.
  lemma ClaimIsTake(g: Settings, s: State, w: nat, now: int, saved: bool, claimed: seq<Delivery>, ok: bool, after: Mem)
    requires AtWork(s, w) && Consistent(s.mem)
    requires TookFirst(s.mem, after.items, now, g.lease, 1, Room(s.active, g.perTarget, g.key), claimed, ok)
    requires after.hashes == s.mem.hashes && after.keyToId == s.mem.keyToId
    requires (claimed != [] ==> saved) && (!ok ==> !saved)
    ensures Given(g, s, Taken(g, s, w, now, saved), w, claimed, ok) && Taken(g, s, w, now, saved).mem == after
  {
    ClaimOfOne(s.mem, after.items, now, g.lease, Room(s.active, g.perTarget, g.key), claimed, ok);
    var d := NextUp(g, s, now);
    if claimed != [] {
      assert claimed[0].url == d.value.url;
      ClaimKeepsRest(s.mem, d.value.id, now, g.lease);
      TakenOne(g, s, w, now, d.value);
    } else if d.Some? {
      HeadIsDue(s.mem, now, Room(s.active, g.perTarget, g.key));
    }
  }

  // A worker is given what was claimed, and its origin's count goes up.
  ghost predicate Given(g: Settings, s: State, t: State, w: nat, claimed: seq<Delivery>, ok: bool)
    requires AtWork(s, w)
  {
    && |claimed| <= 1 && (ok ==> t.stray == s.stray) && t.born == s.born
    && t.active == (if claimed == [] then s.active else Raised(s.active, g.key(claimed[0].url)))
    && t.workers == (if claimed == [] then s.workers else s.workers[w := Holding(claimed[0])])
  }

  lemma TakenOne(g: Settings, s: State, w: nat, now: int, d: Delivery)
    requires AtWork(s, w) && NextUp(g, s, now) == Some(d) && Enabled(s.mem, Claim(d.id, now, g.lease))
    ensures var t := Taken(g, s, w, now, true);
      t.mem == Effect(s.mem, Claim(d.id, now, g.lease)) && Given(g, s, t, w, [Claimed(d, now, g.lease)], true)
  {
  }

  lemma ClaimKeepsRest(m: Mem, id: Bytes, now: int, lease: int)
    requires Consistent(m) && Enabled(m, Claim(id, now, lease))
    ensures Effect(m, Claim(id, now, lease)).hashes == m.hashes
    ensures Effect(m, Claim(id, now, lease)).keyToId == m.keyToId
  {
    EffectOfPut(m, Claim(id, now, lease));
  }

  // What ClaimDue did, starting in state s.
  ghost predicate Took(pool: Pool, s: State, now: int, claimed: seq<Delivery>, ok: bool)
    requires Consistent(s.mem)
    reads pool, pool.store
  {
    var g := SettingsOf(pool);
    && TookFirst(s.mem, pool.store.items, now, g.lease, 1, Room(s.active, g.perTarget, g.key), claimed, ok)
    && pool.store.hashes == s.mem.hashes && pool.store.keyToId == s.mem.keyToId
    && pool.activeTargets == (if claimed == [] then s.active else Raised(s.active, g.key(claimed[0].url)))
    && (!pool.store.persistenceErr ==> ok && s.stray.None?)
  }

  lemma TakeShows(pool: Pool, s: State, w: nat, now: int, saved: bool, claimed: seq<Delivery>, ok: bool)
    requires AtWork(s, w) && s.workers[w].Waiting? && Consistent(s.mem) && Took(pool, s, now, claimed, ok)
    requires (claimed != [] ==> saved) && (!ok ==> !saved)
    ensures Shows(pool, Taken(SettingsOf(pool), s, w, now, saved)) && |claimed| <= 1
    ensures Taken(SettingsOf(pool), s, w, now, saved).workers
      == s.workers[w := if claimed == [] then Waiting else Holding(claimed[0])]
  {
    ClaimIsTake(SettingsOf(pool), s, w, now, saved, claimed, ok, pool.store.Maps());
  }

  // claimDue is a Take: the worker holds what it is given.
  method ClaimAs(pool: Pool, now: int, io: AppendIO, ghost c: Codec, ghost n: nat, ghost mvs: seq<Move>, ghost w: nat)
      returns (claimed: seq<Delivery>, ok: bool, ghost more: seq<Move>)
    requires InStep(pool, c, n, mvs) && AtWork(StateOf(pool, c, n, mvs), w) && StateOf(pool, c, n, mvs).workers[w].Waiting?
    modifies pool, pool.store
    ensures InStep(pool, c, n, more) && old(pool.store.log) <= pool.store.log
    ensures more == mvs + [Take(w, now, old(pool.store.Appends(io)))]
    ensures |claimed| <= 1 && StateOf(pool, c, n, more).workers
      == StateOf(pool, c, n, mvs).workers[w := if claimed == [] then Waiting else Holding(claimed[0])]
  {
    ghost var s, saved := StateOf(pool, c, n, mvs), pool.store.Appends(io);
    CallsKeepPromises(pool, c, n, mvs);
    claimed, ok := pool.ClaimDue(now, io);
    more := mvs + [Take(w, now, saved)];
    TakeShows(pool, s, w, now, saved, claimed, ok);
    MovedBy(pool, c, n, mvs, Take(w, now, saved));
  }

  // deliver, on the copy that the worker holds, is a Report.
  method ReportAs(pool: Pool, item: Delivery, x: Exchange, nextFrom: int, now: int, io: AppendIO,
                  ghost c: Codec, ghost n: nat, ghost mvs: seq<Move>, ghost w: nat)
      returns (ghost next: int, ghost more: seq<Move>)
    requires InStep(pool, c, n, mvs) && AtWork(StateOf(pool, c, n, mvs), w)
    requires StateOf(pool, c, n, mvs).workers[w] == Holding(item)
    modifies pool, pool.store
    ensures InStep(pool, c, n, more) && old(pool.store.log) <= pool.store.log
    ensures more == mvs + [Report(w, x, next, now, old(pool.store.Appends(io)))]
    ensures nextFrom <= next <= nextFrom + pool.maxBackoff as int
    ensures StateOf(pool, c, n, more).workers == StateOf(pool, c, n, mvs).workers[w := Reported(item)]
  {
    ghost var saved := pool.store.Appends(io);
    ghost var stored;
    next, stored := pool.Deliver(item, x, nextFrom, now, io);
    VerdictPartition(item, x, next, now);
    more := mvs + [Report(w, x, next, now, saved)];
    MovedBy(pool, c, n, mvs, Report(w, x, next, now, saved));
  }

  // releaseTarget is a Release.
  method ReleaseAs(pool: Pool, item: Delivery, ghost c: Codec, ghost n: nat, ghost mvs: seq<Move>, ghost w: nat)
      returns (ghost more: seq<Move>)
    requires InStep(pool, c, n, mvs) && AtWork(StateOf(pool, c, n, mvs), w)
    requires StateOf(pool, c, n, mvs).workers[w] == Reported(item)
    modifies pool
    ensures InStep(pool, c, n, more) && more == mvs + [Release(w)]
    ensures StateOf(pool, c, n, more).workers == StateOf(pool, c, n, mvs).workers[w := Waiting]
  {
    pool.ReleaseTarget(item);
    more := mvs + [Release(w)];
    MovedBy(pool, c, n, mvs, Release(w));
  }

  // ---- The others' calls ----

  // A mutation of the API or of maintenance, saved or failed, is a Serve.
  lemma ServedBy(pool: Pool, c: Codec, n: nat, mvs: seq<Move>, ev: Event, saved: bool)
    requires pool.Valid() && Played(c, SettingsOf(pool), n, mvs).Some?
    requires CanMove(SettingsOf(pool), StateOf(pool, c, n, mvs), Serve(ev, saved))
    requires var s := StateOf(pool, c, n, mvs);
      && pool.store.Maps() == (if saved then Effect(s.mem, ev) else s.mem)
      && pool.activeTargets == s.active && pool.store.persistenceErr == !saved
    ensures InStep(pool, c, n, mvs + [Serve(ev, saved)])
    ensures StateOf(pool, c, n, mvs + [Serve(ev, saved)]).workers == StateOf(pool, c, n, mvs).workers
  {
    MovedBy(pool, c, n, mvs, Serve(ev, saved));
  }

  // Cancel and Retry.
  method CommandAs(pool: Pool, id: Bytes, cancel: bool, now: int, io: AppendIO,
                   ghost c: Codec, ghost n: nat, ghost mvs: seq<Move>) returns (r: Result<Delivery>, ghost more: seq<Move>)
    requires InStep(pool, c, n, mvs)
    modifies pool.store
    ensures InStep(pool, c, n, more) && old(pool.store.log) <= pool.store.log
    ensures var ev := if cancel then Event.Cancel(id, now) else Event.Retry(id, now);
      more == if Enabled(old(pool.store.Maps()), ev) then mvs + [Serve(ev, r.Ok?)] else mvs
  {
    ghost var ev := if cancel then Event.Cancel(id, now) else Event.Retry(id, now);
    ghost var m := pool.store.Maps();
    if cancel { r := pool.store.Cancel(id, now, io); } else { r := pool.store.Retry(id, now, io); }
    more := mvs;
    if Enabled(m, ev) {
      more := mvs + [Serve(ev, r.Ok?)];
      ServedBy(pool, c, n, mvs, ev, r.Ok?);
    }
  }

  // PruneTerminal.
  method PruneAs(pool: Pool, before: int, io: AppendIO, ghost c: Codec, ghost n: nat, ghost mvs: seq<Move>)
      returns (r: Result<nat>, ghost more: seq<Move>)
    requires InStep(pool, c, n, mvs)
    modifies pool.store
    ensures InStep(pool, c, n, more) && old(pool.store.log) <= pool.store.log
    ensures more == if PrunableIds(old(pool.store.Maps()), before) == {} then mvs
                    else mvs + [Serve(PruneEvent(old(pool.store.Maps()), before), r.Ok?)]
  {
    ghost var m := pool.store.Maps();
    r := pool.store.PruneTerminal(before, io);
    more := mvs;
    if PrunableIds(m, before) != {} {
      PruneEnabled(m, before);
      more := mvs + [Serve(PruneEvent(m, before), r.Ok?)];
      ServedBy(pool, c, n, mvs, PruneEvent(m, before), r.Ok?);
    }
  }

  // Create: a Serve once the new delivery is admitted; a request that is refused,
  // or answered from the maps, is no move.
  method CreateAs(pool: Pool, lib: Library, req: Request, now: int, newId: Option<Bytes>, statted: bool, io: AppendIO,
                  ghost c: Codec, ghost n: nat, ghost mvs: seq<Move>)
      returns (r: Result<(Delivery, bool)>, ghost ev: Event, ghost more: seq<Move>)
    requires InStep(pool, c, n, mvs) && ParsesNoControls(lib)
    requires newId.Some? ==> newId.value != "" && newId.value !in StateOf(pool, c, n, mvs).born
    modifies pool.store
    ensures InStep(pool, c, n, more) && old(pool.store.log) <= pool.store.log
    ensures more == if (r.Ok? && r.value.1) || r == Err(Persistence) then mvs + [Serve(ev, r.Ok?)] else mvs
    ensures ev.Create? && (r.Ok? && r.value.1 ==> ev.d == r.value.0 && newId == Some(ev.d.id))
  {
    CallsKeepPromises(pool, c, n, mvs);
    ghost var normal;
    r, normal := pool.store.Create(lib, req, now, newId, statted, io);
    more, ev := mvs, Event.Create(NO_DELIVERY, "");
    if (r.Ok? && r.value.1) || r == Err(Persistence) {
      ev := Event.Create(NewDelivery(normal, newId.value, now), lib.digest(Preimage(normal)));
      more := mvs + [Serve(ev, r.Ok?)];
      ServedBy(pool, c, n, mvs, ev, r.Ok?);
    }
  }

  // Compact: once persistence works again, a Repair.
  method CompactAs(pool: Pool, temp: nat, io: CompactIO, ghost c: Codec, ghost n: nat, ghost mvs: seq<Move>)
      returns (r: Result<()>, ghost more: seq<Move>)
    requires InStep(pool, c, n, mvs) && temp !in pool.store.disk.files
    modifies pool.store
    ensures InStep(pool, c, n, more) && old(pool.store.log) <= pool.store.log
    ensures more == if pool.store.persistenceErr then mvs else mvs + [Repair]
  {
    r := pool.store.Compact(temp, io);
    more := mvs;
    if !pool.store.persistenceErr {
      more := mvs + [Repair];
      MovedBy(pool, c, n, mvs, Repair);
    }
  }

  // New: a pool over a store that was just opened, at first or after a reboot.
  method LaunchAs(store: Store, targetKey: Bytes -> Bytes, fnv: Bytes -> nat, lease: Duration, base: Duration,
                  maximum: Duration, perTarget: int, ghost c: Codec, ghost n: nat, ghost mvs: seq<Move>)
      returns (pool: Pool)
    requires store.Valid()
    requires var last := Played(c, Configured(lease, perTarget, targetKey), n, mvs);
      last.Some? && last.value.mem == store.Maps() && last.value.stray.None? && last.value.active == map[]
    ensures fresh(pool) && pool.store == store && InStep(pool, c, n, mvs)
  {
    pool := new Pool(store, targetKey, fnv, lease, base, maximum, perTarget);
    assert SettingsOf(pool) == Configured(lease, perTarget, targetKey);
  }
}
