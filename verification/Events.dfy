/** The mutations of the store, the journal records each one appends, and what
    each does to the maps (internal/store/store.go:160-353, 403-435). */
module Events {
  import opened Text
  import opened Deliveries
  import opened Journal

  datatype Event =
    | Create(d: Delivery, hash: Bytes)
    | Claim(id: Bytes, now: int, lease: int)
    | Succeed(id: Bytes, attempt: int, code: int, now: int)
    | Fail(id: Bytes, attempt: int, code: int, message: Bytes, next: int, terminal: bool, now: int)
    | Cancel(id: Bytes, now: int)
    | Retry(id: Bytes, now: int)
    | Prune(ids: seq<Bytes>, before: int)

  // currentLeaseLocked accepts the attempt.
  predicate LeaseHeld(m: Mem, id: Bytes, attempt: int) {
    id in m.items && m.items[id].status.InFlight? && m.items[id].attempts == attempt
  }

  // A delivery as delivery.New returns it.
  predicate Fresh(d: Delivery) {
    && d.id != "" && d.status.Pending? && d.attempts == 0 && d.maxAttempts >= 1
    && d.leaseUntil == NO_TIME && d.lastError == "" && d.nextAttemptAt == d.createdAt == d.updatedAt
  }

  predicate Prunable(d: Delivery, before: int) { Terminal(d) && d.updatedAt <= before }

  // The guard under which the source performs the mutation. That a created ID is
  // new is the assumption made of newID.
  predicate Enabled(m: Mem, ev: Event) {
    match ev
    case Create(d, _) => Fresh(d) && d.id !in m.items && (d.key == "" || d.key !in m.keyToId)
    case Claim(id, now, _) => id in m.items && Due(m.items[id], now)
    case Succeed(id, attempt, _, _) => LeaseHeld(m, id, attempt)
    case Fail(id, attempt, _, _, _, _, _) => LeaseHeld(m, id, attempt)
    case Cancel(id, _) => id in m.items && !Terminal(m.items[id])
    case Retry(id, _) => id in m.items && m.items[id].status.Failed?
    case Prune(ids, before) =>
      && (forall i | 0 <= i < |ids| :: ids[i] in m.items && Prunable(m.items[ids[i]], before))
      && (forall i, j | 0 <= i < j < |ids| :: ids[i] != ids[j])
  }

  function Subject(ev: Event): Bytes
    requires !ev.Prune?
  {
    if ev.Create? then ev.d.id else ev.id
  }

  predicate Touches(ev: Event, id: Bytes) {
    if ev.Prune? then id in ev.ids else Subject(ev) == id
  }

  // The delivery that a mutation of one delivery stores.
  function Outcome(m: Mem, ev: Event): Delivery
    requires Enabled(m, ev) && !ev.Prune?
  {
    match ev
    case Create(d, _) => d
    case Claim(id, now, lease) => Claimed(m.items[id], now, lease)
    case Succeed(id, _, code, now) => SucceededWith(m.items[id], code, now)
    case Fail(id, _, code, message, next, terminal, now) =>
      FailedWith(m.items[id], code, message, next, terminal, now)
    case Cancel(id, now) => CanceledAt(m.items[id], now)
    case Retry(id, now) => RetriedAt(m.items[id], now)
  }

  function OutcomeHash(m: Mem, ev: Event): Bytes
    requires !ev.Prune?
  {
    if ev.Create? then ev.hash else Lookup(m.hashes, ev.id)
  }

  function Tombstones(ids: seq<Bytes>): seq<Record> {
    seq(|ids|, i requires 0 <= i < |ids| => Tombstone(ids[i]))
  }

  function Records(m: Mem, ev: Event): seq<Record>
    requires Enabled(m, ev)
  {
    if ev.Prune? then Tombstones(ev.ids) else [Put(Outcome(m, ev), OutcomeHash(m, ev))]
  }

  function Effect(m: Mem, ev: Event): Mem
    requires Enabled(m, ev)
  {
    ApplyAll(m, Records(m, ev))
  }

  // What the first j records of the mutation do: none, all, or for a prune a
  // smaller prune.
  function Part(ev: Event, j: nat): Event
    requires ev.Prune? ==> j <= |ev.ids|
  {
    if ev.Prune? then ev.(ids := ev.ids[..j]) else ev
  }
}

module EventProofs {
  import opened Text
  import opened Deliveries
  import opened Journal
  import opened Events

  lemma OneRecord(m: Mem, r: Record)
    ensures ApplyAll(m, [r]) == Apply(m, r)
  {
    assert [r][1..] == [];
    assert ApplyAll(Apply(m, r), []) == Apply(m, r);
  }

  lemma EffectOfPut(m: Mem, ev: Event)
    requires Enabled(m, ev) && !ev.Prune?
    ensures Effect(m, ev) == Set(m, Outcome(m, ev), OutcomeHash(m, ev))
  {
    OneRecord(m, Put(Outcome(m, ev), OutcomeHash(m, ev)));
  }

  lemma OutcomeKeepsId(m: Mem, ev: Event)
    requires Indexed(m) && Enabled(m, ev) && !ev.Prune?
    ensures Outcome(m, ev).id == Subject(ev) && Subject(ev) != ""
    ensures !ev.Create? ==> IdentityOf(Outcome(m, ev)) == IdentityOf(m.items[ev.id])
  {
  }

  lemma SetConsistent(m: Mem, d: Delivery, hash: Bytes)
    requires Consistent(m) && d.id != ""
    requires d.id in m.items ==> m.items[d.id].key == d.key
    requires d.id !in m.items && d.key != "" ==> d.key !in m.keyToId
    ensures Consistent(Set(m, d, hash))
  {
  }

  lemma DeleteConsistent(m: Mem, id: Bytes)
    requires Consistent(m)
    ensures Consistent(Delete(m, id))
  {
  }

  function Without<V>(m: map<Bytes, V>, ids: seq<Bytes>): map<Bytes, V> {
    map id | id in m && id !in ids :: m[id]
  }

  lemma DeleteFirst(m: Mem, ids: seq<Bytes>)
    requires Indexed(m) && ids != []
    ensures Without(Delete(m, ids[0]).items, ids[1..]) == Without(m.items, ids)
    ensures Without(Delete(m, ids[0]).hashes, ids[1..]) == Without(m.hashes, ids)
  {
    assert forall id :: id in ids <==> id == ids[0] || id in ids[1..];
  }

  // Tombstones remove their deliveries and nothing else.
  lemma {:induction false} DeleteAll(m: Mem, ids: seq<Bytes>)
    requires Indexed(m) && forall i | 0 <= i < |ids| :: ids[i] != ""
    ensures Consistent(m) ==> Consistent(ApplyAll(m, Tombstones(ids)))
    ensures ApplyAll(m, Tombstones(ids)).items == Without(m.items, ids)
    ensures ApplyAll(m, Tombstones(ids)).hashes == Without(m.hashes, ids)
    decreases ids
  {
    if ids == [] {
      assert Tombstones(ids) == [];
    } else {
      if Consistent(m) { DeleteConsistent(m, ids[0]); }
      assert Tombstones(ids)[1..] == Tombstones(ids[1..]);
      assert Apply(m, Tombstones(ids)[0]) == Delete(m, ids[0]);
      DeleteAll(Delete(m, ids[0]), ids[1..]);
      DeleteFirst(m, ids);
    }
  }

  // Every mutation keeps keyToId the inverse of the live keys.
  lemma EffectConsistent(m: Mem, ev: Event)
    requires Consistent(m) && Enabled(m, ev)
    ensures Consistent(Effect(m, ev))
  {
    if ev.Prune? {
      DeleteAll(m, ev.ids);
    } else {
      EffectOfPut(m, ev);
      OutcomeKeepsId(m, ev);
      SetConsistent(m, Outcome(m, ev), OutcomeHash(m, ev));
    }
  }

  // A mutation changes the deliveries it touches and no other.
  lemma EffectFrame(m: Mem, ev: Event, id: Bytes)
    requires Consistent(m) && Enabled(m, ev) && !Touches(ev, id)
    ensures id in Effect(m, ev).items <==> id in m.items
    ensures id in m.items ==> Effect(m, ev).items[id] == m.items[id]
    ensures Lookup(Effect(m, ev).hashes, id) == Lookup(m.hashes, id)
  {
    if ev.Prune? {
      DeleteAll(m, ev.ids);
    } else {
      EffectOfPut(m, ev);
      OutcomeKeepsId(m, ev);
    }
  }

  lemma EffectOnSubject(m: Mem, ev: Event)
    requires Consistent(m) && Enabled(m, ev) && !ev.Prune?
    ensures Subject(ev) in Effect(m, ev).items
    ensures Effect(m, ev).items[Subject(ev)] == Outcome(m, ev)
    ensures Lookup(Effect(m, ev).hashes, Subject(ev)) == OutcomeHash(m, ev)
  {
    EffectOfPut(m, ev);
    OutcomeKeepsId(m, ev);
  }

  lemma RecordsApplicable(m: Mem, ev: Event)
    requires Indexed(m) && Enabled(m, ev)
    ensures forall i | 0 <= i < |Records(m, ev)| :: Applicable(Records(m, ev)[i])
  {
    if !ev.Prune? { OutcomeKeepsId(m, ev); }
  }

  // A front part of a mutation's records is nothing or a smaller mutation.
  lemma PartialEffect(m: Mem, ev: Event, j: nat)
    requires Indexed(m) && Enabled(m, ev) && 0 < j <= |Records(m, ev)|
    ensures Enabled(m, Part(ev, j))
    ensures ApplyAll(m, Records(m, ev)[..j]) == Effect(m, Part(ev, j))
  {
    if ev.Prune? {
      assert Records(m, ev)[..j] == Tombstones(ev.ids[..j]);
    } else {
      assert Records(m, ev)[..j] == Records(m, ev);
    }
  }

  // No mutation leaves the journaled state as it was.
  lemma EffectDiffers(c: Codec, m: Mem, ev: Event)
    requires Consistent(m) && Enabled(m, ev) && |Records(m, ev)| > 0
    ensures CanonMem(c, Effect(m, ev)) != CanonMem(c, m)
  {
    var a, b := CanonMem(c, Effect(m, ev)), CanonMem(c, m);
    if ev.Prune? {
      DeleteAll(m, ev.ids);
      assert ev.ids[0] in b.items && ev.ids[0] !in a.items;
    } else {
      EffectOnSubject(m, ev);
      if ev.Create? {
        assert ev.d.id in a.items && ev.d.id !in b.items;
      } else {
        assert m.items[ev.id].status != Outcome(m, ev).status || m.items[ev.id].attempts != Outcome(m, ev).attempts;
        assert a.items[ev.id] != b.items[ev.id];
      }
    }
  }

  lemma CanonConsistent(c: Codec, m: Mem)
    requires Consistent(m)
    ensures Consistent(CanonMem(c, m))
  {
  }
}
