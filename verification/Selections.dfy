/** Which deliveries a claim takes and which a prune removes. */
module Selections {
  import opened Results
  import opened Text
  import opened Sorting
  import Names
  import opened Deliveries
  import opened Journal
  import opened Events
  import opened EventProofs

  // The deliveries a claim may take.
  ghost function DueSet(m: Mem, now: int, eligible: Delivery -> bool): set<Delivery> {
    set id | id in m.items && Due(m.items[id], now) && eligible(m.items[id]) :: m.items[id]
  }

  lemma BeforeIsStrict(m: Mem, s: set<Delivery>)
    requires Indexed(m) && forall d | d in s :: d.id in m.items && m.items[d.id] == d
    ensures StrictOrder(Before, s)
  {
    forall x | x in s ensures !Before(x, x) { LessIrreflexive(x.id); }
    forall x, y | x in s && y in s && x != y ensures Before(x, y) || Before(y, x) {
      assert x.id != y.id;
      LessConnected(x.id, y.id);
    }
    forall x, y, z | x in s && y in s && z in s && Before(x, y) && Before(y, z) ensures Before(x, z) {
      if Less(x.id, y.id) && Less(y.id, z.id) { LessTransitive(x.id, y.id, z.id); }
    }
  }

  // All of them in claim order.
  ghost function ClaimOrder(m: Mem, now: int, eligible: Delivery -> bool): (q: seq<Delivery>)
    requires Indexed(m)
    ensures Lists(Before, q, DueSet(m, now, eligible)) && |q| == |DueSet(m, now, eligible)|
  {
    BeforeIsStrict(m, DueSet(m, now, eligible));
    Listing(Before, DueSet(m, now, eligible))
  }

  function Smaller(a: nat, b: nat): nat { if a <= b then a else b }

  // The items once those in q have been claimed.
  function ClaimedItems(items: map<Bytes, Delivery>, q: seq<Delivery>, now: int, lease: int): map<Bytes, Delivery> {
    map id | id in items :: if items[id] in q then Claimed(items[id], now, lease) else items[id]
  }

  function ClaimedSeq(q: seq<Delivery>, now: int, lease: int): seq<Delivery> {
    seq(|q|, i requires 0 <= i < |q| => Claimed(q[i], now, lease))
  }

  lemma ClaimedSeqGrows(q: seq<Delivery>, i: nat, now: int, lease: int)
    requires i < |q|
    ensures ClaimedSeq(q[..i + 1], now, lease) == ClaimedSeq(q[..i], now, lease) + [Claimed(q[i], now, lease)]
  {
  }

  lemma ClaimNextItem(m: Mem, q: seq<Delivery>, i: nat, now: int, lease: int)
    requires Indexed(m) && i < |q| && q[i].id in m.items && m.items[q[i].id] == q[i]
    requires forall x | 0 <= x < i :: q[x] != q[i]
    ensures ClaimedItems(m.items, q[..i], now, lease)[q[i].id] == q[i]
    ensures ClaimedItems(m.items, q[..i], now, lease)[q[i].id := Claimed(q[i], now, lease)]
      == ClaimedItems(m.items, q[..i + 1], now, lease)
  {
    assert q[..i + 1] == q[..i] + [q[i]];
    assert q[i] !in q[..i];
    var a := ClaimedItems(m.items, q[..i], now, lease)[q[i].id := Claimed(q[i], now, lease)];
    var b := ClaimedItems(m.items, q[..i + 1], now, lease);
    assert forall id | id in m.items && id != q[i].id :: m.items[id] != q[i];
    assert a == b;
  }

  // Different live deliveries, all of them due.
  ghost predicate Claimable(m: Mem, q: seq<Delivery>, now: int) {
    && (forall i | 0 <= i < |q| :: q[i].id in m.items && m.items[q[i].id] == q[i] && Due(q[i], now))
    && (forall i, j | 0 <= i < j < |q| :: q[i] != q[j])
  }

  // The first of the candidates are claimed, and nothing else has changed.
  ghost predicate ClaimedFirst(m: Mem, items: map<Bytes, Delivery>, hashes: map<Bytes, Bytes>,
                               candidates: seq<Delivery>, claimed: seq<Delivery>, now: int, lease: int) {
    && |claimed| <= |candidates| && hashes == m.hashes
    && claimed == ClaimedSeq(candidates[..|claimed|], now, lease)
    && items == ClaimedItems(m.items, candidates[..|claimed|], now, lease)
  }

  lemma NoneClaimed(m: Mem, candidates: seq<Delivery>, now: int, lease: int)
    ensures ClaimedFirst(m, m.items, m.hashes, candidates, [], now, lease)
  {
    assert candidates[..0] == [];
    assert ClaimedItems(m.items, [], now, lease) == m.items;
  }

  // The deliveries' keys lead to them already.
  ghost predicate KeysLead(m: Mem, q: seq<Delivery>) { forall i | 0 <= i < |q| :: KeyLeads(m.keyToId, q[i]) }

  predicate KeyLeads(keyToId: map<Bytes, Bytes>, d: Delivery) {
    d.key != "" ==> d.key in keyToId && keyToId[d.key] == d.id
  }

  lemma ConsistentKeysLead(m: Mem, q: seq<Delivery>, now: int)
    requires Consistent(m) && Claimable(m, q, now)
    ensures KeysLead(m, q)
  {
    forall i | 0 <= i < |q| ensures KeyLeads(m.keyToId, q[i]) { assert m.items[q[i].id] == q[i]; }
  }

  // What ClaimDueMatching did: it took the first of the due eligible deliveries
  // in claim order, `limit` of them if it can and has not failed, and changed
  // those and no others.
  ghost predicate TookFirst(m: Mem, after: map<Bytes, Delivery>, now: int, lease: int, limit: nat,
                            eligible: Delivery -> bool, claimed: seq<Delivery>, ok: bool)
    requires Indexed(m)
  {
    var q := ClaimOrder(m, now, eligible);
    && |claimed| <= Smaller(limit, |q|) && (ok <==> |claimed| == Smaller(limit, |q|))
    && claimed == ClaimedSeq(q[..|claimed|], now, lease)
    && after == ClaimedItems(m.items, q[..|claimed|], now, lease)
  }

  lemma TookCandidates(m: Mem, after: map<Bytes, Delivery>, now: int, lease: int, limit: nat,
                       eligible: Delivery -> bool, claimed: seq<Delivery>, ok: bool, candidates: seq<Delivery>)
    requires Indexed(m)
    requires candidates == ClaimOrder(m, now, eligible)[..Smaller(limit, |ClaimOrder(m, now, eligible)|)]
    requires ClaimedFirst(m, after, m.hashes, candidates, claimed, now, lease) && (ok <==> |claimed| == |candidates|)
    ensures TookFirst(m, after, now, lease, limit, eligible, claimed, ok)
  {
    var q := ClaimOrder(m, now, eligible);
    assert candidates[..|claimed|] == q[..|claimed|];
  }

  // Exactly what is claimed has changed, and by then it was pending and its time
  // had come, or in flight and its lease was over.
  ghost predicate ClaimedDueOnly(before: map<Bytes, Delivery>, after: map<Bytes, Delivery>, now: int, lease: int,
                                 eligible: Delivery -> bool, claimed: seq<Delivery>) {
    && after.Keys == before.Keys
    && (forall i | 0 <= i < |claimed| :: claimed[i].id in after && after[claimed[i].id] == claimed[i])
    && (forall i, j | 0 <= i < j < |claimed| :: claimed[i].id != claimed[j].id)
    && (forall id | id in before :: after[id] != before[id] <==> after[id] in claimed)
    && (forall id | id in before && after[id] != before[id] ::
          && (before[id].status.Pending? ==> before[id].nextAttemptAt <= now)
          && (!before[id].status.Pending? ==> before[id].status.InFlight? && before[id].leaseUntil <= now)
          && eligible(before[id])
          && after[id] == before[id].(status := InFlight, attempts := before[id].attempts + 1,
                                      leaseUntil := now + lease, updatedAt := now))
  }

  // d is no later than e: by next attempt, then creation, then ID.
  ghost predicate NoLater(d: Delivery, e: Delivery) {
    && d.nextAttemptAt <= e.nextAttemptAt
    && (d.nextAttemptAt == e.nextAttemptAt ==> d.createdAt <= e.createdAt)
    && (d.nextAttemptAt == e.nextAttemptAt && d.createdAt == e.createdAt ==> !Less(e.id, d.id))
  }

  // What could have been claimed and was not comes later, and nothing could have
  // been if the call had room for more and did not fail.
  ghost predicate LeftLater(before: map<Bytes, Delivery>, after: map<Bytes, Delivery>, now: int,
                            eligible: Delivery -> bool, claimed: seq<Delivery>, room: bool)
    requires forall i | 0 <= i < |claimed| :: claimed[i].id in before
  {
    && (forall i, j | 0 <= i < j < |claimed| :: NoLater(before[claimed[i].id], before[claimed[j].id]))
    && forall id | id in before && id in after && after[id] == before[id] && eligible(before[id]) ::
         (before[id].status.Pending? && before[id].nextAttemptAt <= now)
         || (before[id].status.InFlight? && before[id].leaseUntil <= now) ==>
           !room && forall i | 0 <= i < |claimed| :: NoLater(before[claimed[i].id], before[id])
  }

  lemma TookDueOnly(m: Mem, after: map<Bytes, Delivery>, now: int, lease: int, limit: nat,
                    eligible: Delivery -> bool, claimed: seq<Delivery>, ok: bool)
    requires Indexed(m) && TookFirst(m, after, now, lease, limit, eligible, claimed, ok)
    ensures ClaimedDueOnly(m.items, after, now, lease, eligible, claimed)
  {
    var q := ClaimOrder(m, now, eligible);
    QueueFacts(m, q, now, eligible);
    assert forall i | 0 <= i < |q| :: q[i] in Elements(q) && eligible(q[i]);
    TookEach(m, after, now, lease, q[..|claimed|], claimed, eligible);
  }

  lemma TookEach(m: Mem, after: map<Bytes, Delivery>, now: int, lease: int, p: seq<Delivery>, claimed: seq<Delivery>,
                 eligible: Delivery -> bool)
    requires Indexed(m) && Claimable(m, p, now) && (forall i | 0 <= i < |p| :: eligible(p[i]))
    requires claimed == ClaimedSeq(p, now, lease) && after == ClaimedItems(m.items, p, now, lease)
    ensures ClaimedDueOnly(m.items, after, now, lease, eligible, claimed)
  {
    assert forall i | 0 <= i < |p| :: p[i] in p && m.items[p[i].id] == p[i] && claimed[i].id == p[i].id;
    forall id | id in m.items
      ensures after[id] != m.items[id] <==> m.items[id] in p
      ensures m.items[id] in p <==> after[id] in claimed
    {
      if m.items[id] in p { assert after[id].attempts != m.items[id].attempts; }
      TakenIsClaimed(m, after, now, lease, p, claimed, id);
    }
  }

  lemma TakenIsClaimed(m: Mem, after: map<Bytes, Delivery>, now: int, lease: int, p: seq<Delivery>,
                       claimed: seq<Delivery>, id: Bytes)
    requires Indexed(m) && Claimable(m, p, now) && id in m.items
    requires claimed == ClaimedSeq(p, now, lease) && after == ClaimedItems(m.items, p, now, lease)
    ensures m.items[id] in p <==> after[id] in claimed
  {
    if m.items[id] in p {
      var i :| 0 <= i < |p| && p[i] == m.items[id];
      assert claimed[i] == after[id];
    }
    if after[id] in claimed {
      var i :| 0 <= i < |claimed| && claimed[i] == after[id];
      assert p[i].id == id;
    }
  }

  lemma TookEarliest(m: Mem, after: map<Bytes, Delivery>, now: int, lease: int, limit: nat,
                     eligible: Delivery -> bool, claimed: seq<Delivery>, ok: bool)
    requires Indexed(m) && TookFirst(m, after, now, lease, limit, eligible, claimed, ok)
    ensures forall i | 0 <= i < |claimed| :: claimed[i].id in m.items
    ensures LeftLater(m.items, after, now, eligible, claimed, ok && |claimed| < limit)
  {
    var q := ClaimOrder(m, now, eligible);
    QueueFacts(m, q, now, eligible);
    forall i | 0 <= i < |claimed| ensures claimed[i].id in m.items && m.items[claimed[i].id] == q[i] { }
    forall i, j | 0 <= i < j < |q| ensures NoLater(q[i], q[j]) { BeforeIsNoLater(q[i], q[j]); }
    forall id | id in m.items && Due(m.items[id], now) && eligible(m.items[id]) && after[id] == m.items[id]
      ensures !(ok && |claimed| < limit) && forall i | 0 <= i < |claimed| :: NoLater(q[i], m.items[id])
    {
      var j := LeftIndex(m, q, now, lease, eligible, |claimed|, id);
    }
  }

  lemma BeforeIsNoLater(d: Delivery, e: Delivery)
    requires Before(d, e)
    ensures NoLater(d, e)
  {
    LessAsymmetric(d.id, e.id);
  }

  // A delivery that could have been claimed and was not is further back in line.
  lemma LeftIndex(m: Mem, q: seq<Delivery>, now: int, lease: int, eligible: Delivery -> bool, n: nat, id: Bytes)
      returns (j: nat)
    requires Elements(q) == DueSet(m, now, eligible) && n <= |q|
    requires id in m.items && Due(m.items[id], now) && eligible(m.items[id])
    requires ClaimedItems(m.items, q[..n], now, lease)[id] == m.items[id]
    ensures n <= j < |q| && q[j] == m.items[id]
  {
    assert m.items[id] in Elements(q);
    assert m.items[id] !in q[..n] by { assert Claimed(m.items[id], now, lease) != m.items[id]; }
    j := LaterIndex(q, n, m.items[id]);
  }

  lemma LessAsymmetric(a: Bytes, b: Bytes)
    ensures Less(a, b) ==> !Less(b, a)
  {
    if Less(a, b) && Less(b, a) {
      LessTransitive(a, b, a);
      LessIrreflexive(a);
    }
  }

  // The deliveries of a claim order are due, live and distinct.
  lemma QueueFacts(m: Mem, q: seq<Delivery>, now: int, eligible: Delivery -> bool)
    requires Indexed(m) && Elements(q) == DueSet(m, now, eligible) && Increasing(Before, q)
    ensures Claimable(m, q, now)
  {
    forall i | 0 <= i < |q| ensures q[i].id in m.items && m.items[q[i].id] == q[i] && Due(q[i], now) {
      assert q[i] in Elements(q);
    }
    forall i, j | 0 <= i < j < |q| ensures q[i] != q[j] {
      LessIrreflexive(q[i].id);
      assert Before(q[i], q[j]) && !Before(q[i], q[i]);
    }
  }

  // Sorting the candidates, in whatever order they were found, gives claim order.
  lemma SortedCandidates(m: Mem, found: seq<Delivery>, now: int, eligible: Delivery -> bool)
    requires Indexed(m) && Elements(found) == DueSet(m, now, eligible)
    requires forall i, j | 0 <= i < j < |found| :: found[i] != found[j]
    ensures Sort(Before, found) == ClaimOrder(m, now, eligible)
    ensures Claimable(m, Sort(Before, found), now)
  {
    var s := DueSet(m, now, eligible);
    assert forall d | d in found :: d in Elements(found);
    BeforeIsStrict(m, s);
    SortLists(Before, found, s);
    ListsUnique(Before, Sort(Before, found), ClaimOrder(m, now, eligible), s);
    QueueFacts(m, Sort(Before, found), now, eligible);
  }

  lemma LaterIndex<T>(q: seq<T>, k: nat, e: T) returns (j: nat)
    requires k <= |q| && e in q && e !in q[..k]
    ensures k <= j < |q| && q[j] == e
  {
    assert q == q[..k] + q[k..];
    var x :| 0 <= x < |q[k..]| && q[k..][x] == e;
    j := k + x;
  }

  // A claim takes the first `limit` due deliveries: none it leaves comes before
  // one it takes.
  lemma FirstAreTaken(m: Mem, now: int, eligible: Delivery -> bool, k: nat, d: Delivery, e: Delivery)
    requires Indexed(m) && k <= |ClaimOrder(m, now, eligible)|
    requires d in ClaimOrder(m, now, eligible)[..k]
    requires e in DueSet(m, now, eligible) && e !in ClaimOrder(m, now, eligible)[..k]
    ensures Before(d, e)
  {
    var q := ClaimOrder(m, now, eligible);
    assert e in Elements(q);
    var i :| 0 <= i < k && q[..k][i] == d;
    var j := LaterIndex(q, k, e);
    assert q[i] == d && i < j;
  }

  // ---- Claims of one ----

  // The delivery ClaimDueMatching takes when asked for one.
  ghost function Head(m: Mem, now: int, e: Delivery -> bool): Option<Delivery> {
    if Indexed(m) && |ClaimOrder(m, now, e)| > 0 then Some(ClaimOrder(m, now, e)[0]) else None
  }

  lemma HeadIsDue(m: Mem, now: int, e: Delivery -> bool)
    requires Head(m, now, e).Some?
    ensures var d := Head(m, now, e).value;
      d.id in m.items && m.items[d.id] == d && Due(d, now) && e(d)
  {
    assert Head(m, now, e).value in Elements(ClaimOrder(m, now, e));
  }

  lemma NoneIsDue(m: Mem, now: int, e: Delivery -> bool, id: Bytes)
    requires Indexed(m) && Head(m, now, e).None? && id in m.items
    ensures !(Due(m.items[id], now) && e(m.items[id]))
  {
    assert m.items[id] in Elements(ClaimOrder(m, now, e)) <==> Due(m.items[id], now) && e(m.items[id]);
  }

  // What ClaimDueMatching does when asked for one delivery.
  lemma ClaimOfOne(m: Mem, after: map<Bytes, Delivery>, now: int, lease: int, e: Delivery -> bool,
                   claimed: seq<Delivery>, ok: bool)
    requires Indexed(m) && TookFirst(m, after, now, lease, 1, e, claimed, ok)
    ensures claimed == [] ==> after == m.items && (ok <==> Head(m, now, e).None?)
    ensures claimed != [] ==> ok && Head(m, now, e).Some?
    ensures claimed != [] ==>
      var d := Head(m, now, e).value;
      && claimed == [Claimed(d, now, lease)] && Enabled(m, Claim(d.id, now, lease))
      && after == Effect(m, Claim(d.id, now, lease)).items
  {
    var q := ClaimOrder(m, now, e);
    if claimed == [] {
      assert ClaimedItems(m.items, q[..0], now, lease) == m.items;
    } else {
      var d := q[0];
      HeadIsDue(m, now, e);
      assert q[..1] == [d];
      ClaimNextItem(m, q, 0, now, lease);
      EffectOfPut(m, Claim(d.id, now, lease));
      assert ClaimedItems(m.items, q[..0], now, lease) == m.items;
    }
  }

  // It comes before every other due delivery.
  lemma HeadIsFirst(m: Mem, now: int, e: Delivery -> bool, x: Delivery)
    requires Head(m, now, e).Some? && x in DueSet(m, now, e) && x != Head(m, now, e).value
    ensures Before(Head(m, now, e).value, x)
  {
    var q := ClaimOrder(m, now, e);
    assert q[..1] == [q[0]];
    FirstAreTaken(m, now, e, 1, q[0], x);
  }

  // ---- Prunes ----

  ghost function PrunableIds(m: Mem, before: int): set<Bytes> {
    set id | id in m.items && Prunable(m.items[id], before)
  }

  ghost function PruneEvent(m: Mem, before: int): Event { Prune(Names.Sorted(PrunableIds(m, before)), before) }

  lemma PruneEnabled(m: Mem, before: int)
    ensures Enabled(m, PruneEvent(m, before))
    ensures forall id :: id in Names.Sorted(PrunableIds(m, before)) <==> id in PrunableIds(m, before)
  {
    var q := Names.Sorted(PrunableIds(m, before));
    Names.LessIsStrict(PrunableIds(m, before));
    assert forall id :: id in q <==> id in Elements(q);
    assert forall i | 0 <= i < |q| :: q[i] in Elements(q);
    assert forall i, j | 0 <= i < j < |q| :: Less(q[i], q[j]) && !Less(q[i], q[i]);
  }

  // The maps once the old terminal deliveries are removed.
  ghost function PrunedMem(m: Mem, before: int): Mem {
    PruneEnabled(m, before);
    Effect(m, PruneEvent(m, before))
  }

  // What PruneTerminal did: removed exactly the old terminal deliveries.
  ghost predicate Pruned(m: Mem, after: Mem, before: int, count: nat) {
    after == PrunedMem(m, before) && count == |PrunableIds(m, before)|
  }

  lemma NothingToPrune(m: Mem, before: int)
    requires PrunableIds(m, before) == {}
    ensures Pruned(m, m, before, 0)
  {
    PruneEnabled(m, before);
    var ev := PruneEvent(m, before);
    assert ev.ids == [];
    assert ApplyAll(m, Tombstones(ev.ids)) == m;
  }

  // What succeeded, failed or was canceled at the cutoff or before is gone, and
  // everything else is as it was.
  ghost predicate OldGone(before: map<Bytes, Delivery>, after: map<Bytes, Delivery>, cutoff: int) {
    && (forall id | id in after :: id in before && after[id] == before[id])
    && (forall id | id in before :: id !in after <==>
          before[id].status in {Status.Succeeded, Status.Failed, Status.Canceled} && before[id].updatedAt <= cutoff)
  }

  // A prune keeps every delivery but the old terminal ones.
  lemma PruneIsExact(m: Mem, after: Mem, before: int, count: nat)
    requires Indexed(m) && Pruned(m, after, before, count)
    ensures OldGone(m.items, after.items, before) && after.hashes == map id | id in after.items :: m.hashes[id]
    ensures |after.items| + count == |m.items| && (Consistent(m) ==> Consistent(after))
  {
    PruneEnabled(m, before);
    var ids := PruneEvent(m, before).ids;
    forall i | 0 <= i < |ids| ensures ids[i] != "" { assert ids[i] in ids; }
    DeleteAll(m, ids);
    WithoutPrunable(m, before, ids);
  }

  lemma WithoutPrunable(m: Mem, before: int, ids: seq<Bytes>)
    requires Indexed(m) && forall id :: id in ids <==> id in PrunableIds(m, before)
    ensures OldGone(m.items, Without(m.items, ids), before)
    ensures Without(m.hashes, ids) == map id | id in Without(m.items, ids) :: m.hashes[id]
    ensures |Without(m.items, ids)| + |PrunableIds(m, before)| == |m.items|
  {
    GoneWithout(m, before, ids);
    HashesWithout(m, ids);
    CountWithout(m, ids, PrunableIds(m, before));
  }

  lemma GoneWithout(m: Mem, before: int, ids: seq<Bytes>)
    requires forall id :: id in ids <==> id in PrunableIds(m, before)
    ensures OldGone(m.items, Without(m.items, ids), before)
  {
  }

  lemma HashesWithout(m: Mem, ids: seq<Bytes>)
    requires Indexed(m)
    ensures Without(m.hashes, ids) == map id | id in Without(m.items, ids) :: m.hashes[id]
  {
  }

  lemma CountWithout(m: Mem, ids: seq<Bytes>, gone: set<Bytes>)
    requires gone <= m.items.Keys && forall id :: id in ids <==> id in gone
    ensures |Without(m.items, ids)| + |gone| == |m.items|
  {
    assert Without(m.items, ids).Keys == m.items.Keys - gone;
  }
}
