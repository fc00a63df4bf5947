/** The compacted journal: one record per live delivery
    (internal/store/store.go:473-482). */
module Snapshots {
  import opened Text
  import opened Sorting
  import Names
  import opened Journal
  import opened JournalProofs

  function SnapshotOf(m: Mem, ids: seq<Bytes>): seq<Record>
    requires forall id | id in ids :: id in m.items
  {
    seq(|ids|, i requires 0 <= i < |ids| => Put(m.items[ids[i]], Lookup(m.hashes, ids[i])))
  }

  // What Compact writes: the records in ID order.
  ghost function Snapshot(m: Mem): seq<Record> {
    assert Elements(Names.Sorted(m.items.Keys)) == m.items.Keys;
    assert forall id | id in Names.Sorted(m.items.Keys) :: id in Elements(Names.Sorted(m.items.Keys));
    SnapshotOf(m, Names.Sorted(m.items.Keys))
  }

  ghost predicate Permutes(ids: seq<Bytes>, m: Mem) {
    (forall id :: id in ids <==> id in m.items) && forall i, j | 0 <= i < j < |ids| :: ids[i] != ids[j]
  }

  // The part of the maps that concerns the listed deliveries.
  ghost function Restrict(m: Mem, ids: seq<Bytes>): Mem {
    Mem(map id | id in m.items && id in ids :: m.items[id],
        map id | id in m.hashes && id in ids :: m.hashes[id],
        map k | k in m.keyToId && m.keyToId[k] in ids :: m.keyToId[k])
  }

  lemma SetExtendsRestriction(m: Mem, ids: seq<Bytes>, id: Bytes)
    requires Consistent(m) && id in m.items
    ensures Set(Restrict(m, ids), m.items[id], m.hashes[id]) == Restrict(m, ids + [id])
  {
    SetExtendsItems(m, ids, id);
    SetExtendsKeys(m, ids, id);
  }

  lemma SetExtendsItems(m: Mem, ids: seq<Bytes>, id: Bytes)
    requires Consistent(m) && id in m.items
    ensures Set(Restrict(m, ids), m.items[id], m.hashes[id]).items == Restrict(m, ids + [id]).items
    ensures Set(Restrict(m, ids), m.items[id], m.hashes[id]).hashes == Restrict(m, ids + [id]).hashes
  {
    var a, b := Set(Restrict(m, ids), m.items[id], m.hashes[id]), Restrict(m, ids + [id]);
    assert forall x :: x in ids + [id] <==> x in ids || x == id;
    assert a.items == b.items;
    assert a.hashes == b.hashes;
  }

  lemma SetExtendsKeys(m: Mem, ids: seq<Bytes>, id: Bytes)
    requires Consistent(m) && id in m.items
    ensures Set(Restrict(m, ids), m.items[id], m.hashes[id]).keyToId == Restrict(m, ids + [id]).keyToId
  {
    var a, b := Set(Restrict(m, ids), m.items[id], m.hashes[id]).keyToId, Restrict(m, ids + [id]).keyToId;
    forall k ensures k in a <==> k in b {
      assert forall x :: x in ids + [id] <==> x in ids || x == id;
    }
    assert a == b;
  }

  lemma {:induction false} SnapshotRebuildsPart(m: Mem, ids: seq<Bytes>)
    requires Consistent(m) && forall id | id in ids :: id in m.items
    ensures ApplyAll(EMPTY, SnapshotOf(m, ids)) == Restrict(m, ids)
    decreases |ids|
  {
    if ids == [] {
      assert Restrict(m, ids) == EMPTY;
    } else {
      var front, last := ids[..|ids| - 1], ids[|ids| - 1];
      assert ids == front + [last];
      SnapshotRebuildsPart(m, front);
      var r := Put(m.items[last], m.hashes[last]);
      assert SnapshotOf(m, ids) == SnapshotOf(m, front) + [r];
      ApplyAllConcat(EMPTY, SnapshotOf(m, front), [r]);
      assert ApplyAll(Apply(Restrict(m, front), r), [r][1..]) == Apply(Restrict(m, front), r);
      SetExtendsRestriction(m, front, last);
    }
  }

  lemma RestrictToAll(m: Mem, ids: seq<Bytes>)
    requires Consistent(m) && Permutes(ids, m)
    ensures Restrict(m, ids) == m
  {
    var r := Restrict(m, ids);
    assert r.items == m.items;
    assert r.hashes == m.hashes;
    assert r.keyToId == m.keyToId;
  }

  // The snapshot in any order rebuilds the three maps, one record a delivery.
  lemma SnapshotRebuilds(m: Mem, ids: seq<Bytes>)
    requires Consistent(m) && Permutes(ids, m)
    ensures ApplyAll(EMPTY, SnapshotOf(m, ids)) == m
    ensures |SnapshotOf(m, ids)| == |m.items|
  {
    SnapshotRebuildsPart(m, ids);
    RestrictToAll(m, ids);
    PermutationSize(ids, m.items.Keys);
  }

  lemma {:induction false} PermutationSize(ids: seq<Bytes>, s: set<Bytes>)
    requires (forall id :: id in ids <==> id in s) && forall i, j | 0 <= i < j < |ids| :: ids[i] != ids[j]
    ensures |ids| == |s|
  {
    if ids == [] {
      assert s == {} by { assert forall id :: id !in s; }
    } else {
      assert ids == [ids[0]] + ids[1..] && ids[0] in s;
      PermutationSize(ids[1..], s - {ids[0]});
    }
  }

  lemma SortedPermutes(m: Mem)
    ensures Permutes(Names.Sorted(m.items.Keys), m)
  {
    var q := Names.Sorted(m.items.Keys);
    Names.LessIsStrict(m.items.Keys);
    assert forall id :: id in q <==> id in Elements(q);
    assert forall i | 0 <= i < |q| :: q[i] in Elements(q);
    assert forall i, j | 0 <= i < j < |q| :: Less(q[i], q[j]) && !Less(q[i], q[i]);
  }

  lemma SnapshotApplicable(m: Mem, ids: seq<Bytes>)
    requires Indexed(m) && forall id | id in ids :: id in m.items
    ensures forall i | 0 <= i < |SnapshotOf(m, ids)| :: Applicable(SnapshotOf(m, ids)[i])
  {
  }

  lemma SnapshotCanon(c: Codec, m: Mem, ids: seq<Bytes>)
    requires forall id | id in ids :: id in m.items
    ensures SnapshotOf(CanonMem(c, m), ids) == CanonRecords(c, SnapshotOf(m, ids))
  {
  }

  // Journaled, read back and journaled again, a snapshot replays to the
  // canonical maps and is the same bytes.
  lemma LosslessCompaction(c: Codec, m: Mem, ids: seq<Bytes>)
    requires Lawful(c) && Consistent(m) && Permutes(ids, m)
    ensures ReplayFile(c, Lines(c, SnapshotOf(m, ids))) == Loaded(CanonMem(c, m), |m.items|)
    ensures Lines(c, SnapshotOf(CanonMem(c, m), ids)) == Lines(c, SnapshotOf(m, ids))
  {
    SnapshotRebuilds(m, ids);
    SnapshotApplicable(m, ids);
    ReplayAllLines(c, SnapshotOf(m, ids));
    SnapshotCanon(c, m, ids);
    CanonLines(c, SnapshotOf(m, ids));
  }

  lemma ReplayAllLines(c: Codec, rs: seq<Record>)
    requires Lawful(c) && forall i | 0 <= i < |rs| :: Applicable(rs[i])
    ensures ReplayFile(c, Lines(c, rs)) == Loaded(CanonMem(c, ApplyAll(EMPTY, rs)), |rs|)
  {
    ReplayLines(c, rs, "", EMPTY, 0);
    assert Lines(c, rs) + "" == Lines(c, rs);
    ApplyAllCanon(c, EMPTY, rs);
    CanonEmpty(c);
  }

  lemma CanonEmpty(c: Codec)
    ensures CanonMem(c, EMPTY) == EMPTY
  {
    assert CanonMem(c, EMPTY).items == map[];
  }
}
