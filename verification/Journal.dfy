/** The store's three maps, journal records and replay
    (internal/store/store.go:53-58, 546-564, 602-692). */
module Journal {
  import opened Results
  import opened Text
  import opened Deliveries

  datatype Record = Record(version: int, delivery: Option<Delivery>, requestHash: Bytes, deletedId: Bytes)

  const JOURNAL_VERSION := 2

  function Put(d: Delivery, hash: Bytes): Record { Record(JOURNAL_VERSION, Some(d), hash, "") }

  function Tombstone(id: Bytes): Record { Record(JOURNAL_VERSION, None, "", id) }

  // encoding/json as far as the journal uses it. `canonBody` is what a JSON body
  // becomes when it is journaled, `canonText` what a string becomes.
  datatype Codec = Codec(
    encode: Record -> Bytes,
    decode: Bytes -> Option<Record>,
    canonBody: Bytes -> Bytes,
    canonText: Bytes -> Bytes)

  function CanonDelivery(c: Codec, d: Delivery): Delivery {
    d.(body := c.canonBody(d.body), lastError := c.canonText(d.lastError))
  }

  function CanonRecord(c: Codec, r: Record): Record {
    r.(delivery := if r.delivery.Some? then Some(CanonDelivery(c, r.delivery.value)) else None)
  }

  // Decoding returns the canonical form of what was encoded.
  ghost predicate RoundTrips(c: Codec) {
    forall r: Record {:trigger c.encode(r)} :: c.decode(c.encode(r)) == Some(CanonRecord(c, r)) && NEWLINE !in c.encode(r)
  }

  // A record cut short does not decode.
  ghost predicate NoPrefixDecodes(c: Codec) {
    forall r: Record, p: Bytes {:trigger c.encode(r), c.decode(p)} | p <= c.encode(r) && p != c.encode(r) :: c.decode(p).None?
  }

  // Nor does a record that follows a part of another one on the same line.
  ghost predicate NoJoinDecodes(c: Codec) {
    forall r: Record, p: Bytes, q: Record {:trigger c.encode(r), c.decode(p + c.encode(q))}
      | p <= c.encode(r) && p != "" :: c.decode(p + c.encode(q)).None?
  }

  ghost predicate Canonicalises(c: Codec) {
    && (forall b {:trigger c.canonBody(c.canonBody(b))} :: c.canonBody(c.canonBody(b)) == c.canonBody(b))
    && (forall t {:trigger c.canonText(c.canonText(t))} :: c.canonText(c.canonText(t)) == c.canonText(t))
    && c.canonText("") == ""
    && (forall r: Record {:trigger c.encode(CanonRecord(c, r))} :: c.encode(CanonRecord(c, r)) == c.encode(r))
  }

  ghost predicate Lawful(c: Codec) {
    RoundTrips(c) && NoPrefixDecodes(c) && NoJoinDecodes(c) && Canonicalises(c)
  }

  // ---- The maps in memory ----

  datatype Mem = Mem(items: map<Bytes, Delivery>, hashes: map<Bytes, Bytes>, keyToId: map<Bytes, Bytes>)

  const EMPTY := Mem(map[], map[], map[])

  // A Go map lookup of a missing string key.
  function Lookup(m: map<Bytes, Bytes>, k: Bytes): Bytes { if k in m then m[k] else "" }

  // setLocked
  function Set(m: Mem, d: Delivery, hash: Bytes): Mem {
    Mem(m.items[d.id := d], m.hashes[d.id := hash],
        if d.key != "" then m.keyToId[d.key := d.id] else m.keyToId)
  }

  // deleteLocked
  function Delete(m: Mem, id: Bytes): Mem {
    if id !in m.items then m else
      var key := m.items[id].key;
      Mem(m.items - {id}, m.hashes - {id},
          if key != "" && Lookup(m.keyToId, key) == id then m.keyToId - {key} else m.keyToId)
  }

  // applyRecord accepts the record.
  predicate Applicable(r: Record) {
    && (r.version == 1 || r.version == JOURNAL_VERSION)
    && if r.deletedId != "" then r.version >= 2 && r.delivery.None?
       else r.delivery.Some? && r.delivery.value.id != ""
  }

  function Apply(m: Mem, r: Record): Mem {
    if r.deletedId != "" then Delete(m, r.deletedId)
    else if r.delivery.Some? then Set(m, r.delivery.value, r.requestHash)
    else m
  }

  function ApplyAll(m: Mem, rs: seq<Record>): Mem
    decreases rs
  {
    if rs == [] then m else ApplyAll(Apply(m, rs[0]), rs[1..])
  }

  // ---- Replay ----

  datatype Replayed = Loaded(mem: Mem, records: nat) | Refused

  // An unterminated last line counts only when it decodes; any other line must.
  function Replay(c: Codec, data: Bytes, m: Mem, n: nat): Replayed
    decreases |data|
  {
    var i := IndexOf(data, NEWLINE);
    if i == |data| then
      if data == "" then Loaded(m, n) else
      match c.decode(data)
      case None => Loaded(m, n)
      case Some(r) => if Applicable(r) then Loaded(Apply(m, r), n + 1) else Refused
    else
      match c.decode(data[..i])
      case None => Refused
      case Some(r) =>
        if Applicable(r) then Replay(c, data[i + 1..], Apply(m, r), n + 1) else Refused
  }

  function ReplayFile(c: Codec, data: Bytes): Replayed { Replay(c, data, EMPTY, 0) }

  function Line(c: Codec, r: Record): Bytes { c.encode(r) + [NEWLINE] }

  function Lines(c: Codec, rs: seq<Record>): Bytes {
    if rs == [] then "" else Line(c, rs[0]) + Lines(c, rs[1..])
  }

  // The file is empty or ends in a newline.
  predicate Clean(data: Bytes) { data == "" || data[|data| - 1] == NEWLINE }

  // What follows the last newline.
  function Tail(data: Bytes): (t: Bytes)
    ensures |t| <= |data|
  {
    var i := IndexOf(data, NEWLINE);
    if i == |data| then data else Tail(data[i + 1..])
  }

  // The unterminated tail, if any, is the front of some record.
  ghost predicate TornTail(c: Codec, data: Bytes) {
    exists r: Record :: Tail(data) <= c.encode(r)
  }

  function CanonMem(c: Codec, m: Mem): Mem {
    m.(items := map id | id in m.items :: CanonDelivery(c, m.items[id]))
  }

  function CanonRecords(c: Codec, rs: seq<Record>): seq<Record> {
    seq(|rs|, i requires 0 <= i < |rs| => CanonRecord(c, rs[i]))
  }

  // items and hashes are filed together and under the delivery's own ID.
  ghost predicate Indexed(m: Mem) {
    && m.items.Keys == m.hashes.Keys
    && (forall id | id in m.items :: m.items[id].id == id && id != "")
  }

  // keyToId is the inverse of the live deliveries' non-empty keys.
  ghost predicate Consistent(m: Mem) {
    && Indexed(m)
    && (forall id | id in m.items && m.items[id].key != "" ::
          m.items[id].key in m.keyToId && m.keyToId[m.items[id].key] == id)
    && (forall k | k in m.keyToId :: k != "" && m.keyToId[k] in m.items && m.items[m.keyToId[k]].key == k)
  }
}

/** What replay makes of whole, cut and joined journals. */
module JournalProofs {
  import opened Results
  import opened Text
  import opened Deliveries
  import opened Journal

  lemma {:induction false} ApplyAllConcat(m: Mem, p: seq<Record>, q: seq<Record>)
    ensures ApplyAll(m, p + q) == ApplyAll(ApplyAll(m, p), q)
    decreases p
  {
    if p == [] {
      assert p + q == q;
    } else {
      assert (p + q)[1..] == p[1..] + q;
      ApplyAllConcat(Apply(m, p[0]), p[1..], q);
    }
  }

  lemma ReplayLine(c: Codec, line: Bytes, rest: Bytes, m: Mem, n: nat)
    requires NEWLINE !in line
    ensures Replay(c, line + [NEWLINE] + rest, m, n) ==
      match c.decode(line)
      case None => Refused
      case Some(r) => if Applicable(r) then Replay(c, rest, Apply(m, r), n + 1) else Refused
  {
    var data := line + [NEWLINE] + rest;
    IndexOfCut(line, NEWLINE, rest);
    assert data[..|line|] == line && data[|line| + 1..] == rest;
  }

  // Replay of a terminated file followed by more is replay of the two in turn.
  lemma {:induction false} ReplayConcat(c: Codec, a: Bytes, b: Bytes, m: Mem, n: nat)
    requires Clean(a)
    ensures Replay(c, a + b, m, n) ==
      match Replay(c, a, m, n)
      case Loaded(m', n') => Replay(c, b, m', n')
      case Refused => Refused
    decreases |a|
  {
    if a == "" {
      assert a + b == b;
    } else {
      var i := IndexOf(a, NEWLINE);
      assert i < |a| by { assert a[|a| - 1] in a[..|a|]; }
      var line, rest := a[..i], a[i + 1..];
      assert a == line + [NEWLINE] + rest;
      assert a + b == line + [NEWLINE] + (rest + b);
      ReplayLine(c, line, rest, m, n);
      ReplayLine(c, line, rest + b, m, n);
      assert Clean(rest);
      match c.decode(line)
      case None =>
      case Some(r) => ReplayConcat(c, rest, b, Apply(m, r), n + 1);
    }
  }

  lemma LinesClean(c: Codec, rs: seq<Record>)
    ensures Clean(Lines(c, rs))
  {
    if rs != [] { LinesClean(c, rs[1..]); }
  }

  lemma {:induction false} LinesConcat(c: Codec, p: seq<Record>, q: seq<Record>)
    ensures Lines(c, p + q) == Lines(c, p) + Lines(c, q)
  {
    if p == [] {
      assert p + q == q;
    } else {
      assert (p + q)[1..] == p[1..] + q;
      LinesConcat(c, p[1..], q);
      assert Line(c, p[0]) + (Lines(c, p[1..]) + Lines(c, q)) == Line(c, p[0]) + Lines(c, p[1..]) + Lines(c, q);
    }
  }

  // What replay makes of one record, as a line before others and as a last line
  // without its newline.
  lemma ReplayOneRecord(c: Codec, r: Record, rest: Bytes, m: Mem, n: nat)
    requires Lawful(c)
    ensures var s := CanonRecord(c, r);
      && Replay(c, c.encode(r) + "\n" + rest, m, n)
        == (if Applicable(s) then Replay(c, rest, Apply(m, s), n + 1) else Refused)
      && Replay(c, c.encode(r), m, n) == (if Applicable(s) then Loaded(Apply(m, s), n + 1) else Refused)
  {
    EncodingNotEmpty(c, r);
    ReplayLine(c, c.encode(r), rest, m, n);
    assert IndexOf(c.encode(r), NEWLINE) == |c.encode(r)|;
  }

  // A put of either version files the delivery, its body and error text in
  // canonical form, and its hash under its ID, and its key if it has one.
  lemma PutIsRead(c: Codec, version: int, d: Delivery, hash: Bytes, rest: Bytes, m: Mem, n: nat)
    requires Lawful(c) && (version == 1 || version == 2) && d.id != ""
    ensures var e := d.(body := c.canonBody(d.body), lastError := c.canonText(d.lastError));
      var t := Mem(m.items[d.id := e], m.hashes[d.id := hash], if d.key == "" then m.keyToId else m.keyToId[d.key := d.id]);
      && Replay(c, c.encode(Record(version, Some(d), hash, "")) + "\n" + rest, m, n) == Replay(c, rest, t, n + 1)
      && Replay(c, c.encode(Record(version, Some(d), hash, "")), m, n) == Loaded(t, n + 1)
  {
    ReplayOneRecord(c, Record(version, Some(d), hash, ""), rest, m, n);
  }

  // A journal of one such line, terminated or not.
  lemma OnePutIsRead(c: Codec, version: int, d: Delivery, hash: Bytes)
    requires Lawful(c) && (version == 1 || version == 2) && d.id != ""
    ensures var e := d.(body := c.canonBody(d.body), lastError := c.canonText(d.lastError));
      var t := Mem(map[d.id := e], map[d.id := hash], if d.key == "" then map[] else map[d.key := d.id]);
      && ReplayFile(c, c.encode(Record(version, Some(d), hash, "")) + "\n") == Loaded(t, 1)
      && ReplayFile(c, c.encode(Record(version, Some(d), hash, ""))) == Loaded(t, 1)
  {
    PutIsRead(c, version, d, hash, "", EMPTY, 0);
    assert c.encode(Record(version, Some(d), hash, "")) + "\n" + "" == c.encode(Record(version, Some(d), hash, "")) + "\n";
  }

  // The keys but the one of this delivery, if that leads to it.
  function OtherKeys(m: Mem, id: Bytes): map<Bytes, Bytes> {
    map k | k in m.keyToId && !(k != "" && id in m.items && m.items[id].key == k && m.keyToId[k] == id) :: m.keyToId[k]
  }

  // A tombstone, of version 2, takes the delivery and its hash away, and its key
  // when that still leads to it; for a delivery that is not there it does nothing.
  lemma TombstoneIsRead(c: Codec, id: Bytes, hash: Bytes, rest: Bytes, m: Mem, n: nat)
    requires Lawful(c) && id != ""
    ensures var t := if id in m.items then Mem(m.items - {id}, m.hashes - {id}, OtherKeys(m, id)) else m;
      && Replay(c, c.encode(Record(2, None, hash, id)) + "\n" + rest, m, n) == Replay(c, rest, t, n + 1)
      && Replay(c, c.encode(Record(2, None, hash, id)), m, n) == Loaded(t, n + 1)
  {
    ReplayOneRecord(c, Record(2, None, hash, id), rest, m, n);
    if id in m.items { assert Delete(m, id).keyToId == OtherKeys(m, id); }
  }

  // Anything else that decodes is refused: another version, a tombstone of
  // version 1, a delivery and a tombstone in one, neither, or no ID.
  lemma OthersAreRefused(c: Codec, r: Record, rest: Bytes, m: Mem, n: nat)
    requires Lawful(c)
    requires !((r.version == 1 || r.version == 2) && r.deletedId == "" && r.delivery.Some? && r.delivery.value.id != "")
    requires !(r.version == 2 && r.deletedId != "" && r.delivery.None?)
    ensures Replay(c, c.encode(r) + "\n" + rest, m, n) == Refused && Replay(c, c.encode(r), m, n) == Refused
  {
    ReplayOneRecord(c, r, rest, m, n);
  }

  // A line that does not decode is refused, unless it is the last and has no
  // newline: that is ignored.
  lemma OnlyTornTailIsIgnored(c: Codec, line: Bytes, rest: Bytes, m: Mem, n: nat)
    requires c.decode(line).None? && NEWLINE !in line
    ensures Replay(c, line + "\n" + rest, m, n) == Refused && Replay(c, line, m, n) == Loaded(m, n)
  {
    ReplayLine(c, line, rest, m, n);
    assert IndexOf(line, NEWLINE) == |line|;
  }

  lemma ReplayFirstLine(c: Codec, rs: seq<Record>, rest: Bytes, m: Mem, n: nat)
    requires Lawful(c) && rs != [] && Applicable(rs[0])
    ensures Replay(c, Lines(c, rs) + rest, m, n)
      == Replay(c, Lines(c, rs[1..]) + rest, Apply(m, CanonRecord(c, rs[0])), n + 1)
  {
    var line, tail := c.encode(rs[0]), Lines(c, rs[1..]) + rest;
    assert Lines(c, rs) + rest == line + [NEWLINE] + tail;
    assert Applicable(CanonRecord(c, rs[0]));
    ReplayLine(c, line, tail, m, n);
  }

  lemma ApplyFirst(c: Codec, rs: seq<Record>, m: Mem)
    requires rs != []
    ensures ApplyAll(m, CanonRecords(c, rs)) == ApplyAll(Apply(m, CanonRecord(c, rs[0])), CanonRecords(c, rs[1..]))
  {
    assert CanonRecords(c, rs)[1..] == CanonRecords(c, rs[1..]);
  }

  predicate AllApplicable(rs: seq<Record>) { forall i | 0 <= i < |rs| :: Applicable(rs[i]) }

  lemma RestApplicable(rs: seq<Record>)
    requires AllApplicable(rs) && rs != []
    ensures Applicable(rs[0]) && AllApplicable(rs[1..])
  {
    assert forall i | 0 <= i < |rs[1..]| :: rs[1..][i] == rs[i + 1];
  }

  // The first line, and then the others as they are known to replay.
  lemma ReplayRestLines(c: Codec, rs: seq<Record>, rest: Bytes, m: Mem, n: nat)
    requires Lawful(c) && rs != [] && Applicable(rs[0])
    requires var after := Apply(m, CanonRecord(c, rs[0]));
      Replay(c, Lines(c, rs[1..]) + rest, after, n + 1)
        == Replay(c, rest, ApplyAll(after, CanonRecords(c, rs[1..])), n + 1 + |rs[1..]|)
    ensures Replay(c, Lines(c, rs) + rest, m, n) == Replay(c, rest, ApplyAll(m, CanonRecords(c, rs)), n + |rs|)
  {
    ReplayFirstLine(c, rs, rest, m, n);
    ApplyFirst(c, rs, m);
    assert n + 1 + |rs[1..]| == n + |rs|;
  }

  // The journaled form of the records is what replay applies.
  lemma {:induction false} ReplayLines(c: Codec, rs: seq<Record>, rest: Bytes, m: Mem, n: nat)
    requires Lawful(c) && AllApplicable(rs)
    ensures Replay(c, Lines(c, rs) + rest, m, n) == Replay(c, rest, ApplyAll(m, CanonRecords(c, rs)), n + |rs|)
    decreases rs
  {
    if rs == [] {
      assert Lines(c, rs) + rest == rest && CanonRecords(c, rs) == [];
    } else {
      RestApplicable(rs);
      ReplayLines(c, rs[1..], rest, Apply(m, CanonRecord(c, rs[0])), n + 1);
      ReplayRestLines(c, rs, rest, m, n);
    }
  }

  // ---- A cut batch: the first records whole, and perhaps part of one more ----

  // How many records of the batch replay finds in its first |p| bytes.
  function Whole(c: Codec, rs: seq<Record>, p: Bytes): (j: nat)
    requires p <= Lines(c, rs)
    ensures j <= |rs|
  {
    if rs == [] || |p| < |c.encode(rs[0])| then 0
    else if p == c.encode(rs[0]) then 1
    else
      assert Line(c, rs[0]) <= p && p[|Line(c, rs[0])|..] <= Lines(c, rs[1..]);
      1 + Whole(c, rs[1..], p[|Line(c, rs[0])|..])
  }

  // A line cut before its newline counts when it is whole and is ignored otherwise.
  lemma ReplayCutLine(c: Codec, r: Record, p: Bytes, m: Mem, n: nat)
    requires Lawful(c) && p <= c.encode(r) && Applicable(r)
    ensures Replay(c, p, m, n) == if p == c.encode(r) then Loaded(Apply(m, CanonRecord(c, r)), n + 1) else Loaded(m, n)
    ensures Tail(p) == p
  {
    assert NEWLINE !in p by { assert forall ch | ch in p :: ch in c.encode(r); }
    assert IndexOf(p, NEWLINE) == |p|;
    assert c.decode("").None? by { EncodingNotEmpty(c, r); assert "" <= c.encode(r); }
    assert Applicable(CanonRecord(c, r));
    if p != c.encode(r) { assert c.decode(p).None?; }
  }

  lemma EncodingNotEmpty(c: Codec, r: Record)
    requires Lawful(c)
    ensures c.encode(r) != ""
  {
    // no string decodes to two records, so one of these encodings is not empty
    var d, e := Tombstone(""), Tombstone("x");
    assert CanonRecord(c, d) != CanonRecord(c, e);
    assert c.encode(d) != c.encode(e);
    assert "" <= c.encode(d) && "" <= c.encode(e);
    assert c.decode("").None?;
    assert c.decode(c.encode(r)).Some?;
  }

  lemma ApplyOne(c: Codec, m: Mem, r: Record)
    ensures ApplyAll(m, CanonRecords(c, [r])) == Apply(m, CanonRecord(c, r))
  {
    assert CanonRecords(c, [r]) == [CanonRecord(c, r)];
    assert ApplyAll(Apply(m, CanonRecord(c, r)), []) == Apply(m, CanonRecord(c, r));
    assert [CanonRecord(c, r)][1..] == [];
  }

  lemma {:induction false} ReplayCutBatch(c: Codec, rs: seq<Record>, p: Bytes, m: Mem, n: nat)
    requires Lawful(c) && p <= Lines(c, rs) && forall i | 0 <= i < |rs| :: Applicable(rs[i])
    ensures Replay(c, p, m, n) == Loaded(ApplyAll(m, CanonRecords(c, rs[..Whole(c, rs, p)])), n + Whole(c, rs, p))
    ensures TornTail(c, p)
    decreases rs
  {
    if rs == [] {
      assert p == "" && Tail(p) <= c.encode(Tombstone(""));
      assert CanonRecords(c, rs[..0]) == [];
    } else {
      var e := c.encode(rs[0]);
      if |p| <= |e| {
        assert p <= e by { assert p == Lines(c, rs)[..|p|] && e == Lines(c, rs)[..|e|]; }
        ReplayCutLine(c, rs[0], p, m, n);
        assert rs[..1] == [rs[0]] && rs[..0] == [];
        ApplyOne(c, m, rs[0]);
        assert CanonRecords(c, []) == [];
      } else {
        ReplayCutRest(c, rs, p, m, n);
      }
    }
  }

  lemma {:induction false} ReplayCutRest(c: Codec, rs: seq<Record>, p: Bytes, m: Mem, n: nat)
    requires Lawful(c) && p <= Lines(c, rs) && forall i | 0 <= i < |rs| :: Applicable(rs[i])
    requires rs != [] && |p| > |c.encode(rs[0])|
    ensures Replay(c, p, m, n) == Loaded(ApplyAll(m, CanonRecords(c, rs[..Whole(c, rs, p)])), n + Whole(c, rs, p))
    ensures TornTail(c, p)
    decreases rs, 0
  {
    var rest := CutFirstLine(c, rs, p, m, n);
    ReplayCutBatch(c, rs[1..], rest, Apply(m, CanonRecord(c, rs[0])), n + 1);
    CutRestRecords(c, rs, m, Whole(c, rs[1..], rest));
  }

  // The first record is whole and terminated.
  lemma CutFirstLine(c: Codec, rs: seq<Record>, p: Bytes, m: Mem, n: nat) returns (rest: Bytes)
    requires Lawful(c) && rs != [] && Applicable(rs[0])
    requires p <= Lines(c, rs) && |p| > |c.encode(rs[0])|
    ensures rest <= Lines(c, rs[1..]) && |rest| < |p| && Whole(c, rs, p) == 1 + Whole(c, rs[1..], rest)
    ensures Replay(c, p, m, n) == Replay(c, rest, Apply(m, CanonRecord(c, rs[0])), n + 1)
    ensures Tail(p) == Tail(rest)
  {
    var e := c.encode(rs[0]);
    var line := Line(c, rs[0]);
    rest := p[|line|..];
    PrefixSplits(line, Lines(c, rs[1..]), p);
    assert Applicable(CanonRecord(c, rs[0]));
    ReplayLine(c, e, rest, m, n);
    IndexOfCut(e, NEWLINE, rest);
    assert p[|e| + 1..] == rest;
  }

  lemma CutRestRecords(c: Codec, rs: seq<Record>, m: Mem, j: nat)
    requires rs != [] && j <= |rs[1..]|
    ensures ApplyAll(m, CanonRecords(c, rs[..j + 1]))
      == ApplyAll(Apply(m, CanonRecord(c, rs[0])), CanonRecords(c, rs[1..][..j]))
  {
    assert rs[..j + 1][1..] == rs[1..][..j];
    ApplyFirst(c, rs[..j + 1], m);
  }

  // ---- Tails ----

  // Past a newline, a cut of the rest is a cut of the whole.
  lemma CutAfter(data: Bytes, i: nat, k: nat)
    requires 0 < i <= |data| && data[i - 1] == NEWLINE && k <= |data| - i
    ensures data[i + k..] == data[i..][k..]
    ensures Clean(data[i..][..k]) ==> Clean(data[..i + k])
  {
    assert k > 0 ==> data[i..][..k][k - 1] == data[i + k - 1];
  }

  // What is before the tail is terminated, and the tail has no newline.
  ghost predicate Tailed(data: Bytes, tail: Bytes) {
    |tail| <= |data| && tail == data[|data| - |tail|..] && NEWLINE !in tail && Clean(data[..|data| - |tail|])
  }

  lemma TailedAfter(data: Bytes, i: nat, tail: Bytes)
    requires 0 < i <= |data| && data[i - 1] == NEWLINE && Tailed(data[i..], tail)
    ensures Tailed(data, tail)
  {
    CutAfter(data, i, |data[i..]| - |tail|);
  }

  lemma {:induction false} TailIsTailed(data: Bytes)
    ensures Tailed(data, Tail(data))
    decreases |data|
  {
    var i := IndexOf(data, NEWLINE);
    if i == |data| {
      assert data[..|data|] == data;
    } else {
      TailIsTailed(data[i + 1..]);
      TailedAfter(data, i + 1, Tail(data));
    }
  }

  lemma TailIsSuffix(data: Bytes)
    ensures Tail(data) == data[|data| - |Tail(data)|..] && NEWLINE !in Tail(data)
    ensures Clean(data[..|data| - |Tail(data)|])
  {
    TailIsTailed(data);
  }

  lemma CleanIffNoTail(data: Bytes)
    ensures Clean(data) <==> Tail(data) == ""
  {
    TailIsSuffix(data);
    assert data[..|data|] == data;
    assert Tail(data) != "" ==> data[|data| - 1] == Tail(data)[|Tail(data)| - 1];
  }

  lemma {:induction false} TailOfConcat(a: Bytes, b: Bytes)
    requires Clean(a)
    ensures Tail(a + b) == Tail(b)
    decreases |a|
  {
    if a == "" {
      assert a + b == b;
    } else {
      var i := IndexOf(a, NEWLINE);
      assert i < |a| by { assert a[|a| - 1] in a[..|a|]; }
      assert a + b == a[..i] + [NEWLINE] + (a[i + 1..] + b);
      IndexOfCut(a[..i], NEWLINE, a[i + 1..] + b);
      assert (a + b)[i + 1..] == a[i + 1..] + b;
      TailOfConcat(a[i + 1..], b);
    }
  }

  // A record appended after an unterminated tail makes the journal unreadable.
  lemma JoinedAppendIsRefused(c: Codec, data: Bytes, rs: seq<Record>)
    requires Lawful(c) && TornTail(c, data) && !Clean(data) && rs != []
    ensures ReplayFile(c, data + Lines(c, rs)).Refused?
  {
    CleanIffNoTail(data);
    TailIsSuffix(data);
    var tail := Tail(data);
    var front := data[..|data| - |tail|];
    var e, rest := c.encode(rs[0]), Lines(c, rs[1..]);
    var joined := tail + e;
    JoinDoesNotDecode(c, tail, rs[0]);
    assert data + Lines(c, rs) == front + (joined + [NEWLINE] + rest) by {
      assert data == front + tail;
      Associative(front, tail, Lines(c, rs));
      Associative(e, [NEWLINE], rest);
      Associative(tail, e, [NEWLINE] + rest);
      Associative(joined, [NEWLINE], rest);
    }
    ReplayConcat(c, front, joined + [NEWLINE] + rest, EMPTY, 0);
    match ReplayFile(c, front)
    case Refused =>
    case Loaded(m, n) => ReplayLine(c, joined, rest, m, n);
  }

  lemma JoinDoesNotDecode(c: Codec, tail: Bytes, q: Record)
    requires Lawful(c) && tail != "" && exists r: Record :: tail <= c.encode(r)
    ensures c.decode(tail + c.encode(q)).None? && NEWLINE !in c.encode(q)
  {
    var r: Record :| tail <= c.encode(r);
  }

  // ---- Canonical forms ----

  lemma CanonMemIdempotent(c: Codec, m: Mem)
    requires Lawful(c)
    ensures CanonMem(c, CanonMem(c, m)) == CanonMem(c, m)
  {
    forall id | id in m.items
      ensures CanonDelivery(c, CanonDelivery(c, m.items[id])) == CanonDelivery(c, m.items[id])
    {
      assert c.canonBody(c.canonBody(m.items[id].body)) == c.canonBody(m.items[id].body);
      assert c.canonText(c.canonText(m.items[id].lastError)) == c.canonText(m.items[id].lastError);
    }
  }

  lemma SetCanon(c: Codec, m: Mem, d: Delivery, hash: Bytes)
    ensures Set(CanonMem(c, m), CanonDelivery(c, d), hash) == CanonMem(c, Set(m, d, hash))
  {
    var a, b := Set(CanonMem(c, m), CanonDelivery(c, d), hash).items, CanonMem(c, Set(m, d, hash)).items;
    assert a.Keys == b.Keys;
    assert forall id | id in a :: a[id] == b[id];
    assert a == b;
  }

  lemma DeleteCanon(c: Codec, m: Mem, id: Bytes)
    ensures Delete(CanonMem(c, m), id) == CanonMem(c, Delete(m, id))
  {
    var a, b := Delete(CanonMem(c, m), id).items, CanonMem(c, Delete(m, id)).items;
    assert a.Keys == b.Keys;
    assert forall x | x in a :: a[x] == b[x];
    assert a == b;
  }

  lemma ApplyCanon(c: Codec, m: Mem, r: Record)
    ensures Apply(CanonMem(c, m), CanonRecord(c, r)) == CanonMem(c, Apply(m, r))
  {
    if r.deletedId != "" { DeleteCanon(c, m, r.deletedId); }
    else if r.delivery.Some? { SetCanon(c, m, r.delivery.value, r.requestHash); }
  }

  lemma {:induction false} ApplyAllCanon(c: Codec, m: Mem, rs: seq<Record>)
    ensures ApplyAll(CanonMem(c, m), CanonRecords(c, rs)) == CanonMem(c, ApplyAll(m, rs))
    decreases rs
  {
    if rs != [] {
      ApplyCanon(c, m, rs[0]);
      ApplyAllCanon(c, Apply(m, rs[0]), rs[1..]);
      assert CanonRecords(c, rs)[1..] == CanonRecords(c, rs[1..]);
    }
  }

  // Canonical records are written as the originals.
  lemma {:induction false} CanonLines(c: Codec, rs: seq<Record>)
    requires Lawful(c)
    ensures Lines(c, CanonRecords(c, rs)) == Lines(c, rs)
    decreases rs
  {
    if rs != [] {
      assert CanonRecords(c, rs)[1..] == CanonRecords(c, rs[1..]);
      CanonLines(c, rs[1..]);
      assert c.encode(CanonRecord(c, rs[0])) == c.encode(rs[0]);
    }
  }

  // ---- Counting ----

  lemma ApplyCount(m: Mem, r: Record)
    ensures |Apply(m, r).items| <= |m.items| + 1
  {
    if r.deletedId != "" {
      if r.deletedId in m.items {
        assert Delete(m, r.deletedId).items.Keys == m.items.Keys - {r.deletedId};
        assert |m.items.Keys - {r.deletedId}| == |m.items.Keys| - 1;
      }
    } else if r.delivery.Some? {
      var d := r.delivery.value;
      assert Set(m, d, r.requestHash).items.Keys == m.items.Keys + {d.id};
      if d.id in m.items { assert m.items.Keys + {d.id} == m.items.Keys; }
    }
  }

  lemma {:induction false} ApplyAllCount(m: Mem, rs: seq<Record>)
    ensures |ApplyAll(m, rs).items| <= |m.items| + |rs|
    decreases rs
  {
    if rs != [] {
      ApplyCount(m, rs[0]);
      ApplyAllCount(Apply(m, rs[0]), rs[1..]);
    }
  }

  // Replay never counts fewer records than it leaves deliveries.
  lemma {:induction false} ReplayCount(c: Codec, data: Bytes, m: Mem, n: nat)
    requires |m.items| <= n
    ensures Replay(c, data, m, n).Loaded? ==> |Replay(c, data, m, n).mem.items| <= Replay(c, data, m, n).records
    decreases |data|
  {
    var i := IndexOf(data, NEWLINE);
    if i == |data| {
      if data != "" && c.decode(data).Some? { ApplyCount(m, c.decode(data).value); }
    } else {
      match c.decode(data[..i])
      case None =>
      case Some(r) =>
        ApplyCount(m, r);
        ReplayCount(c, data[i + 1..], Apply(m, r), n + 1);
    }
  }

  // Whatever the journal holds, replay files items and hashes together.
  lemma {:induction false} ReplayIndexed(c: Codec, data: Bytes, m: Mem, n: nat)
    requires Indexed(m)
    ensures Replay(c, data, m, n).Loaded? ==> Indexed(Replay(c, data, m, n).mem)
    decreases |data|
  {
    var i := IndexOf(data, NEWLINE);
    if i < |data| && c.decode(data[..i]).Some? && Applicable(c.decode(data[..i]).value) {
      ReplayIndexed(c, data[i + 1..], Apply(m, c.decode(data[..i]).value), n + 1);
    }
  }
}
