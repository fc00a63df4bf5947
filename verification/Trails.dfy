/** What a journal file is bound to hold when only a part of it is synchronised. */
module Trails {
  import opened Results
  import opened Text
  import opened Journal
  import opened JournalProofs
  import opened Events
  import opened EventProofs
  import opened Disks

  // The maps after the first i records.
  ghost function At(m: Mem, rs: seq<Record>, i: nat): Mem
    requires i <= |rs|
  {
    ApplyAll(m, rs[..i])
  }

  ghost predicate Steady(m: Mem, rs: seq<Record>, i: nat)
    requires i <= |rs|
  {
    Consistent(At(m, rs, i))
  }

  ghost predicate Changes(c: Codec, m: Mem, rs: seq<Record>, i: nat)
    requires i < |rs|
  {
    Applicable(rs[i]) && CanonMem(c, At(m, rs, i + 1)) != CanonMem(c, At(m, rs, i))
  }

  // Each record can be replayed, changes something and leaves consistent maps.
  ghost predicate Chain(c: Codec, m: Mem, rs: seq<Record>) {
    && (forall i: nat | i <= |rs| :: Steady(m, rs, i))
    && (forall i: nat | i < |rs| :: Changes(c, m, rs, i))
  }

  lemma ChainApplicable(c: Codec, m: Mem, rs: seq<Record>, k: nat)
    requires Chain(c, m, rs) && k <= |rs|
    ensures forall i | 0 <= i < |rs[k..]| :: Applicable(rs[k..][i])
  {
    forall i | 0 <= i < |rs[k..]| ensures Applicable(rs[k..][i]) { assert Changes(c, m, rs, k + i); }
  }

  lemma AtFront(m: Mem, p: seq<Record>, q: seq<Record>, i: nat)
    requires i <= |p|
    ensures At(m, p + q, i) == At(m, p, i)
  {
    assert (p + q)[..i] == p[..i];
  }

  lemma AtBack(m: Mem, p: seq<Record>, q: seq<Record>, j: nat)
    requires j <= |q|
    ensures At(m, p + q, |p| + j) == At(At(m, p, |p|), q, j)
  {
    assert (p + q)[..|p| + j] == p + q[..j] && p[..|p|] == p;
    ApplyAllConcat(m, p, q[..j]);
  }

  lemma AtSuffix(m: Mem, rs: seq<Record>, k: nat, j: nat)
    requires k + j <= |rs|
    ensures At(At(m, rs, k), rs[k..], j) == At(m, rs, k + j)
  {
    assert rs[..k] + rs[k..] == rs && rs[..k][..k] == rs[..k];
    AtBack(m, rs[..k], rs[k..], j);
  }

  lemma AtAll(m: Mem, rs: seq<Record>)
    ensures At(m, rs, |rs|) == ApplyAll(m, rs) && At(m, rs, 0) == m
  {
    assert rs[..|rs|] == rs;
  }

  lemma ChainPrefix(c: Codec, m: Mem, rs: seq<Record>, k: nat)
    requires Chain(c, m, rs) && k <= |rs|
    ensures Chain(c, m, rs[..k]) && At(m, rs[..k], k) == At(m, rs, k)
  {
    forall i: nat | i <= k ensures At(m, rs[..k], i) == At(m, rs, i) && Steady(m, rs[..k], i) {
      assert rs[..k][..i] == rs[..i] && Steady(m, rs, i);
    }
    forall i: nat | i < k ensures Changes(c, m, rs[..k], i) {
      assert Changes(c, m, rs, i);
      assert rs[..k][..i + 1] == rs[..i + 1] && rs[..k][..i] == rs[..i];
    }
  }

  lemma ChainConcat(c: Codec, m: Mem, p: seq<Record>, q: seq<Record>)
    requires Chain(c, m, p) && Chain(c, At(m, p, |p|), q)
    ensures Chain(c, m, p + q)
  {
    forall i: nat | i <= |p + q| ensures Steady(m, p + q, i) {
      if i <= |p| {
        assert Steady(m, p, i);
        AtFront(m, p, q, i);
      } else {
        assert Steady(At(m, p, |p|), q, i - |p|);
        AtBack(m, p, q, i - |p|);
      }
    }
    forall i: nat | i < |p + q| ensures Changes(c, m, p + q, i) { ChangesConcat(c, m, p, q, i); }
  }

  lemma ChangesConcat(c: Codec, m: Mem, p: seq<Record>, q: seq<Record>, i: nat)
    requires Chain(c, m, p) && Chain(c, At(m, p, |p|), q) && i < |p + q|
    ensures Changes(c, m, p + q, i)
  {
    if i < |p| {
      assert Changes(c, m, p, i);
      AtFront(m, p, q, i);
      AtFront(m, p, q, i + 1);
    } else {
      assert Changes(c, At(m, p, |p|), q, i - |p|);
      AtBack(m, p, q, i - |p|);
      AtBack(m, p, q, i + 1 - |p|);
    }
  }

  lemma CanonAt(c: Codec, m: Mem, rs: seq<Record>, i: nat)
    requires i <= |rs|
    ensures At(CanonMem(c, m), CanonRecords(c, rs), i) == CanonMem(c, At(m, rs, i))
  {
    assert CanonRecords(c, rs)[..i] == CanonRecords(c, rs[..i]);
    ApplyAllCanon(c, m, rs[..i]);
  }

  lemma ChainCanon(c: Codec, m: Mem, rs: seq<Record>)
    requires Lawful(c) && Chain(c, m, rs)
    ensures Chain(c, CanonMem(c, m), CanonRecords(c, rs))
  {
    var n, qs := CanonMem(c, m), CanonRecords(c, rs);
    forall i: nat | i <= |qs| ensures Steady(n, qs, i) {
      assert Steady(m, rs, i);
      CanonAt(c, m, rs, i);
      CanonConsistent(c, At(m, rs, i));
    }
    forall i: nat | i < |qs| ensures Changes(c, n, qs, i) {
      assert Changes(c, m, rs, i);
      CanonAt(c, m, rs, i);
      CanonAt(c, m, rs, i + 1);
      CanonMemIdempotent(c, At(m, rs, i));
      CanonMemIdempotent(c, At(m, rs, i + 1));
    }
  }

  // The records of one mutation are a chain.
  lemma MutationChain(c: Codec, m: Mem, ev: Event)
    requires Consistent(m) && Enabled(m, ev)
    ensures Chain(c, m, Records(m, ev))
  {
    var rs := Records(m, ev);
    RecordsApplicable(m, ev);
    forall i: nat | i <= |rs| ensures Steady(m, rs, i) {
      if i == 0 { AtAll(m, rs); } else {
        PartialEffect(m, ev, i);
        EffectConsistent(m, Part(ev, i));
      }
    }
    forall i: nat | i < |rs| ensures Changes(c, m, rs, i) {
      if ev.Prune? { PruneChanges(c, m, ev, i); } else {
        AtAll(m, rs);
        EffectDiffers(c, m, ev);
      }
    }
  }

  lemma PruneChanges(c: Codec, m: Mem, ev: Event, i: nat)
    requires Consistent(m) && Enabled(m, ev) && ev.Prune? && i < |ev.ids|
    ensures Changes(c, m, Records(m, ev), i)
  {
    var id, rs := ev.ids[i], Records(m, ev);
    assert rs[..i] == Tombstones(ev.ids[..i]) && rs[..i + 1] == Tombstones(ev.ids[..i + 1]);
    DeleteAll(m, ev.ids[..i]);
    DeleteAll(m, ev.ids[..i + 1]);
    assert id in m.items && id !in ev.ids[..i] && ev.ids[..i + 1][i] == id;
    RecordsApplicable(m, ev);
    assert id in CanonMem(c, At(m, rs, i)).items && id !in CanonMem(c, At(m, rs, i + 1)).items;
  }

  // The maps that every durable name is bound to hold at least, the records that
  // may follow them unsynchronised, and how many of those the maps in memory show.
  datatype Trail = Trail(base: Mem, lag: seq<Record>, seen: nat)

  // ---- Files ----

  // The synchronised bytes replay to m, and the others are cut from rs.
  ghost predicate FileHolds(c: Codec, f: File, m: Mem, rs: seq<Record>) {
    && f.durable <= |f.data|
    && ReplayFile(c, f.data[..f.durable]).Loaded?
    && ReplayFile(c, f.data[..f.durable]).mem == CanonMem(c, m)
    && TornTail(c, f.data[..f.durable])
    && f.data[f.durable..] <= Lines(c, rs)
    && (f.data[f.durable..] != "" ==> Clean(f.data[..f.durable]))
  }

  // The synchronised bytes have the first k of the records.
  ghost predicate FileAt(c: Codec, f: File, m: Mem, rs: seq<Record>, k: nat) {
    k <= |rs| && FileHolds(c, f, At(m, rs, k), rs[k..])
  }

  // And all the bytes so many.
  ghost function ReadTo(c: Codec, f: File, m: Mem, rs: seq<Record>, k: nat): (n: nat)
    requires FileAt(c, f, m, rs, k)
    ensures k <= n <= |rs|
  {
    k + Whole(c, rs[k..], f.data[f.durable..])
  }

  // The maps that show `seen` of the records are among those the file may come to
  // hold when its unsynchronised bytes are lost in part.
  ghost predicate Spans(c: Codec, f: File, m: Mem, rs: seq<Record>, seen: nat) {
    exists k: nat :: FileAt(c, f, m, rs, k) && k <= seen <= ReadTo(c, f, m, rs, k)
  }

  // They are what the file replays to as it is.
  ghost predicate ReadsAs(c: Codec, f: File, m: Mem, rs: seq<Record>, seen: nat) {
    exists k: nat :: FileAt(c, f, m, rs, k) && ReadTo(c, f, m, rs, k) == seen
  }

  // What may be found under the journal's name e.
  ghost predicate EntryHolds(c: Codec, d: Disk, e: Option<nat>, m: Mem, rs: seq<Record>, seen: nat) {
    match e
    case None => m == EMPTY && rs == [] && seen == 0
    case Some(i) => i in d.files && Spans(c, d.files[i], m, rs, seen)
  }

  ghost predicate NamesHold(c: Codec, d: Disk, m: Mem, rs: seq<Record>, seen: nat) {
    forall e {:trigger EntryHolds(c, d, e, m, rs, seen)} | e in d.entries :: EntryHolds(c, d, e, m, rs, seen)
  }

  // What is found there now.
  ghost predicate CurrentReads(c: Codec, d: Disk, m: Mem, rs: seq<Record>, seen: nat)
    requires d.entries != []
  {
    Current(d).Some? ==> Current(d).value in d.files && ReadsAs(c, d.files[Current(d).value], m, rs, seen)
  }

  ghost predicate Synchronised(f: File) { f.durable == |f.data| }

  lemma UntouchedFile(f: File)
    ensures f.data[..|f.data|] == f.data
  {
  }

  lemma CutFileHolds(c: Codec, f: File, g: File, m: Mem, rs: seq<Record>) returns (j: nat)
    requires Lawful(c) && FileHolds(c, f, m, rs) && CutOf(f, g)
    requires forall i | 0 <= i < |rs| :: Applicable(rs[i])
    ensures g.data[f.durable..] <= Lines(c, rs) && j == Whole(c, rs, g.data[f.durable..])
    ensures FileHolds(c, g, ApplyAll(m, rs[..j]), [])
    ensures ReplayFile(c, g.data).Loaded?
    ensures ReplayFile(c, g.data).records == ReplayFile(c, f.data[..f.durable]).records + j
  {
    var front, rest := f.data[..f.durable], g.data[f.durable..];
    assert f.data == front + f.data[f.durable..];
    assert g.data == f.data[..|g.data|];
    assert g.data == front + rest;
    assert rest <= f.data[f.durable..];
    assert g.data[..g.durable] == g.data && g.data[g.durable..] == "";
    j := Whole(c, rs, rest);
    if rest == "" {
      NothingWhole(c, rs);
      assert front + rest == front && ApplyAll(m, rs[..0]) == m;
    } else {
      var n := ReplayFile(c, front).records;
      ReplayConcat(c, front, rest, EMPTY, 0);
      ReplayCutBatch(c, rs, rest, CanonMem(c, m), n);
      ApplyAllCanon(c, m, rs[..j]);
      TailOfConcat(front, rest);
    }
  }

  lemma NothingWhole(c: Codec, rs: seq<Record>)
    requires Lawful(c)
    ensures Whole(c, rs, "") == 0
  {
    if rs != [] { EncodingNotEmpty(c, rs[0]); }
  }

  lemma {:induction false} WholeGrows(c: Codec, rs: seq<Record>, p: Bytes, q: Bytes)
    requires Lawful(c) && p <= q <= Lines(c, rs)
    ensures Whole(c, rs, p) <= Whole(c, rs, q)
    decreases rs
  {
    if rs != [] && |p| > |c.encode(rs[0])| {
      var n := |Line(c, rs[0])|;
      WholeGrows(c, rs[1..], p[n..], q[n..]);
    }
  }

  lemma CutWhole(c: Codec, f: File, g: File, rs: seq<Record>)
    requires Lawful(c) && CutOf(f, g) && f.durable <= |f.data| && f.data[f.durable..] <= Lines(c, rs)
    ensures g.data[f.durable..] <= f.data[f.durable..]
    ensures Whole(c, rs, g.data[f.durable..]) <= Whole(c, rs, f.data[f.durable..])
    ensures |g.data| == f.durable ==> Whole(c, rs, g.data[f.durable..]) == 0
  {
    assert g.data == f.data[..|g.data|];
    assert g.data[f.durable..] <= f.data[f.durable..];
    WholeGrows(c, rs, g.data[f.durable..], f.data[f.durable..]);
    NothingWhole(c, rs);
    if |g.data| == f.durable { assert g.data[f.durable..] == ""; }
  }

  // A file keeps its synchronised bytes and a prefix of the others.
  lemma CutFile(c: Codec, f: File, g: File, m: Mem, rs: seq<Record>, k: nat) returns (j: nat)
    requires Lawful(c) && Chain(c, m, rs) && FileAt(c, f, m, rs, k) && CutOf(f, g)
    ensures k <= j <= ReadTo(c, f, m, rs, k) && FileHolds(c, g, At(m, rs, j), [])
    ensures g.data == f.data ==> j == ReadTo(c, f, m, rs, k)
    ensures |g.data| == f.durable ==> j == k
  {
    CutWhole(c, f, g, rs[k..]);
    j := k + Whole(c, rs[k..], g.data[f.durable..]);
    CutHolds(c, f, g, m, rs, k, j);
  }

  lemma CutHolds(c: Codec, f: File, g: File, m: Mem, rs: seq<Record>, k: nat, j: nat)
    requires Lawful(c) && Chain(c, m, rs) && FileAt(c, f, m, rs, k) && CutOf(f, g)
    requires g.data[f.durable..] <= Lines(c, rs[k..]) && k <= j <= |rs|
    requires j == k + Whole(c, rs[k..], g.data[f.durable..])
    ensures FileHolds(c, g, At(m, rs, j), [])
  {
    ChainApplicable(c, m, rs, k);
    AtSuffix(m, rs, k, j - k);
    CutSuffix(c, f, g, At(m, rs, k), rs[k..], j - k, At(m, rs, j));
  }

  lemma CutSuffix(c: Codec, f: File, g: File, m: Mem, rs: seq<Record>, j: nat, n: Mem)
    requires Lawful(c) && FileHolds(c, f, m, rs) && CutOf(f, g) && g.data[f.durable..] <= Lines(c, rs)
    requires j <= |rs| && j == Whole(c, rs, g.data[f.durable..]) && n == At(m, rs, j)
    requires forall i | 0 <= i < |rs| :: Applicable(rs[i])
    ensures FileHolds(c, g, n, [])
  {
    var i := CutFileHolds(c, f, g, m, rs);
  }

  // Replay counts the whole records beyond the synchronised bytes.
  lemma FileCounts(c: Codec, f: File, m: Mem, rs: seq<Record>, k: nat)
    requires Lawful(c) && Chain(c, m, rs) && FileAt(c, f, m, rs, k)
    ensures ReplayFile(c, f.data).Loaded? && ReplayFile(c, f.data[..f.durable]).Loaded?
    ensures ReplayFile(c, f.data).records == ReplayFile(c, f.data[..f.durable]).records + (ReadTo(c, f, m, rs, k) - k)
  {
    ChainApplicable(c, m, rs, k);
    var j := CutFileHolds(c, f, File(f.data, |f.data|), At(m, rs, k), rs[k..]);
  }

  // As it is, the file replays to the maps after all the records it has whole.
  lemma FileRead(c: Codec, f: File, m: Mem, rs: seq<Record>, k: nat)
    requires Lawful(c) && Chain(c, m, rs) && FileAt(c, f, m, rs, k)
    ensures ReplayFile(c, f.data).Loaded? && TornTail(c, f.data)
    ensures ReplayFile(c, f.data).mem == CanonMem(c, At(m, rs, ReadTo(c, f, m, rs, k)))
    ensures ReplayFile(c, f.data[..f.durable]).Loaded?
    ensures ReplayFile(c, f.data[..f.durable]).mem == CanonMem(c, At(m, rs, k))
  {
    UntouchedFile(f);
    var j := CutFile(c, f, File(f.data, |f.data|), m, rs, k);
  }

  lemma {:induction false} CanonWhole(c: Codec, rs: seq<Record>, p: Bytes)
    requires Lawful(c) && p <= Lines(c, rs) && p <= Lines(c, CanonRecords(c, rs))
    ensures Whole(c, CanonRecords(c, rs), p) == Whole(c, rs, p)
    decreases rs
  {
    if rs != [] {
      var qs := CanonRecords(c, rs);
      assert c.encode(qs[0]) == c.encode(rs[0]) && qs[1..] == CanonRecords(c, rs[1..]);
      if |p| > |c.encode(rs[0])| {
        CanonLines(c, rs[1..]);
        assert Line(c, rs[0]) <= p && p[|Line(c, rs[0])|..] <= Lines(c, rs[1..]);
        CanonWhole(c, rs[1..], p[|Line(c, rs[0])|..]);
      }
    }
  }

  lemma FileCanon(c: Codec, f: File, m: Mem, rs: seq<Record>, k: nat)
    requires Lawful(c) && FileAt(c, f, m, rs, k)
    ensures FileAt(c, f, CanonMem(c, m), CanonRecords(c, rs), k)
    ensures ReadTo(c, f, CanonMem(c, m), CanonRecords(c, rs), k) == ReadTo(c, f, m, rs, k)
  {
    CanonAt(c, m, rs, k);
    CanonMemIdempotent(c, At(m, rs, k));
    assert CanonRecords(c, rs)[k..] == CanonRecords(c, rs[k..]);
    CanonLines(c, rs[k..]);
    CanonWhole(c, rs[k..], f.data[f.durable..]);
  }

  lemma ShortIsTorn(c: Codec, rs: seq<Record>, p: Bytes)
    requires Lawful(c) && rs != [] && p <= Lines(c, rs) && p != ""
    ensures |p| <= |c.encode(rs[0])| ==> !Clean(p)
  {
    var e := c.encode(rs[0]);
    if |p| <= |e| {
      assert e == Lines(c, rs)[..|e|];
      assert p[|p| - 1] == e[|p| - 1] && e[|p| - 1] in e;
    }
  }

  // Whole lines are the lines of whole records.
  lemma {:induction false} CleanWhole(c: Codec, rs: seq<Record>, p: Bytes)
    requires Lawful(c) && p <= Lines(c, rs) && Clean(p)
    ensures p == Lines(c, rs[..Whole(c, rs, p)])
    decreases rs
  {
    NothingWhole(c, rs);
    if p != "" {
      ShortIsTorn(c, rs, p);
      var line := Line(c, rs[0]);
      PrefixSplits(line, Lines(c, rs[1..]), p);
      var rest := p[|line|..];
      assert Clean(rest) by { if rest != "" { assert rest[|rest| - 1] == p[|p| - 1]; } }
      CleanWhole(c, rs[1..], rest);
      var w := Whole(c, rs[1..], rest);
      assert rs[..w + 1] == [rs[0]] + rs[1..][..w] && rs[..w + 1][1..] == rs[1..][..w];
    }
  }

  lemma SuffixClean(data: Bytes, i: nat)
    requires Clean(data) && i <= |data|
    ensures Clean(data[i..])
  {
  }

  lemma Slices<T>(q: seq<T>, r: seq<T>, k: nat, n: nat)
    requires k <= n <= |q|
    ensures q[k..][..n - k] == q[k..n]
    ensures (q[..n] + r)[k..] == q[k..n] + r && (q[..n] + r)[..k] == q[..k]
  {
  }

  // What a terminated file has beyond its synchronised bytes is whole records.
  lemma TerminatedLines(c: Codec, f: File, rs: seq<Record>)
    requires Lawful(c) && f.durable <= |f.data| && f.data[f.durable..] <= Lines(c, rs) && Clean(f.data)
    ensures f.data[f.durable..] == Lines(c, rs[..Whole(c, rs, f.data[f.durable..])])
  {
    SuffixClean(f.data, f.durable);
    CleanWhole(c, rs, f.data[f.durable..]);
  }

  // Part of an append reaches a terminated file.
  lemma WriteFile(c: Codec, f: File, g: File, m: Mem, rs: seq<Record>, k: nat, seen: nat, qs: seq<Record>, piece: Bytes)
    requires Lawful(c) && FileAt(c, f, m, rs, k) && ReadTo(c, f, m, rs, k) == seen && Clean(f.data)
    requires piece <= Lines(c, qs) && g == f.(data := f.data + piece)
    ensures FileAt(c, g, m, rs[..seen] + qs, k) && seen <= ReadTo(c, g, m, rs[..seen] + qs, k)
    ensures g.data[g.durable..] == Lines(c, rs[k..seen]) + piece
  {
    TerminatedLines(c, f, rs[k..]);
    Slices(rs, qs, k, seen);
    WholeOfLines(c, rs[k..seen], qs, piece);
    GrownFile(c, f, g, At(m, rs, k), rs[k..], rs[k..seen] + qs, piece);
    assert At(m, rs[..seen] + qs, k) == At(m, rs, k);
  }

  lemma GrownFile(c: Codec, f: File, g: File, m: Mem, rs: seq<Record>, all: seq<Record>, piece: Bytes)
    requires FileHolds(c, f, m, rs) && Clean(f.data) && g == f.(data := f.data + piece)
    requires f.data[f.durable..] + piece <= Lines(c, all)
    ensures FileHolds(c, g, m, all) && g.data[g.durable..] == f.data[f.durable..] + piece
  {
    assert g.data[..g.durable] == f.data[..f.durable] && g.data[g.durable..] == f.data[f.durable..] + piece;
    if f.data[f.durable..] == "" { assert f.data[..f.durable] == f.data; }
  }

  lemma {:induction false} WholeOfLines(c: Codec, p: seq<Record>, q: seq<Record>, piece: Bytes)
    requires Lawful(c) && piece <= Lines(c, q)
    ensures Lines(c, p) + piece <= Lines(c, p + q)
    ensures Whole(c, p + q, Lines(c, p) + piece) >= |p|
    decreases p
  {
    if p == [] {
      assert p + q == q && Lines(c, p) + piece == piece;
    } else {
      var rest := Lines(c, p[1..]) + piece;
      assert (p + q)[1..] == p[1..] + q;
      WholeOfLines(c, p[1..], q, piece);
      Associative(Line(c, p[0]), Lines(c, p[1..]), piece);
      WholeFirst(c, p + q, rest);
    }
  }

  lemma WholeFirst(c: Codec, rs: seq<Record>, rest: Bytes)
    requires rs != [] && rest <= Lines(c, rs[1..])
    ensures Line(c, rs[0]) + rest <= Lines(c, rs)
    ensures Whole(c, rs, Line(c, rs[0]) + rest) == 1 + Whole(c, rs[1..], rest)
  {
    var line := Line(c, rs[0]);
    assert (line + rest)[|line|..] == rest;
  }

  // The file is synchronised with all of the records in it.
  lemma SyncedFile(c: Codec, f: File, g: File, m: Mem, rs: seq<Record>, k: nat)
    requires Lawful(c) && Chain(c, m, rs) && FileAt(c, f, m, rs, k) && f.data[f.durable..] == Lines(c, rs[k..])
    requires g == f.(durable := |f.data|)
    ensures FileHolds(c, g, ApplyAll(m, rs), [])
  {
    AllWhole(c, rs[k..]);
    CutHolds(c, f, g, m, rs, k, |rs|);
    AtAll(m, rs);
  }

  lemma {:induction false} AllWhole(c: Codec, rs: seq<Record>)
    requires Lawful(c)
    ensures Whole(c, rs, Lines(c, rs)) == |rs|
    decreases rs
  {
    if rs != [] {
      AllWhole(c, rs[1..]);
      WholeFirst(c, rs, Lines(c, rs[1..]));
    }
  }
}
