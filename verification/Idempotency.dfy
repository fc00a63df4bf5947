/** Creating again with a key that is in use (internal/store/store.go:160-186). */
module Idempotency {
  import opened Results
  import opened Text
  import opened Deliveries
  import opened Journal
  import opened Requests
  import opened FingerprintProofs
  import opened Lifecycle
  import opened Stores

  // What Create finds under the key: the delivery of that ID, if the fingerprint
  // it has stored is the one of the request.
  ghost predicate Answers(m: Mem, key: Bytes, id: Bytes, hash: Bytes) {
    key in m.keyToId && m.keyToId[key] == id && Lookup(m.hashes, id) == hash
  }

  // As long as the delivery created for r lives, through any mutations, crashes
  // and compactions, a request with its key is answered with that delivery if it
  // agrees with r on method, URL, budget, headers and body, and conflicts if not.
  lemma RecreateAnswersIffSame(c: Codec, lib: Library, ms: seq<Mem>, steps: seq<Step>, n: nat, k: nat,
                               r: Request, s: Request)
    requires Lawful(c) && History(c, ms, steps) && FreshIds(steps) && n < k <= |steps| && Creates(steps[n])
    requires steps[n].ev.d.key == r.key == s.key != "" && steps[n].ev.hash == lib.digest(Preimage(r))
    requires Normal(r) && Normal(s) && forall x, y | lib.digest(x) == lib.digest(y) :: x == y
    requires steps[n].ev.d.id in ms[k].items
    ensures s.key in ms[k].keyToId && ms[k].keyToId[s.key] == steps[n].ev.d.id
    ensures Answers(ms[k], s.key, steps[n].ev.d.id, lib.digest(Preimage(s))) <==> SameContent(r, s)
  {
    var id := steps[n].ev.d.id;
    AllConsistent(c, ms, steps, n);
    AllConsistent(c, ms, steps, k);
    StepTouch(c, ms[n], steps[n], id);
    IdentityIsImmutable(c, ms, steps, n + 1, k, id);
    HashIdentifiesRequest(lib, r, s);
  }

  // Two calls of Create with one key, the first of them successful. The second is
  // answered with the first one's delivery, and nothing new, if the requests come
  // to the same; otherwise it conflicts. Together they make at most one delivery.
  method CreateTwice(store: Store, lib: Library, first: Request, second: Request, now: int, later: int,
                     firstId: Option<Bytes>, secondId: Bytes, statted: bool, io: AppendIO, io': AppendIO)
      returns (a: Result<(Delivery, bool)>, b: Result<(Delivery, bool)>, ghost r: Request, ghost s: Request)
    requires store.Valid() && ParsesNoControls(lib) && forall x, y | lib.digest(x) == lib.digest(y) :: x == y
    requires lib.trim(first.key) == lib.trim(second.key) != ""
    requires firstId.Some? ==> firstId.value != "" && firstId.value !in store.items
    requires secondId != "" && secondId !in store.items && firstId != Some(secondId)
    modifies store
    ensures store.Valid() && old(store.log) <= store.log
    ensures Accepted(lib, first) ==> NormalForm(lib, first, r)
    ensures Accepted(lib, second) ==> NormalForm(lib, second, s)
    ensures a.Ok? && Accepted(lib, second) ==>
      b == if SameContent(r, s) then Ok((a.value.0, false)) else Err(IdempotencyConflict)
    ensures a.Ok? ==> store.items == if a.value.1 then old(store.items)[a.value.0.id := a.value.0] else old(store.items)
  {
    a, r := store.Create(lib, first, now, firstId, statted, io);
    b, s := store.Create(lib, second, later, Some(secondId), statted, io');
    if a.Ok? && Accepted(lib, second) { HashIdentifiesRequest(lib, r, s); }
  }
}
