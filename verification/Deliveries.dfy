/** The delivery record and the state each store operation gives it
    (internal/delivery/delivery.go, internal/store/store.go). */
module Deliveries {
  import opened Text

  datatype Status = Pending | InFlight | Succeeded | Failed | Canceled

  // The zero time.Time.
  const NO_TIME: int := 0

  datatype Delivery = Delivery(
    id: Bytes,
    key: Bytes,
    url: Bytes,
    verb: Bytes,
    headers: map<Bytes, Bytes>,
    body: Bytes,
    status: Status,
    attempts: int,
    maxAttempts: int,
    nextAttemptAt: int,
    leaseUntil: int,
    lastError: Bytes,
    lastResponseCode: int,
    createdAt: int,
    updatedAt: int)

  // The fields no operation may change.
  datatype Identity = Identity(
    id: Bytes, key: Bytes, url: Bytes, verb: Bytes, headers: map<Bytes, Bytes>,
    body: Bytes, maxAttempts: int, createdAt: int)

  function IdentityOf(d: Delivery): Identity {
    Identity(d.id, d.key, d.url, d.verb, d.headers, d.body, d.maxAttempts, d.createdAt)
  }

  predicate Terminal(d: Delivery) {
    d.status.Succeeded? || d.status.Failed? || d.status.Canceled?
  }

  // Claimable at `now`: pending and due, or in flight under an expired lease.
  predicate Due(d: Delivery, now: int) {
    || (d.status.Pending? && d.nextAttemptAt <= now)
    || (d.status.InFlight? && d.leaseUntil <= now)
  }

  // The order in which due deliveries are claimed.
  predicate Before(a: Delivery, b: Delivery) {
    || a.nextAttemptAt < b.nextAttemptAt
    || (a.nextAttemptAt == b.nextAttemptAt
        && (a.createdAt < b.createdAt || (a.createdAt == b.createdAt && Less(a.id, b.id))))
  }

  function Claimed(d: Delivery, now: int, lease: int): Delivery {
    d.(status := InFlight, attempts := d.attempts + 1, leaseUntil := now + lease, updatedAt := now)
  }

  function SucceededWith(d: Delivery, code: int, now: int): Delivery {
    d.(status := Succeeded, lastResponseCode := code, lastError := "",
       nextAttemptAt := NO_TIME, leaseUntil := NO_TIME, updatedAt := now)
  }

  function FailedWith(d: Delivery, code: int, message: Bytes, next: int, terminal: bool, now: int): Delivery {
    var e := d.(lastResponseCode := code, lastError := message, leaseUntil := NO_TIME, updatedAt := now);
    if terminal then e.(status := Failed, nextAttemptAt := NO_TIME)
    else e.(status := Pending, nextAttemptAt := next)
  }

  function CanceledAt(d: Delivery, now: int): Delivery {
    d.(status := Canceled, nextAttemptAt := NO_TIME, leaseUntil := NO_TIME, updatedAt := now)
  }

  function RetriedAt(d: Delivery, now: int): Delivery {
    d.(status := Pending, attempts := 0, nextAttemptAt := now, leaseUntil := NO_TIME,
       lastError := "", lastResponseCode := 0, updatedAt := now)
  }
}
