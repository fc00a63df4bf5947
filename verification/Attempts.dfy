/** What a worker makes of one attempt (internal/worker/worker.go:153-223, 251-263). */
module Attempts {
  import opened Results
  import opened Text
  import opened Deliveries
  import opened Journal
  import opened Events
  import opened EventProofs

  // What comes of sending the request. `detail` is the trimmed start of the body.
  datatype Exchange =
    | NoReply(message: Bytes)
    | Unreadable(code: nat, message: Bytes)
    | Answered(code: nat, detail: Bytes)

  predicate Good(code: int) { 200 <= code < 300 }

  predicate RetryableStatus(code: int) { code == 408 || code == 425 || code == 429 || code >= 500 }

  // send
  function Sent(x: Exchange): (int, Option<Bytes>) {
    match x
    case NoReply(message) => (0, Some(message))
    case Unreadable(code, message) => (code, Some("read response: " + message))
    case Answered(code, detail) =>
      if Good(code) then (code, None)
      else if detail == "" then (code, Some("HTTP " + Decimal(code)))
      else (code, Some("HTTP " + Decimal(code) + ": " + detail))
  }

  // failureMessage
  function FailureMessage(code: nat, error: Option<Bytes>): Bytes {
    if error.Some? then error.value else "HTTP " + Decimal(code)
  }

  // The decision deliver takes on what send returned.
  function Decision(d: Delivery, code: nat, error: Option<Bytes>, next: int, now: int): Event {
    if error.None? && Good(code) then Succeed(d.id, d.attempts, code, now)
    else
      var retryable := RetryableStatus(code) || (error.Some? && (code == 0 || Good(code)));
      var terminal := !retryable || d.attempts >= d.maxAttempts;
      Fail(d.id, d.attempts, code, FailureMessage(code, error), next, terminal, now)
  }

  function Verdict(d: Delivery, x: Exchange, next: int, now: int): Event {
    Decision(d, Sent(x).0, Sent(x).1, next, now)
  }

  // The server may not have seen the request, or has asked to be tried again.
  predicate MayWorkLater(x: Exchange) {
    match x
    case NoReply(_) => true
    case Unreadable(code, _) => code in {0, 408, 425, 429} || 200 <= code < 300 || code >= 500
    case Answered(code, _) => code in {0, 408, 425, 429} || code >= 500
  }

  // Exactly a whole 2xx answer succeeds, exactly what may work later is tried
  // again while attempts are left, and every other failure is for good.
  lemma VerdictPartition(d: Delivery, x: Exchange, next: int, now: int)
    ensures Subject(Verdict(d, x, next, now)) == d.id && Verdict(d, x, next, now).attempt == d.attempts
    ensures Verdict(d, x, next, now).Succeed? <==> x.Answered? && 200 <= x.code < 300
    ensures Verdict(d, x, next, now).Fail? <==> !(x.Answered? && 200 <= x.code < 300)
    ensures Verdict(d, x, next, now).Fail? ==>
      (!Verdict(d, x, next, now).terminal <==> MayWorkLater(x) && d.attempts < d.maxAttempts)
  {
  }
  // What the store holds once an attempt on `item` has been recorded; `when` is the
  // time of the next attempt, if there is to be one.
  ghost predicate Recorded(before: map<Bytes, Delivery>, after: map<Bytes, Delivery>, item: Delivery, x: Exchange,
                           when: int, now: int)
  {
    && item.id in before
    && match x
      case NoReply(message) => FailedAttempt(before, after, item, x, 0, message, when, now)
      case Unreadable(code, message) => FailedAttempt(before, after, item, x, code, "read response: " + message, when, now)
      case Answered(code, detail) =>
        if 200 <= code < 300 then
          after == before[item.id := before[item.id].(
            status := Status.Succeeded, lastResponseCode := code, lastError := "",
            nextAttemptAt := NO_TIME, leaseUntil := NO_TIME, updatedAt := now)]
        else if detail == "" then FailedAttempt(before, after, item, x, code, "HTTP " + Decimal(code), when, now)
        else FailedAttempt(before, after, item, x, code, "HTTP " + Decimal(code) + ": " + detail, when, now)
  }

  // Tried again while the server may yet take it and attempts are left.
  ghost predicate FailedAttempt(before: map<Bytes, Delivery>, after: map<Bytes, Delivery>, item: Delivery, x: Exchange,
                                code: nat, error: Bytes, when: int, now: int)
    requires item.id in before
  {
    var again := MayWorkLater(x) && item.attempts < item.maxAttempts;
    after == before[item.id := before[item.id].(
      status := if again then Pending else Failed, nextAttemptAt := if again then when else NO_TIME,
      lastResponseCode := code, lastError := error, leaseUntil := NO_TIME, updatedAt := now)]
  }

  lemma VerdictIsRecorded(m: Mem, item: Delivery, x: Exchange, next: int, when: int, now: int)
    requires Indexed(m) && LeaseHeld(m, item.id, item.attempts)
    requires Verdict(item, x, next, now).Fail? ==> next == when
    ensures Enabled(m, Verdict(item, x, next, now))
    ensures Recorded(m.items, Effect(m, Verdict(item, x, next, now)).items, item, x, when, now)
  {
    EffectOfPut(m, Verdict(item, x, next, now));
  }
}
