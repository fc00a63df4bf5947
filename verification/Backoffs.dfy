/** How long a worker waits before the next attempt
    (internal/worker/worker.go:225-249). */
module Backoffs {
  import opened Text

  // time.Duration: nanoseconds in a signed 64-bit word.
  newtype Duration = x: int | -0x8000_0000_0000_0000 <= x < 0x8000_0000_0000_0000

  function Least(a: int, b: int): int { if a <= b then a else b }

  function Doubled(base: int, times: nat): int {
    if times == 0 then base else 2 * Doubled(base, times - 1)
  }

  // The wait before an attempt is jittered: doubled for each attempt after the
  // first, up to the maximum.
  function Delay(base: int, maximum: int, attempt: int): int {
    Least(Doubled(base, if attempt < 1 then 0 else attempt - 1), maximum)
  }

  // Between 0.8 and 1.2 times the delay, never above the maximum.
  function Jittered(delay: int, maximum: int, hash: nat): int {
    Least(delay * (800 + hash % 401) / 1000, maximum)
  }

  lemma {:induction false} DoublingGrows(base: int, i: nat, n: nat)
    requires base > 0 && i <= n
    ensures 0 < Doubled(base, i) <= Doubled(base, n)
    decreases n
  {
    if i < n { DoublingGrows(base, i, n - 1); } else if i > 0 { DoublingGrows(base, i - 1, i - 1); }
  }

  // Backoff. Every sum stays in 64 bits: `fnv` is the hash of a string.
  method Backoff(fnv: Bytes -> nat, base: Duration, maximum: Duration, id: Bytes, attempt: int)
      returns (wait: Duration)
    requires base > 0 && maximum > 0
    ensures var n := if attempt < 1 then 1 else attempt;
      wait as int ==
        Jittered(Delay(base as int, maximum as int, attempt), maximum as int, fnv(id + ":" + Decimal(n)))
  {
    var n := attempt;
    if n < 1 { n := 1; }
    var delay := base;
    var i := 1;
    while i < n && delay < maximum
      invariant 1 <= i <= n && delay > 0
      invariant delay as int == Doubled(base as int, i - 1)
    {
      if delay > maximum / 2 {
        DoublingGrows(base as int, i, n - 1);
        delay := maximum;
        break;
      }
      delay := delay * 2;
      i := i + 1;
    }
    DoublingGrows(base as int, i - 1, n - 1);
    if delay > maximum { delay := maximum; }
    assert delay as int == Delay(base as int, maximum as int, attempt);
    var factor := 800 + fnv(id + ":" + Decimal(n)) % 401;
    JitterRange(delay as int, factor);
    var jittered := delay as int * factor / 1000;
    if jittered > maximum as int { return maximum; }
    return jittered as Duration;
  }

  lemma JitterRange(delay: int, factor: int)
    requires delay > 0 && 800 <= factor <= 1200
    ensures delay * 4 / 5 <= delay * factor / 1000 <= delay * 6 / 5
  {
    assert delay * 800 <= delay * factor <= delay * 1200;
    assert delay * 4 / 5 == delay * 800 / 1000 && delay * 6 / 5 == delay * 1200 / 1000;
  }

  lemma WaitRange(base: int, maximum: int, attempt: int, hash: nat)
    requires base > 0 && maximum > 0
    ensures var delay := Delay(base, maximum, attempt);
      0 < delay <= maximum && delay * 4 / 5 <= Jittered(delay, maximum, hash) <= Least(delay * 6 / 5, maximum)
  {
    var times := if attempt < 1 then 0 else attempt - 1;
    DoublingGrows(base, times, times);
    JitterRange(Delay(base, maximum, attempt), 800 + hash % 401);
  }

  // The first wait is the base, or the maximum if that is less; the next is twice
  // the one before, or the maximum.
  lemma FirstDelay(base: int, maximum: int, attempt: int)
    requires attempt <= 1
    ensures Delay(base, maximum, attempt) == if base <= maximum then base else maximum
  {
  }

  // delay * (0.8 + hash % 401 / 1000), rounded down, and no more than the maximum.
  lemma JitterIs(delay: int, maximum: int, hash: nat)
    ensures var wait, exact := Jittered(delay, maximum, hash), delay * 800 + delay * (hash % 401);
      wait <= maximum && 1000 * wait <= exact && (wait < maximum ==> exact < 1000 * wait + 1000)
  {
    assert delay * (800 + hash % 401) == delay * 800 + delay * (hash % 401);
  }

  lemma NextDelay(base: int, maximum: int, attempt: int)
    requires base > 0 && maximum > 0 && attempt >= 1
    ensures Delay(base, maximum, attempt + 1) == Least(2 * Delay(base, maximum, attempt), maximum)
  {
    DoublingGrows(base, attempt - 1, attempt);
  }

  ghost predicate AtMost(delay: int, next: int, maximum: int) {
    forall h: nat, k: nat :: Jittered(delay, maximum, h) <= Jittered(next, maximum, k)
  }

  ghost predicate NeverShorter(base: int, maximum: int, attempt: int) {
    AtMost(Delay(base, maximum, attempt), Delay(base, maximum, attempt + 1), maximum)
  }

  // Whatever the hashes, the wait after the next attempt is no shorter exactly
  // when the delay can still double, or is already small beside the maximum.
  lemma NeverShorterIff(base: int, maximum: int, attempt: int)
    requires base > 0 && maximum > 0 && attempt >= 1
    ensures var delay := Delay(base, maximum, attempt);
      NeverShorter(base, maximum, attempt) <==> 2 * delay <= maximum || delay * 6 / 5 <= maximum * 4 / 5
  {
    var delay, next := Delay(base, maximum, attempt), Delay(base, maximum, attempt + 1);
    NextDelay(base, maximum, attempt);
    forall h: nat ensures Jittered(delay, maximum, h) <= Least(delay * 6 / 5, maximum) {
      WaitRange(base, maximum, attempt, h);
    }
    forall k: nat ensures next * 4 / 5 <= Jittered(next, maximum, k) {
      WaitRange(base, maximum, attempt + 1, k);
    }
    WaitRange(base, maximum, attempt, 400);
    Extremes(delay, next, maximum);
    if NeverShorter(base, maximum, attempt) {
      assert Jittered(delay, maximum, 400) <= Jittered(next, maximum, 0);
    }
  }

  lemma Extremes(delay: int, next: int, maximum: int)
    requires 0 < delay <= maximum && 0 < next <= maximum
    ensures Jittered(delay, maximum, 400) == Least(delay * 6 / 5, maximum)
    ensures Jittered(next, maximum, 0) == next * 4 / 5
  {
    assert delay * 1200 / 1000 == delay * 6 / 5 && next * 800 / 1000 == next * 4 / 5;
  }

  // So at the top of the range a wait may be shorter than the one before it.
  lemma WaitsMayShrink()
    ensures !NeverShorter(1000, 1000, 1)
    ensures Jittered(Delay(1000, 1000, 1), 1000, 400) == 1000 && Jittered(Delay(1000, 1000, 2), 1000, 0) == 800
  {
    NextDelay(1000, 1000, 1);
    NeverShorterIff(1000, 1000, 1);
  }
}
