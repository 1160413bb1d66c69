/** The fixed-window request limiter, over its in-memory store. */
module RateLimit {
  import opened Prelude

  datatype Bucket = Bucket(count: nat, resetAt: int)

  /** One request at `now`: the window is new when there is none, or when the
      last one has ended strictly before `now`. */
  function Hit(b: Option<Bucket>, now: int, windowMs: nat): Bucket {
    if b.None? || now > b.value.resetAt then Bucket(1, now + windowMs)
    else Bucket(b.value.count + 1, b.value.resetAt)
  }

  /** Seconds, rounded up. */
  function RetryAfter(ttlMs: nat): nat {
    (ttlMs + 999) / 1000
  }

  datatype Verdict = Admit | Refuse(retryAfter: nat)

  class Limiter {
    var buckets: map<string, Bucket>
    const windowMs: nat
    const max: nat

    constructor (windowMs: nat, max: nat)
      ensures buckets == map[] && this.windowMs == windowMs && this.max == max
    {
      this.windowMs, this.max, buckets := windowMs, max, map[];
    }

    function Lookup(key: string): Option<Bucket>
      reads this
    {
      if key in buckets then Some(buckets[key]) else None
    }

    method IncrementCounter(key: string, now: int) returns (count: nat, ttlMs: nat)
      modifies `buckets
      ensures buckets == old(buckets)[key := Hit(old(Lookup(key)), now, windowMs)]
      ensures count == buckets[key].count && ttlMs == buckets[key].resetAt - now
    {
      var bucket := if key in buckets then buckets[key] else Bucket(0, now + windowMs);
      if now > bucket.resetAt {
        bucket := Bucket(0, now + windowMs);
      }
      bucket := bucket.(count := bucket.count + 1);
      buckets := buckets[key := bucket];
      return bucket.count, bucket.resetAt - now;
    }

    method RateLimit(key: string, now: int, skip: bool) returns (verdict: Verdict)
      modifies `buckets
      ensures skip ==> verdict == Admit && buckets == old(buckets)
      ensures !skip ==>
                var b := Hit(old(Lookup(key)), now, windowMs);
                && buckets == old(buckets)[key := b]
                && verdict == if b.count > max then Refuse(RetryAfter(b.resetAt - now)) else Admit
    {
      if skip { return Admit; }
      var count, ttlMs := IncrementCounter(key, now);
      if count > max { return Refuse(RetryAfter(ttlMs)); }
      return Admit;
    }
  }

  // ----- one key over time ------------------------------------------------------

  predicate Nondecreasing(times: seq<int>) {
    forall i, j :: 0 <= i < j < |times| ==> times[i] <= times[j]
  }

  /** The key's bucket after requests at `times`. */
  function After(times: seq<int>, windowMs: nat): Option<Bucket> {
    if times == [] then None else Some(Hit(After(times[..|times| - 1], windowMs), times[|times| - 1], windowMs))
  }

  /** Whether the last of these requests is let through. */
  predicate LastAdmitted(times: seq<int>, windowMs: nat, max: nat)
    requires times != []
  {
    After(times, windowMs).value.count <= max
  }

  /** Requests let through at a time in [from, until]. */
  function Admitted(times: seq<int>, windowMs: nat, max: nat, from: int, until: int): nat {
    if times == [] then 0
    else
      Admitted(times[..|times| - 1], windowMs, max, from, until)
      + (if from <= times[|times| - 1] <= until && LastAdmitted(times, windowMs, max) then 1 else 0)
  }

  function Min(a: int, b: int): int {
    if a <= b then a else b
  }

  /** What the window a key is in has let through of [from, from + windowMs]:
      nothing but that window when it began before `from`, that window and the
      rest of the one before when it began inside. */
  lemma {:induction false} AdmittedSoFar(times: seq<int>, windowMs: nat, max: nat, from: int)
    requires max > 0 && times != [] && Nondecreasing(times)
    ensures var b := After(times, windowMs).value;
            var began := b.resetAt - windowMs;
            var admitted := Admitted(times, windowMs, max, from, from + windowMs);
            && b.count > 0 && began <= times[|times| - 1] <= b.resetAt
            && (times[|times| - 1] < from ==> admitted == 0)
            && (began < from ==> admitted <= Min(b.count, max) - 1)
            && (from <= began <= from + windowMs ==> admitted <= max - 1 + Min(b.count, max))
            && (from + windowMs < began ==> admitted <= 2 * max - 1)
  {
    var init := times[..|times| - 1];
    if init != [] {
      AdmittedSoFar(init, windowMs, max, from);
    }
  }

  /** No closed stretch of time as long as the window lets more than twice the
      limit through; one request less, in fact, because the request that opens a
      window counts in it. */
  lemma AtMostTwiceTheLimit(times: seq<int>, windowMs: nat, max: nat, from: int)
    requires Nondecreasing(times)
    ensures max > 0 ==> Admitted(times, windowMs, max, from, from + windowMs) <= 2 * max - 1
    ensures max == 0 ==> Admitted(times, windowMs, max, from, from + windowMs) == 0
  {
    if max == 0 {
      NothingAtZero(times, windowMs, from, from + windowMs);
    } else if times != [] {
      AdmittedSoFar(times, windowMs, max, from);
    }
  }

  lemma {:induction false} NothingAtZero(times: seq<int>, windowMs: nat, from: int, until: int)
    ensures Admitted(times, windowMs, 0, from, until) == 0
  {
    if times != [] {
      NothingAtZero(times[..|times| - 1], windowMs, from, until);
    }
  }

  /** Further requests at one instant of a running window: the first ones fill it
      up, the rest are refused. */
  lemma {:induction false} Burst(times: seq<int>, windowMs: nat, max: nat, from: int, until: int, at: int, n: nat)
    requires times != [] && from <= at <= until && at <= After(times, windowMs).value.resetAt
    requires After(times, windowMs).value.count + n <= max
    ensures var more := times + seq(n, _ => at);
            && After(more, windowMs)
                 == Some(Bucket(After(times, windowMs).value.count + n, After(times, windowMs).value.resetAt))
            && Admitted(more, windowMs, max, from, until) == Admitted(times, windowMs, max, from, until) + n
  {
    var more := times + seq(n, _ => at);
    if n == 0 {
      assert more == times;
    } else {
      assert more[..|more| - 1] == times + seq(n - 1, _ => at);
      Burst(times, windowMs, max, from, until, at, n - 1);
    }
  }

  /** The bound is reached for every limit: one request opens a window, the rest
      of its quota comes in its last instant, and the next window's quota one
      millisecond later. */
  lemma BoundIsReached(windowMs: nat, max: nat) returns (times: seq<int>)
    requires windowMs > 0 && max > 0
    ensures Nondecreasing(times)
    ensures Admitted(times, windowMs, max, windowMs, 2 * windowMs) == 2 * max - 1
  {
    var one: seq<int> := [0];
    assert one[..0] == [];
    var two := one + seq(max - 1, _ => windowMs as int);
    Burst(one, windowMs, max, windowMs, 2 * windowMs, windowMs, max - 1);
    var three := two + [windowMs + 1];
    assert three[..|two|] == two;
    assert After(three, windowMs) == Some(Bucket(1, 2 * windowMs + 1));
    times := three + seq(max - 1, _ => windowMs as int + 1);
    Burst(three, windowMs, max, windowMs, 2 * windowMs, windowMs + 1, max - 1);
  }

  // ----- what a refused client is told ------------------------------------------

  lemma {:induction false} WindowLasts(times: seq<int>, later: seq<int>, windowMs: nat)
    requires times != [] && forall i :: 0 <= i < |later| ==> later[i] <= After(times, windowMs).value.resetAt
    ensures After(times + later, windowMs).value.resetAt == After(times, windowMs).value.resetAt
    ensures After(times + later, windowMs).value.count == After(times, windowMs).value.count + |later|
  {
    if later == [] {
      assert times + later == times;
    } else {
      assert (times + later)[..|times + later| - 1] == times + later[..|later| - 1];
      WindowLasts(times, later[..|later| - 1], windowMs);
    }
  }

  /** After a refusal the next request of the key gets through exactly when it
      comes after the window has ended, whoever else was refused meanwhile. */
  lemma AdmittedAgainExactly(times: seq<int>, later: seq<int>, windowMs: nat, max: nat, at: int)
    requires max > 0 && times != [] && !LastAdmitted(times, windowMs, max)
    requires forall i :: 0 <= i < |later| ==> later[i] <= After(times, windowMs).value.resetAt
    ensures LastAdmitted(times + later + [at], windowMs, max) <==> at > After(times, windowMs).value.resetAt
  {
    WindowLasts(times, later, windowMs);
    assert (times + later + [at])[..|times + later|] == times + later;
  }

  /** A client that waits longer than it was told finds a new window.  Waiting
      exactly that long fails just when the window had a whole number of seconds
      left, because a window includes its last instant. */
  lemma WaitingLongerThanRetryAfter(times: seq<int>, later: seq<int>, windowMs: nat, max: nat, wait: nat)
    requires max > 0 && times != [] && Nondecreasing(times) && !LastAdmitted(times, windowMs, max)
    requires forall i :: 0 <= i < |later| ==> later[i] <= After(times, windowMs).value.resetAt
    ensures var now := times[|times| - 1];
            var left := After(times, windowMs).value.resetAt - now;
            && left >= 0
            && (wait > 1000 * RetryAfter(left) ==> LastAdmitted(times + later + [now + wait], windowMs, max))
            && (wait == 1000 * RetryAfter(left) ==>
                  (LastAdmitted(times + later + [now + wait], windowMs, max) <==> left % 1000 != 0))
  {
    AdmittedSoFar(times, windowMs, max, 0);
    AdmittedAgainExactly(times, later, windowMs, max, times[|times| - 1] + wait);
  }
}
