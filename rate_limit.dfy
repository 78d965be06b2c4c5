/** The general-purpose in-memory limiter used by the HTTP layer: hits at or
    before `now - window` are popped from the front of the key's deque, a
    full bucket rejects without recording and reports a retry-after, and an
    allowed call records its hit. */
module RateLimit {
  import opened Common

  /** What is left of `bucket` after popping from the front while the oldest
      entry is at or before `cutoff`. */
  function DropExpired(bucket: seq<int>, cutoff: int): (r: seq<int>)
    ensures |r| <= |bucket|
    ensures r != [] ==> r[0] > cutoff
    decreases |bucket|
  {
    if bucket != [] && bucket[0] <= cutoff then DropExpired(bucket[1..], cutoff) else bucket
  }

  /** The survivors are a suffix of the bucket, and everything popped was at
      or before the cutoff. */
  lemma {:induction false} DropExpiredSuffix(bucket: seq<int>, cutoff: int)
    ensures var r := DropExpired(bucket, cutoff);
      && r == bucket[|bucket| - |r|..]
      && forall i :: 0 <= i < |bucket| - |r| ==> bucket[i] <= cutoff
    decreases |bucket|
  {
    if bucket != [] && bucket[0] <= cutoff {
      DropExpiredSuffix(bucket[1..], cutoff);
    }
  }

  function Max(a: int, b: int): int { if a >= b then a else b }

  /** The source returns `(allowed, retry_after)`; `IndexError` is what the
      source raises when `max_requests <= 0` meets an empty bucket, since
      `bucket[0]` is then read to compute the retry-after. */
  datatype CheckOutcome = Outcome(allowed: bool, retryAfter: Option<int>) | IndexError

  datatype Checked = Checked(outcome: CheckOutcome, bucket: seq<int>)

  /** The decision and the bucket left behind by one `check` at `now`. */
  function CheckStep(bucket: seq<int>, now: int, window: int, maxRequests: int): (c: Checked)
    ensures var pruned := DropExpired(bucket, now - window);
      && (c.outcome == Outcome(true, None) <==> |pruned| < maxRequests)
      && (c.outcome == Outcome(true, None) ==> c.bucket == pruned + [now])
      && (c.outcome != Outcome(true, None) ==> c.bucket == pruned)
      && (c.outcome.IndexError? <==> pruned == [] && maxRequests <= 0)
      && (c.outcome.Outcome? && !c.outcome.allowed ==> c.outcome.retryAfter.Some? && c.outcome.retryAfter.value >= 1)
    ensures |bucket| <= maxRequests ==> |c.bucket| <= maxRequests
  {
    var pruned := DropExpired(bucket, now - window);
    if |pruned| >= maxRequests then
      if pruned == [] then Checked(IndexError, pruned)
      else Checked(Outcome(false, Some(Max(1, window - (now - pruned[0])))), pruned)
    else Checked(Outcome(true, None), pruned + [now])
  }

  class InMemoryRateLimiter {
    const maxRequests: int
    const windowSeconds: int
    var hits: map<string, seq<int>>

    /** No bucket ever holds more than `max_requests` hits. */
    ghost predicate Valid()
      reads this
    {
      forall key :: key in hits ==> |hits[key]| <= Max(maxRequests, 0)
    }

    constructor (maxRequests: int, windowSeconds: int)
      ensures this.maxRequests == maxRequests && this.windowSeconds == windowSeconds
      ensures hits == map[] && Valid()
    {
      this.maxRequests := maxRequests;
      this.windowSeconds := windowSeconds;
      hits := map[];
    }

    /** `self._hits[key]` on the defaultdict. */
    function BucketOf(key: string): seq<int>
      reads this
    {
      if key in hits then hits[key] else []
    }

    method Check(key: string, now: int) returns (outcome: CheckOutcome)
      requires Valid()
      modifies this
      ensures Valid()
      ensures var step := CheckStep(old(BucketOf(key)), now, windowSeconds, maxRequests);
        outcome == step.outcome && hits == old(hits)[key := step.bucket]
    {
      var bucket := BucketOf(key);
      var cutoff := now - windowSeconds;
      while bucket != [] && bucket[0] <= cutoff
        invariant DropExpired(bucket, cutoff) == DropExpired(old(BucketOf(key)), cutoff)
        invariant |bucket| <= |old(BucketOf(key))|
        decreases |bucket|
      {
        bucket := bucket[1..];
      }
      if |bucket| >= maxRequests {
        if bucket == [] {
          hits := hits[key := bucket];
          return IndexError;
        }
        var retryAfter := Max(1, windowSeconds - (now - bucket[0]));
        hits := hits[key := bucket];
        return Outcome(false, Some(retryAfter));
      }
      hits := hits[key := bucket + [now]];
      outcome := Outcome(true, None);
    }
  }

  /** A rejection always asks the caller to wait at least one second. */
  lemma RetryAfterPositive(bucket: seq<int>, now: int, window: int, maxRequests: int)
    ensures var step := CheckStep(bucket, now, window, maxRequests);
      step.outcome.Outcome? && step.outcome.retryAfter.Some? ==> step.outcome.retryAfter.value >= 1
  {
  }

  /** A rejected call leaves only the pruning behind; it records no hit. */
  lemma RejectionRecordsNothing(bucket: seq<int>, now: int, window: int, maxRequests: int)
    ensures var step := CheckStep(bucket, now, window, maxRequests);
      !(step.outcome == Outcome(true, None)) ==> step.bucket == DropExpired(bucket, now - window)
  {
  }

  /** A hit exactly `window` old is dropped. */
  lemma BoundaryHitDropped(bucket: seq<int>, now: int, window: int)
    requires bucket != [] && bucket[0] == now - window
    ensures |DropExpired(bucket, now - window)| < |bucket|
  {
  }

  /** The bucket after a series of checks at the instants `times`. */
  function ReplayChecks(bucket: seq<int>, times: seq<int>, window: int, maxRequests: int): seq<int>
    decreases |times|
  {
    if times == [] then bucket
    else CheckStep(ReplayChecks(bucket, times[..|times| - 1], window, maxRequests), times[|times| - 1], window, maxRequests).bucket
  }

  function Min(a: int, b: int): int { if a <= b then a else b }

  predicate InOneWindow(times: seq<int>, window: int)
  {
    (forall i, j :: 0 <= i <= j < |times| ==> times[i] <= times[j])
    && (times != [] ==> times[|times| - 1] - times[0] < window)
  }

  lemma InOneWindowPrefix(times: seq<int>, window: int, k: nat)
    requires InOneWindow(times, window) && k <= |times|
    ensures InOneWindow(times[..k], window)
  {
    if k > 0 {
      assert times[k - 1] <= times[|times| - 1];
    }
  }

  /** Checks at nondecreasing instants strictly inside one window: the bucket
      holds the first `min(k, max)` of the first `k` hits. */
  lemma {:induction false} ReplayChecksWithinWindow(times: seq<int>, window: int, maxRequests: nat)
    requires maxRequests >= 1 && InOneWindow(times, window)
    ensures ReplayChecks([], times, window, maxRequests) == times[..Min(|times|, maxRequests)]
  {
    if times != [] {
      var n := |times| - 1;
      var prefix := times[..n];
      InOneWindowPrefix(times, window, n);
      ReplayChecksWithinWindow(prefix, window, maxRequests);
      var before := prefix[..Min(n, maxRequests)];
      assert before == times[..Min(n, maxRequests)];
      if before != [] {
        assert before[0] == times[0] && times[n] - times[0] < window;
      }
      assert DropExpired(before, times[n] - window) == before;
      if n < maxRequests {
        assert before + [times[n]] == times[..Min(|times|, maxRequests)];
      }
    }
  }

  /** With `max` requests allowed, the first `max` checks inside one window
      pass and every later one is rejected with a retry-after of at least 1
      second; so with max 5 the sixth call is the first rejected. */
  lemma {:induction false} NthCheckAllowed(times: seq<int>, window: int, maxRequests: nat, k: nat)
    requires maxRequests >= 1 && InOneWindow(times, window) && k < |times|
    ensures var step := CheckStep(ReplayChecks([], times[..k], window, maxRequests), times[k], window, maxRequests);
      && (step.outcome == Outcome(true, None) <==> k < maxRequests)
      && (k >= maxRequests ==> step.outcome == Outcome(false, Some(window - (times[k] - times[0]))))
      && |step.bucket| <= maxRequests
  {
    InOneWindowPrefix(times, window, k + 1);
    var upTo := times[..k + 1];
    var prefix := times[..k];
    assert upTo[..k] == prefix;
    ReplayChecksWithinWindow(prefix, window, maxRequests);
    var before := prefix[..Min(k, maxRequests)];
    if before != [] {
      assert before[0] == times[0] && times[k] - times[0] < window;
    }
    assert DropExpired(before, times[k] - window) == before;
  }
}
