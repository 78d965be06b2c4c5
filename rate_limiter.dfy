/** The sliding-window limiter injected into the password-reset orchestrator:
    every call records its hit, and the call is over the limit when the
    pruned bucket, including this hit, holds more than `limit` entries. */
module ResetRateLimiter {
  import opened Windows

  class SlidingWindowRateLimiter {
    const windowSeconds: int
    var buckets: map<string, seq<int>>

    constructor (windowSeconds: int)
      ensures this.windowSeconds == windowSeconds && buckets == map[]
    {
      this.windowSeconds := windowSeconds;
      buckets := map[];
    }

    /** `self._buckets.get(key, [])` */
    function BucketOf(key: string): seq<int>
      reads this
    {
      BucketIn(buckets, key)
    }

    /** Records a hit for `key` at `now` and reports whether the key is over `limit`.
        Only the bucket of `key` changes. */
    method Exceeded(key: string, limit: int, now: int) returns (exceeded: bool)
      modifies this
      ensures buckets == HitIn(old(buckets), key, now, windowSeconds)
      ensures exceeded <==> |KeepRecent(old(BucketOf(key)), now - windowSeconds)| + 1 > limit
      ensures exceeded == OverLimit(old(BucketOf(key)), now, windowSeconds, limit)
    {
      var cutoff := now - windowSeconds;
      var recent := KeepRecent(BucketOf(key), cutoff);
      recent := recent + [now];
      buckets := buckets[key := recent];
      exceeded := |recent| > limit;
    }
  }

  /** Whether the hit at `now` is over `limit`, given the bucket before it. */
  function OverLimit(bucket: seq<int>, now: int, window: int, limit: int): bool
  {
    |RecordHit(bucket, now, window)| > limit
  }

  /** A single call decides on the pruned count plus one: an entry exactly
      `window` old is still counted. */
  lemma OverLimitCountsBoundary(bucket: seq<int>, now: int, window: int, limit: int)
    requires forall i :: 0 <= i < |bucket| ==> bucket[i] == now - window
    ensures OverLimit(bucket, now, window, limit) <==> |bucket| + 1 > limit
  {
    KeepRecentAllRecent(bucket, now - window);
  }

  /** Calls at nondecreasing instants that all fit in one window: the first
      `limit` calls are within the limit and every later one is over it. */
  lemma {:induction false} NthCallOverLimit(times: seq<int>, window: int, limit: int, k: nat)
    requires NonDecreasing(times) && k < |times|
    requires times[|times| - 1] - times[0] <= window
    ensures OverLimit(Replay([], times[..k], window), times[k], window, limit) <==> k + 1 > limit
  {
    PrefixWithinWindow(times, window, k + 1);
    ReplayWithinWindow(times[..k + 1], window);
    assert times[..k + 1][..k] == times[..k];
    assert Replay([], times[..k + 1], window) == RecordHit(Replay([], times[..k], window), times[k], window);
  }

  /** Pruning a bucket at an earlier instant, with no hit in between, never
      changes the verdict of the next call. */
  lemma PruneThenCheck(bucket: seq<int>, earlier: int, now: int, window: int, limit: int)
    requires earlier <= now
    ensures RecordHit(KeepRecent(bucket, earlier - window), now, window) == RecordHit(bucket, now, window)
    ensures OverLimit(KeepRecent(bucket, earlier - window), now, window, limit) == OverLimit(bucket, now, window, limit)
  {
    KeepRecentCompose(bucket, earlier - window, now - window);
  }
}
