/** The timestamp filter shared by the sliding-window counters that prune by
    `[ts for ts in bucket if ts >= cutoff]` and then append the current hit. */
module Windows {

  /** The entries of `bucket` at or after `cutoff`, in their original order. */
  function KeepRecent(bucket: seq<int>, cutoff: int): (r: seq<int>)
    ensures |r| <= |bucket|
    ensures forall i :: 0 <= i < |r| ==> r[i] >= cutoff
    ensures forall x :: x in r <==> x in bucket && x >= cutoff
  {
    if bucket == [] then []
    else
      var rest := KeepRecent(bucket[1..], cutoff);
      assert bucket == [bucket[0]] + bucket[1..];
      if bucket[0] >= cutoff then [bucket[0]] + rest else rest
  }

  /** One hit at `now`: prune what is older than `now - window`, then append `now`. */
  function RecordHit(bucket: seq<int>, now: int, window: int): (r: seq<int>)
    ensures |r| >= 1 && r[|r| - 1] == now
    ensures r[..|r| - 1] == KeepRecent(bucket, now - window)
  {
    KeepRecent(bucket, now - window) + [now]
  }

  /** `buckets.get(key, [])` */
  function BucketIn<K>(buckets: map<K, seq<int>>, key: K): seq<int>
  {
    if key in buckets then buckets[key] else []
  }

  /** The table after one hit for `key` at `now`; only that key's bucket changes. */
  function HitIn<K>(buckets: map<K, seq<int>>, key: K, now: int, window: int): map<K, seq<int>>
  {
    buckets[key := RecordHit(BucketIn(buckets, key), now, window)]
  }

  /** The bucket after hits at each of `times`, in order, starting from `bucket`. */
  function Replay(bucket: seq<int>, times: seq<int>, window: int): seq<int>
    decreases |times|
  {
    if times == [] then bucket
    else RecordHit(Replay(bucket, times[..|times| - 1], window), times[|times| - 1], window)
  }

  predicate NonDecreasing(s: seq<int>)
  {
    forall i, j :: 0 <= i <= j < |s| ==> s[i] <= s[j]
  }

  lemma {:induction false} KeepRecentAllRecent(bucket: seq<int>, cutoff: int)
    requires forall i :: 0 <= i < |bucket| ==> bucket[i] >= cutoff
    ensures KeepRecent(bucket, cutoff) == bucket
  {
    if bucket != [] {
      KeepRecentAllRecent(bucket[1..], cutoff);
    }
  }

  /** Pruning twice with no hit in between changes nothing. */
  lemma KeepRecentIdempotent(bucket: seq<int>, cutoff: int)
    ensures KeepRecent(KeepRecent(bucket, cutoff), cutoff) == KeepRecent(bucket, cutoff)
  {
    KeepRecentAllRecent(KeepRecent(bucket, cutoff), cutoff);
  }

  lemma {:induction false} KeepRecentAppend(a: seq<int>, b: seq<int>, cutoff: int)
    ensures KeepRecent(a + b, cutoff) == KeepRecent(a, cutoff) + KeepRecent(b, cutoff)
  {
    if a == [] {
      assert a + b == b;
    } else {
      assert (a + b)[1..] == a[1..] + b;
      KeepRecentAppend(a[1..], b, cutoff);
    }
  }

  /** Hits that all fall within one window of the first survive every pruning:
      the bucket is exactly the hits seen so far. */
  lemma {:induction false} ReplayWithinWindow(times: seq<int>, window: int)
    requires NonDecreasing(times)
    requires times != [] ==> times[|times| - 1] - times[0] <= window
    ensures Replay([], times, window) == times
  {
    if times != [] {
      var n := |times| - 1;
      var prefix := times[..n];
      PrefixWithinWindow(times, window, n);
      ReplayWithinWindow(prefix, window);
      forall i | 0 <= i < |prefix| ensures prefix[i] >= times[n] - window {
        assert times[0] <= times[i];
      }
      KeepRecentAllRecent(prefix, times[n] - window);
      assert Replay([], times, window) == KeepRecent(prefix, times[n] - window) + [times[n]];
      assert prefix + [times[n]] == times;
    }
  }

  lemma PrefixWithinWindow(times: seq<int>, window: int, k: nat)
    requires NonDecreasing(times) && k <= |times|
    requires times != [] ==> times[|times| - 1] - times[0] <= window
    ensures NonDecreasing(times[..k])
    ensures k > 0 ==> times[..k][k - 1] - times[..k][0] <= window
  {
    if k > 0 {
      assert times[k - 1] <= times[|times| - 1];
    }
  }

  /** Pruning at an earlier cutoff first does not change what a later pruning keeps. */
  lemma {:induction false} KeepRecentCompose(bucket: seq<int>, early: int, late: int)
    requires early <= late
    ensures KeepRecent(KeepRecent(bucket, early), late) == KeepRecent(bucket, late)
  {
    if bucket != [] {
      KeepRecentCompose(bucket[1..], early, late);
    }
  }
}
