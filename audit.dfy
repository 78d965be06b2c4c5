/** Per-user velocity tracker for completed password resets: advisory only,
    it flags a user once the window holds `threshold` resets. */
module ResetAudit {
  import opened Common
  import opened Windows

  class ResetAuditTracker {
    const windowSeconds: int
    const threshold: int
    var activity: map<UserId, seq<int>>

    constructor (windowSeconds: int, threshold: int)
      ensures this.windowSeconds == windowSeconds && this.threshold == threshold
      ensures activity == map[]
    {
      this.windowSeconds := windowSeconds;
      this.threshold := threshold;
      activity := map[];
    }

    function ActivityOf(user: UserId): seq<int>
      reads this
    {
      BucketIn(activity, user)
    }

    /** The stored count, without pruning; an unseen user has count 0. */
    function CountFor(user: UserId): (n: nat)
      reads this
      ensures user !in activity ==> n == 0
      ensures user in activity ==> n == |activity[user]|
    {
      |ActivityOf(user)|
    }

    /** Records one reset for `user` at `now`. The source's `ip` argument is
        unused by the tracker and so not a parameter here. */
    method Record(user: UserId, now: int) returns (suspicious: bool)
      modifies this
      ensures activity == HitIn(old(activity), user, now, windowSeconds)
      ensures CountFor(user) == |KeepRecent(old(ActivityOf(user)), now - windowSeconds)| + 1
      ensures suspicious <==> CountFor(user) >= threshold
      ensures forall other :: other != user ==> ActivityOf(other) == old(ActivityOf(other))
    {
      var cutoff := now - windowSeconds;
      var recent := KeepRecent(ActivityOf(user), cutoff);
      recent := recent + [now];
      activity := activity[user := recent];
      suspicious := |recent| >= threshold;
    }
  }

  /** Whether a reset at `now` is flagged, given the user's entries before it. */
  function Flagged(entries: seq<int>, now: int, window: int, threshold: int): bool
  {
    |RecordHit(entries, now, window)| >= threshold
  }

  /** Resets at nondecreasing instants within one window: the k-th one
      (counting from 0) is flagged exactly when k + 1 reaches the threshold;
      with threshold 3 the third reset is the first flagged. */
  lemma {:induction false} NthResetFlagged(times: seq<int>, window: int, threshold: int, k: nat)
    requires NonDecreasing(times) && k < |times|
    requires times[|times| - 1] - times[0] <= window
    ensures Flagged(Replay([], times[..k], window), times[k], window, threshold) <==> k + 1 >= threshold
  {
    PrefixWithinWindow(times, window, k + 1);
    ReplayWithinWindow(times[..k + 1], window);
    assert times[..k + 1][..k] == times[..k];
    assert Replay([], times[..k + 1], window) == RecordHit(Replay([], times[..k], window), times[k], window);
  }
}
