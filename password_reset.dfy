/** The password-reset orchestrator with injected collaborators: one sliding
    window limiter for every rate-limited key, a reset-velocity tracker, the
    reset-token store, the user service and the session store. Each entry
    point is a fixed sequence of checks, and an exception at any step leaves
    the effects of the earlier steps in place. */
module PasswordReset {
  import opened Common
  import opened Windows
  import opened Validators
  import opened ResetTokens
  import opened Users
  import opened SessionStore
  import opened ResetRateLimiter
  import opened ResetAudit

  const RateLimitWindow := 300
  const IdentifierAttemptLimit := 5
  const IpAttemptLimit := 20
  const ResetAttemptLimit := 20
  const ResetAlertWindow := 3600
  const ResetAlertThreshold := 3

  /** `RateLimitError`, `InvalidResetTokenError`, `PasswordReuseError`, and
      the `ValueError` of the password policy. */
  datatype ResetError = RateLimited | InvalidResetToken | PasswordReuse | PolicyViolation(message: string)

  /** `PasswordResetResult` */
  datatype ResetResult = ResetResult(sessionId: SessionId, suspicious: bool)

  /** The reset-token delivery, recorded as an event rather than sent. */
  datatype Dispatch = Dispatch(userId: UserId, token: string)

  /** Exactly one token was created, under a fresh key, for `user` with
      lifetime `ttl`, and its dispatch was appended to the log. */
  predicate IssuedOne(before: Tokens, after: Tokens, logBefore: seq<Dispatch>, logAfter: seq<Dispatch>,
                      user: UserId, now: int, ttl: int)
  {
    && |logAfter| == |logBefore| + 1
    && logAfter[..|logBefore|] == logBefore
    && logAfter[|logBefore|].userId == user
    && logAfter[|logBefore|].token !in before
    && after == before[logAfter[|logBefore|].token := Expiring(ResetRecord(user, now), Some(now + ttl))]
  }

  /** `client_ip or "unknown"` */
  function IpKey(clientIp: Option<string>): (k: string)
    ensures k != ""
  {
    OrElse(clientIp, "unknown")
  }

  class PasswordResetService {
    const users: UserService
    const sessions: SessionService
    const tokens: ResetTokenService
    const limiter: SlidingWindowRateLimiter
    const auditor: ResetAuditTracker
    /** `verify_password(plain, hashed)`, a foreign library: an arbitrary predicate here. */
    const verify: (string, string) -> bool
    var dispatched: seq<Dispatch>

    ghost predicate Valid()
      reads this, sessions, tokens, limiter, auditor
    {
      && sessions.Valid()
      && tokens.defaultTtl > 0
      && limiter.windowSeconds == RateLimitWindow
      && auditor.windowSeconds == ResetAlertWindow && auditor.threshold == ResetAlertThreshold
    }

    constructor (users: UserService, sessions: SessionService, tokens: ResetTokenService, verify: (string, string) -> bool)
      requires sessions.Valid() && tokens.defaultTtl > 0
      ensures this.users == users && this.sessions == sessions && this.tokens == tokens && this.verify == verify
      ensures fresh(limiter) && fresh(auditor) && limiter.buckets == map[] && auditor.activity == map[]
      ensures dispatched == [] && Valid()
    {
      this.users := users;
      this.sessions := sessions;
      this.tokens := tokens;
      this.verify := verify;
      limiter := new SlidingWindowRateLimiter(RateLimitWindow);
      auditor := new ResetAuditTracker(ResetAlertWindow, ResetAlertThreshold);
      dispatched := [];
    }

    /** `_enforce_rate_limit`: records the hit and fails when the key is over `limit`. */
    method EnforceRateLimit(key: string, limit: int, now: int) returns (r: Result<(), ResetError>)
      modifies limiter
      ensures limiter.buckets == HitIn(old(limiter.buckets), key, now, limiter.windowSeconds)
      ensures r.Failure? <==> OverLimit(BucketIn(old(limiter.buckets), key), now, limiter.windowSeconds, limit)
      ensures r.Failure? ==> r.error == RateLimited
    {
      var exceeded := limiter.Exceeded(key, limit, now);
      if exceeded {
        return Failure(RateLimited);
      }
      return Success(());
    }

    /** `initiate_reset`: the lowercased identifier is checked against its
        limit, then the client address; only then is the user looked up, and
        a token is created and dispatched for an active user only. */
    method InitiateReset(identifier: string, clientIp: Option<string>, now: int) returns (r: Result<bool, ResetError>)
      requires Valid()
      modifies this, limiter, tokens
      ensures Valid()
      ensures var b0 := old(limiter.buckets);
              var b1 := HitIn(b0, ToLower(identifier), now, RateLimitWindow);
              var ipKey := IpKey(clientIp);
              && (OverLimit(BucketIn(b0, ToLower(identifier)), now, RateLimitWindow, IdentifierAttemptLimit) ==>
                    r == Failure(RateLimited) && limiter.buckets == b1)
              && (!OverLimit(BucketIn(b0, ToLower(identifier)), now, RateLimitWindow, IdentifierAttemptLimit) ==>
                    && limiter.buckets == HitIn(b1, ipKey, now, RateLimitWindow)
                    && (OverLimit(BucketIn(b1, ipKey), now, RateLimitWindow, IpAttemptLimit) <==> r == Failure(RateLimited)))
      ensures var user := GetByIdentifier(users.users, identifier);
              r.Success? ==> (r.value <==> user.Some? && user.value.status == Active)
      ensures r != Success(true) ==> tokens.tokens == old(tokens.tokens) && dispatched == old(dispatched)
      ensures r == Success(true) ==>
                IssuedOne(old(tokens.tokens), tokens.tokens, old(dispatched), dispatched,
                          GetByIdentifier(users.users, identifier).value.id, now, tokens.defaultTtl)
    {
      var limited := EnforceRateLimit(ToLower(identifier), IdentifierAttemptLimit, now);
      if limited.Failure? {
        return Failure(RateLimited);
      }
      limited := EnforceRateLimit(IpKey(clientIp), IpAttemptLimit, now);
      if limited.Failure? {
        return Failure(RateLimited);
      }
      var issued := IssueToken(identifier, now);
      return Success(issued);
    }

    /** The lookup that follows the rate limits: a missing or inactive user
        gets nothing; an active one gets exactly one token, dispatched to it. */
    method IssueToken(identifier: string, now: int) returns (issued: bool)
      requires Valid()
      modifies this, tokens
      ensures Valid()
      ensures var user := GetByIdentifier(users.users, identifier);
              issued <==> user.Some? && user.value.status == Active
      ensures !issued ==> tokens.tokens == old(tokens.tokens) && dispatched == old(dispatched)
      ensures issued ==>
                IssuedOne(old(tokens.tokens), tokens.tokens, old(dispatched), dispatched,
                          GetByIdentifier(users.users, identifier).value.id, now, tokens.defaultTtl)
    {
      var user := GetByIdentifier(users.users, identifier);
      if user.None? || user.value.status != Active {
        return false;
      }
      var token := tokens.CreateResetToken(user.value.id, None, now);
      dispatched := dispatched + [Dispatch(user.value.id, token.value)];
      return true;
    }

    /** `complete_reset`: policy, then the client address limit, then the
        token (consumed whatever follows), the user, the reuse check, the
        audit, the password update, the revocation of every listed session,
        and one new session. */
    method CompleteReset(token: string, newPassword: string, clientIp: Option<string>, userAgent: Option<string>, now: int)
      returns (r: Result<ResetResult, ResetError>)
      requires Valid() && now >= sessions.clock
      modifies limiter, tokens, users, sessions, auditor
      ensures Valid()
      // 1. the password policy, before anything is touched
      ensures var policy := ValidatePasswordStrength(newPassword);
              policy.Failure? ==>
                && r == Failure(PolicyViolation(policy.error))
                && unchanged(limiter, tokens, users, sessions, auditor)
      // 2. the client address limit, recorded even when it fails
      ensures ValidatePasswordStrength(newPassword).Success? ==>
                limiter.buckets == HitIn(old(limiter.buckets), IpKey(clientIp), now, RateLimitWindow)
      ensures var over := OverLimit(BucketIn(old(limiter.buckets), IpKey(clientIp)), now, RateLimitWindow, ResetAttemptLimit);
              ValidatePasswordStrength(newPassword).Success? && over ==>
                r == Failure(RateLimited) && unchanged(tokens, users, sessions, auditor)
      // 3. the token is consumed once the limit passes
      ensures var over := OverLimit(BucketIn(old(limiter.buckets), IpKey(clientIp)), now, RateLimitWindow, ResetAttemptLimit);
              var consumed := Consume(old(tokens.tokens), token, now);
              ValidatePasswordStrength(newPassword).Success? && !over ==>
                && tokens.tokens == consumed.tokens
                && (consumed.user.None? ==> r == Failure(InvalidResetToken) && unchanged(users, sessions, auditor))
                && (consumed.user.Some? ==>
                      var found := First(old(users.users), ById(consumed.user.value));
                      // 4. the user must still exist
                      && (found.None? ==> r == Failure(InvalidResetToken) && unchanged(users, sessions, auditor))
                      // 5. the new password must differ from the current one
                      && (found.Some? && verify(newPassword, found.value.hashedPassword) ==>
                            r == Failure(PasswordReuse) && unchanged(users, sessions, auditor))
                      // 6-9. audit, new hash, revoke all, one new session
                      && (found.Some? && !verify(newPassword, found.value.hashedPassword) ==>
                            var id := found.value.id;
                            && r.Success?
                            && auditor.activity == HitIn(old(auditor.activity), id, now, ResetAlertWindow)
                            && (r.value.suspicious <==> auditor.CountFor(id) >= ResetAlertThreshold)
                            && users.users == WithPassword(old(users.users), id, users.hash(newPassword))
                            && Renewed(sessions, old(sessions.records), old(sessions.userSets), id, r.value.sessionId, userAgent, clientIp, now)))
    {
      var policy := ValidatePasswordStrength(newPassword);
      if policy.Failure? {
        return Failure(PolicyViolation(policy.error));
      }
      var limited := EnforceRateLimit(IpKey(clientIp), ResetAttemptLimit, now);
      if limited.Failure? {
        return Failure(RateLimited);
      }
      var userId := tokens.ConsumeResetToken(token, now);
      if userId.None? {
        return Failure(InvalidResetToken);
      }
      var user := users.GetById(userId.value);
      if user.None? {
        return Failure(InvalidResetToken);
      }
      if verify(newPassword, user.value.hashedPassword) {
        return Failure(PasswordReuse);
      }
      var result := ApplyReset(user.value.id, newPassword, clientIp, userAgent, now);
      return Success(result);
    }

    /** The steps after every check has passed: the audit, the new hash, the
        revocation of every listed session, and one new session. */
    method ApplyReset(id: UserId, newPassword: string, clientIp: Option<string>, userAgent: Option<string>, now: int)
      returns (result: ResetResult)
      requires Valid() && now >= sessions.clock
      modifies users, sessions, auditor
      ensures Valid()
      ensures auditor.activity == HitIn(old(auditor.activity), id, now, ResetAlertWindow)
      ensures result.suspicious <==> auditor.CountFor(id) >= ResetAlertThreshold
      ensures users.users == WithPassword(old(users.users), id, users.hash(newPassword))
      ensures Renewed(sessions, old(sessions.records), old(sessions.userSets), id, result.sessionId, userAgent, clientIp, now)
    {
      var suspicious := auditor.Record(id, now);
      users.SetPassword(id, newPassword);
      var sid := RenewSessions(sessions, id, userAgent, clientIp, now);
      result := ResetResult(sid, suspicious);
    }
  }

  /** The session state a completed reset leaves behind, from the maps
      `records` and `userSets` it started with: every record listed in the
      user's live set is deleted, `sid` holds the new record, the user's set
      is exactly `{sid}`, and every other key is as it was. */
  predicate Renewed(sessions: SessionService, records: Records, userSets: UserSets, id: UserId, sid: SessionId,
                    userAgent: Option<string>, clientIp: Option<string>, now: int)
    reads sessions
  {
    && sessions.records == (records - Members(userSets, id, now))[sid := Expiring(Meta(SessionMeta(id, now, now, userAgent, clientIp, now)), Some(now + sessions.maxAge))]
    && sessions.userSets == userSets[id := Expiring({sid}, Some(now + sessions.maxAge))]
  }

  /** What a renewal means for the store: the new session is the only one
      listed for the user; none of the sessions listed before survives but
      `sid`; and every record and set of another user is kept. */
  lemma RenewedEffects(sessions: SessionService, records: Records, userSets: UserSets, id: UserId, sid: SessionId,
                       userAgent: Option<string>, clientIp: Option<string>, now: int)
    requires sessions.maxAge > 0
    requires Renewed(sessions, records, userSets, id, sid, userAgent, clientIp, now)
    ensures Members(sessions.userSets, id, now) == {sid}
    ensures sid in sessions.records && sessions.records[sid].value == Meta(SessionMeta(id, now, now, userAgent, clientIp, now))
    ensures forall s :: s in Members(userSets, id, now) && s != sid ==> s !in sessions.records
    ensures forall s :: s in records && s !in Members(userSets, id, now) && s != sid ==>
              s in sessions.records && sessions.records[s] == records[s]
    ensures forall u :: u != id ==> (u in sessions.userSets <==> u in userSets) && (u in userSets ==> sessions.userSets[u] == userSets[u])
  {
  }

  /** The session half of a completed reset, shared by both orchestrators:
      every session listed for the user is revoked and one new one is
      created, which is then the only one listed. */
  method RenewSessions(sessions: SessionService, id: UserId, userAgent: Option<string>, clientIp: Option<string>, now: int)
    returns (sid: SessionId)
    requires sessions.Valid() && now >= sessions.clock
    modifies sessions
    ensures sessions.Valid()
    ensures Renewed(sessions, old(sessions.records), old(sessions.userSets), id, sid, userAgent, clientIp, now)
  {
    ghost var setsBefore := sessions.userSets;
    sessions.RevokeAllSessions(id, now);
    ghost var revoked := sessions.userSets;
    assert Members(revoked, id, now) == {};
    sid := sessions.CreateSession(id, userAgent, clientIp, now);
    assert sessions.userSets == revoked[id := Expiring({} + {sid}, Some(now + sessions.maxAge))];
    assert {} + {sid} == {sid};
    ghost var renewed := setsBefore[id := Expiring({sid}, Some(now + sessions.maxAge))];
    assert sessions.userSets.Keys == renewed.Keys;
    forall u | u in renewed
      ensures sessions.userSets[u] == renewed[u]
    {
      if u != id {
        assert u in revoked;
      }
    }
  }

  /** One limiter serves both entry points. A completion from an address
      (step 2 of `CompleteReset`) followed by a request that passes the
      identifier check (`InitiateReset`) leaves two hits in the address
      bucket, unless the identifier itself collides with the address. */
  lemma SharedIpBucket(b: map<string, seq<int>>, identifier: string, ip: string, now: int)
    requires ToLower(identifier) != ip && ip != ""
    ensures var afterComplete := HitIn(b, IpKey(Some(ip)), now, RateLimitWindow);
            var afterIdentifier := HitIn(afterComplete, ToLower(identifier), now, RateLimitWindow);
            BucketIn(HitIn(afterIdentifier, IpKey(Some(ip)), now, RateLimitWindow), ip)
              == RecordHit(RecordHit(BucketIn(b, ip), now, RateLimitWindow), now, RateLimitWindow)
    ensures BucketIn(HitIn(HitIn(HitIn(map[], ip, now, RateLimitWindow), ToLower(identifier), now, RateLimitWindow), ip, now, RateLimitWindow), ip)
              == [now, now]
  {
    assert RecordHit([], now, RateLimitWindow) == [now];
    assert RecordHit([now], now, RateLimitWindow) == [now, now];
  }
}
