/** The older password-reset orchestrator. Its attempt counters are
    class-level dictionaries, shared by every instance: one for identifiers,
    one for addresses that request a reset, one for addresses that complete
    one, and a per-user activity log. The checks and exits are those of the
    newer orchestrator; the error types, result type and constants it
    declares again have the same values and are shared with it here. */
module LegacyPasswordReset {
  import opened Common
  import opened Windows
  import opened Validators
  import opened ResetTokens
  import opened Users
  import opened SessionStore
  import opened ResetRateLimiter
  import opened PasswordReset

  /** Which class-level attempt dictionary a check records into. */
  datatype AttemptTable = IdentifierAttempts | IpAttempts | ResetAttempts

  /** The class-level dictionaries, one object shared by all service instances. */
  class ResetAttemptTables {
    var identifierAttempts: map<string, seq<int>>
    var ipAttempts: map<string, seq<int>>
    var resetAttempts: map<string, seq<int>>
    var resetActivity: map<UserId, seq<int>>

    constructor ()
      ensures identifierAttempts == map[] && ipAttempts == map[] && resetAttempts == map[] && resetActivity == map[]
    {
      identifierAttempts := map[];
      ipAttempts := map[];
      resetAttempts := map[];
      resetActivity := map[];
    }

    function Table(which: AttemptTable): map<string, seq<int>>
      reads this
    {
      match which
      case IdentifierAttempts => identifierAttempts
      case IpAttempts => ipAttempts
      case ResetAttempts => resetAttempts
    }
  }

  class LegacyPasswordResetService {
    const users: UserService
    const sessions: SessionService
    /** The token store the reset-token calls are routed to. */
    const tokens: ResetTokenService
    const tables: ResetAttemptTables
    const verify: (string, string) -> bool
    var dispatched: seq<Dispatch>

    ghost predicate Valid()
      reads this, sessions, tokens
    {
      sessions.Valid() && tokens.defaultTtl > 0
    }

    constructor (users: UserService, sessions: SessionService, tokens: ResetTokenService,
                 tables: ResetAttemptTables, verify: (string, string) -> bool)
      requires sessions.Valid() && tokens.defaultTtl > 0
      ensures this.users == users && this.sessions == sessions && this.tokens == tokens
      ensures this.tables == tables && this.verify == verify
      ensures dispatched == [] && Valid()
    {
      this.users := users;
      this.sessions := sessions;
      this.tokens := tokens;
      this.tables := tables;
      this.verify := verify;
      dispatched := [];
    }

    /** `_record_and_check_limit`: keeps the hits of the last 300 seconds
        (inclusive), always appends this one, and reports whether the count
        exceeds `limit`. Only the chosen dictionary's entry for `key` changes. */
    method RecordAndCheckLimit(key: string, which: AttemptTable, limit: int, now: int) returns (exceeded: bool)
      modifies tables
      ensures tables.Table(which) == HitIn(old(tables.Table(which)), key, now, RateLimitWindow)
      ensures which != IdentifierAttempts ==> tables.identifierAttempts == old(tables.identifierAttempts)
      ensures which != IpAttempts ==> tables.ipAttempts == old(tables.ipAttempts)
      ensures which != ResetAttempts ==> tables.resetAttempts == old(tables.resetAttempts)
      ensures tables.resetActivity == old(tables.resetActivity)
      ensures exceeded <==> |KeepRecent(BucketIn(old(tables.Table(which)), key), now - RateLimitWindow)| + 1 > limit
    {
      var recent := KeepRecent(BucketIn(tables.Table(which), key), now - RateLimitWindow);
      recent := recent + [now];
      match which {
        case IdentifierAttempts => tables.identifierAttempts := tables.identifierAttempts[key := recent];
        case IpAttempts => tables.ipAttempts := tables.ipAttempts[key := recent];
        case ResetAttempts => tables.resetAttempts := tables.resetAttempts[key := recent];
      }
      exceeded := |recent| > limit;
    }

    /** `_record_reset_audit`: the same filter over 3600 seconds; flags the
        user when the window, this reset included, holds at least 3 resets. */
    method RecordResetAudit(id: UserId, now: int) returns (suspicious: bool)
      modifies tables
      ensures tables.resetActivity == HitIn(old(tables.resetActivity), id, now, ResetAlertWindow)
      ensures tables.identifierAttempts == old(tables.identifierAttempts) && tables.ipAttempts == old(tables.ipAttempts)
      ensures tables.resetAttempts == old(tables.resetAttempts)
      ensures suspicious <==> |KeepRecent(BucketIn(old(tables.resetActivity), id), now - ResetAlertWindow)| + 1 >= ResetAlertThreshold
      ensures id in tables.resetActivity && (suspicious <==> |tables.resetActivity[id]| >= ResetAlertThreshold)
    {
      var recent := KeepRecent(BucketIn(tables.resetActivity, id), now - ResetAlertWindow);
      recent := recent + [now];
      tables.resetActivity := tables.resetActivity[id := recent];
      suspicious := |recent| >= ResetAlertThreshold;
    }

    method InitiateReset(identifier: string, clientIp: Option<string>, now: int) returns (r: Result<bool, ResetError>)
      requires Valid()
      modifies this, tables, tokens
      ensures Valid()
      ensures tables.resetAttempts == old(tables.resetAttempts) && tables.resetActivity == old(tables.resetActivity)
      ensures tables.identifierAttempts == HitIn(old(tables.identifierAttempts), ToLower(identifier), now, RateLimitWindow)
      ensures OverLimit(BucketIn(old(tables.identifierAttempts), ToLower(identifier)), now, RateLimitWindow, IdentifierAttemptLimit) ==>
                r == Failure(RateLimited) && tables.ipAttempts == old(tables.ipAttempts)
      ensures !OverLimit(BucketIn(old(tables.identifierAttempts), ToLower(identifier)), now, RateLimitWindow, IdentifierAttemptLimit) ==>
                && tables.ipAttempts == HitIn(old(tables.ipAttempts), IpKey(clientIp), now, RateLimitWindow)
                && (OverLimit(BucketIn(old(tables.ipAttempts), IpKey(clientIp)), now, RateLimitWindow, IpAttemptLimit) <==> r == Failure(RateLimited))
      ensures var user := GetByIdentifier(users.users, identifier);
              r.Success? ==> (r.value <==> user.Some? && user.value.status == Active)
      ensures r != Success(true) ==> tokens.tokens == old(tokens.tokens) && dispatched == old(dispatched)
      ensures r == Success(true) ==>
                IssuedOne(old(tokens.tokens), tokens.tokens, old(dispatched), dispatched,
                          GetByIdentifier(users.users, identifier).value.id, now, tokens.defaultTtl)
    {
      var exceeded := RecordAndCheckLimit(ToLower(identifier), IdentifierAttempts, IdentifierAttemptLimit, now);
      if exceeded {
        return Failure(RateLimited);
      }
      exceeded := RecordAndCheckLimit(IpKey(clientIp), IpAttempts, IpAttemptLimit, now);
      if exceeded {
        return Failure(RateLimited);
      }
      var issued := IssueToken(identifier, now);
      return Success(issued);
    }

    /** The lookup that follows the rate limits: a missing or inactive user
        gets nothing; an active one gets exactly one token, dispatched to it. */
    method IssueToken(identifier: string, now: int) returns (issued: bool)
      requires Valid()
      modifies this, tokens
      ensures Valid()
      ensures var user := GetByIdentifier(users.users, identifier);
              issued <==> user.Some? && user.value.status == Active
      ensures !issued ==> tokens.tokens == old(tokens.tokens) && dispatched == old(dispatched)
      ensures issued ==>
                IssuedOne(old(tokens.tokens), tokens.tokens, old(dispatched), dispatched,
                          GetByIdentifier(users.users, identifier).value.id, now, tokens.defaultTtl)
    {
      var user := GetByIdentifier(users.users, identifier);
      if user.None? || user.value.status != Active {
        return false;
      }
      var token := tokens.CreateResetToken(user.value.id, None, now);
      dispatched := dispatched + [Dispatch(user.value.id, token.value)];
      return true;
    }

    method CompleteReset(token: string, newPassword: string, clientIp: Option<string>, userAgent: Option<string>, now: int)
      returns (r: Result<ResetResult, ResetError>)
      requires Valid() && now >= sessions.clock
      modifies tables, tokens, users, sessions
      ensures Valid()
      ensures tables.identifierAttempts == old(tables.identifierAttempts) && tables.ipAttempts == old(tables.ipAttempts)
      // 1. the password policy, before anything is touched
      ensures var policy := ValidatePasswordStrength(newPassword);
              policy.Failure? ==>
                && r == Failure(PolicyViolation(policy.error))
                && unchanged(tables, tokens, users, sessions)
      // 2. the completion-attempt limit, recorded even when it fails
      ensures ValidatePasswordStrength(newPassword).Success? ==>
                tables.resetAttempts == HitIn(old(tables.resetAttempts), IpKey(clientIp), now, RateLimitWindow)
      ensures var over := OverLimit(BucketIn(old(tables.resetAttempts), IpKey(clientIp)), now, RateLimitWindow, ResetAttemptLimit);
              ValidatePasswordStrength(newPassword).Success? && over ==>
                && r == Failure(RateLimited)
                && tables.resetActivity == old(tables.resetActivity)
                && unchanged(tokens, users, sessions)
      // 3. the token is consumed once the limit passes
      ensures var over := OverLimit(BucketIn(old(tables.resetAttempts), IpKey(clientIp)), now, RateLimitWindow, ResetAttemptLimit);
              var consumed := Consume(old(tokens.tokens), token, now);
              ValidatePasswordStrength(newPassword).Success? && !over ==>
                && tokens.tokens == consumed.tokens
                && (consumed.user.None? ==>
                      r == Failure(InvalidResetToken) && tables.resetActivity == old(tables.resetActivity) && unchanged(users, sessions))
                && (consumed.user.Some? ==>
                      var found := First(old(users.users), ById(consumed.user.value));
                      // 4. the user must still exist
                      && (found.None? ==>
                            r == Failure(InvalidResetToken) && tables.resetActivity == old(tables.resetActivity) && unchanged(users, sessions))
                      // 5. the new password must differ from the current one
                      && (found.Some? && verify(newPassword, found.value.hashedPassword) ==>
                            r == Failure(PasswordReuse) && tables.resetActivity == old(tables.resetActivity) && unchanged(users, sessions))
                      // 6-9. audit, new hash, revoke all, one new session
                      && (found.Some? && !verify(newPassword, found.value.hashedPassword) ==>
                            var id := found.value.id;
                            && r.Success?
                            && tables.resetActivity == HitIn(old(tables.resetActivity), id, now, ResetAlertWindow)
                            && (r.value.suspicious <==> |tables.resetActivity[id]| >= ResetAlertThreshold)
                            && users.users == WithPassword(old(users.users), id, users.hash(newPassword))
                            && Renewed(sessions, old(sessions.records), old(sessions.userSets), id, r.value.sessionId, userAgent, clientIp, now)))
    {
      var policy := ValidatePasswordStrength(newPassword);
      if policy.Failure? {
        return Failure(PolicyViolation(policy.error));
      }
      var exceeded := RecordAndCheckLimit(IpKey(clientIp), ResetAttempts, ResetAttemptLimit, now);
      if exceeded {
        return Failure(RateLimited);
      }
      var userId := tokens.ConsumeResetToken(token, now);
      if userId.None? {
        return Failure(InvalidResetToken);
      }
      var user := users.GetById(userId.value);
      if user.None? {
        return Failure(InvalidResetToken);
      }
      if verify(newPassword, user.value.hashedPassword) {
        return Failure(PasswordReuse);
      }
      var result := ApplyReset(user.value.id, newPassword, clientIp, userAgent, now);
      return Success(result);
    }

    /** The steps after every check has passed: the audit, the new hash, the
        revocation of every listed session, and one new session. */
    method ApplyReset(id: UserId, newPassword: string, clientIp: Option<string>, userAgent: Option<string>, now: int)
      returns (result: ResetResult)
      requires Valid() && now >= sessions.clock
      modifies tables, users, sessions
      ensures Valid()
      ensures tables.identifierAttempts == old(tables.identifierAttempts) && tables.ipAttempts == old(tables.ipAttempts)
      ensures tables.resetAttempts == old(tables.resetAttempts)
      ensures tables.resetActivity == HitIn(old(tables.resetActivity), id, now, ResetAlertWindow)
      ensures result.suspicious <==> |tables.resetActivity[id]| >= ResetAlertThreshold
      ensures users.users == WithPassword(old(users.users), id, users.hash(newPassword))
      ensures Renewed(sessions, old(sessions.records), old(sessions.userSets), id, result.sessionId, userAgent, clientIp, now)
    {
      var suspicious := RecordResetAudit(id, now);
      users.SetPassword(id, newPassword);
      var sid := RenewSessions(sessions, id, userAgent, clientIp, now);
      result := ResetResult(sid, suspicious);
    }
  }
}
