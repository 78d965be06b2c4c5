# AquaMate credential lifecycle and theme state, in Dafny

This project models the account-security core of the AquaMate backend and the
theme helpers of its frontend, and proves properties of that model.

Backend:

- the Redis-backed session store. Keys `session:<id>` hold JSON metadata and
  keys `user_sessions:<uid>` hold sets of ids. Both keyspaces are maps of
  entries with an optional expiry instant, and an entry reads as absent once
  the instant is reached;
- the single-use reset-token store (`reset:<token>`);
- the three sliding-window counters: the reset rate limiter, the
  reset-velocity audit tracker, and the in-memory HTTP rate limiter;
- the two password-reset orchestrators, the package one with injected
  collaborators and the older module with class-level dictionaries;
- the password policy, the user service over its repository, and the
  in-memory user table.

Frontend:

- the hex colour helpers and `buildPaletteFromCustom`;
- the CSS-variable builder with its `||` fallbacks and the preset tables;
- the theme hook's state: palette and style selection, custom colours,
  favourites and the user colour library.

Every instant is an integer `now` passed in. Every random token or UUID is
an arbitrary string, or for users an arbitrary natural number, not yet in use.
Foreign code (password hashing and verification, the colour mixer) is a
function-valued parameter.

Modules, one per source file or concern: `Common`, `Windows` (the shared
prune-then-append filter), `ResetRateLimiter`, `ResetAudit`, `RateLimit`,
`SessionStore`, `ResetTokens`, `Validators`, `Users`, `Database`,
`PasswordReset`, `LegacyPasswordReset`, `Presets`, `PaletteUtils`, `CssVars`,
`ThemeState`.

## Model

| member | source | states |
|---|---|---|
| Windows.KeepRecent | backend/app/services/password_reset/rate_limiter.py:19 | the kept entries are exactly the bucket entries at or after the cutoff, never more of them |
| Windows.RecordHit | backend/app/services/password_reset/rate_limiter.py:19-21 | the new bucket is the pruned bucket followed by `now` |
| Windows.KeepRecentIdempotent | backend/app/services/password_reset/rate_limiter.py:19 | pruning twice at one cutoff is pruning once |
| Windows.KeepRecentAppend | backend/app/services/password_reset/rate_limiter.py:19 | pruning distributes over concatenation, so order is kept |
| Windows.KeepRecentCompose | backend/app/services/password_reset/rate_limiter.py:19 | an earlier pruning does not change what a later one keeps |
| Windows.ReplayWithinWindow | backend/app/services/password_reset/rate_limiter.py:15-22 | nondecreasing hits spanning at most one window all survive, so the bucket is exactly the hits |
| ResetRateLimiter.SlidingWindowRateLimiter.Exceeded | backend/app/services/password_reset/rate_limiter.py:15-22 | only the key's bucket changes, to the pruned bucket plus this hit; the verdict is "more than limit entries", this hit included |
| ResetRateLimiter.OverLimitCountsBoundary | backend/app/services/password_reset/rate_limiter.py:18-22 | an entry exactly one window old is still counted |
| ResetRateLimiter.NthCallOverLimit | backend/app/services/password_reset/rate_limiter.py:15-22 | within one window call k (from 0) is over the limit exactly when k + 1 > limit |
| ResetRateLimiter.PruneThenCheck | backend/app/services/password_reset/rate_limiter.py:18-22 | pruning at an earlier instant never changes the next verdict or bucket |
| ResetAudit.ResetAuditTracker.CountFor | backend/app/services/password_reset/audit.py:27-28 | the stored length without pruning; 0 for an unseen user |
| ResetAudit.ResetAuditTracker.Record | backend/app/services/password_reset/audit.py:17-25 | the user's entries become the pruned entries plus this reset, others unchanged; suspicious exactly when the count reaches the threshold |
| ResetAudit.NthResetFlagged | backend/app/services/password_reset/audit.py:17-25 | within one window reset k is flagged exactly when k + 1 >= threshold, so with threshold 3 the third is the first |
| RateLimit.DropExpired | backend/app/core/rate_limit.py:24-25 | the front entry left, if any, is after the cutoff |
| RateLimit.DropExpiredSuffix | backend/app/core/rate_limit.py:24-25 | the survivors are a suffix and everything popped was at or before the cutoff |
| RateLimit.CheckStep | backend/app/core/rate_limit.py:18-30 | the call is allowed exactly when fewer than the maximum hits survive pruning, and only then is `now` recorded; a refusal keeps the pruned bucket and asks for at least one second; `IndexError` exactly for an empty bucket with a non-positive maximum; a bucket within the maximum stays within it |
| RateLimit.InMemoryRateLimiter.Check | backend/app/core/rate_limit.py:18-30 | the loop pops exactly what `DropExpired` drops; a full bucket rejects with `max(1, window - age of oldest)` and records nothing; otherwise the hit is appended; no bucket exceeds the maximum |
| RateLimit.RetryAfterPositive | backend/app/core/rate_limit.py:27 | a rejection always asks for at least one second |
| RateLimit.RejectionRecordsNothing | backend/app/core/rate_limit.py:26-28 | a refused call leaves only the pruned bucket |
| RateLimit.BoundaryHitDropped | backend/app/core/rate_limit.py:23-25 | a hit exactly one window old is popped |
| RateLimit.ReplayChecksWithinWindow | backend/app/core/rate_limit.py:18-30 | checks strictly inside one window leave the first min(k, max) hits |
| RateLimit.NthCheckAllowed | backend/app/core/rate_limit.py:18-30 | inside one window check k passes exactly when k < max; later ones are refused with the retry-after counted from the first hit |
| SessionStore.SessionService.CreateSession | backend/app/services/session_service.py:23-41 | a fresh id whose record has user, agent, ip and all three instants equal to `now` with the max-age expiry; the id joins the user's set and the set's expiry is refreshed; the store invariants are kept |
| SessionStore.SessionService.GetUserIdForSession | backend/app/services/session_service.py:43-57 | a live decodable record yields its user and is rewritten with only `last_seen` changed and a fresh expiry; the user's set is untouched; anything else yields None and writes nothing |
| SessionStore.SessionService.GetUserIdForSessionRefreshingSet | backend/app/services/session_service.py:43-57 | the same lookup, also refreshing the owner's set expiry; it keeps the invariant that every live record is listed in a set that outlives it |
| SessionStore.SessionService.ListSessions | backend/app/services/session_service.py:59-72 | exactly the set members whose records are live and decode, each once with its id, and no other entries |
| SessionStore.SessionService.RevokeSession | backend/app/services/session_service.py:74-84 | the record is deleted; the id leaves the owner's set only when the owner could be read |
| SessionStore.SessionService.RevokeAllSessions | backend/app/services/session_service.py:86-91 | the listed records and the set are deleted; other users' sessions are kept; with a complete index no live session of the user remains |
| SessionStore.SessionService.RevokeSessionForUser | backend/app/services/session_service.py:93-109 | a missing record only cleans the set; a foreign or undecodable one is refused untouched; an owned one is deleted with its membership and true returned |
| SessionStore.ResolveAfterCreateThenRevoke | backend/app/services/session_service.py:23-84 | a new session resolves to its user; after revocation it does not |
| SessionStore.RevokeForOtherUserRefused | backend/app/services/session_service.py:93-106 | revocation by a non-owner is refused and the session still resolves to its owner |
| SessionStore.StaleIndexScenario | backend/app/services/session_service.py:50-54 | as written: after a lookup near the end of the set's life, revoking all sessions lists nothing and the session still resolves |
| SessionStore.RefreshedIndexScenario | backend/app/services/session_service.py:43-91 | with the set refreshed on lookup, the same steps end the session |
| ResetTokens.EffectiveTtl | backend/app/services/reset_token_service.py:29 | an absent or zero ttl falls back to the default, any other one is kept |
| ResetTokens.Consume | backend/app/services/reset_token_service.py:33-42 | a user exactly for a live, decodable record, and then its own; a live token is deleted whatever it holds; an absent or expired one leaves the store as it was |
| ResetTokens.ResetTokenService.CreateResetToken | backend/app/services/reset_token_service.py:23-31 | for a positive effective ttl, a fresh token maps to `{user, now}` expiring at `now + ttl` and nothing else changes; otherwise no token and no write |
| ResetTokens.ResetTokenService.ConsumeResetToken | backend/app/services/reset_token_service.py:33-42 | the result and the new store are `Consume` of the old store: get-then-delete |
| ResetTokens.SingleUse | backend/app/services/reset_token_service.py:33-42 | a live token yields its user once; a second consume yields nothing |
| ResetTokens.MalformedIsDeleted | backend/app/services/reset_token_service.py:37-42 | an undecodable live record is deleted and yields nothing |
| ResetTokens.ConsumeIsolated | backend/app/services/reset_token_service.py:37 | consuming one token leaves every other token's record |
| ResetTokens.ConsumeUnknown | backend/app/services/reset_token_service.py:34-36 | an unknown or expired token changes nothing |
| Validators.Any | backend/app/schemas/validators.py:8-15 | true exactly when some character is in the class |
| Validators.Message | backend/app/schemas/validators.py:8-15 | each character-class error starts "Password must include a" |
| Validators.MessagesDistinct | backend/app/schemas/validators.py:6-15 | the four class messages differ from each other and from the length message, so the error names the failing check |
| Validators.ValidatePasswordStrength | backend/app/schemas/validators.py:5-16 | success exactly for a strong password: 12+ characters with a lowercase, an uppercase, a digit and a symbol; success returns it unchanged; a failure is one of the five messages |
| Validators.FirstFailureDecides | backend/app/schemas/validators.py:8-15 | the first failing class in the order lower, upper, digit, symbol names the error |
| Validators.ShortFailsFirst | backend/app/schemas/validators.py:6-7 | a short password fails on length whatever its characters |
| Validators.AllLowercaseExample | backend/app/schemas/validators.py:10-11 | "alllowercase1" fails with the uppercase message |
| Validators.StrongExample | backend/app/schemas/validators.py:5-16 | "Correct-horse1" passes unchanged |
| Users.First | backend/app/repositories/user_repo.py:27-34 | None exactly when no row matches; otherwise a matching row of the table |
| Users.FirstIsEarliest | backend/app/repositories/user_repo.py:27-34 | the row found is the earliest matching one |
| Users.FirstAppend | backend/app/repositories/user_repo.py:14-34 | appending a row changes a lookup only when nothing earlier matched |
| Users.GetByIdentifier | backend/app/services/user_service.py:22-25 | looks up by email when the identifier has '@', by username otherwise; None only when no row has it |
| Users.EnsureUnique | backend/app/services/user_service.py:27-31 | refuses exactly when a non-empty email or username is already taken |
| Users.WithPassword | backend/app/services/password_reset/service.py:129-130 | every row with the id gets the new hash, every other row is unchanged |
| Users.UserService.GetById | backend/app/repositories/user_repo.py:27-28 | a row with that id, or None when no row has it |
| Users.UserService.CreateUser | backend/app/services/user_service.py:12-14 | a taken email or username fails and writes nothing; otherwise one row with a fresh id, the hashed password and the default role and status is appended, is found by its username and email, and uniqueness is kept |
| Users.UserService.SetPassword | backend/app/services/password_reset/service.py:129-130 | the table becomes `WithPassword` of the hashed new password |
| Users.AppendKeepsUnique | backend/app/services/user_service.py:12-14 | a row with a new id, email and username keeps the table unique |
| Database.InMemoryDB.AddUser | backend/app/core/database.py:14-17 | both indexes are overwritten under the user's keys, which then find the user |
| Database.InMemoryDB.GetUserByUsername | backend/app/core/database.py:19-20 | the username index entry, or None |
| Database.InMemoryDB.GetUserByEmail | backend/app/core/database.py:22-23 | the email index entry, or None |
| Database.InMemoryDB.Reset | backend/app/core/database.py:25-27 | both indexes empty, so no lookup finds anything |
| Database.OverwriteOnSameUsername | backend/app/core/database.py:14-17 | with no uniqueness check, a second user with the same username replaces the first in that index, while the first stays reachable by email |
| Database.AddKeepsOthers | backend/app/core/database.py:14-17 | adding a user leaves other keys' entries alone |
| PasswordReset.IpKey | backend/app/services/password_reset/service.py:67 | the address key is never empty: missing or empty addresses are "unknown" |
| PasswordReset.PasswordResetService.EnforceRateLimit | backend/app/services/password_reset/service.py:132-134 | records the hit and fails with a rate-limit error exactly when over the limit |
| PasswordReset.PasswordResetService.InitiateReset | backend/app/services/password_reset/service.py:64-75 | the lowercased identifier is counted first and a refusal stops there; then the address; a result is true exactly for an existing active user, who gets exactly one fresh token and one dispatch; otherwise no token |
| PasswordReset.PasswordResetService.IssueToken | backend/app/services/password_reset/service.py:69-75 | issues exactly when the identifier names an active user; one fresh token with the default ttl and one dispatch to that user |
| PasswordReset.PasswordResetService.CompleteReset | backend/app/services/password_reset/service.py:77-127 | each exit in source order: policy failure touches nothing; the address hit is recorded even when refused; the token is consumed whatever follows; missing user, reuse, then audit, new hash, and the session store `Renewed`: the listed sessions deleted, one new session, every other key unchanged |
| PasswordReset.PasswordResetService.ApplyReset | backend/app/services/password_reset/service.py:104-127 | audit hit, new hash, and both session maps exactly: the listed records deleted, the new record added, the user's set `{new id}`, everything else as before |
| PasswordReset.RenewSessions | backend/app/services/password_reset/service.py:121-126 | the new records are the old ones minus the user's listed sessions plus the new one; the new sets are the old ones with the user's set `{new id}` |
| PasswordReset.RenewedEffects | backend/app/services/password_reset/service.py:121-126 | after a renewal the new session is the only one listed for the user, no session listed before survives, and other users' records and sets are unchanged |
| PasswordReset.SharedIpBucket | backend/app/services/password_reset/service.py:64-86 | completions and reset requests from one address share one limiter bucket |
| LegacyPasswordReset.LegacyPasswordResetService.RecordAndCheckLimit | backend/app/services/password_reset_service.py:173-180 | only the chosen dictionary's entry for the key changes, to the pruned entries plus this hit; the verdict is "more than limit" |
| LegacyPasswordReset.LegacyPasswordResetService.RecordResetAudit | backend/app/services/password_reset_service.py:182-190 | the user's activity gets the pruned entries plus this reset; flagged once the window holds 3 |
| LegacyPasswordReset.LegacyPasswordResetService.InitiateReset | backend/app/services/password_reset_service.py:61-75 | identifier table first, address table only when that passes; true exactly for an active user, who gets one token and one dispatch |
| LegacyPasswordReset.LegacyPasswordResetService.IssueToken | backend/app/services/password_reset_service.py:69-75 | issues exactly when the identifier names an active user; one fresh token and one dispatch |
| LegacyPasswordReset.LegacyPasswordResetService.CompleteReset | backend/app/services/password_reset_service.py:77-128 | the same exits as the newer orchestrator, counted in the completion table only, ending in the same `Renewed` session store |
| LegacyPasswordReset.LegacyPasswordResetService.ApplyReset | backend/app/services/password_reset_service.py:101-128 | audit, new hash, and both session maps exactly as `Renewed` states: listed records deleted, one new record, the user's set `{new id}`, the rest unchanged |
| PaletteUtils.WithAlpha | frontend/components/theme/usePaletteUtils.ts:3-6 | a '#' colour gets the suffix; anything else is returned unchanged |
| PaletteUtils.ClampHex | frontend/components/theme/usePaletteUtils.ts:8 | always in [0,255]; the identity on that range; 0 below and 255 above |
| PaletteUtils.RemoveFirstHash | frontend/components/theme/usePaletteUtils.ts:11 | a string without '#' is unchanged; one with a '#' loses exactly one character, and a leading '#' is the one dropped |
| PaletteUtils.RemoveFirstHashFirst | frontend/components/theme/usePaletteUtils.ts:11 | wherever the first '#' is, it is the character removed and the rest is kept in order |
| PaletteUtils.DoubleEach | frontend/components/theme/usePaletteUtils.ts:13 | each digit written twice |
| PaletteUtils.ParseHex | frontend/components/theme/usePaletteUtils.ts:14 | n hex digits parse below 16^n |
| PaletteUtils.ParseHexSix | frontend/components/theme/usePaletteUtils.ts:14-19 | six digits are three two-digit channels, high first |
| PaletteUtils.HexToRgb | frontend/components/theme/usePaletteUtils.ts:10-20 | every component is in [0,255]; a cleaned length other than 3 or 6 gives black |
| PaletteUtils.Digit | frontend/components/theme/usePaletteUtils.ts:23 | the lowercase hex digit of a value below 16 |
| PaletteUtils.ToBase16 | frontend/components/theme/usePaletteUtils.ts:23 | at least one digit; its value is stated by `ToBase16Parses` |
| PaletteUtils.ToBase16Parses | frontend/components/theme/usePaletteUtils.ts:23 | `toString(16)` gives lowercase hex digits without a leading zero that parse back to the number |
| PaletteUtils.PadStart | frontend/components/theme/usePaletteUtils.ts:23 | padded to the width, never cut; its content is stated by `PadStartKeeps` |
| PaletteUtils.PadStartKeeps | frontend/components/theme/usePaletteUtils.ts:23 | the input is kept as the suffix and everything before it is the fill character |
| PaletteUtils.Hex2Digits | frontend/components/theme/usePaletteUtils.ts:22-25 | a clamped channel is exactly two lowercase digits, high first |
| PaletteUtils.RgbToHex | frontend/components/theme/usePaletteUtils.ts:22-25 | '#' then two lowercase digits per clamped channel, high digit first, in the order r, g, b |
| PaletteUtils.RgbToHexShape | frontend/components/theme/usePaletteUtils.ts:22-25 | '#' and exactly six lowercase hex digits |
| PaletteUtils.RoundTripFromRgb | frontend/components/theme/usePaletteUtils.ts:10-25 | `hexToRgb(rgbToHex(r,g,b))` is the clamped r, g, b |
| PaletteUtils.RoundTripFromHex | frontend/components/theme/usePaletteUtils.ts:10-25 | `rgbToHex(hexToRgb("#"+h))` is "#" followed by h in lowercase, for six hex digits h |
| PaletteUtils.ShorthandDoubles | frontend/components/theme/usePaletteUtils.ts:13 | "#abc" parses as "#aabbcc" |
| PaletteUtils.WrongLengthIsBlack | frontend/components/theme/usePaletteUtils.ts:12 | "#abcd" is black |
| PaletteUtils.BuildPaletteFromCustom | frontend/components/theme/usePaletteUtils.ts:42-56 | each missing or empty colour falls back as the source chains them, accent2 derived from the resolved accent, accent3 from the resolved accent2 |
| Presets.Find | frontend/components/theme/useThemeState.ts:26-30 | None exactly when no option has the key; otherwise an option with the key |
| Presets.FindEarliest | frontend/components/theme/useThemeState.ts:26-30 | an option whose key no earlier option has is the one found |
| Presets.PaletteKeysDistinct | frontend/components/theme/palettes.ts:21-77 | the five preset keys, in order, are pairwise distinct |
| Presets.PaletteKeysResolve | frontend/components/theme/palettes.ts:18-90 | every palette preset's key finds that preset |
| Presets.StyleKeysResolve | frontend/components/theme/styles.ts:21-56 | every style preset's key finds that style |
| Presets.CustomIsNoPreset | frontend/components/theme/palettes.ts:19-90 | "custom" names no preset |
| CssVars.Entries | frontend/components/theme/cssVars.ts:19-41 | the 21 property names in the object's order |
| CssVars.HeaderGlass | frontend/components/theme/cssVars.ts:11 | two stops of `bg1`, suffixed `cc` then `99` when it is a hex colour and left as it is otherwise |
| CssVars.SidebarGlass | frontend/components/theme/cssVars.ts:12 | `accent` then `bg2`, each suffixed (`26`, `d9`) only when it is a hex colour |
| CssVars.BuildCssVariables | frontend/components/theme/cssVars.ts:10-42 | direct copies, the aliases panel-shadow = glass-shadow and header/sidebar-border = glassBorder, logo fills from accent and accent2, and each `||` fallback including both gradients |
| CssVars.TwentyOneDistinctKeys | frontend/components/theme/cssVars.ts:19-41 | exactly 21 keys, all distinct |
| CssVars.GlassUsesGradients | frontend/components/theme/cssVars.ts:14-15 | the glass style falls back to both gradients; solid sets its own header |
| CssVars.HeaderGradientOfNamedColour | frontend/components/theme/cssVars.ts:11 | a colour without '#' gets no alpha suffix |
| ThemeState.Without | frontend/components/theme/useThemeState.ts:48 | keeps exactly the entries with another id |
| ThemeState.WithoutAppend | frontend/components/theme/useThemeState.ts:48 | the filter distributes over concatenation, so order is kept |
| ThemeState.WithoutAbsent | frontend/components/theme/useThemeState.ts:48 | removing an absent id changes nothing |
| ThemeState.WithoutIdempotent | frontend/components/theme/useThemeState.ts:48 | removing twice is removing once |
| ThemeState.AddThenRemove | frontend/components/theme/useThemeState.ts:42-49 | adding under a fresh id and removing it restores the list |
| ThemeState.ResolvePalette | frontend/components/theme/useThemeState.ts:24-28 | 'custom' builds from the custom colours; a known key gives its preset; anything else the first preset |
| ThemeState.ResolveStyle | frontend/components/theme/useThemeState.ts:30 | a known key gives its style; anything else the first |
| ThemeState.Theme.constructor | frontend/components/theme/useThemeState.ts:12-19 | 'custom', 'solid', the default colours, empty favourites and library |
| ThemeState.Theme.ActivePalette | frontend/components/theme/useThemeState.ts:24-28 | 'custom' gives the palette built from the custom colours; a preset's key gives that preset; any other key the first preset |
| ThemeState.Theme.ActiveStyle | frontend/components/theme/useThemeState.ts:30 | a style's key gives that style; any other key the first style |
| ThemeState.Theme.Variables | frontend/components/theme/useThemeState.ts:32-35 | the variables handed to the DOM carry the active palette's colours and the active style's glass, border and blur, under 21 property names |
| ThemeState.Theme.SetPalette | frontend/components/theme/useThemeState.ts:72 | only the palette key changes |
| ThemeState.Theme.SetStyle | frontend/components/theme/useThemeState.ts:74 | only the style key changes |
| ThemeState.Theme.SetCustomPalette | frontend/components/theme/useThemeState.ts:37-40 | colours and key 'custom' set, so the active palette is built from the colours |
| ThemeState.Theme.AddFavorite | frontend/components/theme/useThemeState.ts:42-45 | one entry appended with a fresh id, name defaulting to "Custom palette", type defaulting to user |
| ThemeState.Theme.RemoveFavorite | frontend/components/theme/useThemeState.ts:47-49 | the favourites become `Without` the id |
| ThemeState.Theme.ApplyFavorite | frontend/components/theme/useThemeState.ts:51-57 | a premade favourite naming a preset sets only the key; any other acts as `setCustomPalette(colors)` |
| ThemeState.Theme.AddUserColor | frontend/components/theme/useThemeState.ts:59-68 | appended with a fresh id, library flag true, type user, source key kept when non-empty and any non-empty key otherwise |
| ThemeState.AddThenRemoveFavorite | frontend/components/theme/useThemeState.ts:42-49 | adding then removing a favourite leaves the list as it was |
| ThemeState.UnknownKeysFallBack | frontend/components/theme/useThemeState.ts:24-30 | unknown keys fall back to the first palette and the first style |
| ThemeState.PresetsResolve | frontend/components/theme/useThemeState.ts:24-30 | every preset key selects its own preset and every style key its own style |

## Left out

- LegacyPasswordReset.LegacyPasswordResetService.InitiateReset, LegacyPasswordReset.LegacyPasswordResetService.IssueToken, LegacyPasswordReset.LegacyPasswordResetService.CompleteReset: the source calls `create_reset_token` and `consume_reset_token` on its session service (backend/app/services/password_reset_service.py:73,89), but `SessionService` defines neither. The model routes those calls to a `ResetTokenService`.
- PasswordReset.PasswordResetService.CompleteReset, LegacyPasswordReset.LegacyPasswordResetService.CompleteReset: both call `validators.validate_password`, which the validators module does not define. `validate_password_strength` stands in for it.
- Users.UserService.SetPassword: `user_service.set_password` is not defined in `UserService`. The model stores the hash of the new password for every row with the user's id.
- Users.UserService.CreateUser: `repo.create` reads `data.role` and `data.status`, which `UserCreate` does not have. The model gives the new row the model defaults, `LIFEGUARD` and `ACTIVE`.
- SessionStore.SessionService: every operation requires `now >= clock`, so instants never go backwards. The source enforces no such thing: it reads `datetime.now` and relies on Redis's own expiry clock. A clock that steps back is not modelled.
- Redis errors, connection failures and JSON encoding are not modelled. A record either decodes (`Meta`, `ResetRecord`) or it does not (`Malformed`). The source's distinct cases (corrupt JSON, a missing `user_id`, an id that is not a UUID) are collapsed into that one.
- SessionStore.SessionService.GetUserIdForSession: when JSON parses but `UUID(...)` then raises, the source has already rewritten the record. The model writes nothing for every undecodable record.
- ISO-8601 timestamps are the integer `now`. User ids are natural numbers. `str(user_id)` dictionary keys are the ids themselves.
- `threading.Lock` is left out: every operation is atomic and sequential.
- Reset-token delivery is out of scope: `ResetNotifier`, `_dispatch_reset_token`, `_send_email`, threads and SMTP. Dispatch is one recorded `Dispatch(userId, token)` event. Which contact or channel would be used is not recorded.
- Logging is left out, including the suspicious-velocity warning and its `count_for` value.
- The orchestrators' `Valid` requires a positive default token ttl because `initiate_reset` passes no ttl. The store's refusal of a non-positive ttl appears only in `CreateResetToken`, which then returns None.
- `ResetAuditTracker.record` never reads its `ip` argument, so it is not a parameter.
- RateLimit.InMemoryRateLimiter.Check: `max_requests <= 0` reads `bucket[0]` of an empty deque. The model returns the outcome `IndexError` in place of the exception.
- Password hashing (`hash_password`) and `verify_password` are arbitrary functions, and the ORM session is a sequence of rows. `make_rate_limit_dependency` and the HTTP layer are not part of this model.
- Character classes are ASCII. Python's `str.isalnum` and `str.lower` also accept other Unicode letters and digits.
- `mix` rounds floating-point channel blends, so it is a parameter of `BuildPaletteFromCustom` and of `Theme`.
- PaletteUtils.HexToRgb: `parseInt` is modelled on strings of hex digits only, through the `Parsable` precondition. A string such as "#zz0000" is out of the model's domain. `>>` and `&` are written with `/` and `%`, which agree on the non-negative values involved.
- `applyCssVariables` writes to the DOM, so it is left out. `Theme.Variables` is the value the effect hands it.
- React rendering and memoisation are left out. Each state setter becomes one method that runs before the next render.

## Findings

| source | as written | input that shows it | evidently intended | confidence | as-written member | corrected member |
|---|---|---|---|---|---|---|
| backend/app/services/session_service.py:50-54 | a lookup slides the record's expiry with `setex`, but the set `user_sessions:<uid>` keeps the expiry it got at creation | max age 10: create at 0 (record and set expire at 10), look up at 9 (record now expires at 19), `revoke_all_sessions` at 11 sees an expired, empty set, so the session survives and still resolves | every lookup that refreshes a session also refreshes its user's set, so that revoking all sessions ends every live one | not executed | SessionStore.SessionService.GetUserIdForSession, SessionStore.StaleIndexScenario | SessionStore.SessionService.GetUserIdForSessionRefreshingSet, SessionStore.RefreshedIndexScenario |
