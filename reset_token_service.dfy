/** Short-lived, single-use password-reset tokens stored under `reset:<token>`:
    written once by `create_reset_token`, read and deleted by `consume_reset_token`. */
module ResetTokens {
  import opened Common

  /** The JSON payload `{user_id, created_at}`, or one that does not decode. */
  datatype ResetPayload = ResetRecord(userId: UserId, createdAt: int) | Malformed

  type Tokens = map<string, Expiring<ResetPayload>>

  /** `ttl_seconds or self.default_ttl_seconds`: an absent or zero ttl falls back. */
  function EffectiveTtl(ttl: Option<int>, defaultTtl: int): (t: int)
    ensures ttl.Some? && ttl.value != 0 ==> t == ttl.value
    ensures ttl.None? || ttl.value == 0 ==> t == defaultTtl
  {
    if ttl.Some? && ttl.value != 0 then ttl.value else defaultTtl
  }

  datatype Consumed = Consumed(user: Option<UserId>, tokens: Tokens)

  /** Get-then-delete: an unknown or expired token yields nothing and deletes
      nothing; a live one is always deleted, and yields its user only when its
      payload decodes. */
  function Consume(tokens: Tokens, token: string, now: int): (c: Consumed)
    ensures c.user.Some? <==> token in tokens && Live(tokens[token], now) && tokens[token].value.ResetRecord?
    ensures c.user.Some? ==> c.user.value == tokens[token].value.userId
    ensures token in tokens && Live(tokens[token], now) ==> c.tokens == tokens - {token}
    ensures !(token in tokens && Live(tokens[token], now)) ==> c.tokens == tokens
  {
    if token in tokens && Live(tokens[token], now) then
      Consumed(if tokens[token].value.ResetRecord? then Some(tokens[token].value.userId) else None, tokens - {token})
    else Consumed(None, tokens)
  }

  class ResetTokenService {
    const defaultTtl: int
    var tokens: Tokens

    constructor (defaultTtl: int)
      ensures this.defaultTtl == defaultTtl && tokens == map[]
    {
      this.defaultTtl := defaultTtl;
      tokens := map[];
    }

    /** Stores `{user_id, created_at}` under a fresh token with the effective
        ttl. The store refuses a non-positive expiry, which the source sees as
        an exception: the model returns None and writes nothing. */
    method CreateResetToken(user: UserId, ttl: Option<int>, now: int) returns (token: Option<string>)
      modifies this
      ensures token.Some? <==> EffectiveTtl(ttl, defaultTtl) > 0
      ensures token.Some? ==> token.value !in old(tokens)
      ensures token.Some? ==>
                tokens == old(tokens)[token.value := Expiring(ResetRecord(user, now), Some(now + EffectiveTtl(ttl, defaultTtl)))]
      ensures token.None? ==> tokens == old(tokens)
    {
      var seconds := EffectiveTtl(ttl, defaultTtl);
      if seconds <= 0 {
        return None;
      }
      FreshExists(tokens.Keys);
      var t :| t !in tokens.Keys;
      tokens := tokens[t := Expiring(ResetRecord(user, now), Some(now + seconds))];
      token := Some(t);
    }

    method ConsumeResetToken(token: string, now: int) returns (user: Option<UserId>)
      modifies this
      ensures Consumed(user, tokens) == Consume(old(tokens), token, now)
    {
      if !(token in tokens && Live(tokens[token], now)) {
        return None;
      }
      var raw := tokens[token].value;
      tokens := tokens - {token};
      match raw {
        case ResetRecord(u, _) => user := Some(u);
        case Malformed => user := None;
      }
    }
  }

  /** A token consumed before it expires yields its user once; consuming it
      again yields nothing. */
  lemma SingleUse(tokens: Tokens, token: string, user: UserId, created: int, ttl: int, now: int, later: int)
    requires now < created + ttl && now <= later
    ensures var first := Consume(tokens[token := Expiring(ResetRecord(user, created), Some(created + ttl))], token, now);
      && first.user == Some(user)
      && first.tokens == tokens - {token}
      && Consume(first.tokens, token, later) == Consumed(None, first.tokens)
  {
  }

  /** A malformed record is deleted, and yields nothing. */
  lemma MalformedIsDeleted(tokens: Tokens, token: string, now: int)
    requires token in tokens && Live(tokens[token], now) && tokens[token].value.Malformed?
    ensures Consume(tokens, token, now) == Consumed(None, tokens - {token})
  {
  }

  /** Consuming one token never touches another token's record. */
  lemma ConsumeIsolated(tokens: Tokens, token: string, other: string, now: int)
    requires other != token
    ensures var c := Consume(tokens, token, now);
      (other in c.tokens <==> other in tokens) && (other in tokens ==> c.tokens[other] == tokens[other])
  {
  }

  /** An unknown or expired token changes nothing. */
  lemma ConsumeUnknown(tokens: Tokens, token: string, now: int)
    requires !(token in tokens && Live(tokens[token], now))
    ensures Consume(tokens, token, now) == Consumed(None, tokens)
  {
  }
}
