/** The Redis-backed session store: one record per session under
    `session:<id>` and, per user, the set of that user's session ids under
    `user_sessions:<uid>`. Both kinds of key carry an expiry; the store
    expires keys lazily, so an expired key reads as absent. */
module SessionStore {
  import opened Common

  type SessionId = string

  /** The JSON metadata written by `create_session`. */
  datatype SessionMeta = SessionMeta(
    userId: UserId,
    createdAt: int,
    issuedAt: int,
    userAgent: Option<string>,
    ip: Option<string>,
    lastSeen: int)

  /** A stored value either decodes to session metadata or does not. */
  datatype Payload = Meta(meta: SessionMeta) | Malformed

  /** The `session:<id>` keyspace. */
  type Records = map<SessionId, Expiring<Payload>>

  /** The `user_sessions:<uid>` keyspace. */
  type UserSets = map<UserId, Expiring<set<SessionId>>>

  /** One element of `list_sessions`: the metadata with `"id"` added. */
  datatype SessionView = SessionView(id: SessionId, meta: SessionMeta)

  // ---- the store commands the service uses, over one keyspace each ----

  /** The record of `sid` is live and decodes. */
  predicate Decodes(records: Records, sid: SessionId, now: int)
  {
    Get(records, sid, now).Some? && Get(records, sid, now).value.Meta?
  }

  /** GET / SMEMBERS: the value of a live key. */
  function Get<K, V>(m: map<K, Expiring<V>>, key: K, now: int): (r: Option<V>)
    ensures r.Some? <==> key in m && Live(m[key], now)
    ensures r.Some? ==> r == Some(m[key].value)
  {
    if key in m && Live(m[key], now) then Some(m[key].value) else None
  }

  /** The live members of a set key; a missing or expired key is the empty set. */
  function Members(sets: UserSets, key: UserId, now: int): (s: set<SessionId>)
    ensures key in sets && Live(sets[key], now) ==> s == sets[key].value
    ensures !(key in sets && Live(sets[key], now)) ==> s == {}
  {
    if key in sets && Live(sets[key], now) then sets[key].value else {}
  }

  /** SADD: a missing or expired key becomes a new set without expiry. */
  function SAdd(sets: UserSets, key: UserId, member: SessionId, now: int): (r: UserSets)
    ensures key in r && r[key].value == Members(sets, key, now) + {member}
    ensures key in sets && Live(sets[key], now) ==> r[key].expiresAt == sets[key].expiresAt
    ensures !(key in sets && Live(sets[key], now)) ==> r[key].expiresAt.None?
    ensures forall k :: k != key ==> (k in r <==> k in sets) && (k in r ==> r[k] == sets[k])
  {
    if key in sets && Live(sets[key], now) then sets[key := Expiring(sets[key].value + {member}, sets[key].expiresAt)]
    else sets[key := Expiring({member}, None)]
  }

  /** EXPIRE: only a live key gets the new expiry. */
  function Expire(m: UserSets, key: UserId, ttl: int, now: int): (r: UserSets)
    ensures r.Keys == m.Keys
    ensures key in m && Live(m[key], now) ==> r[key] == Expiring(m[key].value, Some(now + ttl))
    ensures forall k :: k in m && (k != key || !Live(m[k], now)) ==> r[k] == m[k]
  {
    if key in m && Live(m[key], now) then m[key := Expiring(m[key].value, Some(now + ttl))] else m
  }

  /** SREM: a set left empty is removed, as the store does. */
  function SRem(sets: UserSets, key: UserId, member: SessionId, now: int): (r: UserSets)
    ensures Members(r, key, now) == Members(sets, key, now) - {member}
    ensures forall k :: k != key ==> (k in r <==> k in sets) && (k in r ==> r[k] == sets[k])
    ensures key in r ==> key in sets && r[key].expiresAt == sets[key].expiresAt && r[key].value <= sets[key].value
  {
    if key in sets && Live(sets[key], now) then
      var rest := sets[key].value - {member};
      if rest == {} then sets - {key} else sets[key := Expiring(rest, sets[key].expiresAt)]
    else sets
  }

  /** The live record of `sid` owned, per its metadata, by `user`. */
  predicate OwnedLive(records: Records, sid: SessionId, user: UserId, now: int)
  {
    sid in records && Live(records[sid], now) && records[sid].value.Meta? && records[sid].value.meta.userId == user
  }

  /** Every id the two keyspaces mention, as a record key or as a set member. */
  function IdsOf(records: Records, userSets: UserSets): (ids: set<SessionId>)
    ensures forall sid :: sid !in ids ==> sid !in records && forall u :: u in userSets ==> sid !in userSets[u].value
  {
    records.Keys + (set u, s | u in userSets && s in userSets[u].value :: s)
  }

  /** A session id listed in a user's set is, when it decodes, that user's session. */
  ghost predicate IndexSound(records: Records, userSets: UserSets)
  {
    forall u, sid :: u in userSets && sid in userSets[u].value && sid in records && records[sid].value.Meta?
      ==> records[sid].value.meta.userId == u
  }

  /** No record expires later than `bound`. */
  ghost predicate ExpiriesBounded(records: Records, bound: int)
  {
    forall sid :: sid in records ==> records[sid].expiresAt.Some? && records[sid].expiresAt.value <= bound
  }

  /** Every live decodable record is listed in its owner's set, and that set
      expires no earlier than the record. */
  ghost predicate IndexCovers(records: Records, userSets: UserSets, now: int)
  {
    forall sid :: sid in records && records[sid].value.Meta? && Live(records[sid], now) ==>
      var u := records[sid].value.meta.userId;
      u in userSets && sid in userSets[u].value && ExpiresNoLater(records[sid], userSets[u])
  }

  /** The two writes of `create_session` (the record with a full max-age,
      the id added to the owner's set whose expiry is refreshed) keep the
      index sound and, when it was complete, complete. */
  lemma CreateKeepsIndex(records: Records, userSets: UserSets, sid: SessionId, meta: SessionMeta,
                         maxAge: int, clock: int, now: int)
    requires IndexSound(records, userSets) && ExpiriesBounded(records, clock + maxAge)
    requires sid !in IdsOf(records, userSets)
    requires maxAge > 0 && now >= clock
    ensures var r := records[sid := Expiring(Meta(meta), Some(now + maxAge))];
            var sets := userSets[meta.userId := Expiring(Members(userSets, meta.userId, now) + {sid}, Some(now + maxAge))];
            && IndexSound(r, sets)
            && ExpiriesBounded(r, now + maxAge)
            && (IndexCovers(records, userSets, clock) ==> IndexCovers(r, sets, now))
  {
    var r := records[sid := Expiring(Meta(meta), Some(now + maxAge))];
    var sets := userSets[meta.userId := Expiring(Members(userSets, meta.userId, now) + {sid}, Some(now + maxAge))];
    if IndexCovers(records, userSets, clock) {
      forall s | s in r && r[s].value.Meta? && Live(r[s], now)
        ensures var u := r[s].value.meta.userId;
          u in sets && s in sets[u].value && ExpiresNoLater(r[s], sets[u])
      {
        if s != sid {
          assert s in records && Live(records[s], clock);
        }
      }
    }
  }

  /** SADD followed by EXPIRE on the same key: the key holds its live
      members plus `member` and expires `ttl` after `now`, whatever it held. */
  lemma AddThenExpire(sets: UserSets, key: UserId, member: SessionId, ttl: int, now: int)
    requires ttl > 0
    ensures Expire(SAdd(sets, key, member, now), key, ttl, now)
              == sets[key := Expiring(Members(sets, key, now) + {member}, Some(now + ttl))]
  {
  }

  class SessionService {
    /** `settings.session_max_age_seconds` */
    const maxAge: int
    var records: Records
    var userSets: UserSets
    /** The latest instant any mutating operation ran at. */
    var clock: int

    /** Every id the store mentions, as a record key or as a set member. */
    function UsedIds(): set<SessionId>
      reads this
    {
      IdsOf(records, userSets)
    }

    /** A session id listed in a user's set is, when it decodes, that user's session;
        and no record expires later than one full max-age after the clock. */
    ghost predicate Valid()
      reads this
    {
      maxAge > 0 && IndexSound(records, userSets) && ExpiriesBounded(records, clock + maxAge)
    }

    /** The user index is complete: every live decodable record is listed in
        its owner's set, and that set expires no earlier than the record. */
    ghost predicate Covered()
      reads this
    {
      IndexCovers(records, userSets, clock)
    }

    constructor (maxAge: int)
      requires maxAge > 0
      ensures this.maxAge == maxAge && records == map[] && userSets == map[] && clock == 0
      ensures Valid() && Covered()
    {
      this.maxAge := maxAge;
      records := map[];
      userSets := map[];
      clock := 0;
    }

    /** The state `create_session` leaves behind is valid, and covered when
        the state it started from was. */
    lemma ValidAfterCreate(before: Records, setsBefore: UserSets, clockBefore: int, sid: SessionId, meta: SessionMeta)
      requires maxAge > 0 && clock >= clockBefore
      requires IndexSound(before, setsBefore) && ExpiriesBounded(before, clockBefore + maxAge)
      requires sid !in IdsOf(before, setsBefore)
      requires records == before[sid := Expiring(Meta(meta), Some(clock + maxAge))]
      requires userSets == setsBefore[meta.userId := Expiring(Members(setsBefore, meta.userId, clock) + {sid}, Some(clock + maxAge))]
      ensures Valid()
      ensures IndexCovers(before, setsBefore, clockBefore) ==> Covered()
    {
      CreateKeepsIndex(before, setsBefore, sid, meta, maxAge, clockBefore, clock);
    }

    /** `create_session`: a fresh id, its metadata with all three instants
        equal to `now`, and the id added to the user's set, whose expiry is
        refreshed. */
    method CreateSession(user: UserId, userAgent: Option<string>, ip: Option<string>, now: int)
      returns (sid: SessionId)
      requires Valid() && now >= clock
      modifies this
      ensures Valid() && (old(Covered()) ==> Covered()) && clock == now
      ensures sid !in old(UsedIds())
      ensures records == old(records)[sid := Expiring(Meta(SessionMeta(user, now, now, userAgent, ip, now)), Some(now + maxAge))]
      ensures userSets == old(userSets)[user := Expiring(old(Members(userSets, user, now)) + {sid}, Some(now + maxAge))]
    {
      FreshExists(UsedIds());
      sid :| sid !in UsedIds();
      var meta := SessionMeta(user, now, now, userAgent, ip, now);
      ghost var before, setsBefore, clockBefore := records, userSets, clock;
      AddThenExpire(userSets, user, sid, maxAge, now);
      records := records[sid := Expiring(Meta(meta), Some(now + maxAge))];
      userSets := SAdd(userSets, user, sid, now);
      userSets := Expire(userSets, user, maxAge, now);
      clock := now;
      ValidAfterCreate(before, setsBefore, clockBefore, sid, meta);
    }

    /** `get_user_id_for_session`, as written: on a hit the record is
        rewritten with `last_seen = now` and a fresh expiry, but the user's
        set keeps its old expiry. A malformed record yields None and writes
        nothing. */
    method GetUserIdForSession(sid: SessionId, now: int) returns (user: Option<UserId>)
      requires Valid() && now >= clock
      modifies this
      ensures Valid() && clock == now && userSets == old(userSets)
      ensures match Get<SessionId, Payload>(old(records), sid, now)
        case Some(Meta(m)) =>
          user == Some(m.userId)
          && records == old(records)[sid := Expiring(Meta(m.(lastSeen := now)), Some(now + maxAge))]
        case _ => user == None && records == old(records)
    {
      clock := now;
      var raw := Get(records, sid, now);
      if raw.None? || raw.value.Malformed? {
        return None;
      }
      var m := raw.value.meta;
      records := records[sid := Expiring(Meta(m.(lastSeen := now)), Some(now + maxAge))];
      user := Some(m.userId);
    }

    /** The lookup with the user's set expiry refreshed along with the record,
        so that the set never expires before a record it lists. */
    method GetUserIdForSessionRefreshingSet(sid: SessionId, now: int) returns (user: Option<UserId>)
      requires Valid() && Covered() && now >= clock
      modifies this
      ensures Valid() && Covered() && clock == now
      ensures match Get<SessionId, Payload>(old(records), sid, now)
        case Some(Meta(m)) =>
          user == Some(m.userId)
          && records == old(records)[sid := Expiring(Meta(m.(lastSeen := now)), Some(now + maxAge))]
          && userSets == Expire(old(userSets), m.userId, maxAge, now)
        case _ => user == None && records == old(records) && userSets == old(userSets)
    {
      ghost var before := records;
      ghost var setsBefore := userSets;
      clock := now;
      var raw := Get(records, sid, now);
      if raw.None? || raw.value.Malformed? {
        forall s | s in records && records[s].value.Meta? && Live(records[s], clock)
          ensures var u := records[s].value.meta.userId;
            u in userSets && s in userSets[u].value && ExpiresNoLater(records[s], userSets[u])
        {
          LiveLater(records[s], old(clock), now);
        }
        return None;
      }
      var m := raw.value.meta;
      assert Live(before[sid], old(clock));
      records := records[sid := Expiring(Meta(m.(lastSeen := now)), Some(now + maxAge))];
      userSets := Expire(userSets, m.userId, maxAge, now);
      user := Some(m.userId);
      forall s | s in records && records[s].value.Meta? && Live(records[s], clock)
        ensures var u := records[s].value.meta.userId;
          u in userSets && s in userSets[u].value && ExpiresNoLater(records[s], userSets[u])
      {
        if s != sid {
          LiveLater(records[s], old(clock), now);
          assert s in before && Live(before[s], old(clock));
        }
      }
    }

    /** `views` lists, once each and with their metadata, exactly the ids of
        `done` whose records are live and decode. */
    ghost predicate ListsExactly(views: seq<SessionView>, done: set<SessionId>, now: int)
      reads this
    {
      && (forall i :: 0 <= i < |views| ==> views[i].id in done && Get(records, views[i].id, now) == Some(Meta(views[i].meta)))
      && (forall sid :: sid in done && Decodes(records, sid, now) ==> exists i :: 0 <= i < |views| && views[i].id == sid)
      && (forall i, j :: 0 <= i < j < |views| ==> views[i].id != views[j].id)
    }

    /** `list_sessions`: every live member of the user's set whose record is
        live and decodes, each exactly once, with its id attached. */
    method ListSessions(user: UserId, now: int) returns (sessions: seq<SessionView>)
      ensures ListsExactly(sessions, Members(userSets, user, now), now)
      ensures |sessions| <= |Members(userSets, user, now)|
    {
      var sessionIds := Members(userSets, user, now);
      var pending := sessionIds;
      sessions := [];
      while pending != {}
        invariant pending <= sessionIds
        invariant ListsExactly(sessions, sessionIds - pending, now)
        invariant |sessions| <= |sessionIds - pending|
        decreases pending
      {
        var sid :| sid in pending;
        ghost var done := sessionIds - pending;
        assert sessionIds - (pending - {sid}) == done + {sid};
        pending := pending - {sid};
        sessions := ListOne(sessions, done, sid, now);
      }
    }

    /** One iteration of `list_sessions`: `sid` is appended when its record
        is live and decodes, and skipped otherwise. */
    method ListOne(views: seq<SessionView>, ghost done: set<SessionId>, sid: SessionId, now: int) returns (next: seq<SessionView>)
      requires sid !in done && ListsExactly(views, done, now)
      ensures ListsExactly(next, done + {sid}, now)
      ensures |next| <= |views| + 1
    {
      next := views;
      var raw := Get(records, sid, now);
      if raw.None? {
        return;
      }
      match raw.value {
        case Malformed =>
        case Meta(meta) =>
          next := views + [SessionView(sid, meta)];
          assert forall i :: 0 <= i < |views| ==> next[i] == views[i] && views[i].id != sid;
          forall other | other in done + {sid} && Decodes(records, other, now)
            ensures exists i :: 0 <= i < |next| && next[i].id == other
          {
            if other == sid {
              assert next[|views|].id == sid;
            } else {
              var i :| 0 <= i < |views| && views[i].id == other;
              assert next[i].id == other;
            }
          }
      }
    }

    /** `revoke_session`: the record is deleted; the id leaves its owner's set
        only when the owner could be read from the record. */
    method RevokeSession(sid: SessionId, now: int)
      requires Valid() && now >= clock
      modifies this
      ensures Valid() && (old(Covered()) ==> Covered()) && clock == now
      ensures records == old(records) - {sid}
      ensures match Get<SessionId, Payload>(old(records), sid, now)
        case Some(Meta(m)) => userSets == SRem(old(userSets), m.userId, sid, now)
        case _ => userSets == old(userSets)
    {
      ghost var covered := Covered();
      ghost var before := records;
      ghost var setsBefore := userSets;
      var raw := Get(records, sid, now);
      var owner: Option<UserId> := None;
      if raw.Some? && raw.value.Meta? {
        owner := Some(raw.value.meta.userId);
      }
      records := records - {sid};
      if owner.Some? {
        userSets := SRem(userSets, owner.value, sid, now);
      }
      clock := now;
      if covered {
        forall s | s in records && records[s].value.Meta? && Live(records[s], clock)
          ensures var u := records[s].value.meta.userId;
            u in userSets && s in userSets[u].value && ExpiresNoLater(records[s], userSets[u])
        {
          assert s in before && Live(before[s], old(clock));
          var u := records[s].value.meta.userId;
          if owner.Some? && owner.value == u {
            assert Live(setsBefore[u], now);
            assert s in Members(setsBefore, u, now) - {sid};
          }
        }
      }
    }

    /** `revoke_all_sessions`: every record listed in the user's live set is
        deleted, then the set itself. */
    method RevokeAllSessions(user: UserId, now: int)
      requires Valid() && now >= clock
      modifies this
      ensures Valid() && (old(Covered()) ==> Covered()) && clock == now
      ensures records == old(records) - old(Members(userSets, user, now))
      ensures userSets == old(userSets) - {user}
      ensures forall sid :: sid in old(records) && old(records)[sid].value.Meta? && old(records)[sid].value.meta.userId != user ==>
        sid in records && records[sid] == old(records)[sid]
      ensures old(Covered()) ==> forall sid :: !OwnedLive(records, sid, user, now)
    {
      ghost var covered := Covered();
      ghost var before := records;
      ghost var setsBefore := userSets;
      var sessionIds := Members(userSets, user, now);
      if sessionIds != {} {
        records := records - sessionIds;
      }
      userSets := userSets - {user};
      clock := now;
      if covered {
        forall s | s in records && records[s].value.Meta? && Live(records[s], clock)
          ensures var u := records[s].value.meta.userId;
            u in userSets && s in userSets[u].value && ExpiresNoLater(records[s], userSets[u])
        {
          assert s in before && Live(before[s], old(clock));
          var u := records[s].value.meta.userId;
          if u == user {
            assert Live(setsBefore[u], now);
            assert false;
          }
        }
      }
    }

    /** `revoke_session_for_user`: a missing record only cleans the id out of
        the user's set; a record owned by someone else, or that does not
        decode, is left alone; otherwise record and membership both go. */
    method RevokeSessionForUser(user: UserId, sid: SessionId, now: int) returns (revoked: bool)
      requires Valid() && now >= clock
      modifies this
      ensures Valid() && (old(Covered()) ==> Covered()) && clock == now
      ensures match Get<SessionId, Payload>(old(records), sid, now)
        case None =>
          !revoked && records == old(records) && userSets == SRem(old(userSets), user, sid, now)
        case Some(Malformed) =>
          !revoked && records == old(records) && userSets == old(userSets)
        case Some(Meta(m)) =>
          if m.userId != user then !revoked && records == old(records) && userSets == old(userSets)
          else revoked && records == old(records) - {sid} && userSets == SRem(old(userSets), user, sid, now)
    {
      ghost var covered := Covered();
      ghost var before := records;
      ghost var setsBefore := userSets;
      clock := now;
      var raw := Get(records, sid, now);
      if raw.None? {
        userSets := SRem(userSets, user, sid, now);
        revoked := false;
      } else if raw.value.Malformed? || raw.value.meta.userId != user {
        revoked := false;
      } else {
        records := records - {sid};
        userSets := SRem(userSets, user, sid, now);
        revoked := true;
      }
      if covered {
        forall s | s in records && records[s].value.Meta? && Live(records[s], clock)
          ensures var u := records[s].value.meta.userId;
            u in userSets && s in userSets[u].value && ExpiresNoLater(records[s], userSets[u])
        {
          assert s in before && Live(before[s], old(clock));
          var u := records[s].value.meta.userId;
          if u == user && setsBefore != userSets {
            assert Live(setsBefore[u], now);
            assert s in Members(setsBefore, u, now) - {sid};
          }
        }
      }
    }
  }

  /** From any valid store: a new session resolves to its user, and after
      `revoke_session` it no longer resolves. */
  method ResolveAfterCreateThenRevoke(store: SessionService, user: UserId, userAgent: Option<string>, ip: Option<string>, now: int)
    returns (sid: SessionId, first: Option<UserId>, second: Option<UserId>)
    requires store.Valid() && now >= store.clock
    modifies store
    ensures store.Valid()
    ensures first == Some(user) && second == None
  {
    sid := store.CreateSession(user, userAgent, ip, now);
    first := store.GetUserIdForSession(sid, now);
    store.RevokeSession(sid, now);
    second := store.GetUserIdForSession(sid, now);
  }

  /** `revoke_session_for_user` by a user who does not own the session is
      refused and leaves the store as it was. */
  method RevokeForOtherUserRefused(store: SessionService, owner: UserId, other: UserId, now: int)
    returns (sid: SessionId, revoked: bool, stillOwner: Option<UserId>)
    requires store.Valid() && now >= store.clock && owner != other
    modifies store
    ensures store.Valid()
    ensures !revoked && stillOwner == Some(owner)
  {
    sid := store.CreateSession(owner, None, None, now);
    ghost var records := store.records;
    ghost var sets := store.userSets;
    revoked := store.RevokeSessionForUser(other, sid, now);
    assert store.records == records && store.userSets == sets;
    stillOwner := store.GetUserIdForSession(sid, now);
  }

  /** The lookup as written slides the record's expiry but not the user's
      set: a session created at 0 and used at `maxAge - 1` outlives its set,
      so `revoke_all_sessions` at `maxAge + 1` neither lists nor deletes it
      and it still resolves afterwards. */
  method StaleIndexScenario(user: UserId, maxAge: int) returns (listed: nat, resolved: Option<UserId>)
    requires maxAge >= 3
    ensures listed == 0
    ensures resolved == Some(user)
  {
    var store := new SessionService(maxAge);
    var sid := store.CreateSession(user, None, None, 0);
    var seen := store.GetUserIdForSession(sid, maxAge - 1);
    store.RevokeAllSessions(user, maxAge + 1);
    assert Members(store.userSets, user, maxAge + 1) == {};
    var sessions := store.ListSessions(user, maxAge + 1);
    listed := |sessions|;
    resolved := store.GetUserIdForSession(sid, maxAge + 1);
  }

  /** The same steps with the lookup that also refreshes the user's set:
      revoking all sessions does end the session. */
  method RefreshedIndexScenario(user: UserId, maxAge: int) returns (resolved: Option<UserId>)
    requires maxAge >= 3
    ensures resolved == None
  {
    var store := new SessionService(maxAge);
    var sid := store.CreateSession(user, None, None, 0);
    var seen := store.GetUserIdForSessionRefreshingSet(sid, maxAge - 1);
    store.RevokeAllSessions(user, maxAge + 1);
    resolved := store.GetUserIdForSession(sid, maxAge + 1);
  }
}
