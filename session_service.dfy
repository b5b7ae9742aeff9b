/** SessionService of src/redis/session.service.ts: a registry of bearer
    tokens in three key namespaces of the shared keyspace —
    `session:<token>` (the JSON session record, 24h sliding expiry),
    `user_sessions:<userId>` (the set of a user's tokens) and
    `blacklist:<token>` (a revocation marker). Each pipeline of the source is
    one uninterrupted sequence of commands here, whose individual failures
    are ignored as `pipeline.exec()` ignores them. */
module Sessions {
  import opened Common
  import opened JsonValue
  import opened RedisClient
  import CacheKeys

  const SESSION_PREFIX := "session:"
  const USER_SESSIONS_PREFIX := "user_sessions:"
  const TOKEN_BLACKLIST_PREFIX := "blacklist:"
  const SESSION_TTL: nat := 86400

  function SessionKey(token: string): string { SESSION_PREFIX + token }
  function UserSessionsKey(userId: string): string { USER_SESSIONS_PREFIX + userId }
  function BlacklistKey(token: string): string { TOKEN_BLACKLIST_PREFIX + token }

  /** The three namespaces start with different letters, so no key of one is
      a key of another, nor the tracking-number key of an order; each
      builder is injective. */
  lemma NamespacesDisjoint(a: string, b: string)
    ensures SessionKey(a) != UserSessionsKey(b)
    ensures SessionKey(a) != BlacklistKey(b)
    ensures UserSessionsKey(a) != BlacklistKey(b)
    ensures CacheKeys.OrderByTracking(a) !in {SessionKey(b), UserSessionsKey(b), BlacklistKey(b)}
    ensures SessionKey(a) == SessionKey(b) ==> a == b
    ensures UserSessionsKey(a) == UserSessionsKey(b) ==> a == b
    ensures BlacklistKey(a) == BlacklistKey(b) ==> a == b
  {
    assert SessionKey(a)[0] == 's' && UserSessionsKey(a)[0] == 'u' && BlacklistKey(a)[0] == 'b';
    assert SessionKey(b)[0] == 's' && UserSessionsKey(b)[0] == 'u' && BlacklistKey(b)[0] == 'b';
    assert CacheKeys.OrderByTracking(a)[0] == 'o';
    if SessionKey(a) == SessionKey(b) { CacheKeys.PrefixCancels(SESSION_PREFIX, a, b); }
    if UserSessionsKey(a) == UserSessionsKey(b) { CacheKeys.PrefixCancels(USER_SESSIONS_PREFIX, a, b); }
    if BlacklistKey(a) == BlacklistKey(b) { CacheKeys.PrefixCancels(TOKEN_BLACKLIST_PREFIX, a, b); }
  }

  datatype SessionData = SessionData(userId: string, email: string, role: string, createdAt: int, lastActivity: int)

  function ToJson(s: SessionData): (j: Json)
    ensures FromJson(j) == Some(s)
  {
    JObj(map["userId" := JStr(s.userId), "email" := JStr(s.email), "role" := JStr(s.role),
             "createdAt" := JNum(s.createdAt), "lastActivity" := JNum(s.lastActivity)])
  }

  /** Reads a session record back from JSON, when the JSON has its shape. */
  function FromJson(j: Json): Option<SessionData>
  {
    if && j.JObj?
       && "userId" in j.fields && j.fields["userId"].JStr?
       && "email" in j.fields && j.fields["email"].JStr?
       && "role" in j.fields && j.fields["role"].JStr?
       && "createdAt" in j.fields && j.fields["createdAt"].JNum?
       && "lastActivity" in j.fields && j.fields["lastActivity"].JNum?
    then Some(SessionData(j.fields["userId"].s, j.fields["email"].s, j.fields["role"].s,
                          j.fields["createdAt"].n, j.fields["lastActivity"].n))
    else None
  }

  /** What `getSession` answers for `token` in a keyspace: failure for a set
      key, null for a missing key or an empty string, the parse failure for
      text that is not JSON, and otherwise the parsed value with
      `lastActivity` set to `now` (which fails on null and primitives). */
  function ReadSession(strings: map<string, StringEntry>, sets: map<string, SetEntry>, token: string, now: int): Result<Option<Json>>
  {
    var k := SessionKey(token);
    if k in sets then Err(WrongType)
    else if k !in strings || IsEmptyText(strings[k].payload) then Ok(None)
    else match Parse(strings[k].payload)
      case Err(e) => Err(e)
      case Ok(j) =>
        match AssignProperty(j, "lastActivity", JNum(now))
        case Err(e) => Err(e)
        case Ok(t) => Ok(Some(t))
  }

  /** On a record `createSession` wrote, a read returns that record with only
      `lastActivity` changed. */
  lemma ReadWrittenSession(strings: map<string, StringEntry>, sets: map<string, SetEntry>, token: string, s: SessionData, ttl: nat, now: int)
    requires SessionKey(token) !in sets
    requires SessionKey(token) in strings && strings[SessionKey(token)].payload == Stringify(ToJson(s))
    ensures ReadSession(strings, sets, token, now) == Ok(Some(ToJson(s.(lastActivity := now))))
  {
    var f := ToJson(s).fields;
    assert f["lastActivity" := JNum(now)] == ToJson(s.(lastActivity := now)).fields;
  }

  /** The key `invalidateSession` removes the token from: the user-set key of
      the record's `userId`, as string concatenation (`+`) converts it. Both
      the read on a null record and the conversion of an unprintable
      `userId` throw a TypeError. */
  function OwnerSetKey(j: Json): (r: Result<string>)
    ensures FromJson(j).Some? ==> r == Ok(UserSessionsKey(FromJson(j).value.userId))
    ensures r.Err? <==> j.JNull? || (j.JObj? && "userId" in j.fields && Unprintable(j.fields["userId"]))
    ensures r.Err? ==> r.error == TypeError
  {
    match ReadProperty(j, "userId")
    case Err(e) => Err(e)
    case Ok(v) =>
      match ConcatText(v)
      case Err(e) => Err(e)
      case Ok(text) => Ok(UserSessionsKey(text))
  }

  /** A `userId` object with its own `toString` field, alone or inside an
      array, makes the key computation throw before any command is sent. */
  lemma UnprintableOwnerThrows()
    ensures OwnerSetKey(JObj(map["userId" := JObj(map["toString" := JNum(0)])])) == Err(TypeError)
    ensures OwnerSetKey(JObj(map["userId" := JArr([JNum(1), JObj(map["toString" := JNum(0)])])])) == Err(TypeError)
    ensures OwnerSetKey(JObj(map["userId" := JObj(map["valueOf" := JNum(0)])])) == Ok(UserSessionsKey("[object Object]"))
  {
    var inner := JObj(map["toString" := JNum(0)]);
    assert Unprintable(JArr([JNum(1), inner]).items[1]);
  }

  /** What `invalidateSession` does for `token`: fail, do nothing (`None`),
      or delete the record and leave the named user set (`Some`). */
  function InvalidationTarget(strings: map<string, StringEntry>, sets: map<string, SetEntry>, token: string): Result<Option<string>>
  {
    var k := SessionKey(token);
    if k in sets then Err(WrongType)
    else if k !in strings || IsEmptyText(strings[k].payload) then Ok(None)
    else match Parse(strings[k].payload)
      case Err(e) => Err(e)
      case Ok(j) =>
        match OwnerSetKey(j)
        case Err(e) => Err(e)
        case Ok(u) => Ok(Some(u))
  }

  predicate Blacklisted(strings: map<string, StringEntry>, sets: map<string, SetEntry>, token: string)
  {
    BlacklistKey(token) in strings || BlacklistKey(token) in sets
  }

  /** What `validateSession` answers: false for a blacklisted token whatever
      its record, otherwise whether `getSession` finds a record. */
  function Validity(strings: map<string, StringEntry>, sets: map<string, SetEntry>, token: string, now: int): (r: Result<bool>)
    ensures Blacklisted(strings, sets, token) ==> r == Ok(false)
    ensures r == Ok(true) <==> !Blacklisted(strings, sets, token) && ReadSession(strings, sets, token, now).Ok?
                                 && ReadSession(strings, sets, token, now).value.Some?
  {
    if Blacklisted(strings, sets, token) then Ok(false)
    else match ReadSession(strings, sets, token, now)
      case Err(e) => Err(e)
      case Ok(s) => Ok(s.Some?)
  }

  /** Whether `getSession` fails, finds a record (`true`) or finds none
      (`false`) for `token`. */
  function SessionStatus(strings: map<string, StringEntry>, sets: map<string, SetEntry>, token: string): Result<bool>
  {
    match ReadSession(strings, sets, token, 0)
    case Err(e) => Err(e)
    case Ok(o) => Ok(o.Some?)
  }

  /** The outcome of `getSession` does not depend on the clock reading;
      only the refreshed record's `lastActivity` does. */
  lemma StatusIgnoresClock(strings: map<string, StringEntry>, sets: map<string, SetEntry>, token: string, now: int)
    ensures ReadSession(strings, sets, token, now).Err? <==> SessionStatus(strings, sets, token).Err?
    ensures SessionStatus(strings, sets, token).Err? ==>
              ReadSession(strings, sets, token, now).error == SessionStatus(strings, sets, token).error
    ensures SessionStatus(strings, sets, token).Ok? ==>
              (SessionStatus(strings, sets, token).value <==> ReadSession(strings, sets, token, now).value.Some?)
  {
  }

  function SessionKeys(tokens: set<string>): set<string>
  {
    set t | t in tokens :: SessionKey(t)
  }

  lemma SessionKeysGrow(done: set<string>, token: string)
    ensures SessionKeys(done + {token}) == SessionKeys(done) + {SessionKey(token)}
  {
  }

  /** The string keys after `getSession` refreshed each listed token's
      record with the listed JSON, in order. */
  function RefreshAll(strings: map<string, StringEntry>, tokens: seq<string>, records: seq<Json>): map<string, StringEntry>
    requires |tokens| == |records|
  {
    if tokens == [] then strings
    else
      var n := |tokens| - 1;
      RefreshAll(strings, tokens[..n], records[..n])[SessionKey(tokens[n]) := StringEntry(Stringify(records[n]), SESSION_TTL)]
  }

  /** A key that is none of the refreshed tokens' keys keeps its entry. */
  lemma {:induction false} RefreshAllFrame(strings: map<string, StringEntry>, tokens: seq<string>, records: seq<Json>, k: string)
    requires |tokens| == |records|
    requires forall i :: 0 <= i < |tokens| ==> k != SessionKey(tokens[i])
    ensures k in RefreshAll(strings, tokens, records) <==> k in strings
    ensures k in strings ==> RefreshAll(strings, tokens, records)[k] == strings[k]
  {
    if tokens != [] {
      var n := |tokens| - 1;
      RefreshAllFrame(strings, tokens[..n], records[..n], k);
    }
  }

  /** The state of the walk over `tokens` once the tokens outside
      `remaining` were read without failure: `visited` lists, once each and
      in order, those that had a record, `sessions` the refreshed records,
      read at the clock readings `clock(0)`, `clock(1)`, .... */
  ghost predicate Walked(strings0: map<string, StringEntry>, sets0: map<string, SetEntry>, clock: nat -> int,
                         tokens: set<string>, remaining: set<string>, visited: seq<string>, sessions: seq<Json>)
  {
    && remaining <= tokens
    && |sessions| == |visited| && |visited| + |remaining| <= |tokens|
    && (forall i :: 0 <= i < |visited| ==> visited[i] in tokens && visited[i] !in remaining)
    && (forall i, j :: 0 <= i < j < |visited| ==> visited[i] != visited[j])
    && (forall i :: 0 <= i < |visited| ==> ReadSession(strings0, sets0, visited[i], clock(i)) == Ok(Some(sessions[i])))
    && (forall t :: t in tokens && t !in remaining ==>
          && SessionStatus(strings0, sets0, t).Ok?
          && (t in visited <==> SessionStatus(strings0, sets0, t) == Ok(true)))
  }

  lemma WalkStart(strings0: map<string, StringEntry>, sets0: map<string, SetEntry>, clock: nat -> int, tokens: set<string>)
    ensures Walked(strings0, sets0, clock, tokens, tokens, [], [])
  {
  }

  /** A token without a record is passed over. */
  lemma WalkSkip(strings0: map<string, StringEntry>, sets0: map<string, SetEntry>, clock: nat -> int,
                 tokens: set<string>, remaining: set<string>, visited: seq<string>, sessions: seq<Json>, token: string)
    requires Walked(strings0, sets0, clock, tokens, remaining, visited, sessions)
    requires token in remaining && SessionStatus(strings0, sets0, token) == Ok(false)
    ensures Walked(strings0, sets0, clock, tokens, remaining - {token}, visited, sessions)
  {
    assert |remaining - {token}| == |remaining| - 1;
  }

  /** A token with a record joins `visited`, its record read at the next
      clock reading. */
  lemma WalkAdd(strings0: map<string, StringEntry>, sets0: map<string, SetEntry>, clock: nat -> int,
                tokens: set<string>, remaining: set<string>, visited: seq<string>, sessions: seq<Json>,
                token: string, j: Json)
    requires Walked(strings0, sets0, clock, tokens, remaining, visited, sessions)
    requires token in remaining && SessionStatus(strings0, sets0, token) == Ok(true)
    requires ReadSession(strings0, sets0, token, clock(|visited|)) == Ok(Some(j))
    ensures Walked(strings0, sets0, clock, tokens, remaining - {token}, visited + [token], sessions + [j])
  {
    assert |remaining - {token}| == |remaining| - 1;
    var v := visited + [token];
    var ss := sessions + [j];
    forall i | 0 <= i < |v|
      ensures v[i] in tokens && v[i] !in remaining - {token}
      ensures ReadSession(strings0, sets0, v[i], clock(i)) == Ok(Some(ss[i]))
    {
      if i < |visited| {
        assert v[i] == visited[i] && ss[i] == sessions[i];
      }
    }
  }

  function NewSessionEntry(userId: string, email: string, role: string, createdAt: int, lastActivity: int): StringEntry
  {
    StringEntry(Stringify(ToJson(SessionData(userId, email, role, createdAt, lastActivity))), SESSION_TTL)
  }

  class SessionService {
    const client: Client

    ghost predicate Valid()
      reads this, client
    {
      client.Valid()
    }

    constructor (client: Client)
      requires client.Valid()
      ensures Valid() && this.client == client
    {
      this.client := client;
    }

    /** `createSession`: writes the record for 24h, with the two clock
        readings the source takes one after the other as `createdAt` and
        `lastActivity`, adds the token to the user's set and gives the set a 24h
        expiry. When the user-set key holds a string, SADD fails inside the
        pipeline and EXPIRE re-times that string instead. */
    method CreateSession(token: string, userId: string, email: string, role: string, createdAt: int, lastActivity: int)
      requires Valid()
      modifies client
      ensures Valid()
      ensures UserSessionsKey(userId) !in old(client.strings) ==>
                && client.strings == old(client.strings)[SessionKey(token) := NewSessionEntry(userId, email, role, createdAt, lastActivity)]
                && client.sets == (old(client.sets) - {SessionKey(token)})[UserSessionsKey(userId) :=
                     SetEntry(MembersOf(old(client.sets), UserSessionsKey(userId)) + {token}, Some(SESSION_TTL))]
      ensures UserSessionsKey(userId) in old(client.strings) ==>
                && client.strings == old(client.strings)[SessionKey(token) := NewSessionEntry(userId, email, role, createdAt, lastActivity)]
                                        [UserSessionsKey(userId) := old(client.strings)[UserSessionsKey(userId)].(ttl := SESSION_TTL)]
                && client.sets == old(client.sets) - {SessionKey(token)}
    {
      var sessionKey := SessionKey(token);
      var userSessionsKey := UserSessionsKey(userId);
      NamespacesDisjoint(token, userId);
      var sessionData := SessionData(userId, email, role, createdAt, lastActivity);
      client.SetEx(sessionKey, SESSION_TTL, Stringify(ToJson(sessionData)));
      assert MembersOf(client.sets, userSessionsKey) == MembersOf(old(client.sets), userSessionsKey);
      var _ := client.SAdd(userSessionsKey, token);
      var _ := client.Expire(userSessionsKey, SESSION_TTL);
    }

    /** `getSession`: on a record, rewrites it with `lastActivity` = now and
        a fresh 24h expiry and returns it; on a missing key returns null and
        writes nothing. */
    method GetSession(token: string, now: int) returns (r: Result<Option<Json>>)
      requires Valid()
      modifies client
      ensures Valid()
      ensures r == ReadSession(old(client.strings), old(client.sets), token, now)
      ensures client.sets == old(client.sets)
      ensures r.Ok? && r.value.Some? ==>
                client.strings == old(client.strings)[SessionKey(token) := StringEntry(Stringify(r.value.value), SESSION_TTL)]
      ensures !(r.Ok? && r.value.Some?) ==> client.strings == old(client.strings)
    {
      var sessionKey := SessionKey(token);
      var data := client.Get(sessionKey);
      if data.Err? {
        r := Err(data.error);
        return;
      }
      if data.value.None? || IsEmptyText(data.value.value) {
        r := Ok(None);
        return;
      }
      var parsed := Parse(data.value.value);
      if parsed.Err? {
        r := Err(parsed.error);
        return;
      }
      var session := AssignProperty(parsed.value, "lastActivity", JNum(now));
      if session.Err? {
        r := Err(session.error);
        return;
      }
      client.SetEx(sessionKey, SESSION_TTL, Stringify(session.value));
      r := Ok(Some(session.value));
    }

    /** `isTokenBlacklisted`: EXISTS on the blacklist key. */
    method IsTokenBlacklisted(token: string) returns (b: bool)
      requires Valid()
      ensures b <==> Blacklisted(client.strings, client.sets, token)
    {
      var n := client.Exists(BlacklistKey(token));
      b := n == 1;
    }

    /** `validateSession`: the blacklist is consulted first, and a
        blacklisted token is invalid without its record being read. */
    method ValidateSession(token: string, now: int) returns (r: Result<bool>)
      requires Valid()
      modifies client
      ensures Valid()
      ensures r == Validity(old(client.strings), old(client.sets), token, now)
      ensures Blacklisted(old(client.strings), old(client.sets), token) ==>
                client.strings == old(client.strings) && client.sets == old(client.sets)
      ensures !Blacklisted(old(client.strings), old(client.sets), token) ==>
                var read := ReadSession(old(client.strings), old(client.sets), token, now);
                client.strings == if read.Ok? && read.value.Some?
                                  then old(client.strings)[SessionKey(token) := StringEntry(Stringify(read.value.value), SESSION_TTL)]
                                  else old(client.strings)
      ensures client.sets == old(client.sets)
    {
      var isBlacklisted := IsTokenBlacklisted(token);
      if isBlacklisted {
        r := Ok(false);
        return;
      }
      var session := GetSession(token, now);
      if session.Err? {
        r := Err(session.error);
      } else {
        r := Ok(session.value.Some?);
      }
    }

    /** `invalidateSession`: with a record, deletes it and removes the token
        from its owner's set; without one, changes nothing. */
    method InvalidateSession(token: string) returns (r: Result<()>)
      requires Valid()
      modifies client
      ensures Valid()
      ensures r.Ok? <==> InvalidationTarget(old(client.strings), old(client.sets), token).Ok?
      ensures r.Err? ==> r.error == InvalidationTarget(old(client.strings), old(client.sets), token).error
      ensures (r.Err? || InvalidationTarget(old(client.strings), old(client.sets), token) == Ok(None)) ==>
                client.strings == old(client.strings) && client.sets == old(client.sets)
      ensures r.Ok? && InvalidationTarget(old(client.strings), old(client.sets), token).value.Some? ==>
                var owner := InvalidationTarget(old(client.strings), old(client.sets), token).value.value;
                && client.strings == old(client.strings) - {SessionKey(token)}
                && client.sets == if owner in old(client.strings) then old(client.sets)
                                  else RemoveMember(old(client.sets), owner, token)
    {
      var sessionKey := SessionKey(token);
      var sessionData := client.Get(sessionKey);
      if sessionData.Err? {
        r := Err(sessionData.error);
        return;
      }
      if sessionData.value.None? || IsEmptyText(sessionData.value.value) {
        r := Ok(());
        return;
      }
      var session := Parse(sessionData.value.value);
      if session.Err? {
        r := Err(session.error);
        return;
      }
      var userSessionsKey := OwnerSetKey(session.value);
      if userSessionsKey.Err? {
        r := Err(userSessionsKey.error);
        return;
      }
      var _ := client.Del(sessionKey);
      var _ := client.SRem(userSessionsKey.value, token);
      r := Ok(());
    }

    /** The `del session:<token>` commands the bulk invalidation queues,
        one per token, applied in turn. */
    method DeleteSessionRecords(tokens: set<string>)
      requires Valid()
      modifies client
      ensures Valid()
      ensures client.strings == old(client.strings) - SessionKeys(tokens)
      ensures client.sets == old(client.sets) - SessionKeys(tokens)
    {
      var remaining := tokens;
      while remaining != {}
        invariant remaining <= tokens
        invariant client.Valid()
        invariant client.strings == old(client.strings) - SessionKeys(tokens - remaining)
        invariant client.sets == old(client.sets) - SessionKeys(tokens - remaining)
        decreases remaining
      {
        var token :| token in remaining;
        var _ := client.Del(SessionKey(token));
        SessionKeysGrow(tokens - remaining, token);
        assert tokens - (remaining - {token}) == (tokens - remaining) + {token};
        remaining := remaining - {token};
      }
    }

    /** `invalidateAllUserSessions`: deletes the record of every token in the
        user's set, then the set; an empty set changes nothing. */
    method InvalidateAllUserSessions(userId: string) returns (r: Result<()>)
      requires Valid()
      modifies client
      ensures Valid()
      ensures r.Err? <==> UserSessionsKey(userId) in old(client.strings)
      ensures r.Err? ==> r.error == WrongType && client.strings == old(client.strings) && client.sets == old(client.sets)
      ensures r.Ok? ==>
                var tokens := MembersOf(old(client.sets), UserSessionsKey(userId));
                && client.strings == old(client.strings) - SessionKeys(tokens)
                && client.sets == old(client.sets) - SessionKeys(tokens) - {UserSessionsKey(userId)}
      ensures r.Ok? ==> UserSessionsKey(userId) !in client.strings && UserSessionsKey(userId) !in client.sets
    {
      var userSessionsKey := UserSessionsKey(userId);
      var members := client.SMembers(userSessionsKey);
      if members.Err? {
        r := Err(members.error);
        return;
      }
      var tokens := members.value;
      if |tokens| > 0 {
        DeleteSessionRecords(tokens);
        var _ := client.Del(userSessionsKey);
      }
      forall t | t in tokens
        ensures SessionKey(t) != userSessionsKey
      {
        NamespacesDisjoint(t, userId);
      }
      r := Ok(());
    }

    /** `blacklistToken`: writes the marker "1" for `ttl` seconds, or 24h
        when `ttl` is omitted or 0; no other key changes. */
    method BlacklistToken(token: string, ttl: Option<nat>)
      requires Valid()
      modifies client
      ensures Valid()
      ensures client.strings == old(client.strings)[BlacklistKey(token) := StringEntry(Serialized(JNum(1)), OrDefault(ttl, SESSION_TTL))]
      ensures client.sets == old(client.sets) - {BlacklistKey(token)}
      ensures Blacklisted(client.strings, client.sets, token)
      ensures forall t, now :: ReadSession(client.strings, client.sets, t, now) == ReadSession(old(client.strings), old(client.sets), t, now)
      ensures forall u :: MembersOf(client.sets, UserSessionsKey(u)) == MembersOf(old(client.sets), UserSessionsKey(u))
    {
      client.SetEx(BlacklistKey(token), OrDefault(ttl, SESSION_TTL), Serialized(JNum(1)));
      forall t, now
        ensures ReadSession(client.strings, client.sets, t, now) == ReadSession(old(client.strings), old(client.sets), t, now)
      {
        NamespacesDisjoint(t, token);
      }
      forall u
        ensures MembersOf(client.sets, UserSessionsKey(u)) == MembersOf(old(client.sets), UserSessionsKey(u))
      {
        NamespacesDisjoint(u, token);
      }
    }

    /** `getActiveSessionCount`: SCARD of the user's set. */
    method GetActiveSessionCount(userId: string) returns (r: Result<nat>)
      requires Valid()
      ensures UserSessionsKey(userId) in client.strings ==> r == Err(WrongType)
      ensures UserSessionsKey(userId) !in client.strings ==> r == Ok(|MembersOf(client.sets, UserSessionsKey(userId))|)
    {
      r := client.SCard(UserSessionsKey(userId));
    }

    /** One `getSession` of the walk in `getUserActiveSessions`: the token's
        record is read as it was before the walk, since only other tokens'
        records were refreshed so far. */
    method RefreshNext(token: string, now: int, ghost strings0: map<string, StringEntry>,
                       ghost visited: seq<string>, ghost sessions: seq<Json>)
      returns (session: Result<Option<Json>>)
      requires Valid()
      requires |visited| == |sessions| && token !in visited
      requires client.strings == RefreshAll(strings0, visited, sessions)
      modifies client
      ensures Valid()
      ensures client.sets == old(client.sets)
      ensures session == ReadSession(strings0, client.sets, token, now)
      ensures session.Err? <==> SessionStatus(strings0, client.sets, token).Err?
      ensures session.Err? ==> SessionStatus(strings0, client.sets, token) == Err(session.error)
      ensures session.Ok? ==> SessionStatus(strings0, client.sets, token) == Ok(session.value.Some?)
      ensures session.Ok? && session.value.Some? ==>
                client.strings == RefreshAll(strings0, visited + [token], sessions + [session.value.value])
      ensures !(session.Ok? && session.value.Some?) ==> client.strings == old(client.strings)
    {
      forall i | 0 <= i < |visited|
        ensures SessionKey(token) != SessionKey(visited[i])
      {
        NamespacesDisjoint(token, visited[i]);
      }
      RefreshAllFrame(strings0, visited, sessions, SessionKey(token));
      assert ReadSession(client.strings, client.sets, token, now) == ReadSession(strings0, client.sets, token, now);
      StatusIgnoresClock(strings0, client.sets, token, now);
      session := GetSession(token, now);
      if session.Ok? && session.value.Some? {
        assert (visited + [token])[..|visited|] == visited;
        assert (sessions + [session.value.value])[..|sessions|] == sessions;
      }
    }

    /** The walk of `getUserActiveSessions` over `tokens`: one `getSession`
        per token until one fails. `visited` lists the tokens whose records
        were refreshed, `records` what was written for them, and `clock(i)`
        is the clock reading of the i-th refresh. */
    method RefreshTokens(tokens: set<string>, clock: nat -> int)
      returns (r: Result<seq<Json>>, ghost visited: seq<string>, ghost records: seq<Json>)
      requires Valid()
      modifies client
      ensures Valid()
      ensures client.sets == old(client.sets)
      ensures r.Err? <==> exists t :: t in tokens && SessionStatus(old(client.strings), old(client.sets), t).Err?
      ensures r.Err? ==> exists t :: && t in tokens && t !in visited
                                     && SessionStatus(old(client.strings), old(client.sets), t) == Err(r.error)
      ensures |records| == |visited| <= |tokens|
      ensures forall i, j :: 0 <= i < j < |visited| ==> visited[i] != visited[j]
      ensures forall i :: 0 <= i < |visited| ==>
                && visited[i] in tokens
                && ReadSession(old(client.strings), old(client.sets), visited[i], clock(i)) == Ok(Some(records[i]))
      ensures r.Ok? ==> r.value == records
      ensures r.Ok? ==> forall t :: t in tokens ==>
                (t in visited <==> SessionStatus(old(client.strings), old(client.sets), t) == Ok(true))
      ensures client.strings == RefreshAll(old(client.strings), visited, records)
    {
      visited := [];
      var remaining := tokens;
      var sessions: seq<Json> := [];
      WalkStart(old(client.strings), old(client.sets), clock, tokens);
      while remaining != {}
        invariant client.Valid()
        invariant client.sets == old(client.sets)
        invariant Walked(old(client.strings), old(client.sets), clock, tokens, remaining, visited, sessions)
        invariant client.strings == RefreshAll(old(client.strings), visited, sessions)
        decreases remaining
      {
        var token :| token in remaining;
        var session := RefreshNext(token, clock(|sessions|), old(client.strings), visited, sessions);
        if session.Err? {
          r := Err(session.error);
          records := sessions;
          return;
        }
        if session.value.Some? {
          WalkAdd(old(client.strings), old(client.sets), clock, tokens, remaining, visited, sessions, token, session.value.value);
          sessions := sessions + [session.value.value];
          visited := visited + [token];
        } else {
          WalkSkip(old(client.strings), old(client.sets), clock, tokens, remaining, visited, sessions, token);
        }
        remaining := remaining - {token};
      }
      r := Ok(sessions);
      records := sessions;
    }

    /** `getUserActiveSessions`: reads (and so refreshes) the record of every
        token in the user's set, in the set's order, and returns those that
        exist; the first failing read ends the walk with its failure, the
        records refreshed before it staying refreshed. */
    method GetUserActiveSessions(userId: string, clock: nat -> int)
      returns (r: Result<seq<Json>>, ghost visited: seq<string>, ghost records: seq<Json>)
      requires Valid()
      modifies client
      ensures Valid()
      ensures client.sets == old(client.sets)
      ensures UserSessionsKey(userId) in old(client.strings) ==> r == Err(WrongType) && visited == []
      ensures r.Err? <==> || UserSessionsKey(userId) in old(client.strings)
                          || exists t :: t in MembersOf(old(client.sets), UserSessionsKey(userId))
                                         && SessionStatus(old(client.strings), old(client.sets), t).Err?
      ensures r.Err? && UserSessionsKey(userId) !in old(client.strings) ==>
                exists t :: && t in MembersOf(old(client.sets), UserSessionsKey(userId)) && t !in visited
                            && SessionStatus(old(client.strings), old(client.sets), t) == Err(r.error)
      ensures |records| == |visited| <= |MembersOf(old(client.sets), UserSessionsKey(userId))|
      ensures forall i, j :: 0 <= i < j < |visited| ==> visited[i] != visited[j]
      ensures forall i :: 0 <= i < |visited| ==>
                && visited[i] in MembersOf(old(client.sets), UserSessionsKey(userId))
                && ReadSession(old(client.strings), old(client.sets), visited[i], clock(i)) == Ok(Some(records[i]))
      ensures r.Ok? ==> r.value == records
      ensures r.Ok? ==> forall t :: t in MembersOf(old(client.sets), UserSessionsKey(userId)) ==>
                (t in visited <==> SessionStatus(old(client.strings), old(client.sets), t) == Ok(true))
      ensures client.strings == RefreshAll(old(client.strings), visited, records)
    {
      var members := client.SMembers(UserSessionsKey(userId));
      if members.Err? {
        r, visited, records := Err(members.error), [], [];
        return;
      }
      r, visited, records := RefreshTokens(members.value, clock);
    }
  }
}
