/** Properties that span several calls: the cache and the session registry
    observed from the outside, one call after another. */
module Scenarios {
  import opened Common
  import opened JsonValue
  import opened Entities
  import opened Store
  import opened RedisClient
  import opened RedisCache
  import opened Orders
  import opened Sessions
  import CacheKeys

  /** Tracking the same number twice reads the table at most once: a found
      order is served from the cache the second time, unchanged. */
  method TrackTwice(svc: OrdersService, tn: string) returns (first: Result<Json>, second: Result<Json>, ghost secondRead: bool)
    requires svc.Valid()
    modifies svc.cache.client
    ensures svc.Valid()
    ensures first.Ok? ==> second == first && !secondRead
  {
    ghost var firstRead;
    first, firstRead := svc.Track(tn);
    if first.Ok? {
      var key := CacheKeys.OrderByTracking(tn);
      assert first.value != JNull by {
        if firstRead {
          assert first == LoadByTracking(svc.db.orders, svc.db.trackingIndex, tn);
        }
      }
      assert IsHit(svc.cache.client.strings, key);
    }
    second, secondRead := svc.Track(tn);
  }

  /** An unknown tracking number is never cached: every lookup goes to the
      table and fails the same way. */
  method TrackUnknownTwice(svc: OrdersService, tn: string) returns (first: Result<Json>, second: Result<Json>, ghost firstRead: bool, ghost secondRead: bool)
    requires svc.Valid()
    requires OrderWithTracking(svc.db.orders, svc.db.trackingIndex, tn).None?
    requires !IsHit(svc.cache.client.strings, CacheKeys.OrderByTracking(tn))
    modifies svc.cache.client
    ensures first == second == Err(NotFound(ORDER_NOT_FOUND))
    ensures firstRead && secondRead
    ensures svc.cache.client.strings == old(svc.cache.client.strings)
  {
    first, firstRead := svc.Track(tn);
    second, secondRead := svc.Track(tn);
  }

  /** After a status change, tracking the order shows the new status: the
      stale cache entry was evicted, so the table is read again. */
  method UpdateThenTrack(svc: OrdersService, id: string, target: OrderStatus, userId: string, role: Role, now: int)
    returns (updated: Result<OrderView>, tracked: Result<Json>)
    requires svc.Valid()
    modifies svc.db, svc.cache.client
    ensures updated.Ok? ==> tracked.Ok? && ViewFromJson(tracked.value) == Some(updated.value)
    ensures updated.Ok? ==> updated.value.status == target
  {
    updated := svc.UpdateStatus(id, target, userId, role, now);
    if updated.Err? {
      tracked := Err(updated.error);
      return;
    }
    var tn := updated.value.trackingNumber;
    assert !IsHit(svc.cache.client.strings, CacheKeys.OrderByTracking(tn));
    assert svc.db.trackingIndex[tn] == id;
    ghost var read;
    tracked, read := svc.Track(tn);
  }

  /** Cancel, then try to move the order on: the canceled order stays
      canceled and the second call is refused. */
  method CancelThenUpdate(svc: OrdersService, id: string, target: OrderStatus, userId: string, role: Role, now: int)
    returns (canceled: Result<OrderView>, moved: Result<OrderView>)
    requires svc.Valid()
    modifies svc.db, svc.cache.client
    ensures canceled.Ok? ==> moved == Err(BadRequest(CANNOT_UPDATE_CANCELED))
    ensures canceled.Ok? ==> id in svc.db.orders && svc.db.orders[id].status == CANCELED
  {
    canceled := svc.Cancel(id, userId, role, now);
    moved := svc.UpdateStatus(id, target, userId, role, now);
  }

  /** A session read right after it was created is the record written,
      with the read's time as last activity. */
  method CreateThenRead(svc: SessionService, token: string, userId: string, email: string, role: string, c0: int, a0: int, t1: int)
    returns (r: Result<Option<Json>>)
    requires svc.Valid()
    modifies svc.client
    ensures r == Ok(Some(Sessions.ToJson(SessionData(userId, email, role, c0, t1))))
  {
    svc.CreateSession(token, userId, email, role, c0, a0);
    NamespacesDisjoint(token, userId);
    ReadWrittenSession(svc.client.strings, svc.client.sets, token, SessionData(userId, email, role, c0, a0), SESSION_TTL, t1);
    r := svc.GetSession(token, t1);
  }

  /** A blacklisted token is invalid even though its session record is
      still there. */
  method BlacklistBeatsSession(svc: SessionService, token: string, userId: string, email: string, role: string, t0: int, t1: int)
    returns (valid: Result<bool>)
    requires svc.Valid()
    modifies svc.client
    ensures valid == Ok(false)
    ensures SessionKey(token) in svc.client.strings
  {
    svc.CreateSession(token, userId, email, role, t0, t0);
    NamespacesDisjoint(token, userId);
    NamespacesDisjoint(token, token);
    svc.BlacklistToken(token, None);
    valid := svc.ValidateSession(token, t1);
  }

  /** After logging a user out everywhere, no session of theirs is counted
      and none of their former tokens has a record. */
  method LogoutEverywhere(svc: SessionService, userId: string) returns (done: Result<()>, count: Result<nat>)
    requires svc.Valid()
    modifies svc.client
    ensures done.Ok? ==> count == Ok(0)
    ensures done.Ok? ==> forall t :: t in MembersOf(old(svc.client.sets), UserSessionsKey(userId)) ==>
              SessionKey(t) !in svc.client.strings
  {
    done := svc.InvalidateAllUserSessions(userId);
    count := svc.GetActiveSessionCount(userId);
  }

  /** Creating a session again for a token the user already has does not
      change their session count: the registry is a set. */
  method RecreateSession(svc: SessionService, token: string, userId: string, email: string, role: string, now: int)
    returns (before: Result<nat>, after: Result<nat>)
    requires svc.Valid()
    requires token in MembersOf(svc.client.sets, UserSessionsKey(userId))
    modifies svc.client
    ensures after == before
  {
    before := svc.GetActiveSessionCount(userId);
    ghost var members := MembersOf(svc.client.sets, UserSessionsKey(userId));
    assert members + {token} == members;
    svc.CreateSession(token, userId, email, role, now, now);
    NamespacesDisjoint(token, userId);
    assert MembersOf(svc.client.sets, UserSessionsKey(userId)) == members;
    after := svc.GetActiveSessionCount(userId);
  }
}
