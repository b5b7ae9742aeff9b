/** OrdersService of src/orders/orders.service.ts: order creation, listing,
    lookup, public tracking through the cache, and the two status changes,
    each of which evicts the order's tracking entry from the cache. */
module Orders {
  import opened Common
  import opened Entities
  import opened Store
  import opened RedisClient
  import opened RedisCache
  import opened JsonValue
  import CacheKeys
  import Tracking
  import PrismaQuery
  import Pagination
  import Ranking

  const ORDER_NOT_FOUND := "Order not found"
  const CANNOT_UPDATE_CANCELED := "Cannot update canceled orders"
  const CANNOT_UPDATE_DELIVERED := "Cannot update delivered orders"
  const ONLY_PENDING_CAN_CANCEL := "Only pending orders can be canceled"

  /** A status from which no operation moves an order. */
  predicate Terminal(s: OrderStatus)
  {
    s == DELIVERED || s == CANCELED
  }

  /** The status check of `updateStatus`: a canceled order is refused, then
      a delivered one; from any other status every target is accepted,
      the current status included. */
  function UpdateTransition(current: OrderStatus, target: OrderStatus): (r: Result<OrderStatus>)
    ensures r.Ok? <==> !Terminal(current)
    ensures r.Ok? ==> r.value == target
    ensures current == CANCELED ==> r == Err(BadRequest(CANNOT_UPDATE_CANCELED))
    ensures current == DELIVERED ==> r == Err(BadRequest(CANNOT_UPDATE_DELIVERED))
  {
    if current == CANCELED then Err(BadRequest(CANNOT_UPDATE_CANCELED))
    else if current == DELIVERED then Err(BadRequest(CANNOT_UPDATE_DELIVERED))
    else Ok(target)
  }

  /** The status check of `cancel`: only a pending order becomes canceled. */
  function CancelTransition(current: OrderStatus): (r: Result<OrderStatus>)
    ensures r.Ok? <==> current == PENDING
    ensures r.Ok? ==> r.value == CANCELED
    ensures r.Err? ==> r.error == BadRequest(ONLY_PENDING_CAN_CANCEL)
  {
    if current != PENDING then Err(BadRequest(ONLY_PENDING_CAN_CANCEL)) else Ok(CANCELED)
  }

  /** The code accepts moves a strict lifecycle would refuse: straight from
      pending to delivered, from in transit back to pending or to canceled,
      while `cancel` itself refuses an order in transit. */
  lemma LooseTransitions()
    ensures UpdateTransition(PENDING, DELIVERED) == Ok(DELIVERED)
    ensures UpdateTransition(IN_TRANSIT, PENDING) == Ok(PENDING)
    ensures UpdateTransition(IN_TRANSIT, CANCELED) == Ok(CANCELED)
    ensures CancelTransition(IN_TRANSIT) == Err(BadRequest(ONLY_PENDING_CAN_CANCEL))
  {
  }

  datatype StatusOp = SetStatus(target: OrderStatus) | CancelOrder

  /** The status after one operation; a refused operation changes nothing. */
  function Step(s: OrderStatus, op: StatusOp): OrderStatus
  {
    var r := match op
      case SetStatus(t) => UpdateTransition(s, t)
      case CancelOrder => CancelTransition(s);
    if r.Ok? then r.value else s
  }

  /** The status after a sequence of operations, in order. */
  function Run(s: OrderStatus, ops: seq<StatusOp>): OrderStatus
    decreases |ops|
  {
    if ops == [] then s else Run(Step(s, ops[0]), ops[1..])
  }

  /** Delivered and canceled orders stay so whatever is attempted. */
  lemma {:induction false} TerminalAbsorbs(s: OrderStatus, ops: seq<StatusOp>)
    requires Terminal(s)
    ensures Run(s, ops) == s
  {
    if ops != [] {
      TerminalAbsorbs(Step(s, ops[0]), ops[1..]);
    }
  }

  lemma {:induction false} RunAppend(s: OrderStatus, ops: seq<StatusOp>, more: seq<StatusOp>)
    ensures Run(s, ops + more) == Run(Run(s, ops), more)
    decreases |ops|
  {
    if ops != [] {
      assert (ops + more)[0] == ops[0] && (ops + more)[1..] == ops[1..] + more;
      RunAppend(Step(s, ops[0]), ops[1..], more);
    } else {
      assert ops + more == more;
    }
  }

  /** Once an order reaches a terminal status, later operations never leave it. */
  lemma TerminalIsFinal(s: OrderStatus, ops: seq<StatusOp>, more: seq<StatusOp>)
    requires Terminal(Run(s, ops))
    ensures Run(s, ops + more) == Run(s, ops)
  {
    RunAppend(s, ops, more);
    TerminalAbsorbs(Run(s, ops), more);
  }

  /** A non-admin may act only on their own orders. */
  predicate MayAccess(o: Order, userId: string, role: Role)
  {
    role == ADMIN || o.userId == userId
  }

  /** What `updateStatus` does to the row: the error it throws, or the row
      with the new status. A caller who may not see the order is told it
      does not exist, before its status is looked at. */
  function UpdateOutcome(orders: map<string, Order>, id: string, target: OrderStatus, userId: string, role: Role, now: int): (r: Result<Order>)
    ensures id !in orders ==> r == Err(NotFound(ORDER_NOT_FOUND))
    ensures id in orders && !MayAccess(orders[id], userId, role) ==> r == Err(NotFound(ORDER_NOT_FOUND))
    ensures r.Ok? <==> id in orders && MayAccess(orders[id], userId, role) && !Terminal(orders[id].status)
    ensures r.Ok? ==> r.value.status == target && r.value == orders[id].(status := target, updatedAt := now)
  {
    if id !in orders || !MayAccess(orders[id], userId, role) then Err(NotFound(ORDER_NOT_FOUND))
    else match UpdateTransition(orders[id].status, target)
      case Err(e) => Err(e)
      case Ok(s) => Ok(orders[id].(status := s, updatedAt := now))
  }

  /** What `cancel` does to the row. */
  function CancelOutcome(orders: map<string, Order>, id: string, userId: string, role: Role, now: int): (r: Result<Order>)
    ensures id !in orders ==> r == Err(NotFound(ORDER_NOT_FOUND))
    ensures id in orders && !MayAccess(orders[id], userId, role) ==> r == Err(NotFound(ORDER_NOT_FOUND))
    ensures r.Ok? <==> id in orders && MayAccess(orders[id], userId, role) && orders[id].status == PENDING
    ensures r.Ok? ==> r.value == orders[id].(status := CANCELED, updatedAt := now)
  {
    if id !in orders || !MayAccess(orders[id], userId, role) then Err(NotFound(ORDER_NOT_FOUND))
    else match CancelTransition(orders[id].status)
      case Err(e) => Err(e)
      case Ok(s) => Ok(orders[id].(status := s, updatedAt := now))
  }

  /** `cancel` succeeds exactly when `updateStatus` to CANCELED would and the
      order is still pending; the row it leaves is the same. */
  lemma CancelIsRestrictedUpdate(orders: map<string, Order>, id: string, userId: string, role: Role, now: int)
    ensures CancelOutcome(orders, id, userId, role, now).Ok? <==>
              UpdateOutcome(orders, id, CANCELED, userId, role, now).Ok? && orders[id].status == PENDING
    ensures CancelOutcome(orders, id, userId, role, now).Ok? ==>
              CancelOutcome(orders, id, userId, role, now) == UpdateOutcome(orders, id, CANCELED, userId, role, now)
  {
  }

  datatype CreateOrderDto = CreateOrderDto(senderName: string, recipientName: string, origin: string, destination: string)
  {
    /** The DTO's validators: names of 2 to 100 characters, places of 2 to 200. */
    predicate Valid()
    {
      && 2 <= |senderName| <= 100 && 2 <= |recipientName| <= 100
      && 2 <= |origin| <= 200 && 2 <= |destination| <= 200
    }
  }

  /** The row `create` inserts: pending, owned by the caller. */
  function NewOrder(dto: CreateOrderDto, userId: string, id: string, trackingNumber: string, now: int): Order
  {
    Order(id, trackingNumber, dto.senderName, dto.recipientName, dto.origin, dto.destination, PENDING, userId, now, now)
  }

  /** The query parameters of `findAll`, validated. */
  datatype FilterOrdersDto = FilterOrdersDto(
    status: Option<OrderStatus>,
    senderName: Option<string>,
    recipientName: Option<string>,
    page: Option<int>,
    limit: Option<int>)
  {
    predicate Valid()
    {
      (page.None? || page.value >= 1) && (limit.None? || limit.value >= 1)
    }

    function Page(): (p: nat)
      requires Valid()
      ensures p >= 1
    {
      if page.Some? then page.value else Pagination.DEFAULT_PAGE
    }

    function Limit(): (l: nat)
      requires Valid()
      ensures l >= 1
    {
      if limit.Some? then limit.value else Pagination.DEFAULT_LIMIT
    }
  }

  datatype FindAllMeta = FindAllMeta(total: nat, page: nat, limit: nat, totalPages: nat)
  datatype FindAllResult = FindAllResult(data: seq<OrderWithUser>, meta: FindAllMeta)

  /** The clause `findAll` builds: the caller's own orders unless an admin,
      narrowed by the filters given. */
  function WhereFor(filter: FilterOrdersDto, userId: string, role: Role): PrismaQuery.OrderWhere
  {
    PrismaQuery.BuildOrderWhereClause(PrismaQuery.OrderWhereParams(
      Some(userId), Some(role == ADMIN), filter.status, filter.senderName, filter.recipientName, None, None, None))
  }

  /** The creation times of the orders a clause selects. */
  function Selection(orders: map<string, Order>, w: PrismaQuery.OrderWhere): (r: map<string, int>)
    ensures forall id :: id in r <==> id in orders && PrismaQuery.Matches(orders[id], w)
  {
    map id | id in orders && PrismaQuery.Matches(orders[id], w) :: orders[id].createdAt
  }

  /** Every row of a page of the ranking is a selected order. */
  lemma PageRowsSelected(orders: map<string, Order>, w: PrismaQuery.OrderWhere, ranked: seq<string>, skip: nat, limit: nat)
    requires Ranking.IsNewestFirst(Selection(orders, w), ranked)
    ensures var ids := Pagination.PageSlice(ranked, skip, limit);
      forall i :: 0 <= i < |ids| ==> ids[i] in orders && PrismaQuery.Matches(orders[ids[i]], w)
  {
    var ids := Pagination.PageSlice(ranked, skip, limit);
    forall i | 0 <= i < |ids|
      ensures ids[i] in orders && PrismaQuery.Matches(orders[ids[i]], w)
    {
      assert ids[i] == ranked[skip + i];
    }
  }

  /** A selected order honours the caller and the status filter: a
      non-admin with an id sees only their own orders. */
  lemma SelectedHonoursFilter(filter: FilterOrdersDto, userId: string, role: Role, o: Order)
    requires PrismaQuery.Matches(o, WhereFor(filter, userId, role))
    ensures role != ADMIN && userId != "" ==> o.userId == userId
    ensures filter.status.None? || o.status == filter.status.value
  {
    var p := PrismaQuery.OrderWhereParams(
      Some(userId), Some(role == ADMIN), filter.status, filter.senderName, filter.recipientName, None, None, None);
    if role != ADMIN && userId != "" {
      PrismaQuery.NonAdminSeesOnlyOwnOrders(p, o);
    }
  }

  /** Every row on a page of the listing is an order the caller may see
      through the filter. */
  lemma PageHonoursFilter(orders: map<string, Order>, filter: FilterOrdersDto, userId: string, role: Role,
                          ranked: seq<string>, skip: nat, limit: nat)
    requires Ranking.IsNewestFirst(Selection(orders, WhereFor(filter, userId, role)), ranked)
    ensures var ids := Pagination.PageSlice(ranked, skip, limit);
      && (forall i :: 0 <= i < |ids| ==> ids[i] in orders)
      && (role != ADMIN && userId != "" ==> forall i :: 0 <= i < |ids| ==> orders[ids[i]].userId == userId)
      && (forall i :: 0 <= i < |ids| ==> filter.status.None? || orders[ids[i]].status == filter.status.value)
  {
    var w := WhereFor(filter, userId, role);
    var ids := Pagination.PageSlice(ranked, skip, limit);
    PageRowsSelected(orders, w, ranked, skip, limit);
    forall i | 0 <= i < |ids|
      ensures role != ADMIN && userId != "" ==> orders[ids[i]].userId == userId
      ensures filter.status.None? || orders[ids[i]].status == filter.status.value
    {
      SelectedHonoursFilter(filter, userId, role, orders[ids[i]]);
    }
  }

  /** The rows of a page, as `ORDER_SELECT.withUser` shapes them. */
  function PageViews(orders: map<string, Order>, ids: seq<string>): (r: seq<OrderWithUser>)
    requires forall i :: 0 <= i < |ids| ==> ids[i] in orders
    ensures |r| == |ids|
    ensures forall i :: 0 <= i < |ids| ==> r[i] == WithUserView(orders[ids[i]])
  {
    seq(|ids|, i requires 0 <= i < |ids| => WithUserView(orders[ids[i]]))
  }

  /** The answer of `findAll` once the database has ranked the selected
      orders: the page `skip = (page - 1) * limit`, `take = limit` of the
      ranking, and the count of all selected orders. */
  function ListingPage(orders: map<string, Order>, filter: FilterOrdersDto, userId: string, role: Role, ranked: seq<string>)
    : (r: FindAllResult)
    requires filter.Valid()
    requires Ranking.IsNewestFirst(Selection(orders, WhereFor(filter, userId, role)), ranked)
    ensures var ids := Pagination.PageSlice(ranked, (filter.Page() - 1) * filter.Limit(), filter.Limit());
      && |r.data| == |ids| <= filter.Limit()
      && forall i :: 0 <= i < |ids| ==> ids[i] in orders && r.data[i] == WithUserView(orders[ids[i]])
    ensures r.meta.total == |Selection(orders, WhereFor(filter, userId, role))|
    ensures r.meta.page == filter.Page() && r.meta.limit == filter.Limit()
    ensures r.meta.totalPages == Pagination.CeilDiv(r.meta.total, filter.Limit())
  {
    var total := |Selection(orders, WhereFor(filter, userId, role))|;
    var ids := Pagination.PageSlice(ranked, (filter.Page() - 1) * filter.Limit(), filter.Limit());
    PageRowsSelected(orders, WhereFor(filter, userId, role), ranked, (filter.Page() - 1) * filter.Limit(), filter.Limit());
    FindAllResult(PageViews(orders, ids), FindAllMeta(total, filter.Page(), filter.Limit(), Pagination.CeilDiv(total, filter.Limit())))
  }

  /** Every row of the listing belongs to the non-admin caller and has the
      requested status. */
  lemma ListingPageHonoursFilter(orders: map<string, Order>, filter: FilterOrdersDto, userId: string, role: Role, ranked: seq<string>)
    requires filter.Valid()
    requires Ranking.IsNewestFirst(Selection(orders, WhereFor(filter, userId, role)), ranked)
    ensures var r := ListingPage(orders, filter, userId, role, ranked);
      role != ADMIN && userId != "" ==> forall i :: 0 <= i < |r.data| ==> r.data[i].userId == userId
    ensures var r := ListingPage(orders, filter, userId, role, ranked);
      forall i :: 0 <= i < |r.data| ==> filter.status.None? || r.data[i].order.status == filter.status.value
  {
    PageHonoursFilter(orders, filter, userId, role, ranked, (filter.Page() - 1) * filter.Limit(), filter.Limit());
  }

  /** The order a tracking lookup loads, as the cached standard view. */
  function LoadByTracking(orders: map<string, Order>, index: map<string, string>, tn: string): (r: Result<Json>)
    ensures r.Err? <==> OrderWithTracking(orders, index, tn).None?
    ensures r.Err? ==> r.error == NotFound(ORDER_NOT_FOUND)
    ensures r.Ok? ==> Entities.ViewFromJson(r.value) == Some(StandardView(OrderWithTracking(orders, index, tn).value))
  {
    match OrderWithTracking(orders, index, tn)
    case None => Err(NotFound(ORDER_NOT_FOUND))
    case Some(o) => Ok(ViewToJson(StandardView(o)))
  }

  class OrdersService {
    const db: Database
    const cache: RedisService

    ghost predicate Valid()
      reads this, db, cache, cache.client
    {
      db.Valid() && cache.Valid()
    }

    constructor (db: Database, cache: RedisService)
      requires db.Valid() && cache.Valid()
      ensures Valid() && this.db == db && this.cache == cache
    {
      this.db := db;
      this.cache := cache;
    }

    /** `create`: inserts a pending order under a fresh tracking number; the
        unique index refuses a number already in use. `clockMs` and
        `fraction` are the clock and random readings, `id` the identifier
        the database assigns. */
    method Create(dto: CreateOrderDto, userId: string, id: string, clockMs: nat, fraction: string, now: int)
      returns (r: Result<OrderView>)
      requires Valid() && id !in db.orders && Tracking.IsFraction(fraction)
      modifies db
      ensures Valid()
      ensures db.users == old(db.users) && db.emailIndex == old(db.emailIndex)
      ensures var tn := Tracking.GenerateTrackingNumber(clockMs, fraction);
        tn in old(db.trackingIndex) ==>
          && r == Err(Conflict("trackingNumber"))
          && db.orders == old(db.orders) && db.trackingIndex == old(db.trackingIndex)
      ensures var tn := Tracking.GenerateTrackingNumber(clockMs, fraction);
        tn !in old(db.trackingIndex) ==>
          && r == Ok(StandardView(NewOrder(dto, userId, id, tn, now)))
          && db.orders == old(db.orders)[id := NewOrder(dto, userId, id, tn, now)]
          && db.trackingIndex == old(db.trackingIndex)[tn := id]
      ensures r.Ok? ==> r.value.status == PENDING && Tracking.ClockOf(r.value.trackingNumber) == Some(clockMs)
      ensures r.Ok? ==> id in db.orders
      ensures r.Ok? ==>
        var o := db.orders[id];
        && o.status == PENDING && o.userId == userId && o.createdAt == now
        && o.senderName == dto.senderName && o.recipientName == dto.recipientName
        && o.origin == dto.origin && o.destination == dto.destination
    {
      var trackingNumber := Tracking.GenerateTrackingNumber(clockMs, fraction);
      Tracking.ClockRoundTrip(clockMs, fraction);
      if trackingNumber in db.trackingIndex {
        r := Err(Conflict("trackingNumber"));
        return;
      }
      var order := NewOrder(dto, userId, id, trackingNumber, now);
      db.InsertOrder(order);
      r := Ok(StandardView(order));
    }

    /** `findAll`: one page of the selected orders, newest first, and the
        number of all selected orders. `ranked` is the order the database
        sorted them into. */
    method FindAll(filter: FilterOrdersDto, userId: string, role: Role)
      returns (r: FindAllResult, ghost ranked: seq<string>)
      requires Valid() && filter.Valid()
      ensures Ranking.IsNewestFirst(Selection(db.orders, WhereFor(filter, userId, role)), ranked)
      ensures r == ListingPage(db.orders, filter, userId, role, ranked)
      ensures role != ADMIN && userId != "" ==> forall i :: 0 <= i < |r.data| ==> r.data[i].userId == userId
      ensures forall i :: 0 <= i < |r.data| ==> filter.status.None? || r.data[i].order.status == filter.status.value
    {
      var orders := db.orders;
      var stamps := Selection(orders, WhereFor(filter, userId, role));
      var newestFirst := Ranking.NewestFirst(stamps);
      ranked := newestFirst;
      r := ListingPage(orders, filter, userId, role, newestFirst);
      ListingPageHonoursFilter(orders, filter, userId, role, newestFirst);
    }

    /** `findOne`: the order with its owner, or "Order not found" when it is
        missing or belongs to someone else and the caller is no admin. */
    method FindOne(id: string, userId: string, role: Role) returns (r: Result<OrderWithUser>)
      requires Valid()
      ensures r.Ok? <==> id in db.orders && MayAccess(db.orders[id], userId, role)
      ensures r.Ok? ==> r.value == WithUserView(db.orders[id])
      ensures r.Err? ==> r.error == NotFound(ORDER_NOT_FOUND)
    {
      if id !in db.orders {
        r := Err(NotFound(ORDER_NOT_FOUND));
        return;
      }
      var order := WithUserView(db.orders[id]);
      if role != ADMIN && order.userId != userId {
        r := Err(NotFound(ORDER_NOT_FOUND));
        return;
      }
      r := Ok(order);
    }

    /** `track`: public lookup by tracking number through the cache. A hit
        is answered without reading the table; a miss reads it and caches
        the order for five minutes; an unknown number is not cached.
        `tableRead` records whether the table was read. */
    method Track(trackingNumber: string) returns (r: Result<Json>, ghost tableRead: bool)
      requires Valid()
      modifies cache.client
      ensures Valid()
      ensures var key := CacheKeys.OrderByTracking(trackingNumber);
        IsHit(old(cache.client.strings), key) ==>
          && r == Ok(Cached(old(cache.client.strings), key).value) && !tableRead
          && cache.client.strings == old(cache.client.strings) && cache.client.sets == old(cache.client.sets)
      ensures var key := CacheKeys.OrderByTracking(trackingNumber);
        !IsHit(old(cache.client.strings), key) ==>
          tableRead && r == LoadByTracking(db.orders, db.trackingIndex, trackingNumber)
      ensures var key := CacheKeys.OrderByTracking(trackingNumber);
        !IsHit(old(cache.client.strings), key) && r.Ok? ==>
          && cache.client.strings == old(cache.client.strings)[key := StringEntry(Stringify(r.value), CacheKeys.CACHE_TTL_MEDIUM)]
          && cache.client.sets == old(cache.client.sets) - {key}
      ensures r.Err? ==> cache.client.strings == old(cache.client.strings) && cache.client.sets == old(cache.client.sets)
    {
      var cacheKey := CacheKeys.OrderByTracking(trackingNumber);
      var orders := db.orders;
      var index := db.trackingIndex;
      var load := () => LoadByTracking(orders, index, trackingNumber);
      r, tableRead := cache.GetOrSet(cacheKey, load, Some(CacheKeys.CACHE_TTL_MEDIUM));
    }

    /** `updateStatus`: moves the order to the requested status and evicts
        its tracking entry from the cache; on any refusal nothing changes. */
    method UpdateStatus(id: string, target: OrderStatus, userId: string, role: Role, now: int)
      returns (r: Result<OrderView>)
      requires Valid()
      modifies db, cache.client
      ensures Valid()
      ensures db.trackingIndex == old(db.trackingIndex) && db.users == old(db.users) && db.emailIndex == old(db.emailIndex)
      ensures r.Ok? <==> UpdateOutcome(old(db.orders), id, target, userId, role, now).Ok?
      ensures r.Err? ==> r.error == UpdateOutcome(old(db.orders), id, target, userId, role, now).error
      ensures r.Err? ==> && db.orders == old(db.orders)
                         && cache.client.strings == old(cache.client.strings) && cache.client.sets == old(cache.client.sets)
      ensures r.Ok? ==>
        var updated := UpdateOutcome(old(db.orders), id, target, userId, role, now).value;
        var key := CacheKeys.OrderByTracking(updated.trackingNumber);
        && r.value == StandardView(updated)
        && db.orders == old(db.orders)[id := updated]
        && cache.client.strings == old(cache.client.strings) - {key}
        && cache.client.sets == old(cache.client.sets) - {key}
    {
      if id !in db.orders {
        r := Err(NotFound(ORDER_NOT_FOUND));
        return;
      }
      var order := db.orders[id];
      if role != ADMIN && order.userId != userId {
        r := Err(NotFound(ORDER_NOT_FOUND));
        return;
      }
      if order.status == CANCELED {
        r := Err(BadRequest(CANNOT_UPDATE_CANCELED));
        return;
      }
      if order.status == DELIVERED {
        r := Err(BadRequest(CANNOT_UPDATE_DELIVERED));
        return;
      }
      var updated := order.(status := target, updatedAt := now);
      db.ReplaceOrder(updated);
      cache.Del(CacheKeys.OrderByTracking(updated.trackingNumber));
      r := Ok(StandardView(updated));
    }

    /** `cancel`: a pending order becomes canceled and its tracking entry is
        evicted; on any refusal nothing changes. */
    method Cancel(id: string, userId: string, role: Role, now: int) returns (r: Result<OrderView>)
      requires Valid()
      modifies db, cache.client
      ensures Valid()
      ensures db.trackingIndex == old(db.trackingIndex) && db.users == old(db.users) && db.emailIndex == old(db.emailIndex)
      ensures r.Ok? <==> CancelOutcome(old(db.orders), id, userId, role, now).Ok?
      ensures r.Err? ==> r.error == CancelOutcome(old(db.orders), id, userId, role, now).error
      ensures r.Err? ==> && db.orders == old(db.orders)
                         && cache.client.strings == old(cache.client.strings) && cache.client.sets == old(cache.client.sets)
      ensures r.Ok? ==>
        var canceled := CancelOutcome(old(db.orders), id, userId, role, now).value;
        var key := CacheKeys.OrderByTracking(canceled.trackingNumber);
        && r.value == StandardView(canceled)
        && db.orders == old(db.orders)[id := canceled]
        && cache.client.strings == old(cache.client.strings) - {key}
        && cache.client.sets == old(cache.client.sets) - {key}
    {
      if id !in db.orders {
        r := Err(NotFound(ORDER_NOT_FOUND));
        return;
      }
      var order := db.orders[id];
      if role != ADMIN && order.userId != userId {
        r := Err(NotFound(ORDER_NOT_FOUND));
        return;
      }
      if order.status != PENDING {
        r := Err(BadRequest(ONLY_PENDING_CAN_CANCEL));
        return;
      }
      var canceled := order.(status := CANCELED, updatedAt := now);
      db.ReplaceOrder(canceled);
      cache.Del(CacheKeys.OrderByTracking(canceled.trackingNumber));
      r := Ok(StandardView(canceled));
    }
  }
}
