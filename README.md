# Logistics backend core, modelled in Dafny

This project models the service layer of a NestJS parcel-tracking backend:

- the order lifecycle of `OrdersService`: create, list, find, track, update status and cancel;
- the Redis-backed cache of `RedisService` that `track` reads through and that the order mutations invalidate;
- the session registry of `SessionService`: session records, per-user token sets and a token blacklist;
- the pure helpers those rely on: cache-key builders and TTL classes, the Prisma where-clause builders, pagination arithmetic;
- the user table operations of `UsersService`.

The model keeps the source's shape.

- Stateful services are classes.
  - `Store.Database` holds the `Order` and `User` tables. Each table is a map from id to row, with the unique index (tracking number, email) as a second map.
  - `RedisClient.Client` holds the Redis keyspace as two maps: string keys with their TTL, and set keys with their members.
  - `RedisCache.RedisService`, `Sessions.SessionService`, `Orders.OrdersService` and `Users.UsersService` hold references to these.
  - Every service method states its result and the whole new state of what it `modifies`.
- Each state-changing operation is specified against a pure function of the old state. Examples are `Orders.UpdateOutcome`, `Sessions.ReadSession`, `Sessions.Validity` and `Sessions.InvalidationTarget`. Lemmas about these functions carry the properties that span several calls.
- The loops of the source stay loops with invariants:
  - the walk over a user's tokens in `invalidateAllUserSessions` and `getUserActiveSessions`;
  - the deletes of `invalidatePattern`;
  - the newest-first ordering the database applies in `findAll`.
- Errors are values. `Common.Error` distinguishes:
  - `NotFound` and `BadRequest` with the source's messages;
  - `Conflict` for a unique-constraint violation;
  - Redis `WRONGTYPE`;
  - a `JSON.parse` `SyntaxError`;
  - a JavaScript `TypeError`.
- Stored values are JSON.
  - A Redis string holds either text that `JSON.stringify` produced (`Serialized`) or other text that `JSON.parse` rejects (`Text`).
  - `JsonValue.Stringify` and `JsonValue.Parse` are inverse.
- Time and randomness are parameters:
  - `Date.now()` is passed as `clockMs`;
  - the text of `Math.random().toString(36)` after `"0."` is passed as `fraction`;
  - timestamps are passed as `now`, one parameter per clock reading of the source: `createSession` takes two, and `getUserActiveSessions` takes a `clock` whose i-th value is the reading of its i-th refresh;
  - ids the database generates are passed as `id`.

Where the code behaves unexpectedly, the model follows the code.

- `updateStatus` accepts any target status from PENDING or IN_TRANSIT. This includes PENDING→DELIVERED, IN_TRANSIT→PENDING and IN_TRANSIT→CANCELED. Only a DELIVERED or CANCELED order is refused (`Orders.LooseTransitions`). The request DTO documents only PENDING, IN_TRANSIT and DELIVERED as targets (src/orders/dto/update-order-status.dto.ts:7). Its validator, `@IsEnum(OrderStatus)`, admits CANCELED as well.
- The cache-key namespaces are not disjoint: `ORDER_BY_ID("tracking:" + x)` is `ORDER_BY_TRACKING(x)` (`CacheKeys.KeyNamespacesOverlap`).
- A non-admin caller whose user id is the empty string gets no owner restriction in `findAll`. This is because the where-clause builder only adds `userId` when it is truthy (`PrismaQuery.BuildOrderWhereClause`, `Orders.SelectedHonoursFilter`).

## Model

| member | source | states |
|---|---|---|
| Common.OrDefault | src/redis/redis.service.ts:35 | `ttl \|\| default`: an omitted or zero TTL gives the fallback, any other the given value; a positive fallback gives a positive TTL |
| CacheKeys.TtlClassesIncrease | src/redis/cache-keys.ts:10-15 | the TTL classes are 60 < 300 < 3600 < 86400 seconds, DAY being 24 hours |
| CacheKeys.KeyBuildersInjective | src/redis/cache-keys.ts:2-6 | `ORDER_BY_ID`, `ORDER_BY_TRACKING`, `USER_BY_ID` and `USER_BY_EMAIL` are injective: equal keys mean equal arguments |
| CacheKeys.PrefixCancels | src/redis/cache-keys.ts:2-6 | a common key prefix cancels: `p + a == p + b` implies `a == b` |
| CacheKeys.KeyNamespacesOverlap | src/redis/cache-keys.ts:2-6 | the id-keyed and the tracking/email-keyed namespaces overlap: `ORDER_BY_ID("tracking:"+x) == ORDER_BY_TRACKING(x)`, likewise for users |
| CacheKeys.OrdersListAmbiguous | src/redis/cache-keys.ts:4 | `ORDERS_LIST` is not injective when the user id contains a colon |
| CacheKeys.OrderKeysAreColonJoins | src/redis/cache-keys.ts:2-3 | `ORDER_BY_ID` and `ORDER_BY_TRACKING` are the colon-joins of their fixed segments and the argument |
| CacheKeys.OrdersListIsColonJoin | src/redis/cache-keys.ts:4 | `ORDERS_LIST(u, f)` is the colon-join of `orders`, `list`, `u` and `f` |
| CacheKeys.UserKeysAreColonJoins | src/redis/cache-keys.ts:5-7 | `USER_BY_ID` and `USER_BY_EMAIL` are colon-joins of their segments and the argument, `USERS_LIST` the constant `users:list` |
| Strings.Split | src/redis/redis.service.ts:47-49 | splitting yields at least one part and no part contains the separator |
| Strings.SplitJoin | src/redis/redis.service.ts:47-49 | splitting a colon-join of colon-free parts gives the parts back |
| Strings.JoinCons | src/redis/redis.service.ts:47-49 | joining a head onto further parts puts exactly one separator after the head |
| Strings.ToUpper | src/orders/orders.service.ts:26-27 | `toUpperCase` keeps the length and upper-cases each character |
| Strings.ToLower | src/prisma/prisma-query.helper.ts:3-7 | lower-casing keeps the length and lower-cases each character |
| Strings.Substring | src/orders/orders.service.ts:27 | JavaScript `substring` within bounds is the slice, and never longer than the text |
| Strings.NatText | src/redis/session.service.ts:80 | a number that string concatenation (`+`) converts, as a stored numeric `userId` would be, is written as non-empty decimal digits |
| JsonValue.Stringify | src/redis/redis.service.ts:36 | `JSON.parse(JSON.stringify(v))` gives `v` back |
| JsonValue.Parse | src/redis/redis.service.ts:28 | parsing succeeds exactly on serialized text and otherwise fails with a `SyntaxError` |
| JsonValue.ReadProperty | src/redis/session.service.ts:79-80 | reading a property fails with a `TypeError` exactly on `null`, and finds an object's own field |
| JsonValue.AssignProperty | src/redis/session.service.ts:54 | assigning a property succeeds exactly on objects and arrays; an object gets the field, an array serializes unchanged |
| JsonValue.ToText | src/redis/session.service.ts:80 | `String(value)`: a string is itself and an object `[object Object]`; the conversion throws a TypeError exactly on an object with its own `toString` field or an array holding one at any depth |
| JsonValue.ConcatText | src/redis/session.service.ts:80 | string concatenation (`+`) converts a missing property to `undefined` and a string to itself, and throws a TypeError exactly on an unprintable value |
| Glob.LiteralMatchesOnlyItself | src/redis/redis.service.ts:66-71 | a `KEYS` pattern without wildcards matches exactly the key equal to it |
| Glob.EmptyKeyMatches | src/redis/redis.service.ts:66-71 | `KEYS *` returns every key, the empty key included; otherwise the empty key is returned only for the empty pattern |
| Glob.StarMatchesAll | src/redis/redis.service.ts:66-71 | the pattern `*` matches every key |
| Glob.PrefixStarMatchesPrefixed | src/redis/redis.service.ts:66-71 | `prefix*` matches exactly the keys starting with the literal prefix |
| RedisClient.RemoveMember | src/redis/session.service.ts:83-85 | `SREM` removes one member, deletes the key when its set becomes empty and leaves every other key alone |
| RedisClient.Client.Get | src/redis/redis.service.ts:26 | `GET` fails with `WRONGTYPE` on a set key, returns nil on a missing key and the stored text otherwise |
| RedisClient.Client.SetEx | src/redis/redis.service.ts:36 | `SETEX` stores the text with its TTL, replacing a value of either kind, and nothing else changes |
| RedisClient.Client.Del | src/redis/redis.service.ts:40 | `DEL` removes the key whatever its kind, counts 1 if it existed, and nothing else changes |
| RedisClient.Client.Exists | src/redis/session.service.ts:110 | `EXISTS` is 1 exactly when the key holds either kind of value |
| RedisClient.Client.SAdd | src/redis/session.service.ts:40 | `SADD` adds the member to the set, keeping its TTL, counts 1 only for a new member, and fails with `WRONGTYPE` on a string key |
| RedisClient.Client.SRem | src/redis/session.service.ts:84 | `SREM` removes the member, counts 1 only if it was there, and fails with `WRONGTYPE` on a string key |
| RedisClient.Client.SMembers | src/redis/session.service.ts:91 | `SMEMBERS` is the set, empty for a missing key, and fails with `WRONGTYPE` on a string key |
| RedisClient.Client.SCard | src/redis/session.service.ts:116 | `SCARD` is the set's size, zero exactly when the key is missing |
| RedisClient.Client.Expire | src/redis/session.service.ts:41 | `EXPIRE` replaces only the TTL of an existing key and counts whether the key existed |
| RedisClient.Client.Keys | src/redis/redis.service.ts:67 | `KEYS` returns exactly the existing keys the pattern selects: all of them for `*`, otherwise those the glob matches |
| RedisClient.Client.FlushDb | src/redis/redis.service.ts:44 | `FLUSHDB` empties the keyspace |
| RedisCache.CachedAfterSet | src/redis/redis.service.ts:24-37 | a value just `set` is what `get` returns, and a hit for `getOrSet` unless it is `null` |
| RedisCache.GenerateKeySplits | src/redis/redis.service.ts:47-49 | `generateKey` of colon-free parts splits back into the parts |
| RedisCache.RedisService.constructor | src/redis/redis.service.ts:17-22 | the default TTL is the configured one, positive because the module falls back to 300 (src/redis/redis.module.ts:24) |
| RedisCache.RedisService.Get | src/redis/redis.service.ts:24-32 | `get` is the parsed stored value, and undefined, never an error, for a missing key, empty or unparsable text, or a set key |
| RedisCache.RedisService.Set | src/redis/redis.service.ts:34-37 | `set` stores the serialized value under the key with the given TTL, or the default when it is omitted or 0 |
| RedisCache.RedisService.Del | src/redis/redis.service.ts:39-41 | `del` removes only the named key, also when it is absent |
| RedisCache.RedisService.Reset | src/redis/redis.service.ts:43-45 | `reset` empties the keyspace |
| RedisCache.RedisService.GetOrSet | src/redis/redis.service.ts:51-64 | on a hit (neither undefined nor null) the cached value without calling the factory or writing; otherwise the factory's result, stored with the TTL when it succeeds; a throwing factory writes nothing |
| RedisCache.StarLeavesNothing | src/redis/redis.service.ts:66-71 | deleting what `KEYS *` returns leaves no key of either kind |
| RedisCache.RedisService.DelAll | src/redis/redis.service.ts:68-70 | the `del` calls for the listed keys remove exactly those keys, of either kind, and nothing else |
| RedisCache.RedisService.InvalidatePattern | src/redis/redis.service.ts:66-71 | removes exactly the keys the pattern selects and leaves all others; `*` empties the keyspace |
| Sessions.NamespacesDisjoint | src/redis/session.service.ts:14-17 | the `session:`, `user_sessions:` and `blacklist:` namespaces never share a key, none holds an order tracking key, and each builder is injective |
| Sessions.ToJson | src/redis/session.service.ts:30-39 | the session record decodes back to the same session data |
| Sessions.ReadWrittenSession | src/redis/session.service.ts:45-62 | reading a record just written gives that record with `lastActivity` replaced by the read time |
| Sessions.OwnerSetKey | src/redis/session.service.ts:79-80 | the set a session is removed from is the `user_sessions` key of the user id in its record; a TypeError exactly for a null record or an unprintable `userId` |
| Sessions.UnprintableOwnerThrows | src/redis/session.service.ts:79-85 | a `userId` object with its own `toString` field, alone or inside an array, throws before the pipeline; one with only its own `valueOf` converts to `[object Object]` |
| Sessions.Validity | src/redis/session.service.ts:64-72 | a blacklisted token is invalid whatever its record; otherwise valid exactly when a record is read |
| Sessions.StatusIgnoresClock | src/redis/session.service.ts:45-62 | whether `getSession` fails, with which error, and whether it finds a record does not depend on the clock reading |
| Sessions.RefreshAllFrame | src/redis/session.service.ts:124-129 | refreshing the records of some tokens leaves every other key as it was |
| Sessions.SessionService.constructor | src/redis/session.service.ts:19 | the service works on the given client |
| Sessions.SessionService.CreateSession | src/redis/session.service.ts:21-43 | writes the record with its two clock readings as createdAt and lastActivity and a one-day TTL, adds the token to the user's set and gives the set a one-day TTL; a string at the set key only has its TTL renewed |
| Sessions.SessionService.GetSession | src/redis/session.service.ts:45-62 | null and no write for a missing record; otherwise the record with only `lastActivity` changed, rewritten with a fresh one-day TTL; parse and type errors surface |
| Sessions.SessionService.IsTokenBlacklisted | src/redis/session.service.ts:108-112 | true exactly when the `blacklist:` key exists |
| Sessions.SessionService.ValidateSession | src/redis/session.service.ts:64-72 | the result is `Validity`: the blacklist is checked first, and a blacklisted token causes no write; otherwise a found record is rewritten with the new `lastActivity` and a fresh one-day TTL, and nothing else changes |
| Sessions.SessionService.InvalidateSession | src/redis/session.service.ts:74-87 | a token with a record loses the record and leaves its owner's set; a token without one changes nothing; a type, parse or conversion error changes nothing and surfaces |
| Sessions.SessionService.DeleteSessionRecords | src/redis/session.service.ts:94-97 | the queued `del session:<token>` commands remove exactly the records of the given tokens, whichever kind of value they hold |
| Sessions.SessionService.InvalidateAllUserSessions | src/redis/session.service.ts:89-101 | deletes the record of every token in the user's set, then the set itself |
| Sessions.SessionService.BlacklistToken | src/redis/session.service.ts:103-106 | writes the blacklist key with the given TTL, or one day when omitted or 0; no session read or user set changes |
| Sessions.SessionService.GetActiveSessionCount | src/redis/session.service.ts:114-117 | the size of the user's token set |
| Sessions.SessionService.RefreshNext | src/redis/session.service.ts:125 | one `getSession` of the walk reads the token's record as it was before the walk and appends it to the refreshed records |
| Sessions.SessionService.RefreshTokens | src/redis/session.service.ts:123-129 | the walk fails exactly when some token's read fails, with that token's error; it refreshes each token with a record once, at successive clock readings; the keyspace holds exactly the refreshes done, also after a failure part-way |
| Sessions.SessionService.GetUserActiveSessions | src/redis/session.service.ts:119-132 | `WRONGTYPE` for a string at the set key; otherwise the records of exactly the set's tokens that have one, each once, each refreshed at its own clock reading; after a failure part-way the records refreshed before it stay refreshed; nothing else is written |
| Pagination.PaginationDto.Skip | src/common/dto/pagination.dto.ts:21-23 | `skip` is a non-negative multiple of the limit whose quotient is page − 1 |
| Pagination.PaginationDto.Take | src/common/dto/pagination.dto.ts:25-27 | `take` lies between 1 and 100 |
| Pagination.DtoOf | src/common/dto/pagination.dto.ts:6-19 | each omitted parameter defaults on its own (page 1, limit 10) and a given one is kept; the DTO is valid when the given values are, and with neither given it starts at row 0 and takes 10 rows |
| Pagination.PageStartDivides | src/common/dto/pagination.dto.ts:21-23 | a valid page starts at a non-negative multiple of the limit |
| Pagination.PageOfRow | src/common/dto/pagination.dto.ts:21-27 | every row lies on exactly one page, number `row / limit + 1` |
| Pagination.CeilDiv | src/common/dto/pagination.dto.ts:48 | `Math.ceil(total / limit)`: enough pages to hold every row, no spare page, zero exactly when there are no rows |
| Pagination.BelowCeilIffRowsRemain | src/common/dto/pagination.dto.ts:48-56 | `page < totalPages` exactly when rows remain past the page |
| Pagination.CreatePaginatedResponse | src/common/dto/pagination.dto.ts:42-60 | data and total, page, limit echoed; totalPages the ceiling; a next page exactly when rows remain; a previous page exactly when page > 1 |
| Pagination.PageSlice | src/orders/orders.service.ts:61-68 | `skip`/`take` keeps the rows from `skip` on, at most `take` of them, in order |
| Pagination.FirstPagesArePrefix | src/common/dto/pagination.dto.ts:21-27 | the first k pages together are the first k × limit rows |
| Pagination.AllPagesCoverRows | src/common/dto/pagination.dto.ts:42-60 | the pages 1 to totalPages together are all rows |
| Tracking.DigitValue | src/orders/orders.service.ts:26 | a base-36 digit has a value below 36 |
| Tracking.Base36 | src/orders/orders.service.ts:26 | `toString(36)` is non-empty and upper-cases to base-36 digits |
| Tracking.ToUpperAppend | src/orders/orders.service.ts:26 | upper-casing distributes over appending a character |
| Tracking.ParseBase36Upper | src/orders/orders.service.ts:26 | the upper-cased base-36 text of a clock reading reads back as that reading |
| Tracking.RandomPart | src/orders/orders.service.ts:27 | the random part is at most six characters, the first six of the fraction upper-cased, empty only when the fraction is |
| Tracking.TrackingNumberShape | src/orders/orders.service.ts:25-29 | a tracking number is `TRK-<time>-<random>`, both parts upper-case base 36, the time part non-empty and the random one at most six characters |
| Tracking.ClockRoundTrip | src/orders/orders.service.ts:25-29 | the tracking number determines the clock reading it was made at |
| Tracking.DistinctClocksDistinctNumbers | src/orders/orders.service.ts:25-29 | numbers made at different milliseconds differ |
| Tracking.SameMillisecondCollision | src/orders/orders.service.ts:25-29 | numbers made in the same millisecond with the same six random characters collide |
| Entities.StandardView | src/prisma/prisma-query.helper.ts:62-72 | the standard selection keeps id, tracking number and status |
| Entities.WithUserView | src/prisma/prisma-query.helper.ts:74-87 | the with-user selection is the standard one plus the owner |
| Entities.StandardViewFaithful | src/prisma/prisma-query.helper.ts:62-87 | the standard selection plus the owner loses nothing: it identifies the row |
| Entities.UserStandardView | src/prisma/prisma-query.helper.ts:18-53 | the standard user selection keeps id, email and role |
| Entities.UserAuthView | src/prisma/prisma-query.helper.ts:18-53 | the login selection keeps id, email, role and the password hash |
| Entities.StatusTextRoundTrip | src/orders/dto/update-order-status.dto.ts:11 | each status's name reads back as that status |
| Entities.ViewToJson | src/redis/redis.service.ts:36 | a cached order view decodes back to the same view |
| Entities.ViewToJsonInjective | src/redis/redis.service.ts:36 | distinct order views are cached as distinct JSON |
| PrismaQuery.BuildCreatedAtRange | src/prisma/prisma-query.helper.ts:9-16 | no range exactly when neither date is given; a time is in the range exactly when it is within every bound given |
| PrismaQuery.ContainsIfTruthy | src/prisma/prisma-query.helper.ts:3-7 | a case-insensitive contains on exactly the value, present exactly when the value is non-empty |
| PrismaQuery.BuildOrderWhereClause | src/prisma/prisma-query.helper.ts:106-137 | an owner condition exactly when not admin and a non-empty user id; status as given; each text filter exactly when non-empty; a date range exactly when a date is given |
| PrismaQuery.BuildOrderWhereClauseSound | src/prisma/prisma-query.helper.ts:106-137 | an order matches the built clause exactly when it meets every supplied parameter |
| PrismaQuery.NonAdminSeesOnlyOwnOrders | src/prisma/prisma-query.helper.ts:111-113 | a non-admin with a user id matches only their own orders |
| PrismaQuery.AdminIgnoresUserId | src/prisma/prisma-query.helper.ts:111-113 | for an admin the user id has no effect on the clause |
| PrismaQuery.UnfilteredMatchesAll | src/prisma/prisma-query.helper.ts:109-136 | without any supplied parameter the clause is empty and matches every order |
| PrismaQuery.ContainsFoldIgnoresCase | src/prisma/prisma-query.helper.ts:3-7 | the insensitive contains is unaffected by upper-casing either side |
| PrismaQuery.LowerOfUpper | src/prisma/prisma-query.helper.ts:3-7 | lower-casing an upper-cased text equals lower-casing it directly |
| PrismaQuery.BuildUserWhereClause | src/prisma/prisma-query.helper.ts:145-163 | email and name conditions exactly when non-empty, role as given |
| PrismaQuery.BuildUserWhereClauseSound | src/prisma/prisma-query.helper.ts:145-163 | a user matches exactly when they meet every supplied parameter |
| Ranking.NewestExists | src/orders/orders.service.ts:65 | every non-empty set of rows has a newest one |
| Ranking.NewestFirst | src/orders/orders.service.ts:65 | `orderBy: { createdAt: 'desc' }` lists every row exactly once, newest first |
| Ranking.HeadIsNewest | src/orders/orders.service.ts:65 | the first row of a newest-first listing is at least as new as every row |
| Ranking.TailRanks | src/orders/orders.service.ts:65 | the rest of a newest-first listing lists the remaining rows newest first |
| Ranking.SameHead | src/orders/orders.service.ts:65 | with distinct creation times two newest-first listings start with the same row |
| Ranking.UniqueStep | src/orders/orders.service.ts:65 | with distinct creation times two newest-first listings start with the same row and go on ranking the other rows |
| Ranking.RankingLength | src/orders/orders.service.ts:65 | a newest-first listing has exactly as many entries as there are rows |
| Ranking.RankingUnique | src/orders/orders.service.ts:65 | with distinct creation times the newest-first listing is unique |
| Store.Database.InsertOrder | src/orders/orders.service.ts:34-45 | `order.create` stores the row under its id and indexes its tracking number; the user table is untouched |
| Store.Database.ReplaceOrder | src/orders/orders.service.ts:155-159 | `order.update` replaces one row, keeping its id and tracking number, and nothing else changes |
| Store.OrderWithTracking | src/orders/orders.service.ts:107-110 | the lookup by tracking number is the row the index names, none when the index has no entry |
| Store.OrderWithTrackingExact | src/orders/orders.service.ts:107-110 | under the unique index the lookup finds exactly the order with that tracking number |
| Store.UserWithEmail | src/users/users.service.ts:29-37 | the lookup by email is the row the index names, none when the index has no entry |
| Store.UserWithEmailExact | src/users/users.service.ts:29-37 | under the unique index the lookup finds exactly the user with that email |
| Orders.UpdateTransition | src/orders/orders.service.ts:145-159 | from a non-terminal status any target is accepted and becomes the status; canceled and delivered orders are refused with their messages |
| Orders.CancelTransition | src/orders/orders.service.ts:185-196 | cancel succeeds exactly from PENDING and yields CANCELED; otherwise "Only pending orders can be canceled" |
| Orders.LooseTransitions | src/orders/orders.service.ts:145-159 | PENDING→DELIVERED, IN_TRANSIT→PENDING and IN_TRANSIT→CANCELED are accepted by `updateStatus`; cancel refuses IN_TRANSIT |
| Orders.TerminalAbsorbs | src/orders/orders.service.ts:145-153 | no sequence of operations moves a delivered or canceled order |
| Orders.RunAppend | src/orders/orders.service.ts:122-202 | running two sequences of operations is running their concatenation |
| Orders.TerminalIsFinal | src/orders/orders.service.ts:145-153 | once an order reaches a terminal status, later operations leave it there |
| Orders.UpdateOutcome | src/orders/orders.service.ts:128-159 | a missing order and another user's order give the same NotFound; success exactly for an accessible non-terminal order, which gets the target status |
| Orders.CancelOutcome | src/orders/orders.service.ts:168-196 | the same NotFound masking; success exactly for an accessible PENDING order, which becomes CANCELED |
| Orders.CancelIsRestrictedUpdate | src/orders/orders.service.ts:122-202 | cancel succeeds exactly when an update to CANCELED would and the order is PENDING, and then does the same |
| Orders.FilterOrdersDto.Page | src/orders/orders.service.ts:49 | the page, 1 by default, is at least 1 |
| Orders.FilterOrdersDto.Limit | src/orders/orders.service.ts:49 | the limit, 10 by default, is at least 1 |
| Orders.Selection | src/orders/orders.service.ts:61-69 | the rows a clause selects are exactly the matching orders |
| Orders.PageRowsSelected | src/orders/orders.service.ts:61-68 | every row on a page of the listing matches the clause |
| Orders.SelectedHonoursFilter | src/orders/orders.service.ts:51-57 | a selected order belongs to the non-admin caller and has the requested status |
| Orders.PageViews | src/orders/orders.service.ts:64 | the page's rows in the with-user selection, in order |
| Orders.PageHonoursFilter | src/orders/orders.service.ts:51-68 | every row on a page of the ranking is a stored order of the caller, for a non-admin, with the requested status |
| Orders.ListingPage | src/orders/orders.service.ts:59-80 | the rows `skip = (page-1)*limit` onwards of the ranking, at most `limit` of them, in order and in the with-user selection; total is the number of matching orders and `totalPages = ceil(total/limit)` |
| Orders.ListingPageHonoursFilter | src/orders/orders.service.ts:51-57 | every listed order belongs to the non-admin caller and has the requested status |
| Orders.LoadByTracking | src/orders/orders.service.ts:106-117 | the standard view of the order with that tracking number, or NotFound when there is none |
| Orders.OrdersService.constructor | src/orders/orders.service.ts:20-23 | the service works on the given database and cache |
| Orders.OrdersService.Create | src/orders/orders.service.ts:25-46 | a PENDING order owned by the caller with the DTO's fields copied and a tracking number encoding the clock; a clashing tracking number is a conflict that writes nothing |
| Orders.OrdersService.FindAll | src/orders/orders.service.ts:48-81 | the matching orders are ranked newest first and the answer is `ListingPage` of that ranking; the owner restriction and status filter hold for every row |
| Orders.OrdersService.FindOne | src/orders/orders.service.ts:83-99 | the order for an admin or its owner; the same NotFound for a missing order and another user's |
| Orders.OrdersService.Track | src/orders/orders.service.ts:101-120 | a cache hit is returned without reading the table; a miss reads the table and caches the view for 300 seconds; an unknown number is NotFound and caches nothing |
| Orders.OrdersService.UpdateStatus | src/orders/orders.service.ts:122-165 | the outcome of `UpdateOutcome`; on success only that order changes and its tracking key is evicted; on failure nothing changes |
| Orders.OrdersService.Cancel | src/orders/orders.service.ts:167-202 | the outcome of `CancelOutcome`; on success only that order changes and its tracking key is evicted; on failure nothing changes |
| Users.NewUser | src/users/users.service.ts:17-27 | the new user has role USER unless a role is given, and the given id, email and password hash |
| Users.UserStamps | src/users/users.service.ts:46-51 | every user has a creation time to sort by |
| Users.UsersService.constructor | src/users/users.service.ts:15 | the service works on the given database |
| Users.UsersService.Create | src/users/users.service.ts:17-27 | inserts the user with the default role; a registered email is a conflict that writes nothing |
| Users.UsersService.FindByEmail | src/users/users.service.ts:29-37 | the login view, password included, of the user with exactly that email; none when nobody has it |
| Users.UsersService.FindById | src/users/users.service.ts:39-44 | the standard view of the user, none rather than an error when absent |
| Users.UsersService.FindAll | src/users/users.service.ts:46-51 | every user exactly once, newest first, in the standard view |
| Users.UsersService.UpdateRole | src/users/users.service.ts:53-64 | NotFound with nothing changed for a missing id; otherwise only that user's role and update time change |
| Users.UsersService.Delete | src/users/users.service.ts:66-75 | NotFound for a missing id; otherwise exactly that user is removed, the email freed, and the confirmation returned; the user's orders are kept unchanged, an assumption (see Left out) |
| Scenarios.TrackTwice | test/orders.service.spec.ts:8-38 | after a successful `track`, a second one returns the same value without reading the table |
| Scenarios.TrackUnknownTwice | test/orders.service.spec.ts:40-59 | an unknown tracking number is NotFound every time and never cached |
| Scenarios.UpdateThenTrack | src/orders/orders.service.ts:155-162 | after a successful status update, `track` shows the new status |
| Scenarios.CancelThenUpdate | test/orders.service.spec.ts:61-86 | after a successful cancel, a status update is refused with "Cannot update canceled orders" |
| Scenarios.CreateThenRead | src/redis/session.service.ts:21-62 | a session read after creation is the written record with the read time as last activity |
| Scenarios.BlacklistBeatsSession | src/redis/session.service.ts:64-72 | a blacklisted token is invalid although its record still exists |
| Scenarios.LogoutEverywhere | src/redis/session.service.ts:89-117 | after invalidating all of a user's sessions their count is 0 and no former token has a record |
| Scenarios.RecreateSession | src/redis/session.service.ts:40 | creating a session again for a registered token does not change the session count |

## Left out

- Bootstrap, controllers and their role guards, health checks, the logging interceptor, the seed script and authentication are not part of this model. They are framework wiring and I/O. The services' own checks are modelled.
- The connection plumbing of src/redis/redis.module.ts is left out. Only its TTL fallback is modelled, as the positive default TTL.
- Real TTL expiry is left out. A key's TTL is recorded as a number and keys never expire on their own.
- Negative or non-integer TTLs are left out: TTLs are natural numbers.
- Concurrency is left out. `Promise.all` and Redis pipelines are taken as sequential steps in source order, and pipeline command errors are not surfaced, as `exec` resolves with them.
- Dates are integers (milliseconds). Their JSON form as ISO strings is not modelled, so a cached order view stores its timestamps as numbers.
- `Number.prototype.toString(36)` for a clock reading is modelled as integer base-36 text. The fractional digits of `Math.random()` are a parameter: their distribution and floating-point form are not modelled.
- Case-insensitive matching is ASCII case folding. Prisma's and the database's collation rules, and Unicode case mapping, are not modelled.
- Entities.WithUserView: the user's email and name in the `withUser` selection are left out, so `Entities.OrderWithUser` carries only the owner's id. The join through the user relation is not modelled.
- Users.UsersService.Delete: the model assumes the delete neither refuses nor cascades, so it succeeds for every existing user and keeps the user's orders unchanged. Under the database's default for a required relation it would be refused while the user owns orders; under a cascade those orders would be removed. The database schema, which decides this, is not part of this model.
- `updatedAt` is set to the operation's time on every update. The schema's `@updatedAt` attribute is not part of this model and is assumed.
- Pagination.CreatePaginatedResponse: requires limit ≥ 1. The source divides by the limit, and a limit of 0 gives `Infinity` or `NaN`, which is not modelled.
- Orders.OrdersService.FindAll: the order of orders with equal creation times is any newest-first order, as the database does not fix one. With distinct times the order is unique (`Ranking.RankingUnique`).
- Glob.Glob: `?` matches one character, while the Redis matcher matches one byte of the key's UTF-8 encoding. So the model agrees with Redis on keys of ASCII characters only. No pattern the services pass contains `?`.
- Glob: `KEYS` character classes `[...]` are not modelled. `*`, `?` and backslash escapes are.
- DTO validation decorators are modelled only as the `Valid` predicates and the `requires` they justify.
- Password hashing with bcrypt happens before `UsersService.create` and is not part of this model. The hash is an opaque string.
- Transport failures of the Redis connection and of the database are left out. The model's Redis fails only with `WRONGTYPE` and its database only on a unique index. So it does not capture the following:
  - `RedisService.get` turning such a failure into `undefined` (src/redis/redis.service.ts:25-31), while `set`, `del`, the session commands and every Prisma call pass it on.
  - `updateStatus` and `cancel` rejecting after their status write has been stored, when the following cache `del` fails (src/orders/orders.service.ts:161-162, 198-199).
  - `track` rejecting after a successful lookup when the cache `set` fails.
- The Redis client and the database are received already connected and holding arbitrary contents, as the services' constructors receive them. Nothing in the model creates an empty keyspace or empty tables.
- JSON numbers are integers. Floating-point numbers and the exponent form of large numbers are not modelled.
