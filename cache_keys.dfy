/** The cache key builders and TTL classes of src/redis/cache-keys.ts. */
module CacheKeys {
  import Strings

  const ORDER_PREFIX := "order:"
  const ORDER_TRACKING_PREFIX := "order:tracking:"
  const ORDERS_LIST_PREFIX := "orders:list:"
  const USER_PREFIX := "user:"
  const USER_EMAIL_PREFIX := "user:email:"

  function OrderById(id: string): string { ORDER_PREFIX + id }
  function OrderByTracking(trackingNumber: string): string { ORDER_TRACKING_PREFIX + trackingNumber }
  function OrdersList(userId: string, filters: string): string { ORDERS_LIST_PREFIX + userId + ":" + filters }
  function UserById(id: string): string { USER_PREFIX + id }
  function UserByEmail(email: string): string { USER_EMAIL_PREFIX + email }
  function UsersList(): string { "users:list" }

  /** TTL classes, in seconds. */
  const CACHE_TTL_SHORT: nat := 60
  const CACHE_TTL_MEDIUM: nat := 300
  const CACHE_TTL_LONG: nat := 3600
  const CACHE_TTL_DAY: nat := 86400

  lemma TtlClassesIncrease()
    ensures 0 < CACHE_TTL_SHORT < CACHE_TTL_MEDIUM < CACHE_TTL_LONG < CACHE_TTL_DAY
    ensures CACHE_TTL_DAY == 24 * 60 * 60 && CACHE_TTL_MEDIUM == 5 * CACHE_TTL_SHORT
  {
  }

  lemma {:induction false} PrefixCancels(p: string, a: string, b: string)
    requires p + a == p + b
    ensures a == b
  {
    assert a == (p + a)[|p|..];
    assert b == (p + b)[|p|..];
  }

  /** Each single-argument builder is a fixed prefix followed by its argument,
      so distinct arguments give distinct keys. */
  lemma KeyBuildersInjective(a: string, b: string)
    ensures OrderById(a) == OrderById(b) ==> a == b
    ensures OrderByTracking(a) == OrderByTracking(b) ==> a == b
    ensures UserById(a) == UserById(b) ==> a == b
    ensures UserByEmail(a) == UserByEmail(b) ==> a == b
  {
    if OrderById(a) == OrderById(b) { PrefixCancels(ORDER_PREFIX, a, b); }
    if OrderByTracking(a) == OrderByTracking(b) { PrefixCancels(ORDER_TRACKING_PREFIX, a, b); }
    if UserById(a) == UserById(b) { PrefixCancels(USER_PREFIX, a, b); }
    if UserByEmail(a) == UserByEmail(b) { PrefixCancels(USER_EMAIL_PREFIX, a, b); }
  }

  /** The namespaces overlap: the order with id "tracking:x" and the order
      with tracking number x share one key, and so do the user with id
      "email:e" and the user with email e. */
  lemma {:induction false} KeyNamespacesOverlap(x: string)
    ensures OrderById("tracking:" + x) == OrderByTracking(x)
    ensures UserById("email:" + x) == UserByEmail(x)
  {
    assert ORDER_PREFIX + ("tracking:" + x) == (ORDER_PREFIX + "tracking:") + x;
    assert USER_PREFIX + ("email:" + x) == (USER_PREFIX + "email:") + x;
  }

  /** The list key is not injective: the separator may occur in either part. */
  lemma OrdersListAmbiguous()
    ensures OrdersList("a:b", "c") == OrdersList("a", "b:c")
  {
  }

  /** Every builder is the colon-join of its segments, the form
      `RedisService.generateKey` produces. */
  lemma {:induction false} OrderKeysAreColonJoins(x: string)
    ensures OrderById(x) == Strings.Join(["order", x], ":")
    ensures OrderByTracking(x) == Strings.Join(["order", "tracking", x], ":")
  {
    Strings.JoinCons("order", [x], ":");
    assert ["order", x] == ["order"] + [x];
    Strings.JoinCons("tracking", [x], ":");
    assert ["tracking", x] == ["tracking"] + [x];
    Strings.JoinCons("order", ["tracking", x], ":");
    assert ["order", "tracking", x] == ["order"] + ["tracking", x];
  }

  lemma {:induction false} OrdersListIsColonJoin(x: string, y: string)
    ensures OrdersList(x, y) == Strings.Join(["orders", "list", x, y], ":")
  {
    Strings.JoinCons(x, [y], ":");
    assert [x, y] == [x] + [y];
    Strings.JoinCons("list", [x, y], ":");
    assert ["list", x, y] == ["list"] + [x, y];
    Strings.JoinCons("orders", ["list", x, y], ":");
    assert ["orders", "list", x, y] == ["orders"] + ["list", x, y];
  }

  lemma {:induction false} UserKeysAreColonJoins(x: string)
    ensures UserById(x) == Strings.Join(["user", x], ":")
    ensures UserByEmail(x) == Strings.Join(["user", "email", x], ":")
    ensures UsersList() == Strings.Join(["users", "list"], ":")
  {
    Strings.JoinCons("user", [x], ":");
    assert ["user", x] == ["user"] + [x];
    Strings.JoinCons("email", [x], ":");
    assert ["email", x] == ["email"] + [x];
    Strings.JoinCons("user", ["email", x], ":");
    assert ["user", "email", x] == ["user"] + ["email", x];
    Strings.JoinCons("users", ["list"], ":");
    assert ["users", "list"] == ["users"] + ["list"];
  }
}
