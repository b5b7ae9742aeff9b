/** RedisService of src/redis/redis.service.ts: a JSON cache over the shared
    keyspace, with a read-through helper and pattern-based eviction. */
module RedisCache {
  import opened Common
  import opened JsonValue
  import opened RedisClient
  import Strings
  import Glob

  /** What `get` finds under a key: the parsed JSON of a string key; nothing
      for a missing key, a set key (whose WRONGTYPE failure `get` swallows),
      the empty string, or text JSON.parse rejects. */
  function Cached(strings: map<string, StringEntry>, key: string): Option<Json>
  {
    if key in strings && strings[key].payload.Serialized? then Some(strings[key].payload.json) else None
  }

  /** `getOrSet` serves from the cache only a value that is neither
      undefined nor null. */
  predicate IsHit(strings: map<string, StringEntry>, key: string)
  {
    Cached(strings, key).Some? && Cached(strings, key).value != JNull
  }

  /** Reading back a key just written with `set` gives the value written. */
  lemma CachedAfterSet(strings: map<string, StringEntry>, key: string, value: Json, ttl: nat)
    ensures Cached(strings[key := StringEntry(Stringify(value), ttl)], key) == Some(value)
    ensures value != JNull ==> IsHit(strings[key := StringEntry(Stringify(value), ttl)], key)
  {
  }

  /** `generateKey(...parts)`: the parts joined with ":". */
  function GenerateKey(parts: seq<string>): string
  {
    Strings.Join(parts, ":")
  }

  /** A key generated from colon-free parts splits back into those parts. */
  lemma GenerateKeySplits(parts: seq<string>)
    requires |parts| >= 1
    requires forall i :: 0 <= i < |parts| ==> ':' !in parts[i]
    ensures Strings.Split(GenerateKey(parts), ':') == parts
  {
    Strings.SplitJoin(parts, ':');
  }

  /** The keys among `keys` that the pattern selects. */
  function MatchingKeys(keys: set<string>, pattern: string): (r: set<string>)
    ensures r <= keys
  {
    set k | k in keys && Glob.KeyMatches(pattern, k)
  }

  /** Deleting what KEYS `*` selects leaves no key of either kind. */
  lemma StarLeavesNothing(strings: map<string, StringEntry>, sets: map<string, SetEntry>)
    ensures strings - MatchingKeys(strings.Keys + sets.Keys, "*") == map[]
    ensures sets - MatchingKeys(strings.Keys + sets.Keys, "*") == map[]
  {
    var keys := MatchingKeys(strings.Keys + sets.Keys, "*");
    forall k | k in strings.Keys + sets.Keys
      ensures k in keys
    {
      Glob.EmptyKeyMatches("*", k);
    }
  }

  class RedisService {
    const client: Client
    const defaultTtl: nat

    ghost predicate Valid()
      reads this, client
    {
      client.Valid() && defaultTtl > 0
    }

    /** The configured default TTL is `CACHE_TTL || 300`, never 0. */
    constructor (client: Client, ttl: nat)
      requires client.Valid() && ttl > 0
      ensures Valid() && this.client == client && defaultTtl == ttl
    {
      this.client := client;
      defaultTtl := ttl;
    }

    /** `get`: never fails; every kind of absence reads as undefined. */
    method Get(key: string) returns (v: Option<Json>)
      requires Valid()
      ensures v == Cached(client.strings, key)
      ensures v.None? <==> key !in client.strings || client.strings[key].payload.Text?
    {
      var data := client.Get(key);
      if data.Err? || data.value.None? || IsEmptyText(data.value.value) {
        v := None;
      } else {
        var parsed := Parse(data.value.value);
        v := if parsed.Ok? then Some(parsed.value) else None;
      }
    }

    /** `set`: the serialized value, with the given TTL or, when it is
        omitted or 0, the default. */
    method Set(key: string, value: Json, ttl: Option<nat>)
      requires Valid()
      modifies client
      ensures Valid()
      ensures client.strings == old(client.strings)[key := StringEntry(Stringify(value), OrDefault(ttl, defaultTtl))]
      ensures client.sets == old(client.sets) - {key}
    {
      var expiry := OrDefault(ttl, defaultTtl);
      client.SetEx(key, expiry, Stringify(value));
    }

    /** `del`: removes that key only; a missing key is no failure. */
    method Del(key: string)
      requires Valid()
      modifies client
      ensures Valid()
      ensures client.strings == old(client.strings) - {key}
      ensures client.sets == old(client.sets) - {key}
    {
      var _ := client.Del(key);
    }

    /** `reset`: FLUSHDB empties the whole keyspace. */
    method Reset()
      requires Valid()
      modifies client
      ensures Valid()
      ensures client.strings == map[] && client.sets == map[]
    {
      client.FlushDb();
    }

    /** `getOrSet`: a hit is returned without calling the factory; on a miss
        (or a cached null) the factory runs once and its value is stored
        with `ttl` and returned; when the factory fails, its failure
        propagates and nothing is written. `factoryCalled` records whether
        the factory ran. */
    method GetOrSet(key: string, factory: () -> Result<Json>, ttl: Option<nat>)
      returns (r: Result<Json>, ghost factoryCalled: bool)
      requires Valid()
      modifies client
      ensures Valid()
      ensures IsHit(old(client.strings), key) ==>
                && r == Ok(Cached(old(client.strings), key).value)
                && !factoryCalled
                && client.strings == old(client.strings) && client.sets == old(client.sets)
      ensures !IsHit(old(client.strings), key) ==> factoryCalled && r == factory()
      ensures !IsHit(old(client.strings), key) && r.Ok? ==>
                && client.strings == old(client.strings)[key := StringEntry(Stringify(r.value), OrDefault(ttl, defaultTtl))]
                && client.sets == old(client.sets) - {key}
      ensures r.Err? ==> client.strings == old(client.strings) && client.sets == old(client.sets)
    {
      var cached := Get(key);
      if cached.Some? && cached.value != JNull {
        r := Ok(cached.value);
        factoryCalled := false;
        return;
      }
      r := factory();
      factoryCalled := true;
      if r.Ok? {
        Set(key, r.value, ttl);
      }
    }

    /** The `del` calls `invalidatePattern` issues, one per listed key. The
        source runs them concurrently; here they run one at a time. */
    method DelAll(keys: set<string>)
      requires Valid()
      modifies client
      ensures Valid()
      ensures client.strings == old(client.strings) - keys
      ensures client.sets == old(client.sets) - keys
    {
      var remaining := keys;
      while remaining != {}
        invariant remaining <= keys
        invariant client.Valid()
        invariant client.strings == old(client.strings) - (keys - remaining)
        invariant client.sets == old(client.sets) - (keys - remaining)
        decreases remaining
      {
        var k :| k in remaining;
        Del(k);
        remaining := remaining - {k};
      }
    }

    /** `invalidatePattern`: deletes every key the pattern matches and no
        other; the pattern `*` empties the keyspace. */
    method InvalidatePattern(pattern: string)
      requires Valid()
      modifies client
      ensures Valid()
      ensures client.strings == old(client.strings) - MatchingKeys(old(client.Keyspace()), pattern)
      ensures client.sets == old(client.sets) - MatchingKeys(old(client.Keyspace()), pattern)
      ensures pattern == "*" ==> client.strings == map[] && client.sets == map[]
    {
      ghost var before := client.Keyspace();
      var keys := client.Keys(pattern);
      assert keys == MatchingKeys(before, pattern);
      if pattern == "*" {
        StarLeavesNothing(client.strings, client.sets);
      }
      if |keys| > 0 {
        DelAll(keys);
      }
    }
  }
}
