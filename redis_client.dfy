/** The Redis keyspace the services share, with the commands they issue.
    A key holds either a string (always written with an expiry, SETEX) or a
    set of strings; a command of one kind on a key of the other kind fails
    with WRONGTYPE. Expiry times are recorded, not simulated. */
module RedisClient {
  import opened Common
  import opened JsonValue
  import Glob

  datatype StringEntry = StringEntry(payload: Payload, ttl: nat)
  datatype SetEntry = SetEntry(members: set<string>, ttl: Option<nat>)

  /** The members of the set at `key`; a missing key reads as the empty set. */
  function MembersOf(sets: map<string, SetEntry>, key: string): set<string>
  {
    if key in sets then sets[key].members else {}
  }

  /** The sets after SREM: the member leaves, and a set left empty is deleted. */
  function RemoveMember(sets: map<string, SetEntry>, key: string, member: string): (r: map<string, SetEntry>)
    ensures MembersOf(r, key) == MembersOf(sets, key) - {member}
    ensures forall k :: k != key ==> (k in r <==> k in sets) && (k in r ==> r[k] == sets[k])
    ensures key in r ==> key in sets && r[key].ttl == sets[key].ttl && r[key].members != {}
  {
    if key !in sets then sets
    else if sets[key].members - {member} == {} then sets - {key}
    else sets[key := sets[key].(members := sets[key].members - {member})]
  }

  class Client {
    var strings: map<string, StringEntry>
    var sets: map<string, SetEntry>

    /** A key has one kind, and Redis never keeps an empty set. */
    ghost predicate Valid()
      reads this
    {
      && strings.Keys !! sets.Keys
      && forall k :: k in sets ==> sets[k].members != {}
    }

    function Keyspace(): set<string>
      reads this
    {
      strings.Keys + sets.Keys
    }

    /** GET: the text at a string key, nothing for a missing key. */
    method Get(key: string) returns (r: Result<Option<Payload>>)
      requires Valid()
      ensures r.Err? <==> key in sets
      ensures r.Err? ==> r.error == WrongType
      ensures r.Ok? ==> (r.value.Some? <==> key in strings)
      ensures r.Ok? && key in strings ==> r.value.value == strings[key].payload
    {
      if key in sets {
        r := Err(WrongType);
      } else if key in strings {
        r := Ok(Some(strings[key].payload));
      } else {
        r := Ok(None);
      }
    }

    /** SETEX: replaces whatever the key held by a string with an expiry. */
    method SetEx(key: string, seconds: nat, payload: Payload)
      requires Valid() && seconds > 0
      modifies this
      ensures Valid()
      ensures strings == old(strings)[key := StringEntry(payload, seconds)]
      ensures sets == old(sets) - {key}
    {
      strings := strings[key := StringEntry(payload, seconds)];
      sets := sets - {key};
    }

    /** DEL: removes the key of either kind; answers how many keys went. */
    method Del(key: string) returns (removed: nat)
      requires Valid()
      modifies this
      ensures Valid()
      ensures removed == if key in old(Keyspace()) then 1 else 0
      ensures strings == old(strings) - {key} && sets == old(sets) - {key}
    {
      removed := if key in strings || key in sets then 1 else 0;
      strings := strings - {key};
      sets := sets - {key};
    }

    /** EXISTS: 1 when the key holds anything, else 0. */
    method Exists(key: string) returns (n: nat)
      requires Valid()
      ensures n == 1 <==> key in strings || key in sets
      ensures n == 0 <==> key !in strings && key !in sets
    {
      n := if key in strings || key in sets then 1 else 0;
    }

    /** SADD: creates the set without expiry when it is missing. */
    method SAdd(key: string, member: string) returns (r: Result<nat>)
      requires Valid()
      modifies this
      ensures Valid()
      ensures r.Err? <==> key in old(strings)
      ensures r.Err? ==> r.error == WrongType && strings == old(strings) && sets == old(sets)
      ensures r.Ok? ==> strings == old(strings)
      ensures r.Ok? ==> sets == old(sets)[key := SetEntry(MembersOf(old(sets), key) + {member},
                                                        if key in old(sets) then old(sets)[key].ttl else None)]
      ensures r.Ok? ==> r.value == if member in MembersOf(old(sets), key) then 0 else 1
    {
      if key in strings {
        r := Err(WrongType);
      } else {
        var was := MembersOf(sets, key);
        var ttl := if key in sets then sets[key].ttl else None;
        sets := sets[key := SetEntry(was + {member}, ttl)];
        r := Ok(if member in was then 0 else 1);
      }
    }

    /** SREM: removes one member; a set left empty disappears. */
    method SRem(key: string, member: string) returns (r: Result<nat>)
      requires Valid()
      modifies this
      ensures Valid()
      ensures r.Err? <==> key in old(strings)
      ensures r.Err? ==> r.error == WrongType && sets == old(sets)
      ensures strings == old(strings)
      ensures r.Ok? ==> sets == RemoveMember(old(sets), key, member)
      ensures r.Ok? ==> r.value == if member in MembersOf(old(sets), key) then 1 else 0
    {
      if key in strings {
        r := Err(WrongType);
      } else {
        r := Ok(if member in MembersOf(sets, key) then 1 else 0);
        sets := RemoveMember(sets, key, member);
      }
    }

    /** SMEMBERS: the members of the set, none for a missing key. */
    method SMembers(key: string) returns (r: Result<set<string>>)
      requires Valid()
      ensures r.Err? <==> key in strings
      ensures r.Err? ==> r.error == WrongType
      ensures r.Ok? ==> r.value == MembersOf(sets, key)
    {
      if key in strings {
        r := Err(WrongType);
      } else {
        r := Ok(MembersOf(sets, key));
      }
    }

    /** SCARD: the number of members, 0 for a missing key. */
    method SCard(key: string) returns (r: Result<nat>)
      requires Valid()
      ensures r.Err? <==> key in strings
      ensures r.Err? ==> r.error == WrongType
      ensures r.Ok? ==> r.value == |MembersOf(sets, key)|
      ensures r.Ok? ==> (r.value == 0 <==> key !in sets)
    {
      if key in strings {
        r := Err(WrongType);
      } else {
        r := Ok(|MembersOf(sets, key)|);
      }
    }

    /** EXPIRE: sets the expiry of an existing key of either kind. */
    method Expire(key: string, seconds: nat) returns (n: nat)
      requires Valid() && seconds > 0
      modifies this
      ensures Valid()
      ensures n == if key in old(Keyspace()) then 1 else 0
      ensures key in old(strings) ==> strings == old(strings)[key := old(strings)[key].(ttl := seconds)] && sets == old(sets)
      ensures key in old(sets) ==> sets == old(sets)[key := old(sets)[key].(ttl := Some(seconds))] && strings == old(strings)
      ensures key !in old(Keyspace()) ==> strings == old(strings) && sets == old(sets)
    {
      if key in strings {
        strings := strings[key := strings[key].(ttl := seconds)];
        n := 1;
      } else if key in sets {
        sets := sets[key := sets[key].(ttl := Some(seconds))];
        n := 1;
      } else {
        n := 0;
      }
    }

    /** KEYS: every key of either kind that the glob pattern matches. */
    method Keys(pattern: string) returns (ks: set<string>)
      requires Valid()
      ensures ks <= Keyspace()
      ensures forall k :: k in Keyspace() ==> (k in ks <==> Glob.KeyMatches(pattern, k))
    {
      ks := set k | k in strings.Keys + sets.Keys && Glob.KeyMatches(pattern, k);
    }

    /** FLUSHDB: the keyspace becomes empty. */
    method FlushDb()
      modifies this
      ensures Valid() && strings == map[] && sets == map[]
    {
      strings := map[];
      sets := map[];
    }
  }
}
