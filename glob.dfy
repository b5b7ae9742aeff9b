/** The glob patterns of the Redis KEYS command, as `invalidatePattern`
    hands them to the server: `*` matches any run of characters, `?` any one
    character, a backslash makes the next character literal, and every other
    character matches itself. */
module Glob {

  function Glob(p: string, s: string): bool
    decreases |p| + |s|
  {
    if p == [] then s == []
    else if p[0] == '*' then Glob(p[1..], s) || (s != [] && Glob(p, s[1..]))
    else if s == [] then false
    else if p[0] == '?' then Glob(p[1..], s[1..])
    else if p[0] == '\\' && |p| >= 2 then p[1] == s[0] && Glob(p[2..], s[1..])
    else p[0] == s[0] && Glob(p[1..], s[1..])
  }

  /** Whether KEYS returns `key` for `pattern`. The exact pattern `*` is
      answered with every key without consulting the matcher; otherwise the
      matcher decides, and it never enters its loop for an empty key, so the
      empty key matches only the empty pattern. */
  predicate KeyMatches(pattern: string, key: string)
  {
    pattern == "*" || (if key == [] then pattern == [] else Glob(pattern, key))
  }

  /** The empty key is returned only for the empty pattern and for the
      exact pattern `*`; every key is returned for `*`. */
  lemma EmptyKeyMatches(pattern: string, key: string)
    ensures KeyMatches(pattern, []) <==> pattern == [] || pattern == "*"
    ensures KeyMatches("*", key)
  {
  }

  /** A pattern without any character the server treats specially. */
  predicate IsLiteral(p: string)
  {
    forall i :: 0 <= i < |p| ==> p[i] !in {'*', '?', '\\', '['}
  }

  lemma {:induction false} LiteralMatchesOnlyItself(p: string, s: string)
    requires IsLiteral(p)
    ensures KeyMatches(p, s) <==> p == s
    ensures Glob(p, s) <==> p == s
  {
    if p != [] && s != [] {
      assert p[0] !in {'*', '?', '\\', '['};
      LiteralMatchesOnlyItself(p[1..], s[1..]);
      assert p == [p[0]] + p[1..] && s == [s[0]] + s[1..];
    } else if p != [] {
      assert p[0] !in {'*', '?', '\\', '['};
    }
  }

  lemma {:induction false} StarMatchesAll(s: string)
    ensures Glob("*", s)
  {
    if s != [] {
      StarMatchesAll(s[1..]);
    }
  }

  /** `prefix*` selects, among non-empty keys, exactly those that start with
      the prefix: the shape of a bulk eviction such as "orders:list:*". */
  lemma {:induction false} PrefixStarMatchesPrefixed(prefix: string, s: string)
    requires IsLiteral(prefix)
    ensures Glob(prefix + "*", s) <==> prefix <= s
  {
    if prefix == [] {
      assert prefix + "*" == "*";
      StarMatchesAll(s);
    } else {
      assert prefix[0] !in {'*', '?', '\\', '['};
      assert (prefix + "*")[0] == prefix[0];
      assert (prefix + "*")[1..] == prefix[1..] + "*";
      if s != [] {
        PrefixStarMatchesPrefixed(prefix[1..], s[1..]);
        assert prefix <= s <==> prefix[0] == s[0] && prefix[1..] <= s[1..];
      }
    }
  }
}
