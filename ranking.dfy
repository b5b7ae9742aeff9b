/** `orderBy: { createdAt: 'desc' }`: the rows a query selects, newest first.
    Rows created in the same millisecond may come in either order. */
module Ranking {

  /** `ranked` lists every key of `stamps` once, by descending stamp. */
  predicate IsNewestFirst(stamps: map<string, int>, ranked: seq<string>)
  {
    && (forall i :: 0 <= i < |ranked| ==> ranked[i] in stamps)
    && (forall k :: k in stamps ==> k in ranked)
    && (forall i, j :: 0 <= i < j < |ranked| ==> ranked[i] != ranked[j])
    && (forall i, j :: 0 <= i < j < |ranked| ==> stamps[ranked[i]] >= stamps[ranked[j]])
  }

  lemma {:induction false} NewestExists(stamps: map<string, int>, s: set<string>)
    requires s != {} && s <= stamps.Keys
    ensures exists m :: m in s && forall x :: x in s ==> stamps[x] <= stamps[m]
  {
    var y :| y in s;
    if s - {y} != {} {
      NewestExists(stamps, s - {y});
      var m :| m in s - {y} && forall x :: x in s - {y} ==> stamps[x] <= stamps[m];
      if stamps[y] > stamps[m] {
        assert forall x :: x in s ==> stamps[x] <= stamps[y];
      } else {
        assert forall x :: x in s ==> stamps[x] <= stamps[m];
      }
    } else {
      assert s == {y};
    }
  }

  /** A selection sort: repeatedly takes a newest remaining key. */
  method NewestFirst(stamps: map<string, int>) returns (ranked: seq<string>)
    ensures IsNewestFirst(stamps, ranked)
    ensures |ranked| == |stamps|
  {
    ranked := [];
    var remaining := stamps.Keys;
    while remaining != {}
      invariant remaining <= stamps.Keys
      invariant |ranked| + |remaining| == |stamps|
      invariant forall i :: 0 <= i < |ranked| ==> ranked[i] in stamps && ranked[i] !in remaining
      invariant forall k :: k in stamps ==> k in remaining || k in ranked
      invariant forall i, j :: 0 <= i < j < |ranked| ==> ranked[i] != ranked[j]
      invariant forall i, j :: 0 <= i < j < |ranked| ==> stamps[ranked[i]] >= stamps[ranked[j]]
      invariant forall i, x :: 0 <= i < |ranked| && x in remaining ==> stamps[ranked[i]] >= stamps[x]
      decreases remaining
    {
      NewestExists(stamps, remaining);
      var m :| m in remaining && forall x :: x in remaining ==> stamps[x] <= stamps[m];
      ranked := ranked + [m];
      remaining := remaining - {m};
    }
  }

  /** The head of a ranking is a newest key. */
  lemma HeadIsNewest(stamps: map<string, int>, a: seq<string>, k: string)
    requires IsNewestFirst(stamps, a) && k in stamps
    ensures a != [] && stamps[k] <= stamps[a[0]]
  {
    var t :| 0 <= t < |a| && a[t] == k;
    if t != 0 {
      assert stamps[a[0]] >= stamps[a[t]];
    }
  }

  /** Removing the head ranks the remaining keys. */
  lemma TailRanks(stamps: map<string, int>, a: seq<string>)
    requires IsNewestFirst(stamps, a) && a != []
    ensures IsNewestFirst(stamps - {a[0]}, a[1..])
  {
    var rest := stamps - {a[0]};
    forall k | k in rest
      ensures k in a[1..]
    {
      var t :| 0 <= t < |a| && a[t] == k;
      assert a[1..][t - 1] == k;
    }
    forall i | 0 <= i < |a| - 1
      ensures a[1..][i] in rest
    {
      assert a[i + 1] != a[0];
    }
  }

  predicate DistinctStamps(stamps: map<string, int>)
  {
    forall x, y :: x in stamps && y in stamps && x != y ==> stamps[x] != stamps[y]
  }

  /** Two rankings of the same keys start with the same key when no two
      keys share a stamp. */
  lemma SameHead(stamps: map<string, int>, a: seq<string>, b: seq<string>)
    requires IsNewestFirst(stamps, a) && IsNewestFirst(stamps, b)
    requires DistinctStamps(stamps) && stamps != map[]
    ensures a != [] && b != [] && a[0] == b[0]
  {
    var k :| k in stamps;
    HeadIsNewest(stamps, a, k);
    HeadIsNewest(stamps, b, k);
    HeadIsNewest(stamps, a, b[0]);
    HeadIsNewest(stamps, b, a[0]);
  }

  /** Dropping a key keeps the remaining stamps distinct. */
  lemma DistinctAfterRemove(stamps: map<string, int>, k: string)
    requires DistinctStamps(stamps)
    ensures DistinctStamps(stamps - {k})
  {
  }

  /** One step of the uniqueness argument: both rankings start with the
      newest key and go on ranking the others. */
  lemma UniqueStep(stamps: map<string, int>, a: seq<string>, b: seq<string>)
    requires IsNewestFirst(stamps, a) && IsNewestFirst(stamps, b)
    requires DistinctStamps(stamps) && stamps != map[]
    ensures a != [] && b != [] && a[0] == b[0]
    ensures IsNewestFirst(stamps - {a[0]}, a[1..]) && IsNewestFirst(stamps - {a[0]}, b[1..])
    ensures DistinctStamps(stamps - {a[0]})
  {
    SameHead(stamps, a, b);
    TailRanks(stamps, a);
    TailRanks(stamps, b);
    DistinctAfterRemove(stamps, a[0]);
  }

  lemma SameHeadSameTail(a: seq<string>, b: seq<string>)
    requires a != [] && b != [] && a[0] == b[0] && a[1..] == b[1..]
    ensures a == b
  {
    assert a == [a[0]] + a[1..];
    assert b == [b[0]] + b[1..];
  }

  /** A ranking lists exactly as many keys as there are rows. */
  lemma {:induction false} RankingLength(stamps: map<string, int>, a: seq<string>)
    requires IsNewestFirst(stamps, a)
    ensures |a| == |stamps|
    decreases |a|
  {
    if a == [] {
      assert stamps.Keys == {};
    } else {
      TailRanks(stamps, a);
      RankingLength(stamps - {a[0]}, a[1..]);
      assert (stamps - {a[0]}).Keys == stamps.Keys - {a[0]};
    }
  }

  /** With distinct stamps there is only one ranking. */
  lemma {:induction false} RankingUnique(stamps: map<string, int>, a: seq<string>, b: seq<string>)
    requires IsNewestFirst(stamps, a) && IsNewestFirst(stamps, b)
    requires DistinctStamps(stamps)
    ensures a == b
    decreases |a|
  {
    if stamps != map[] {
      UniqueStep(stamps, a, b);
      RankingUnique(stamps - {a[0]}, a[1..], b[1..]);
      SameHeadSameTail(a, b);
    } else {
      RankingLength(stamps, a);
      RankingLength(stamps, b);
    }
  }
}
