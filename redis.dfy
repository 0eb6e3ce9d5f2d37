/**
 * The part of the key-value store the backend uses: one hash per player
 * name, and the single sorted set "leaderboard" of (member, score) pairs.
 * StoreState is the store as a value; the pure After* functions say what
 * each write command does to it, and class Store holds the state and runs
 * the commands in place.
 */
module Redis {

  /** One sorted-set member with its score, as a range query returns it. */
  datatype Z = Z(member: string, score: int)

  datatype StoreState = StoreState(hashes: map<string, map<string, string>>, sortedSet: map<string, int>)

  const Empty := StoreState(map[], map[])

  /** HGETALL: the fields of the hash at key, the empty map when there is none. */
  function HashOf(hashes: map<string, map<string, string>>, key: string): map<string, string>
  {
    if key in hashes then hashes[key] else map[]
  }

  /** HMSET: sets the given fields of the hash at key, keeping its other fields. */
  function AfterHMSet(s: StoreState, key: string, fields: map<string, string>): (r: StoreState)
    ensures r.sortedSet == s.sortedSet
    ensures r.hashes.Keys == s.hashes.Keys + {key}
    ensures forall k :: k != key ==> HashOf(r.hashes, k) == HashOf(s.hashes, k)
    ensures r.hashes[key].Keys == HashOf(s.hashes, key).Keys + fields.Keys
    ensures forall f :: f in fields ==> r.hashes[key][f] == fields[f]
    ensures forall f :: f in HashOf(s.hashes, key) && f !in fields ==> r.hashes[key][f] == HashOf(s.hashes, key)[f]
  {
    s.(hashes := s.hashes[key := HashOf(s.hashes, key) + fields])
  }

  /** ZADD: adds member with score, or overwrites the score it had. */
  function AfterZAdd(s: StoreState, member: string, score: int): (r: StoreState)
    ensures r.hashes == s.hashes
    ensures r.sortedSet.Keys == s.sortedSet.Keys + {member} && r.sortedSet[member] == score
    ensures forall m :: m in s.sortedSet && m != member ==> r.sortedSet[m] == s.sortedSet[m]
  {
    s.(sortedSet := s.sortedSet[member := score])
  }

  /** ZREM: removes member; nothing happens when it is absent. */
  function AfterZRem(s: StoreState, member: string): (r: StoreState)
    ensures r.hashes == s.hashes
    ensures r.sortedSet.Keys == s.sortedSet.Keys - {member}
    ensures forall m :: m in r.sortedSet ==> r.sortedSet[m] == s.sortedSet[m]
  {
    s.(sortedSet := s.sortedSet - {member})
  }

  function Members(zs: seq<Z>): set<string>
  {
    set i | 0 <= i < |zs| :: zs[i].member
  }

  /**
   * zs is what ZREVRANGE 0 -1 WITHSCORES returns for the sorted set s: every
   * member of s exactly once, with its score, highest score first. Members
   * with equal scores may come in any order.
   */
  ghost predicate IsRevRange(zs: seq<Z>, s: map<string, int>)
  {
    && (forall i :: 0 <= i < |zs| ==> zs[i].member in s && s[zs[i].member] == zs[i].score)
    && (forall i, j :: 0 <= i < j < |zs| ==> zs[i].member != zs[j].member)
    && (forall i, j :: 0 <= i < j < |zs| ==> zs[i].score >= zs[j].score)
    && s.Keys <= Members(zs)
  }

  lemma {:induction false} DistinctMembersCount(zs: seq<Z>)
    requires forall i, j :: 0 <= i < j < |zs| ==> zs[i].member != zs[j].member
    ensures |Members(zs)| == |zs|
  {
    if zs != [] {
      var last := |zs| - 1;
      var init := zs[..last];
      DistinctMembersCount(init);
      assert Members(zs) == Members(init) + {zs[last].member};
      assert zs[last].member !in Members(init);
    }
  }

  /** A range over the whole set has exactly as many entries as the set has members. */
  lemma RevRangeLength(zs: seq<Z>, s: map<string, int>)
    requires IsRevRange(zs, s)
    ensures |zs| == |s|
  {
    DistinctMembersCount(zs);
    assert Members(zs) == s.Keys;
  }

  /**
   * The state of a descending range scan of s part way through: zs has been
   * emitted in order, rest holds the members not yet emitted, and nothing in
   * rest outranks what has been emitted.
   */
  ghost predicate ScanState(zs: seq<Z>, rest: map<string, int>, s: map<string, int>)
  {
    && rest.Keys <= s.Keys
    && (forall k :: k in rest ==> rest[k] == s[k])
    && s.Keys <= Members(zs) + rest.Keys
    && (forall i :: 0 <= i < |zs| ==> zs[i].member !in rest)
    && (forall i :: 0 <= i < |zs| ==> zs[i].member in s && s[zs[i].member] == zs[i].score)
    && (forall i, j :: 0 <= i < j < |zs| ==> zs[i].member != zs[j].member)
    && (forall i, j :: 0 <= i < j < |zs| ==> zs[i].score >= zs[j].score)
    && (forall i, k :: 0 <= i < |zs| && k in rest ==> zs[i].score >= rest[k])
  }

  /** Emitting a top-scoring remaining member keeps the scan consistent. */
  lemma ScanStep(zs: seq<Z>, rest: map<string, int>, s: map<string, int>, m: string)
    requires ScanState(zs, rest, s) && IsTop(rest, m)
    ensures ScanState(zs + [Z(m, rest[m])], rest - {m}, s)
  {
    var zs' := zs + [Z(m, rest[m])];
    var rest' := rest - {m};
    assert rest'.Keys == rest.Keys - {m};
    assert Members(zs') == Members(zs) + {m} by {
      forall x | x in Members(zs') ensures x in Members(zs) + {m} {
        var i :| 0 <= i < |zs'| && zs'[i].member == x;
        if i < |zs| { assert zs[i].member == x; }
      }
      forall x | x in Members(zs) ensures x in Members(zs') {
        var i :| 0 <= i < |zs| && zs[i].member == x;
        assert zs'[i].member == x;
      }
      assert zs'[|zs|].member == m;
    }
  }

  lemma ScanDone(zs: seq<Z>, s: map<string, int>)
    requires ScanState(zs, map[], s)
    ensures IsRevRange(zs, s)
  {
  }

  predicate IsTop(s: map<string, int>, m: string)
  {
    m in s && forall k :: k in s ==> s[k] <= s[m]
  }

  lemma {:induction false} TopExists(s: map<string, int>)
    requires s != map[]
    ensures exists m :: IsTop(s, m)
    decreases |s.Keys|
  {
    var k :| k in s;
    var rest := s - {k};
    assert rest.Keys == s.Keys - {k};
    assert forall x :: x in s ==> x == k || (x in rest && rest[x] == s[x]);
    if rest == map[] {
      assert IsTop(s, k);
    } else {
      TopExists(rest);
      var m :| IsTop(rest, m);
      if s[k] <= s[m] {
        assert IsTop(s, m);
      } else {
        assert IsTop(s, k);
      }
    }
  }

  class Store {
    var hashes: map<string, map<string, string>>
    var sortedSet: map<string, int>

    function Current(): StoreState
      reads this
    {
      StoreState(hashes, sortedSet)
    }

    constructor ()
      ensures Current() == Empty
    {
      hashes, sortedSet := map[], map[];
    }

    /** EXISTS key: 1 when the key holds a hash, 0 otherwise. */
    method Exists(key: string) returns (n: nat)
      ensures n == 1 <==> key in hashes
      ensures n == 0 <==> key !in hashes
    {
      n := if key in hashes then 1 else 0;
    }

    method HGetAll(key: string) returns (fields: map<string, string>)
      ensures key in hashes ==> fields == hashes[key]
      ensures key !in hashes ==> fields == map[]
    {
      fields := HashOf(hashes, key);
    }

    method HMSet(key: string, fields: map<string, string>)
      modifies this
      ensures Current() == AfterHMSet(old(Current()), key, fields)
    {
      hashes := hashes[key := HashOf(hashes, key) + fields];
    }

    method ZAdd(member: string, score: int)
      modifies this
      ensures Current() == AfterZAdd(old(Current()), member, score)
    {
      sortedSet := sortedSet[member := score];
    }

    method ZRem(member: string)
      modifies this
      ensures Current() == AfterZRem(old(Current()), member)
    {
      sortedSet := sortedSet - {member};
    }

    /**
     * ZREVRANGE leaderboard 0 -1 WITHSCORES: repeatedly takes a member with
     * the highest remaining score. Which of several tied members comes first
     * is the store's choice and is left open.
     */
    method ZRevRangeWithScores() returns (zs: seq<Z>)
      ensures IsRevRange(zs, sortedSet)
    {
      var rest := sortedSet;
      zs := [];
      while rest != map[]
        invariant ScanState(zs, rest, sortedSet)
        decreases |rest.Keys|
      {
        TopExists(rest);
        var m :| IsTop(rest, m);
        ScanStep(zs, rest, sortedSet, m);
        zs := zs + [Z(m, rest[m])];
        ghost var before := rest;
        rest := rest - {m};
        assert rest.Keys == before.Keys - {m};
      }
      ScanDone(zs, sortedSet);
    }
  }
}
