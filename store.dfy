/**
 * The backing key-value store the cache talks to, as an abstract state.
 * Buckets hold single values, scored sorted sets hold entries ordered by
 * ascending score, and hashes hold string-keyed maps. Each key space is kept
 * apart; Redis's shared key space and its type errors are outside this model.
 */
module Store {
  import opened CacheTypes

  datatype Bucket = Bucket(value: Value, ttlMs: Option<int>)

  datatype Store = Store(
    buckets: map<string, Bucket>,
    sortedSets: map<string, seq<ScoredEntry>>,
    hashes: map<string, map<string, Value>>)

  /** What the store answers to a write: applied with a boolean result, or an error reply. */
  datatype Reply = Ack(result: bool) | ErrorReply(message: string)

  /** A store state after a write, with the store's answer. */
  datatype Applied = Applied(store: Store, reply: Reply)

  const EmptyStore: Store := Store(map[], map[], map[])

  /** The error Redis gives for a ttl that is not positive. */
  const InvalidExpireTime: string := "ERR invalid expire time"

  // ---- buckets ----

  function Get(s: Store, k: string): (r: Option<Value>)
    ensures r.Some? <==> k in s.buckets
  {
    if k in s.buckets then Some(s.buckets[k].value) else None
  }

  /** SET without expiry: the value replaces any previous one and any previous ttl. */
  function Set(s: Store, k: string, v: Value): (r: Store)
    ensures Get(r, k) == Some(v)
    ensures forall k' :: k' != k ==> Get(r, k') == Get(s, k')
    ensures r.sortedSets == s.sortedSets && r.hashes == s.hashes
  {
    s.(buckets := s.buckets[k := Bucket(v, None)])
  }

  /** SET with a ttl in milliseconds; the store refuses a ttl that is not positive. */
  function SetWithTtl(s: Store, k: string, v: Value, ttlMs: int): (r: Applied)
    ensures r.reply.Ack? <==> ttlMs > 0
    ensures r.reply.Ack? ==> Get(r.store, k) == Some(v) && r.store.buckets[k].ttlMs == Some(ttlMs)
    ensures forall k' :: k' != k ==> Get(r.store, k') == Get(s, k')
    ensures r.store.sortedSets == s.sortedSets && r.store.hashes == s.hashes
    ensures r.reply.ErrorReply? ==> r.store == s
  {
    if ttlMs <= 0 then Applied(s, ErrorReply(InvalidExpireTime))
    else Applied(s.(buckets := s.buckets[k := Bucket(v, Some(ttlMs))]), Ack(true))
  }

  /** Compare-and-set: the new value is written exactly when the current one equals `expected`. */
  function CompareAndSet(s: Store, k: string, expected: Value, v: Value): (r: Applied)
    ensures r.reply.Ack?
    ensures r.reply.result <==> Get(s, k) == Some(expected)
    ensures r.reply.result ==> Get(r.store, k) == Some(v)
    ensures forall k' :: k' != k ==> Get(r.store, k') == Get(s, k')
    ensures r.store.sortedSets == s.sortedSets && r.store.hashes == s.hashes
    ensures !r.reply.result ==> r.store == s
  {
    if Get(s, k) == Some(expected) then Applied(Set(s, k, v), Ack(true)) else Applied(s, Ack(false))
  }

  /** DEL on a bucket: true when something was removed. */
  function DeleteBucket(s: Store, k: string): (r: Applied)
    ensures r.reply == Ack(k in s.buckets)
    ensures Get(r.store, k) == None
    ensures forall k' :: k' != k ==> Get(r.store, k') == Get(s, k')
    ensures r.store.sortedSets == s.sortedSets && r.store.hashes == s.hashes
  {
    Applied(s.(buckets := s.buckets - {k}), Ack(k in s.buckets))
  }

  // ---- scored sorted sets ----

  function Members(entries: seq<ScoredEntry>): set<Value> {
    set e | e in entries :: e.value
  }

  lemma MembersCons(e: ScoredEntry, rest: seq<ScoredEntry>)
    ensures Members([e] + rest) == {e.value} + Members(rest)
  {
    var all := [e] + rest;
    forall x | x in Members(all) ensures x in {e.value} + Members(rest) {
      var e' :| e' in all && e'.value == x;
    }
    assert e in all;
    forall x | x in Members(rest) ensures x in Members(all) {
      var e' :| e' in rest && e'.value == x;
      assert e' in all;
    }
  }

  /** Entries in ascending score order. */
  predicate SortedByScore(entries: seq<ScoredEntry>) {
    forall i, j :: 0 <= i < j < |entries| ==> entries[i].score <= entries[j].score
  }

  /** The entries without the member `v`. */
  function RemoveMember(entries: seq<ScoredEntry>, v: Value): (r: seq<ScoredEntry>)
    ensures Members(r) == Members(entries) - {v}
    ensures forall e :: e in r ==> e in entries
  {
    if |entries| == 0 then []
    else
      var rest := RemoveMember(entries[1..], v);
      MembersCons(entries[0], entries[1..]);
      assert entries == [entries[0]] + entries[1..];
      if entries[0].value == v then rest
      else
        MembersCons(entries[0], rest);
        [entries[0]] + rest
  }

  /** Inserts `e` after every entry whose score is not greater than its own. */
  function InsertByScore(entries: seq<ScoredEntry>, e: ScoredEntry): (r: seq<ScoredEntry>)
    ensures multiset(r) == multiset(entries) + multiset{e}
  {
    if |entries| == 0 then [e]
    else if entries[0].score <= e.score then
      assert entries == [entries[0]] + entries[1..];
      [entries[0]] + InsertByScore(entries[1..], e)
    else [e] + entries
  }

  /** A sequence with a head is sorted exactly when its tail is and no tail entry scores below the head. */
  lemma SortedCons(x: ScoredEntry, rest: seq<ScoredEntry>)
    ensures SortedByScore([x] + rest) <==> SortedByScore(rest) && forall e :: e in rest ==> x.score <= e.score
  {
    var all := [x] + rest;
    if SortedByScore(rest) && forall e :: e in rest ==> x.score <= e.score {
      forall i, j | 0 <= i < j < |all| ensures all[i].score <= all[j].score {
        assert all[j] == rest[j - 1];
        if i > 0 {
          assert all[i] == rest[i - 1];
        }
      }
    }
    if SortedByScore(all) {
      forall i, j | 0 <= i < j < |rest| ensures rest[i].score <= rest[j].score {
        assert rest[i] == all[i + 1] && rest[j] == all[j + 1];
      }
      forall e | e in rest ensures x.score <= e.score {
        var j :| 0 <= j < |rest| && rest[j] == e;
        assert all[0] == x && all[j + 1] == e;
      }
    }
  }

  /** Removing a member keeps every entry of another member, and keeps a sorted sequence sorted. */
  lemma {:induction false} RemoveKeepsOthers(entries: seq<ScoredEntry>, v: Value)
    ensures forall e :: e in entries && e.value != v ==> e in RemoveMember(entries, v)
    ensures SortedByScore(entries) ==> SortedByScore(RemoveMember(entries, v))
    decreases |entries|
  {
    if |entries| > 0 {
      var rest := entries[1..];
      assert entries == [entries[0]] + rest;
      RemoveKeepsOthers(rest, v);
      SortedCons(entries[0], rest);
      if entries[0].value != v {
        SortedCons(entries[0], RemoveMember(rest, v));
      }
    }
  }

  /** Inserting by score keeps a sorted sequence sorted. */
  lemma {:induction false} InsertKeepsSorted(entries: seq<ScoredEntry>, e: ScoredEntry)
    ensures SortedByScore(entries) ==> SortedByScore(InsertByScore(entries, e))
    decreases |entries|
  {
    if |entries| > 0 && SortedByScore(entries) {
      var rest := entries[1..];
      assert entries == [entries[0]] + rest;
      SortedCons(entries[0], rest);
      if entries[0].score <= e.score {
        InsertKeepsSorted(rest, e);
        var tail := InsertByScore(rest, e);
        forall x | x in tail ensures entries[0].score <= x.score {
          assert x in multiset(tail);
          if x != e {
            assert x in multiset(rest);
          }
        }
        SortedCons(entries[0], tail);
      } else {
        SortedCons(e, entries);
      }
    }
  }

  /**
   * ZADD of one member: true when the member was new; an existing member
   * only moves to its new score.
   */
  function ZAdd(s: Store, k: string, score: int, v: Value): (r: Applied)
    ensures r.reply.Ack?
    ensures r.reply.result <==> (k !in s.sortedSets || v !in Members(s.sortedSets[k]))
    ensures k in r.store.sortedSets && ScoredEntry(score, v) in r.store.sortedSets[k]
    ensures multiset(r.store.sortedSets[k]) == multiset(RemoveMember(SortedSet(s, k), v)) + multiset{ScoredEntry(score, v)}
    ensures forall k' :: k' != k ==> SortedSet(r.store, k') == SortedSet(s, k')
    ensures SortedByScore(SortedSet(s, k)) ==> SortedByScore(SortedSet(r.store, k))
    ensures r.store.buckets == s.buckets && r.store.hashes == s.hashes
  {
    var old_entries := SortedSet(s, k);
    var entries := InsertByScore(RemoveMember(old_entries, v), ScoredEntry(score, v));
    RemoveKeepsOthers(old_entries, v);
    InsertKeepsSorted(RemoveMember(old_entries, v), ScoredEntry(score, v));
    assert ScoredEntry(score, v) in multiset(entries);
    Applied(s.(sortedSets := s.sortedSets[k := entries]), Ack(v !in Members(old_entries)))
  }

  function Reverse(entries: seq<ScoredEntry>): (r: seq<ScoredEntry>)
    ensures |r| == |entries|
    ensures forall i :: 0 <= i < |r| ==> r[i] == entries[|entries| - 1 - i]
  {
    if |entries| == 0 then [] else Reverse(entries[1..]) + [entries[0]]
  }

  /**
   * The entries at ranks `start`..`stop` inclusive, Redis style: a negative rank
   * counts from the end, a start below 0 is raised to 0, a stop past the end is
   * cut to the last rank, and an empty range gives an empty result.
   */
  function RangeByRank(entries: seq<ScoredEntry>, start: int, stop: int): (r: seq<ScoredEntry>)
    ensures |r| <= |entries|
    ensures forall e :: e in r ==> e in entries
  {
    var n := |entries|;
    var lo := if start < 0 then start + n else start;
    var hi := if stop < 0 then stop + n else stop;
    var lo' := if lo < 0 then 0 else lo;
    if lo' > hi || lo' >= n then []
    else entries[lo'..if hi >= n then n else hi + 1]
  }

  function SortedSet(s: Store, k: string): seq<ScoredEntry> {
    if k in s.sortedSets then s.sortedSets[k] else []
  }

  /** ZRANGE ... WITHSCORES: ranks counted in ascending score order. */
  function EntryRange(s: Store, k: string, start: int, stop: int): seq<ScoredEntry> {
    RangeByRank(SortedSet(s, k), start, stop)
  }

  /** ZREVRANGE ... WITHSCORES: ranks counted in descending score order. */
  function EntryRangeReversed(s: Store, k: string, start: int, stop: int): seq<ScoredEntry> {
    RangeByRank(Reverse(SortedSet(s, k)), start, stop)
  }

  // ---- hashes ----

  function Hash(s: Store, k: string): map<string, Value> {
    if k in s.hashes then s.hashes[k] else map[]
  }

  /** HSET of several fields: the new fields win over existing ones. */
  function HashPutAll(s: Store, k: string, m: map<string, Value>): (r: Store)
    ensures Hash(r, k).Keys == Hash(s, k).Keys + m.Keys
    ensures forall f :: f in m ==> Hash(r, k)[f] == m[f]
    ensures forall f :: f in Hash(s, k) && f !in m ==> Hash(r, k)[f] == Hash(s, k)[f]
    ensures forall k' :: k' != k ==> Hash(r, k') == Hash(s, k')
    ensures r.buckets == s.buckets && r.sortedSets == s.sortedSets
  {
    s.(hashes := s.hashes[k := Hash(s, k) + m])
  }

  /** HMGET: the requested fields that exist. */
  function HashGetAll(s: Store, k: string, fields: set<string>): (r: map<string, Value>)
    ensures r.Keys == Hash(s, k).Keys * fields
    ensures forall f :: f in r ==> r[f] == Hash(s, k)[f]
  {
    map f | f in Hash(s, k) && f in fields :: Hash(s, k)[f]
  }

  /** HDEL of several fields; a hash left empty disappears. */
  function HashRemoveFields(s: Store, k: string, fields: set<string>): (r: Store)
    ensures Hash(r, k).Keys == Hash(s, k).Keys - fields
    ensures forall f :: f in Hash(r, k) ==> Hash(r, k)[f] == Hash(s, k)[f]
    ensures forall k' :: k' != k ==> Hash(r, k') == Hash(s, k')
    ensures r.buckets == s.buckets && r.sortedSets == s.sortedSets
  {
    var rest := Hash(s, k) - fields;
    if rest == map[] then s.(hashes := s.hashes - {k}) else s.(hashes := s.hashes[k := rest])
  }

  /** DEL on a hash key. */
  function HashDelete(s: Store, k: string): (r: Store)
    ensures Hash(r, k) == map[]
    ensures forall k' :: k' != k ==> Hash(r, k') == Hash(s, k')
    ensures r.buckets == s.buckets && r.sortedSets == s.sortedSets
  {
    s.(hashes := s.hashes - {k})
  }
}
