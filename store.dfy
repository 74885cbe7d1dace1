/**
 * The Redis instance the core talks to, reduced to the commands it issues:
 * INCR, EXPIRE and TTL on integer counters, HSET and HGETALL on field
 * records, ZADD and ZRANGE on sorted sets. Time is an explicit clock in
 * seconds; letting time pass deletes every counter whose expiry has come.
 * The three kinds of key live in separate maps: the core's key prefixes
 * (`rate_limit:`, `submission:`, `user:`) never overlap, so no key is ever
 * used with two types.
 */
module Store {
  import opened Wrappers
  import SortedSet

  /** The field record kept under `submission:{id}`, typed; the sentiment is already parsed. */
  datatype Submission = Submission(
    platform: string,
    content: string,
    timestamp: string,
    hashtags: string,
    sentiment: real)

  /** Everything the core keeps in Redis, at clock time `now` (seconds). */
  datatype StoreState = StoreState(
    counts: map<string, int>,
    expiry: map<string, int>,
    now: int,
    hashes: map<string, Submission>,
    zsets: map<string, seq<SortedSet.Entry>>)

  /**
   * The shape every reachable store has: only counters carry an expiry, each
   * expiry lies in the future, counters are positive and sorted sets are sorted.
   */
  predicate WellFormed(s: StoreState) {
    && s.expiry.Keys <= s.counts.Keys
    && (forall k :: k in s.expiry ==> s.now < s.expiry[k])
    && (forall k :: k in s.counts ==> s.counts[k] >= 1)
    && (forall k :: k in s.zsets ==> SortedSet.IsSortedSet(s.zsets[k]))
  }

  /** The value INCR reads: a missing key counts as 0. */
  function CountOf(s: StoreState, key: string): int {
    if key in s.counts then s.counts[key] else 0
  }

  /** `INCR key`: the counter goes up by one (from 0 when the key is missing); its TTL is kept. */
  function Incremented(s: StoreState, key: string): (t: StoreState)
    ensures CountOf(t, key) == CountOf(s, key) + 1
    ensures t.counts == s.counts[key := CountOf(s, key) + 1]
    ensures t.expiry == s.expiry && t.now == s.now && t.hashes == s.hashes && t.zsets == s.zsets
  {
    s.(counts := s.counts[key := CountOf(s, key) + 1])
  }

  /** INCR keeps the store well formed: the new count is at least 1. */
  lemma IncrementedWellFormed(s: StoreState, key: string)
    requires WellFormed(s)
    ensures WellFormed(Incremented(s, key))
  {
  }

  /** `EXPIRE key seconds` with a positive `seconds`: a TTL on an existing key; a missing key is left alone. */
  function WithExpiry(s: StoreState, key: string, seconds: int): (t: StoreState)
    requires seconds > 0
    ensures key in s.counts ==> t.expiry == s.expiry[key := s.now + seconds]
    ensures key !in s.counts ==> t.expiry == s.expiry
    ensures t.counts == s.counts && t.now == s.now && t.hashes == s.hashes && t.zsets == s.zsets
  {
    if key in s.counts then s.(expiry := s.expiry[key := s.now + seconds]) else s
  }

  /** EXPIRE keeps the store well formed: the TTL lies ahead and only an existing key gets one. */
  lemma WithExpiryWellFormed(s: StoreState, key: string, seconds: int)
    requires WellFormed(s)
    requires seconds > 0
    ensures WellFormed(WithExpiry(s, key, seconds))
  {
  }

  /**
   * `TTL key`: the seconds left before the key expires; 0 when the key is
   * missing or carries no TTL (Redis answers -2 and -1 there).
   */
  function RemainingTtl(s: StoreState, key: string): (ttl: int)
    ensures WellFormed(s) ==> ttl >= 0
    ensures WellFormed(s) && key in s.expiry ==> ttl > 0
  {
    if key in s.counts && key in s.expiry then s.expiry[key] - s.now else 0
  }

  /** Whether a counter has expired by time `at`. */
  predicate ExpiredAt(s: StoreState, key: string, at: int) {
    key in s.expiry && s.expiry[key] <= at
  }

  /** `dt` seconds pass: every counter whose expiry has come is deleted, with its TTL. */
  function Advanced(s: StoreState, dt: nat): (t: StoreState)
    ensures t.now == s.now + dt
    ensures t.hashes == s.hashes && t.zsets == s.zsets
  {
    var at := s.now + dt;
    StoreState(
      map k | k in s.counts && !ExpiredAt(s, k, at) :: s.counts[k],
      map k | k in s.expiry && k in s.counts && !ExpiredAt(s, k, at) :: s.expiry[k],
      at,
      s.hashes,
      s.zsets)
  }

  /**
   * After `dt` seconds exactly the counters whose expiry has not come are
   * left, each with its count and its TTL.
   */
  lemma AdvancedSurvivors(s: StoreState, dt: nat)
    ensures var t := Advanced(s, dt);
      && (forall k :: k in t.counts <==> k in s.counts && !ExpiredAt(s, k, s.now + dt))
      && (forall k :: k in t.counts ==> t.counts[k] == s.counts[k])
      && (forall k :: k in t.expiry <==> k in s.expiry && k in t.counts)
      && (forall k :: k in t.expiry ==> t.expiry[k] == s.expiry[k])
  {
  }

  /** Expiring keys keeps the store well formed: every TTL left lies after the new time. */
  lemma AdvancedWellFormed(s: StoreState, dt: nat)
    requires WellFormed(s)
    ensures WellFormed(Advanced(s, dt))
  {
  }

  /** `HGETALL key` as a typed record; `None` stands for the empty reply of a missing key. */
  function RecordAt(s: StoreState, key: string): Option<Submission> {
    if key in s.hashes then Some(s.hashes[key]) else None
  }

  /** `HSET key` with all five fields: the record under `key` becomes `rec`. */
  function WithRecord(s: StoreState, key: string, rec: Submission): (t: StoreState)
    ensures RecordAt(t, key) == Some(rec)
    ensures forall k :: k != key ==> RecordAt(t, k) == RecordAt(s, k)
    ensures t.counts == s.counts && t.expiry == s.expiry && t.now == s.now && t.zsets == s.zsets
  {
    s.(hashes := s.hashes[key := rec])
  }

  /** HSET keeps the store well formed: it touches neither counters nor sorted sets. */
  lemma WithRecordWellFormed(s: StoreState, key: string, rec: Submission)
    requires WellFormed(s)
    ensures WellFormed(WithRecord(s, key, rec))
  {
  }

  /** The sorted set under `key`; a missing key reads as the empty set. */
  function SetAt(s: StoreState, key: string): seq<SortedSet.Entry> {
    if key in s.zsets then s.zsets[key] else []
  }

  /** `ZADD key score member`. */
  function WithMember(s: StoreState, key: string, member: string, score: real): (t: StoreState)
    ensures SetAt(t, key) == SortedSet.Add(SetAt(s, key), member, score)
    ensures forall k :: k != key ==> SetAt(t, k) == SetAt(s, k)
    ensures t.counts == s.counts && t.expiry == s.expiry && t.now == s.now && t.hashes == s.hashes
  {
    s.(zsets := s.zsets[key := SortedSet.Add(SetAt(s, key), member, score)])
  }

  /** ZADD keeps every sorted set sorted and the store well formed. */
  lemma WithMemberWellFormed(s: StoreState, key: string, member: string, score: real)
    requires WellFormed(s)
    ensures WellFormed(WithMember(s, key, member, score))
  {
    SortedSet.AddSpec(SetAt(s, key), member, score);
  }

  /** The Redis connection: its keyspace and its clock, changed in place by each command. */
  class Redis {
    var counts: map<string, int>
    var expiry: map<string, int>
    var now: int
    var hashes: map<string, Submission>
    var zsets: map<string, seq<SortedSet.Entry>>

    /** The contents of the store as a value. */
    function State(): StoreState
      reads this
    {
      StoreState(counts, expiry, now, hashes, zsets)
    }

    predicate Valid()
      reads this
    {
      WellFormed(State())
    }

    /** An empty store whose clock reads `start`. */
    constructor (start: int)
      ensures Valid()
      ensures State() == StoreState(map[], map[], start, map[], map[])
    {
      counts, expiry, now := map[], map[], start;
      hashes, zsets := map[], map[];
    }

    method Incr(key: string) returns (value: int)
      requires Valid()
      modifies this
      ensures Valid()
      ensures value == CountOf(old(State()), key) + 1
      ensures State() == Incremented(old(State()), key)
    {
      value := if key in counts then counts[key] + 1 else 1;
      counts := counts[key := value];
      IncrementedWellFormed(old(State()), key);
    }

    method Expire(key: string, seconds: int) returns (applied: bool)
      requires Valid()
      requires seconds > 0
      modifies this
      ensures Valid()
      ensures applied <==> key in old(counts)
      ensures State() == WithExpiry(old(State()), key, seconds)
    {
      applied := key in counts;
      if applied {
        expiry := expiry[key := now + seconds];
      }
      WithExpiryWellFormed(old(State()), key, seconds);
    }

    method Ttl(key: string) returns (ttl: int)
      ensures ttl == RemainingTtl(State(), key)
    {
      ttl := if key in counts && key in expiry then expiry[key] - now else 0;
    }

    /** The clock moves on by `dt` seconds and expired counters disappear. */
    method Tick(dt: nat)
      requires Valid()
      modifies this
      ensures Valid()
      ensures State() == Advanced(old(State()), dt)
    {
      var after := Advanced(State(), dt);
      AdvancedWellFormed(State(), dt);
      counts, expiry, now := after.counts, after.expiry, after.now;
    }

    method HSet(key: string, rec: Submission)
      requires Valid()
      modifies this
      ensures Valid()
      ensures State() == WithRecord(old(State()), key, rec)
    {
      hashes := hashes[key := rec];
      WithRecordWellFormed(old(State()), key, rec);
    }

    method HGetAll(key: string) returns (rec: Option<Submission>)
      ensures rec == RecordAt(State(), key)
    {
      rec := if key in hashes then Some(hashes[key]) else None;
    }

    method ZAdd(key: string, member: string, score: real)
      requires Valid()
      modifies this
      ensures Valid()
      ensures State() == WithMember(old(State()), key, member, score)
    {
      var current := if key in zsets then zsets[key] else [];
      zsets := zsets[key := SortedSet.Add(current, member, score)];
      WithMemberWellFormed(old(State()), key, member, score);
      assert State() == WithMember(old(State()), key, member, score);
    }

    method ZRange(key: string) returns (members: seq<string>)
      ensures members == SortedSet.Members(SetAt(State(), key))
    {
      members := SortedSet.Members(if key in zsets then zsets[key] else []);
    }
  }
}
