/** The two-tier memory manager: a capacity-bounded short-term map whose
    entries may carry a time-to-live, and an unbounded long-term map that is
    rewritten to a file on every write. Times are integer nanoseconds and
    clock readings are parameters; a scan that reads the clock once per
    entry takes one reading `now` for the whole scan. */
module TwoTierMemory {
  import opened Common
  import opened Text
  import MapScan

  datatype Entry = Entry(key: string, value: Value, timestamp: int, ttl: Option<int>)

  datatype MemoryConfig = MemoryConfig(shortTermCapacity: int, longTermFile: string, cleanupInterval: int)

  const Minute: int := 60_000_000_000

  /** The configuration used when none is given. */
  const DefaultConfig: MemoryConfig := MemoryConfig(1000, "memory/long_term.json", 5 * Minute)

  /** What reading the long-term file at construction produced. */
  datatype StoredState = NoFile | EmptyFile | Unreadable(reason: string) | Stored(entries: map<string, Entry>)

  datatype Stats = Stats(shortTermCount: int, shortTermCapacity: int, longTermCount: int)

  /** TTL is absolute from the stored timestamp; an entry without TTL never expires. */
  predicate Expired(e: Entry, now: int)
    ensures Expired(e, now) ==> e.ttl.Some?
  {
    e.ttl.Some? && now - e.timestamp > e.ttl.value
  }

  /** The entry a short-term write stores: a TTL only when `ttl > 0`. */
  function ShortTermEntry(key: string, value: Value, ttl: int, now: int): (e: Entry)
    ensures e.key == key && e.value == value && e.timestamp == now
    ensures e.ttl.Some? <==> ttl > 0
    ensures e.ttl.Some? ==> e.ttl.value == ttl
  {
    Entry(key, value, now, if ttl > 0 then Some(ttl) else None)
  }

  ghost function LiveKeys(m: map<string, Entry>, now: int): set<string>
  {
    set k | k in m && !Expired(m[k], now)
  }

  ghost function Unexpired(m: map<string, Entry>, now: int): map<string, Entry>
  {
    map k | k in m && !Expired(m[k], now) :: m[k]
  }

  // ---- eviction -----------------------------------------------------------

  /** `k` holds a timestamp strictly before `clock` that no other entry undercuts. */
  ghost predicate IsOldest(m: map<string, Entry>, k: string, clock: int)
  {
    k in m && m[k].timestamp < clock && forall j :: j in m ==> m[k].timestamp <= m[j].timestamp
  }

  ghost predicate NothingBefore(m: map<string, Entry>, clock: int)
  {
    forall j :: j in m ==> m[j].timestamp >= clock
  }

  /** One eviction scan: the oldest entry goes, unless no entry predates the
      scan's clock or the oldest one found has the empty key. */
  ghost predicate EvictionStep(before: map<string, Entry>, after: map<string, Entry>, clock: int)
  {
    || (exists k :: k != "" && IsOldest(before, k, clock) && after == before - {k})
    || (after == before && (NothingBefore(before, clock) || IsOldest(before, "", clock)))
  }

  /** An eviction scan either removes exactly one entry, leaving the rest as
      they were, or changes nothing because one of its two no-op cases held. */
  lemma EvictionOutcome(before: map<string, Entry>, after: map<string, Entry>, clock: int)
    requires EvictionStep(before, after, clock)
    ensures after == before ==> NothingBefore(before, clock) || IsOldest(before, "", clock)
    ensures after != before ==> |after| == |before| - 1 && after.Keys < before.Keys
    ensures forall k :: k in after ==> k in before && after[k] == before[k]
  {
    if exists k :: k != "" && IsOldest(before, k, clock) && after == before - {k} {
      var k :| k != "" && IsOldest(before, k, clock) && after == before - {k};
      assert after.Keys == before.Keys - {k};
      assert k !in after;
    }
  }

  /** A write into a store within capacity, followed by an eviction scan,
      leaves the store within capacity unless the scan was a no-op. */
  lemma StoreThenEvict(before: map<string, Entry>, key: string, e: Entry, after: map<string, Entry>, cap: int, clock: int)
    requires |before| <= cap
    requires EvictionStep(before[key := e], after, clock)
    ensures |after| <= cap
      || (after == before[key := e] && (NothingBefore(before[key := e], clock) || IsOldest(before[key := e], "", clock)))
  {
    var stored := before[key := e];
    EvictionOutcome(stored, after, clock);
    if after != stored {
      assert |stored.Keys| <= |before.Keys| + 1 by {
        assert stored.Keys == before.Keys + {key};
      }
      assert |after| == |stored| - 1;
    }
  }

  // ---- search ordering ----------------------------------------------------

  ghost predicate NewestFirst(s: seq<Entry>)
  {
    forall i, j :: 0 <= i < j < |s| ==> s[i].timestamp >= s[j].timestamp
  }

  function InsertByTime(x: Entry, s: seq<Entry>): (r: seq<Entry>)
    requires NewestFirst(s)
    ensures |r| == |s| + 1
    ensures r[0] == x || (s != [] && r[0] == s[0])
    ensures NewestFirst(r)
    ensures multiset(r) == multiset(s) + multiset{x}
  {
    if s == [] || x.timestamp >= s[0].timestamp then
      ConsNewestFirst(x, s);
      [x] + s
    else
      var rest := InsertByTime(x, s[1..]);
      assert s == [s[0]] + s[1..];
      ConsNewestFirst(s[0], rest);
      [s[0]] + rest
  }

  /** An entry no older than the head of a newest-first list can go in front. */
  lemma ConsNewestFirst(y: Entry, t: seq<Entry>)
    requires NewestFirst(t)
    requires t != [] ==> y.timestamp >= t[0].timestamp
    ensures NewestFirst([y] + t)
  {
    var r := [y] + t;
    forall i, j | 0 <= i < j < |r| ensures r[i].timestamp >= r[j].timestamp {
      if i == 0 {
        assert r[j] == t[j - 1];
      } else {
        assert r[i] == t[i - 1] && r[j] == t[j - 1];
      }
    }
  }

  /** Newest-first ordering of the collected hits (the library sort in the source). */
  function SortNewestFirst(s: seq<Entry>): (r: seq<Entry>)
    ensures NewestFirst(r)
    ensures multiset(r) == multiset(s)
    ensures |r| == |s|
  {
    if s == [] then []
    else
      assert s == [s[0]] + s[1..];
      InsertByTime(s[0], SortNewestFirst(s[1..]))
  }

  /** Key or rendered value contains the (already lower-cased) query. */
  function EntryMatchesQuery(e: Entry, query: string, render: Value -> string): (r: bool)
    ensures r <==> ((exists i :: OccursAt(ToLower(e.key), query, i))
                    || (exists i :: OccursAt(ToLower(render(e.value)), query, i)))
  {
    Contains(ToLower(e.key), query) || Contains(ToLower(render(e.value)), query)
  }

  /** The search filter for short-term entries: unexpired and matching. */
  function ShortKeep(now: int, q: string, render: Value -> string): Entry -> bool
  {
    e => !Expired(e, now) && EntryMatchesQuery(e, q, render)
  }

  /** The search filter for long-term entries: matching; no expiry applies. */
  function LongKeep(q: string, render: Value -> string): Entry -> bool
  {
    e => EntryMatchesQuery(e, q, render)
  }

  ghost function ShortHits(m: map<string, Entry>, query: string, now: int, render: Value -> string): set<string>
  {
    MapScan.KeysWhere(m, ShortKeep(now, ToLower(query), render))
  }

  ghost function LongHits(m: map<string, Entry>, query: string, render: Value -> string): set<string>
  {
    MapScan.KeysWhere(m, LongKeep(ToLower(query), render))
  }

  /** How often `e` is a search hit: once per matching unexpired short-term
      key holding it, plus once per matching long-term key when asked. */
  ghost function HitCount(shortTerm: map<string, Entry>, longTerm: map<string, Entry>, query: string,
                          searchLongTerm: bool, now: int, render: Value -> string, e: Entry): nat
  {
    MapScan.Count(shortTerm, ShortKeep(now, ToLower(query), render), e)
    + (if searchLongTerm then MapScan.Count(longTerm, LongKeep(ToLower(query), render), e) else 0)
  }

  /** A list holding each entry as often as it is a search hit holds
      exactly the matching entries. */
  lemma HitMembers(shortTerm: map<string, Entry>, longTerm: map<string, Entry>, query: string,
                   searchLongTerm: bool, now: int, render: Value -> string, r: seq<Entry>)
    requires forall e :: multiset(r)[e] == HitCount(shortTerm, longTerm, query, searchLongTerm, now, render, e)
    ensures forall e :: e in r <==>
      || (e in shortTerm.Values && !Expired(e, now) && EntryMatchesQuery(e, ToLower(query), render))
      || (searchLongTerm && e in longTerm.Values && EntryMatchesQuery(e, ToLower(query), render))
  {
    forall e ensures e in r <==>
      || (e in shortTerm.Values && !Expired(e, now) && EntryMatchesQuery(e, ToLower(query), render))
      || (searchLongTerm && e in longTerm.Values && EntryMatchesQuery(e, ToLower(query), render))
    {
      assert e in r <==> multiset(r)[e] > 0;
      MapScan.CountPositive(shortTerm, ShortKeep(now, ToLower(query), render), e);
      MapScan.CountPositive(longTerm, LongKeep(ToLower(query), render), e);
    }
  }

  /** The collected short-term hits followed by the collected long-term
      hits hold each entry as often as it is a search hit. */
  lemma CollectedHitCounts(shortTerm: map<string, Entry>, longTerm: map<string, Entry>, query: string,
                           searchLongTerm: bool, now: int, render: Value -> string,
                           shortVals: seq<Entry>, longVals: seq<Entry>)
    requires forall v :: multiset(shortVals)[v] == MapScan.Count(shortTerm, ShortKeep(now, ToLower(query), render), v)
    requires searchLongTerm ==> forall v :: multiset(longVals)[v] == MapScan.Count(longTerm, LongKeep(ToLower(query), render), v)
    requires !searchLongTerm ==> longVals == []
    ensures forall e :: multiset(shortVals + longVals)[e]
                          == HitCount(shortTerm, longTerm, query, searchLongTerm, now, render, e)
  {
    assert multiset(shortVals + longVals) == multiset(shortVals) + multiset(longVals);
  }

  /** Sorting keeps exactly the same entries. */
  lemma SortKeepsMembers(s: seq<Entry>)
    ensures forall e :: e in SortNewestFirst(s) <==> e in s
  {
    var r := SortNewestFirst(s);
    forall e ensures e in r <==> e in s {
      assert e in r <==> e in multiset(r);
      assert e in s <==> e in multiset(s);
    }
  }

  class MemoryManager {
    var shortTerm: map<string, Entry>
    var longTerm: map<string, Entry>
    const config: MemoryConfig

    /** Short-term entries sit under their own key and carry only positive TTLs. */
    ghost predicate Valid()
      reads this
    {
      forall k :: k in shortTerm ==>
        shortTerm[k].key == k && (shortTerm[k].ttl.Some? ==> shortTerm[k].ttl.value > 0)
    }

    /** `NewMemoryManager`: a missing configuration means the defaults; the
        long-term map starts as whatever the file held, and empty otherwise. */
    constructor (cfg: Option<MemoryConfig>, stored: StoredState)
      ensures Valid()
      ensures config == (if cfg.Some? then cfg.value else DefaultConfig)
      ensures shortTerm == map[]
      ensures longTerm == (if stored.Stored? then stored.entries else map[])
    {
      config := if cfg.Some? then cfg.value else DefaultConfig;
      shortTerm := map[];
      longTerm := if stored.Stored? then stored.entries else map[];
    }

    method SetShortTermMemory(key: string, value: Value, ttl: int, now: int, clock: int)
      requires Valid()
      modifies this`shortTerm
      ensures Valid()
      ensures var stored := old(shortTerm)[key := ShortTermEntry(key, value, ttl, now)];
        if |stored| > config.shortTermCapacity then EvictionStep(stored, shortTerm, clock)
        else shortTerm == stored
      ensures key in shortTerm ==> shortTerm[key] == ShortTermEntry(key, value, ttl, now)
      ensures |old(shortTerm)| <= config.shortTermCapacity ==>
        var stored := old(shortTerm)[key := ShortTermEntry(key, value, ttl, now)];
        |shortTerm| <= config.shortTermCapacity
        || (shortTerm == stored && (NothingBefore(stored, clock) || IsOldest(stored, "", clock)))
    {
      ghost var before := shortTerm;
      shortTerm := shortTerm[key := ShortTermEntry(key, value, ttl, now)];
      if |shortTerm| > config.shortTermCapacity {
        ghost var stored := shortTerm;
        EvictOldestShortTerm(clock);
        EvictionOutcome(stored, shortTerm, clock);
        if |before| <= config.shortTermCapacity {
          StoreThenEvict(before, key, stored[key], shortTerm, config.shortTermCapacity, clock);
        }
      }
    }

    /** Lazy expiry on read: an expired entry is deleted and reported absent. */
    method GetShortTermMemory(key: string, now: int) returns (r: Option<Value>)
      requires Valid()
      modifies this`shortTerm
      ensures Valid()
      ensures key !in old(shortTerm) ==> r == None && shortTerm == old(shortTerm)
      ensures key in old(shortTerm) && Expired(old(shortTerm)[key], now) ==>
        r == None && shortTerm == old(shortTerm) - {key}
      ensures key in old(shortTerm) && !Expired(old(shortTerm)[key], now) ==>
        r == Some(old(shortTerm)[key].value) && shortTerm == old(shortTerm)
    {
      if key !in shortTerm {
        return None;
      }
      var entry := shortTerm[key];
      if entry.ttl.Some? {
        if now - entry.timestamp > entry.ttl.value {
          shortTerm := shortTerm - {key};
          return None;
        }
      }
      return Some(entry.value);
    }

    /** Writes the entry in memory first, then reports the outcome of rewriting
        the file (`writeFailure`); a failed write leaves the map already updated. */
    method SetLongTermMemory(key: string, value: Value, now: int, writeFailure: Option<string>)
      returns (err: Option<string>)
      modifies this`longTerm
      ensures old(Valid()) ==> Valid()
      ensures longTerm == old(longTerm)[key := Entry(key, value, now, None)]
      ensures err == writeFailure
      ensures GetLongTermMemory(key) == Some(value)
    {
      longTerm := longTerm[key := Entry(key, value, now, None)];
      err := writeFailure;
    }

    /** Long-term reads take no clock: no expiry applies. */
    function GetLongTermMemory(key: string): (r: Option<Value>)
      reads this
      ensures r.Some? <==> key in longTerm
      ensures key in longTerm ==> r.value == longTerm[key].value
    {
      if key in longTerm then Some(longTerm[key].value) else None
    }

    /** Every unexpired short-term entry, each once, in map order. */
    method GetAllShortTermMemory(now: int) returns (r: seq<Entry>)
      requires Valid()
      ensures |r| == |LiveKeys(shortTerm, now)|
      ensures forall e :: e in r ==> e.key in shortTerm && shortTerm[e.key] == e && !Expired(e, now)
      ensures forall k :: k in shortTerm && !Expired(shortTerm[k], now) ==> shortTerm[k] in r
    {
      var keys;
      keys, r := MapScan.CollectWhere(shortTerm, e => !Expired(e, now));
      assert MapScan.KeysWhere(shortTerm, e => !Expired(e, now)) == LiveKeys(shortTerm, now);
      forall k | k in shortTerm && !Expired(shortTerm[k], now) ensures shortTerm[k] in r {
        var i :| 0 <= i < |keys| && keys[i] == k;
        assert r[i] == shortTerm[k];
      }
    }

    method GetAllLongTermMemory() returns (r: seq<Entry>)
      ensures |r| == |longTerm|
      ensures forall i :: 0 <= i < |r| ==> r[i] in longTerm.Values
      ensures forall k :: k in longTerm ==> longTerm[k] in r
      ensures forall e :: multiset(r)[e] == MapScan.Count(longTerm, e => true, e)
    {
      var keys;
      keys, r := MapScan.CollectWhere(longTerm, e => true);
      assert MapScan.KeysWhere(longTerm, e => true) == longTerm.Keys;
      forall k | k in longTerm ensures longTerm[k] in r {
        var i :| 0 <= i < |keys| && keys[i] == k;
        assert r[i] == longTerm[k];
      }
    }

    /** The min-tracking scan: starting from the clock, keep the first entry
        strictly older than the best so far; then delete it unless its key is "". */
    method EvictOldestShortTerm(clock: int)
      requires Valid()
      modifies this`shortTerm
      ensures Valid()
      ensures EvictionStep(old(shortTerm), shortTerm, clock)
    {
      if |shortTerm| == 0 {
        return;
      }
      var oldestKey := "";
      var oldestTime := clock;
      ghost var found := false;
      var remaining := shortTerm.Keys;
      while remaining != {}
        invariant remaining <= shortTerm.Keys
        invariant shortTerm == old(shortTerm)
        invariant found ==> (oldestKey in shortTerm && oldestKey !in remaining
                             && oldestTime == shortTerm[oldestKey].timestamp && oldestTime < clock)
        invariant !found ==> oldestKey == "" && oldestTime == clock
        invariant forall j :: j in shortTerm && j !in remaining ==> oldestTime <= shortTerm[j].timestamp
        decreases remaining
      {
        var k :| k in remaining;
        if shortTerm[k].timestamp < oldestTime {
          oldestTime := shortTerm[k].timestamp;
          oldestKey := k;
          found := true;
        }
        remaining := remaining - {k};
      }
      if found {
        assert IsOldest(shortTerm, oldestKey, clock);
      }
      if oldestKey != "" {
        shortTerm := shortTerm - {oldestKey};
      }
    }

    /** The periodic sweep: drops exactly the expired short-term entries. */
    method CleanupExpiredEntries(now: int)
      requires Valid()
      modifies this`shortTerm
      ensures Valid()
      ensures shortTerm == Unexpired(old(shortTerm), now)
      ensures longTerm == old(longTerm)
    {
      var remaining := shortTerm.Keys;
      while remaining != {}
        invariant remaining <= old(shortTerm).Keys
        invariant forall k :: k in shortTerm <==>
          k in old(shortTerm) && (k in remaining || !Expired(old(shortTerm)[k], now))
        invariant forall k :: k in shortTerm ==> shortTerm[k] == old(shortTerm)[k]
        decreases remaining
      {
        var k :| k in remaining;
        var entry := shortTerm[k];
        if entry.ttl.Some? && now - entry.timestamp > entry.ttl.value {
          shortTerm := shortTerm - {k};
        }
        remaining := remaining - {k};
      }
      assert shortTerm.Keys == Unexpired(old(shortTerm), now).Keys;
    }

    /** Unexpired short-term hits, then (when asked) long-term hits, newest first. */
    method SearchMemory(query: string, searchLongTerm: bool, now: int, render: Value -> string)
      returns (r: seq<Entry>)
      ensures NewestFirst(r)
      ensures |r| == |ShortHits(shortTerm, query, now, render)|
                     + (if searchLongTerm then |LongHits(longTerm, query, render)| else 0)
      ensures forall e :: e in r <==>
        || (e in shortTerm.Values && !Expired(e, now) && EntryMatchesQuery(e, ToLower(query), render))
        || (searchLongTerm && e in longTerm.Values && EntryMatchesQuery(e, ToLower(query), render))
      ensures forall e :: multiset(r)[e] == HitCount(shortTerm, longTerm, query, searchLongTerm, now, render, e)
    {
      var q := ToLower(query);
      var shortKeys, shortVals := MapScan.CollectWhere(shortTerm, ShortKeep(now, q, render));
      var longVals: seq<Entry> := [];
      if searchLongTerm {
        var longKeys;
        longKeys, longVals := MapScan.CollectWhere(longTerm, LongKeep(q, render));
      }
      CollectedHitCounts(shortTerm, longTerm, query, searchLongTerm, now, render, shortVals, longVals);
      r := SortNewestFirst(shortVals + longVals);
      HitMembers(shortTerm, longTerm, query, searchLongTerm, now, render, r);
    }

    /** Counts of valid short-term entries and of long-term entries. */
    method GetMemoryStats(now: int) returns (s: Stats)
      ensures s.shortTermCount == |LiveKeys(shortTerm, now)|
      ensures 0 <= s.shortTermCount <= |shortTerm|
      ensures s.shortTermCapacity == config.shortTermCapacity
      ensures s.longTermCount == |longTerm|
    {
      var valid := 0;
      ghost var counted: set<string> := {};
      var remaining := shortTerm.Keys;
      while remaining != {}
        invariant remaining <= shortTerm.Keys
        invariant counted <= shortTerm.Keys - remaining
        invariant forall k :: k in shortTerm && k !in remaining ==> (k in counted <==> !Expired(shortTerm[k], now))
        invariant valid == |counted|
        decreases remaining
      {
        var k :| k in remaining;
        var entry := shortTerm[k];
        if entry.ttl.None? || now - entry.timestamp <= entry.ttl.value {
          valid := valid + 1;
          counted := counted + {k};
        }
        remaining := remaining - {k};
      }
      assert counted == LiveKeys(shortTerm, now);
      MapScan.SubsetCard(counted, shortTerm.Keys);
      s := Stats(valid, config.shortTermCapacity, |longTerm|);
    }
  }
}
