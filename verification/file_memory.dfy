/** The file-indexed memory store. The index file is one abstract map from
    entry id to entry; reading and rewriting that file is not modelled. */
module FileMemory {
  import opened Common
  import opened Text
  import MapScan

  const ShortTermType: string := "short_term"
  const LongTermType: string := "long_term"
  const EpisodicType: string := "episodic"

  /** Go's zero `time.Time`. */
  const ZeroTime: int := 0

  datatype Entry = Entry(
    id: string,
    memType: string,
    content: string,
    metadata: map<string, Value>,
    timestamp: int,
    expiresAt: Option<int>)

  datatype StoreError = NotFound(id: string) | EntryExpired(id: string)

  datatype Result<T> = Ok(value: T) | Err(error: StoreError)

  /** Only short-term entries expire, and only strictly after their deadline. */
  predicate ExpiredAt(e: Entry, now: int)
    ensures ExpiredAt(e, now) ==> e.memType == ShortTermType && e.expiresAt.Some?
  {
    e.memType == ShortTermType && e.expiresAt.Some? && now > e.expiresAt.value
  }

  /** Case-insensitive substring test on content. */
  function ContainsIgnoreCase(s: string, sub: string): (r: bool)
    ensures r <==> exists i :: OccursAt(ToLower(s), ToLower(sub), i)
    ensures sub == "" ==> r
  {
    EmptyAlwaysContained(ToLower(s));
    Contains(ToLower(s), ToLower(sub))
  }

  /** The filter of `Search`: type (empty means any), not expired, and content match (empty query matches all). */
  predicate Keep(e: Entry, query: string, memType: string, now: int)
    ensures Keep(e, query, memType, now) <==>
      && (memType == "" || e.memType == memType)
      && !ExpiredAt(e, now)
      && exists i :: OccursAt(ToLower(e.content), ToLower(query), i)
  {
    assert query == "" ==> ContainsIgnoreCase(e.content, query);
    (memType == "" || e.memType == memType)
    && !ExpiredAt(e, now)
    && (query == "" || ContainsIgnoreCase(e.content, query))
  }

  /** Length after "keep the first `limit` when `limit > 0` and there are more". */
  function Limited(n: nat, limit: int): (r: nat)
    ensures r <= n
    ensures limit > 0 ==> r <= limit
    ensures r < n ==> r == limit
    ensures limit <= 0 || n <= limit ==> r == n
  {
    if limit > 0 && n > limit then limit else n
  }

  // ---- ordering -------------------------------------------------------------

  /** Sort key: ascending time, or descending when `reverse`. */
  function Rank(e: Entry, reverse: bool): int
  {
    if reverse then -e.timestamp else e.timestamp
  }

  ghost predicate NewestFirst(s: seq<Entry>)
  {
    forall i, j :: 0 <= i < j < |s| ==> s[i].timestamp >= s[j].timestamp
  }

  ghost predicate OldestFirst(s: seq<Entry>)
  {
    forall i, j :: 0 <= i < j < |s| ==> s[i].timestamp <= s[j].timestamp
  }

  /** Every slot of `s[..hi]` ranks no higher than every slot from `hi` on. */
  ghost predicate Partitioned(s: seq<Entry>, hi: int, reverse: bool)
  {
    forall p, q :: 0 <= p < hi <= q < |s| ==> Rank(s[p], reverse) <= Rank(s[q], reverse)
  }

  /** `s[j]` ranks highest among `s[..j + 1]`. */
  ghost predicate MaxAt(s: seq<Entry>, j: int, reverse: bool)
  {
    j < |s| && forall p :: 0 <= p <= j ==> Rank(s[p], reverse) <= Rank(s[j], reverse)
  }

  method Swap(a: array<Entry>, i: int, j: int)
    requires 0 <= i < j < a.Length
    modifies a
    ensures a[..] == old(a[..])[i := old(a[j])][j := old(a[i])]
    ensures multiset(a[..]) == old(multiset(a[..]))
  {
    a[i], a[j] := a[j], a[i];
  }

  /** One compare-and-swap step of the inner loop at `j` moves the running
      maximum to `j + 1` and keeps the partition at `hi`. */
  lemma BubbleStep(before: seq<Entry>, after: seq<Entry>, j: int, hi: int, reverse: bool)
    requires 0 <= j < hi - 1 && hi <= |before|
    requires Partitioned(before, hi, reverse) && MaxAt(before, j, reverse)
    requires if Rank(before[j], reverse) > Rank(before[j + 1], reverse)
             then after == before[j := before[j + 1]][j + 1 := before[j]]
             else after == before
    ensures Partitioned(after, hi, reverse) && MaxAt(after, j + 1, reverse)
    ensures after[hi..] == before[hi..]
  {
    forall p, q | 0 <= p < hi <= q < |after|
      ensures Rank(after[p], reverse) <= Rank(after[q], reverse)
    {
      assert after[q] == before[q];
      if p == j || p == j + 1 {
        assert after[p] == before[j] || after[p] == before[j + 1];
      } else {
        assert after[p] == before[p];
      }
    }
    forall p | 0 <= p <= j + 1 ensures Rank(after[p], reverse) <= Rank(after[j + 1], reverse) {
      if p < j {
        assert after[p] == before[p];
      }
    }
  }

  /** One inner pass over `a[..hi]`: adjacent out-of-order pairs are swapped,
      which carries a largest rank of the prefix to `a[hi - 1]`. */
  method BubblePass(a: array<Entry>, hi: int, reverse: bool)
    requires 1 <= hi <= a.Length
    requires Partitioned(a[..], hi, reverse)
    modifies a
    ensures multiset(a[..]) == old(multiset(a[..]))
    ensures a[hi..] == old(a[hi..])
    ensures MaxAt(a[..], hi - 1, reverse)
    ensures Partitioned(a[..], hi, reverse)
  {
    var j := 0;
    while j < hi - 1
      invariant 0 <= j <= hi - 1
      invariant multiset(a[..]) == old(multiset(a[..]))
      invariant a[hi..] == old(a[hi..])
      invariant MaxAt(a[..], j, reverse)
      invariant Partitioned(a[..], hi, reverse)
    {
      if Rank(a[j], reverse) > Rank(a[j + 1], reverse) {
        ghost var before := a[..];
        Swap(a, j, j + 1);
        BubbleStep(before, a[..], j, hi, reverse);
      } else {
        BubbleStep(a[..], a[..], j, hi, reverse);
      }
      j := j + 1;
    }
  }

  /** `s[lo..]` is in non-decreasing rank order. */
  ghost predicate SortedFrom(s: seq<Entry>, lo: int, reverse: bool)
  {
    forall p, q :: 0 <= p && lo <= p < q < |s| ==> Rank(s[p], reverse) <= Rank(s[q], reverse)
  }

  /** After a pass over `s[..hi]`, the sorted suffix grows by one slot. */
  lemma PassExtends(before: seq<Entry>, after: seq<Entry>, hi: int, reverse: bool)
    requires 1 <= hi <= |after| == |before|
    requires SortedFrom(before, hi, reverse) && after[hi..] == before[hi..]
    requires MaxAt(after, hi - 1, reverse) && Partitioned(after, hi, reverse)
    ensures SortedFrom(after, hi - 1, reverse) && Partitioned(after, hi - 1, reverse)
  {
    forall p, q | hi <= p < q < |after| ensures Rank(after[p], reverse) <= Rank(after[q], reverse) {
      assert after[p] == after[hi..][p - hi] == before[p];
      assert after[q] == after[hi..][q - hi] == before[q];
    }
  }

  /** Non-decreasing rank is newest first when `reverse` and oldest first otherwise. */
  lemma SortedByRank(s: seq<Entry>, reverse: bool)
    requires SortedFrom(s, 0, reverse)
    ensures reverse ==> NewestFirst(s)
    ensures !reverse ==> OldestFirst(s)
  {
    forall i, j | 0 <= i < j < |s| ensures Rank(s[i], reverse) <= Rank(s[j], reverse) {
    }
  }

  /** The bubble sort of `sortMemoryEntriesByTime`: after pass `i` the last
      `i` slots hold the largest ranks in order. */
  method SortMemoryEntriesByTime(a: array<Entry>, reverse: bool)
    modifies a
    ensures reverse ==> NewestFirst(a[..])
    ensures !reverse ==> OldestFirst(a[..])
    ensures multiset(a[..]) == old(multiset(a[..]))
  {
    var n := a.Length;
    var i := 0;
    while i < n - 1
      invariant 0 <= i <= n
      invariant n >= 1 ==> i <= n - 1
      invariant multiset(a[..]) == old(multiset(a[..]))
      invariant SortedFrom(a[..], n - i, reverse)
      invariant Partitioned(a[..], n - i, reverse)
    {
      ghost var before := a[..];
      BubblePass(a, n - i, reverse);
      PassExtends(before, a[..], n - i, reverse);
      i := i + 1;
    }
    if n >= 1 {
      assert SortedFrom(a[..], 0, reverse);
    }
    SortedByRank(a[..], reverse);
  }

  /** `Keep` with the search arguments fixed, as the filter of the scan. */
  function KeepFilter(query: string, memType: string, now: int): Entry -> bool
  {
    e => Keep(e, query, memType, now)
  }

  /** `r` is the newest-first selection from `m` of the values passing
      `keep`, cut to `limit` when `limit > 0`: only such values, none more
      often than `m` holds it, as many as the limit allows, all of them when
      the limit does not cut, and no value left out (counting repeats) is
      newer than one returned. */
  ghost predicate IsCutResult(m: map<string, Entry>, keep: Entry -> bool, limit: int, r: seq<Entry>)
  {
    && NewestFirst(r)
    && |r| == Limited(|MapScan.KeysWhere(m, keep)|, limit)
    && (forall e :: e in r ==> e in m.Values && keep(e))
    && (forall e :: multiset(r)[e] <= MapScan.Count(m, keep, e))
    && (limit <= 0 || |MapScan.KeysWhere(m, keep)| <= limit ==>
          forall e :: multiset(r)[e] == MapScan.Count(m, keep, e))
    && (forall x :: multiset(r)[x] < MapScan.Count(m, keep, x) ==>
          forall e :: e in r ==> e.timestamp >= x.timestamp)
  }

  /** What `Search` promises, for the filter `Keep`. */
  ghost predicate IsSearchResult(index: map<string, Entry>, query: string, memType: string,
                                 limit: int, now: int, r: seq<Entry>)
  {
    IsCutResult(index, KeepFilter(query, memType, now), limit, r)
  }

  /** In a newest-first list, a value occurring past position `n` more often
      than before it is no newer than anything before `n`. */
  lemma PastCutNotNewer(sorted: seq<Entry>, n: nat, x: Entry)
    requires NewestFirst(sorted) && n <= |sorted|
    requires multiset(sorted[..n])[x] < multiset(sorted)[x]
    ensures forall e :: e in sorted[..n] ==> e.timestamp >= x.timestamp
  {
    assert sorted == sorted[..n] + sorted[n..];
    assert x in multiset(sorted[n..]);
    var j :| 0 <= j < |sorted[n..]| && sorted[n..][j] == x;
    forall e | e in sorted[..n] ensures e.timestamp >= x.timestamp {
      var i :| 0 <= i < n && sorted[..n][i] == e;
      assert sorted[n + j] == x;
    }
  }

  /** A prefix of a rearrangement of the collected hits holds no value more
      often than the map's kept keys do, and the whole of it exactly as often. */
  lemma PrefixCounts(m: map<string, Entry>, keep: Entry -> bool, hits: seq<Entry>, sorted: seq<Entry>, n: nat)
    requires forall v :: multiset(hits)[v] == MapScan.Count(m, keep, v)
    requires multiset(sorted) == multiset(hits) && n <= |sorted|
    ensures forall e :: multiset(sorted[..n])[e] <= MapScan.Count(m, keep, e)
    ensures n == |sorted| ==> forall e :: multiset(sorted[..n])[e] == MapScan.Count(m, keep, e)
  {
    assert sorted == sorted[..n] + sorted[n..];
    assert multiset(sorted[..n]) <= multiset(sorted);
  }

  /** Any value the prefix holds fewer times than the map's kept keys do is
      no newer than anything in the prefix. */
  lemma CutDropsOlder(m: map<string, Entry>, keep: Entry -> bool, hits: seq<Entry>, sorted: seq<Entry>, n: nat)
    requires forall v :: multiset(hits)[v] == MapScan.Count(m, keep, v)
    requires multiset(sorted) == multiset(hits) && NewestFirst(sorted) && n <= |sorted|
    ensures forall x :: multiset(sorted[..n])[x] < MapScan.Count(m, keep, x) ==>
      forall e :: e in sorted[..n] ==> e.timestamp >= x.timestamp
  {
    forall x | multiset(sorted[..n])[x] < MapScan.Count(m, keep, x)
      ensures forall e :: e in sorted[..n] ==> e.timestamp >= x.timestamp
    {
      PastCutNotNewer(sorted, n, x);
    }
  }

  /** A newest-first permutation of all the kept values, cut to the limit, is a cut result. */
  lemma SortedHitsAreCut(m: map<string, Entry>, keep: Entry -> bool, limit: int, hits: seq<Entry>, sorted: seq<Entry>)
    requires |hits| == |MapScan.KeysWhere(m, keep)|
    requires forall v :: multiset(hits)[v] == MapScan.Count(m, keep, v)
    requires multiset(sorted) == multiset(hits) && NewestFirst(sorted)
    ensures IsCutResult(m, keep, limit, sorted[..Limited(|sorted|, limit)])
  {
    assert |sorted| == |multiset(sorted)| == |multiset(hits)| == |hits|;
    var n := Limited(|sorted|, limit);
    var r := sorted[..n];
    assert NewestFirst(r);
    PrefixCounts(m, keep, hits, sorted, n);
    forall e | e in r ensures e in m.Values && keep(e) {
      assert multiset(r)[e] > 0;
      MapScan.CountPositive(m, keep, e);
    }
    CutDropsOlder(m, keep, hits, sorted, n);
  }

  function ExpiredFilter(now: int): Entry -> bool
  {
    e => ExpiredAt(e, now)
  }

  /** The index without its expired short-term entries. */
  ghost function Unexpired(index: map<string, Entry>, now: int): map<string, Entry>
  {
    map k | k in index && !ExpiredAt(index[k], now) :: index[k]
  }

  /** Deleting exactly the expired ids leaves the unexpired index. */
  lemma ExpiredIdsRemoved(index: map<string, Entry>, now: int, ids: seq<string>)
    requires forall i :: 0 <= i < |ids| ==> ids[i] in index && ExpiredAt(index[ids[i]], now)
    requires forall k :: k in index && ExpiredAt(index[k], now) ==> k in ids
    ensures MapScan.RemoveAll(index, ids) == Unexpired(index, now)
  {
    MapScan.RemoveAllSpec(index, ids);
    var r := MapScan.RemoveAll(index, ids);
    assert r.Keys == Unexpired(index, now).Keys;
  }

  class FileMemoryStore {
    var index: map<string, Entry>

    /** A store over the index found on disk; a missing index file starts empty. */
    constructor (existing: Option<map<string, Entry>>)
      ensures index == (if existing.Some? then existing.value else map[])
    {
      index := if existing.Some? then existing.value else map[];
    }

    /** Fills in a missing id (`freshId`, the generated one) and a zero
        timestamp, then stores the entry under its id. */
    method Add(entry: Entry, now: int, freshId: string) returns (stored: Entry)
      modifies this
      ensures stored == entry.(id := if entry.id == "" then freshId else entry.id,
                               timestamp := if entry.timestamp == ZeroTime then now else entry.timestamp)
      ensures index == old(index)[stored.id := stored]
      ensures forall k :: k != stored.id ==> (k in index <==> k in old(index)) && (k in index ==> index[k] == old(index)[k])
    {
      stored := entry;
      if stored.id == "" {
        stored := stored.(id := freshId);
      }
      if stored.timestamp == ZeroTime {
        stored := stored.(timestamp := now);
      }
      index := index[stored.id := stored];
    }

    /** Missing ids and expired short-term entries are errors; expiry does not delete. */
    function Get(id: string, now: int): (r: Result<Entry>)
      reads this
      ensures id !in index ==> r == Err(NotFound(id))
      ensures id in index && ExpiredAt(index[id], now) ==> r == Err(EntryExpired(id))
      ensures r.Ok? <==> id in index && !ExpiredAt(index[id], now)
      ensures r.Ok? ==> r.value == index[id]
    {
      if id !in index then Err(NotFound(id))
      else if ExpiredAt(index[id], now) then Err(EntryExpired(id))
      else Ok(index[id])
    }

    method Search(query: string, memType: string, limit: int, now: int) returns (r: seq<Entry>)
      ensures IsSearchResult(index, query, memType, limit, now, r)
    {
      var keys, hits := MapScan.CollectWhere(index, KeepFilter(query, memType, now));
      var a := new Entry[|hits|](i requires 0 <= i < |hits| => hits[i]);
      assert a[..] == hits;
      SortMemoryEntriesByTime(a, true);
      var sorted := a[..];
      SortedHitsAreCut(index, KeepFilter(query, memType, now), limit, hits, sorted);
      r := sorted;
      if limit > 0 && |sorted| > limit {
        r := sorted[..limit];
      } else {
        assert sorted[..Limited(|sorted|, limit)] == sorted;
      }
    }

    method Delete(id: string) returns (err: Option<StoreError>)
      modifies this
      ensures id !in old(index) ==> err == Some(NotFound(id)) && index == old(index)
      ensures id in old(index) ==> err == None && index == old(index) - {id}
    {
      if id !in index {
        return Some(NotFound(id));
      }
      index := index - {id};
      return None;
    }

    /** `Search` with an empty query. */
    method ListByType(memType: string, limit: int, now: int) returns (r: seq<Entry>)
      ensures IsSearchResult(index, "", memType, limit, now, r)
      ensures forall e :: e in r ==> (memType == "" || e.memType == memType) && !ExpiredAt(e, now)
    {
      r := Search("", memType, limit, now);
    }

    /** Collects the expired ids first, then deletes them. */
    method CleanupExpired(now: int)
      modifies this
      ensures index == Unexpired(old(index), now)
    {
      var expiredIds := MapScan.CollectKeysWhere(index, ExpiredFilter(now));
      ghost var before := index;
      ExpiredIdsRemoved(before, now, expiredIds);
      if |expiredIds| == 0 {
        return;
      }
      var i := 0;
      while i < |expiredIds|
        invariant 0 <= i <= |expiredIds|
        invariant index == MapScan.RemoveAll(before, expiredIds[..i])
      {
        assert expiredIds[..i + 1][..i] == expiredIds[..i];
        assert MapScan.RemoveAll(before, expiredIds[..i + 1])
          == MapScan.RemoveAll(before, expiredIds[..i]) - {expiredIds[i]};
        index := index - {expiredIds[i]};
        i := i + 1;
      }
      assert expiredIds[..i] == expiredIds;
    }
  }
}
