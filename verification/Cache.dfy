/** The bounded on-disk cache: an index of entries and one file of bytes per key. */
module Cache {
  import opened Content

  /** Times are integers; an entry is expired strictly after `expiresAt`. */
  datatype CacheEntry = CacheEntry(size: nat, createdAt: int, expiresAt: int)

  type Index = map<string, CacheEntry>

  predicate Expired(e: CacheEntry, now: int) {
    now > e.expiresAt
  }

  /** The entries that have not expired. */
  function Live(index: Index, now: int): Index {
    map k | k in index && !Expired(index[k], now) :: index[k]
  }

  // ---------------------------------------------------------------- total size

  /** Sum of the sizes of all entries. */
  ghost function SizeSum(index: Index): nat {
    if index == map[] then 0
    else
      var k :| k in index;
      index[k].size + SizeSum(index - {k})
  }

  /** The sum does not depend on which entry is taken first. */
  lemma {:induction false} SizeSumRemove(index: Index, k: string)
    requires k in index
    ensures SizeSum(index) == index[k].size + SizeSum(index - {k})
    decreases |index|
  {
    var j :| j in index && SizeSum(index) == index[j].size + SizeSum(index - {j});
    if j != k {
      SizeSumRemove(index - {j}, k);
      SizeSumRemove(index - {k}, j);
      assert index - {j} - {k} == index - {k} - {j};
    }
  }

  lemma SizeSumAdd(index: Index, k: string, e: CacheEntry)
    requires k !in index
    ensures SizeSum(index[k := e]) == SizeSum(index) + e.size
  {
    SizeSumRemove(index[k := e], k);
    assert index[k := e] - {k} == index;
  }

  /** Fewer entries take no more space. */
  lemma {:induction false} SizeSumSubset(small: Index, large: Index)
    requires small.Keys <= large.Keys
    requires forall k :: k in small ==> small[k] == large[k]
    ensures SizeSum(small) <= SizeSum(large)
    decreases |small|
  {
    if small != map[] {
      var k :| k in small;
      SizeSumRemove(small, k);
      SizeSumRemove(large, k);
      SizeSumSubset(small - {k}, large - {k});
    }
  }

  // ---------------------------------------------------------------- what eviction promises

  /** Nothing that stays is older than something that went. */
  ghost predicate OldestFirst(live: Index, after: Index) {
    forall e, k :: e in live && e !in after && k in after && k in live ==> live[e].createdAt <= live[k].createdAt
  }

  /** `last` went last: it is the youngest of those that went, and keeping it would not have left room. */
  ghost predicate WasNeeded(live: Index, after: Index, needed: nat, maxSize: int, last: string) {
    && last in live && last !in after
    && (forall e :: e in live && e !in after ==> live[e].createdAt <= live[last].createdAt)
    && SizeSum(after) + live[last].size + needed > maxSize
  }

  /**
   `after` is what may remain of `before` when `needed` bytes are to come in: expired entries go, then
   the oldest ones, and only as many as necessary.
   */
  ghost predicate Evicted(before: Index, after: Index, needed: nat, maxSize: int, now: int) {
    var live := Live(before, now);
    && after.Keys <= live.Keys
    && (forall k :: k in after ==> after[k] == live[k])
    && (SizeSum(after) + needed <= maxSize || after == map[])
    && OldestFirst(live, after)
    && (after != live ==> exists last :: WasNeeded(live, after, needed, maxSize, last))
  }

  /**
   After an eviction the total with the new entry is within the budget exactly when the new entry is,
   and an entry larger than the budget is stored alone.
   */
  lemma EvictionMakesRoom(before: Index, after: Index, key: string, e: CacheEntry, maxSize: int, now: int)
    requires Evicted(before, after, e.size, maxSize, now)
    ensures SizeSum(after[key := e]) <= maxSize <==> e.size <= maxSize
    ensures e.size > maxSize ==> after == map[] && SizeSum(after[key := e]) == e.size
  {
    var rest := after - {key};
    SizeSumSubset(rest, after);
    SizeSumAdd(rest, key, e);
    assert rest[key := e] == after[key := e];
    if after == map[] {
      assert rest == map[];
    }
  }

  /**
   In plain terms: nothing that has expired stays, nothing that stays is older than something that had not expired and
   went, and while there is room nothing goes before it expires.
   */
  lemma EvictedInWords(before: Index, after: Index, needed: nat, maxSize: int, now: int)
    requires Evicted(before, after, needed, maxSize, now)
    ensures forall k :: k in after ==> k in before && after[k] == before[k] && now <= before[k].expiresAt
    ensures forall e, k :: e in before && e !in after && now <= before[e].expiresAt && k in after ==>
              before[e].createdAt <= before[k].createdAt
    ensures SizeSum(before) + needed <= maxSize ==> forall k :: k in before && now <= before[k].expiresAt ==> k in after
  {
    var live := Live(before, now);
    assert forall k :: k in before && now <= before[k].expiresAt ==> k in live;
    if after != live && SizeSum(before) + needed <= maxSize {
      var last :| WasNeeded(live, after, needed, maxSize, last);
      OneMoreIsSmaller(live, live, after, last);
      SizeSumSubset(live, before);
      assert false;
    }
  }

  /** No two live entries have the same age. */
  ghost predicate AgesDiffer(live: Index) {
    forall j, k :: j in live && k in live && live[j].createdAt == live[k].createdAt ==> j == k
  }

  /** When no two live entries have the same age, the outcome of an eviction is unique. */
  lemma EvictionIsDetermined(before: Index, a: Index, b: Index, needed: nat, maxSize: int, now: int)
    requires Evicted(before, a, needed, maxSize, now) && Evicted(before, b, needed, maxSize, now)
    requires AgesDiffer(Live(before, now))
    ensures a == b
  {
    if a.Keys != b.Keys {
      if k :| k in a && k !in b {
        NoMoreThanNeeded(before, a, b, needed, maxSize, now, k);
      } else {
        var k :| k in b && k !in a;
        NoMoreThanNeeded(before, b, a, needed, maxSize, now, k);
      }
    }
  }

  /** Two oldest-first outcomes are nested: if `a` keeps what `b` gives up, `a` keeps all that `b` keeps. */
  lemma OutcomesNested(live: Index, a: Index, b: Index, k: string)
    requires AgesDiffer(live) && OldestFirst(live, a) && OldestFirst(live, b)
    requires a.Keys <= live.Keys && b.Keys <= live.Keys
    requires k in a && k !in b
    ensures b.Keys <= a.Keys
  {
    forall j | j in b
      ensures j in a
    {
      var older := live[j].createdAt <= live[k].createdAt;
      assert j !in a ==> older;
      assert live[k].createdAt <= live[j].createdAt;
    }
  }

  /** The last key that `b` gave up is kept by `a`, if `a` keeps any key that `b` gave up. */
  lemma LastIsKept(live: Index, a: Index, b: Index, needed: nat, maxSize: int, last: string, k: string)
    requires AgesDiffer(live) && OldestFirst(live, a) && WasNeeded(live, b, needed, maxSize, last)
    requires k in a && k in live && k !in b
    ensures last in a
  {
    var older := live[last].createdAt <= live[k].createdAt;
    assert last !in a ==> older;
    assert live[k].createdAt <= live[last].createdAt;
  }

  /** If one outcome kept an entry the other gave up, the other gave up too much. */
  lemma NoMoreThanNeeded(before: Index, a: Index, b: Index, needed: nat, maxSize: int, now: int, k: string)
    requires Evicted(before, a, needed, maxSize, now) && Evicted(before, b, needed, maxSize, now)
    requires AgesDiffer(Live(before, now))
    ensures k in a ==> k in b
  {
    var live := Live(before, now);
    if k in a && k !in b {
      var last :| WasNeeded(live, b, needed, maxSize, last);
      OutcomesNested(live, a, b, k);
      LastIsKept(live, a, b, needed, maxSize, last, k);
      OneMoreIsSmaller(live, a, b, last);
    }
  }

  lemma OneMoreIsSmaller(live: Index, a: Index, b: Index, last: string)
    requires b.Keys <= a.Keys <= live.Keys && last in a && last !in b
    requires forall k :: k in a ==> a[k] == live[k]
    requires forall k :: k in b ==> b[k] == live[k]
    ensures SizeSum(b) + live[last].size <= SizeSum(a)
  {
    SizeSumAdd(b, last, live[last]);
    SizeSumSubset(b[last := live[last]], a);
  }

  // ---------------------------------------------------------------- oldest first

  /**
   A key of minimal age. Visiting the entries sorted by age, ties in any order, is taking such a key
   again and again.
   */
  method Oldest(index: Index) returns (oldest: string)
    requires index != map[]
    ensures oldest in index
    ensures forall k :: k in index ==> index[oldest].createdAt <= index[k].createdAt
  {
    oldest :| oldest in index;
    var pending := index.Keys - {oldest};
    while pending != {}
      invariant pending <= index.Keys && oldest in index
      invariant forall k :: k in index && k !in pending ==> index[oldest].createdAt <= index[k].createdAt
    {
      var k :| k in pending;
      pending := pending - {k};
      if index[k].createdAt < index[oldest].createdAt {
        oldest := k;
      }
    }
  }

  /** Part of the way through an eviction of `live`: `index` is left and `last` went last. */
  ghost predicate Evicting(live: Index, index: Index, needed: nat, maxSize: int, last: string) {
    && index.Keys <= live.Keys
    && (forall k :: k in index ==> index[k] == live[k])
    && OldestFirst(live, index)
    && (index == live || WasNeeded(live, index, needed, maxSize, last))
  }

  /** Without room, the oldest of what is left has to go next. */
  lemma TakeOldest(live: Index, index: Index, needed: nat, maxSize: int, last: string, oldest: string)
    requires Evicting(live, index, needed, maxSize, last)
    requires oldest in index && forall k :: k in index ==> index[oldest].createdAt <= index[k].createdAt
    requires SizeSum(index) + needed > maxSize
    ensures SizeSum(index) == index[oldest].size + SizeSum(index - {oldest})
    ensures Evicting(live, index - {oldest}, needed, maxSize, oldest)
  {
    SizeSumRemove(index, oldest);
    assert index[oldest] == live[oldest];
    forall e | e in live && e !in index - {oldest}
      ensures live[e].createdAt <= live[oldest].createdAt
    {
    }
  }

  // ---------------------------------------------------------------- the cache object

  /** The entries of `m` under the keys in `keep`. */
  function Kept<T>(m: map<string, T>, keep: set<string>): map<string, T> {
    map k | k in m && k in keep :: m[k]
  }

  /** The entries of `m` whose key does not start with `prefix`; the empty prefix removes nothing. */
  function WithoutPrefix<T>(m: map<string, T>, prefix: string): map<string, T> {
    map k | k in m && !(prefix != "" && prefix <= k) :: m[k]
  }

  class FileCache {
    /** Budget in bytes. */
    const maxSize: int
    /** Lifetime of an entry. */
    const expireDur: int
    var index: Index
    /** The cache files. A file's name is an injective digest of its key, so the key stands for it. */
    var blobs: map<string, Bytes>

    /** Every indexed entry has its file, of the recorded size, and there are no other files. */
    ghost predicate Valid()
      reads this
    {
      index.Keys == blobs.Keys && forall k :: k in index ==> index[k].size == |blobs[k]|
    }

    constructor (maxSizeMB: int, expireDays: int)
      ensures Valid() && index == map[]
      ensures maxSize == maxSizeMB * 1024 * 1024 && expireDur == expireDays * 24 * 3600
    {
      maxSize := maxSizeMB * 1024 * 1024;
      expireDur := expireDays * 24 * 3600;
      index, blobs := map[], map[];
    }

    predicate Has(key: string, now: int): (found: bool)
      reads this
      ensures found <==> key in index && now <= index[key].expiresAt && key in blobs
    {
      key in index && !Expired(index[key], now) && key in blobs
    }

    /** Read an entry; an expired one is deleted and reported as a miss. */
    method Get(key: string, now: int) returns (data: Option<Bytes>)
      requires Valid()
      modifies this
      ensures Valid()
      ensures data == if key in old(index) && now <= old(index)[key].expiresAt then Some(old(blobs)[key]) else None
      ensures var gone := if key in old(index) && old(index)[key].expiresAt < now then {key} else {};
              index == old(index) - gone && blobs == old(blobs) - gone
    {
      if key !in index {
        return None;
      }
      if Expired(index[key], now) {
        Delete(key);
        return None;
      }
      return Some(blobs[key]);
    }

    method Delete(key: string)
      requires Valid()
      modifies this
      ensures Valid() && index == old(index) - {key} && blobs == old(blobs) - {key}
    {
      if key in index {
        RemoveEntry(key);
      }
    }

    /** Remove every entry whose key starts with a non-empty prefix. */
    method DeletePrefix(prefix: string)
      requires Valid()
      modifies this
      ensures Valid()
      ensures index == WithoutPrefix(old(index), prefix) && blobs == WithoutPrefix(old(blobs), prefix)
      ensures forall k :: k in index <==> k in old(index) && (prefix == "" || !(prefix <= k))
      ensures forall k :: k in index ==> index[k] == old(index)[k] && k in old(blobs) && blobs[k] == old(blobs)[k]
    {
      if prefix == "" {
        return;
      }
      var pending := index.Keys;
      ghost var gone: set<string> := {};
      while pending != {}
        invariant pending <= old(index).Keys
        invariant gone == set k | k in old(index) && k !in pending && prefix <= k
        invariant index == old(index) - gone && blobs == old(blobs) - gone
      {
        var k :| k in pending;
        pending := pending - {k};
        if prefix <= k {
          blobs := blobs - {k};
          index := index - {k};
          gone := gone + {k};
        }
      }
    }

    /** The running total that eviction starts from. */
    method SumSizes() returns (totalSize: int)
      ensures totalSize == SizeSum(index)
    {
      totalSize := 0;
      var pending := index;
      while pending != map[]
        invariant totalSize + SizeSum(pending) == SizeSum(index)
        decreases |pending|
      {
        var k :| k in pending;
        SizeSumRemove(pending, k);
        totalSize := totalSize + pending[k].size;
        pending := pending - {k};
      }
    }

    /** Remove one entry and its file. */
    method RemoveEntry(key: string)
      requires Valid()
      modifies this
      ensures Valid() && index == old(index) - {key} && blobs == old(blobs) - {key}
    {
      blobs := blobs - {key};
      index := index - {key};
    }

    /** Drop the expired entries, keeping the running total. */
    method DropExpired(totalSize: int, now: int) returns (liveSize: int)
      requires Valid() && totalSize == SizeSum(index)
      modifies this
      ensures Valid() && index == Live(old(index), now) && blobs == Kept(old(blobs), index.Keys)
      ensures liveSize == SizeSum(index)
    {
      liveSize := totalSize;
      var pending := index.Keys;
      while pending != {}
        invariant Valid() && liveSize == SizeSum(index)
        invariant pending <= index.Keys <= old(index).Keys
        invariant forall k :: k in old(index) && (k in pending || !Expired(old(index)[k], now)) ==> k in index
        invariant forall k :: k in index ==> index[k] == old(index)[k] && (k in pending || !Expired(index[k], now))
        invariant forall k :: k in blobs ==> k in old(blobs) && blobs[k] == old(blobs)[k]
      {
        var k :| k in pending;
        pending := pending - {k};
        if Expired(index[k], now) {
          SizeSumRemove(index, k);
          liveSize := liveSize - index[k].size;
          RemoveEntry(k);
        }
      }
    }

    /** Remove the oldest entries until the budget allows `needed` more bytes. */
    method DropOldest(liveSize: int, needed: nat)
      requires Valid() && liveSize == SizeSum(index)
      modifies this
      ensures Valid() && blobs == Kept(old(blobs), index.Keys)
      ensures index.Keys <= old(index).Keys && forall k :: k in index ==> index[k] == old(index)[k]
      ensures SizeSum(index) + needed <= maxSize || index == map[]
      ensures OldestFirst(old(index), index)
      ensures index != old(index) ==> exists last :: WasNeeded(old(index), index, needed, maxSize, last)
    {
      hide SizeSum;
      var totalSize := liveSize;
      ghost var last := "";
      while index != map[] && totalSize + needed > maxSize
        invariant Valid() && totalSize == SizeSum(index)
        invariant forall k :: k in blobs ==> k in old(blobs) && blobs[k] == old(blobs)[k]
        invariant Evicting(old(index), index, needed, maxSize, last)
        decreases |index|
      {
        var k := Oldest(index);
        TakeOldest(old(index), index, needed, maxSize, last, k);
        totalSize := totalSize - index[k].size;
        RemoveEntry(k);
        last := k;
      }
    }

    /** Make room for `needed` bytes: expired entries first, then oldest first until they fit. */
    method EvictIfNeeded(needed: nat, now: int)
      requires Valid()
      modifies this
      ensures Valid() && Evicted(old(index), index, needed, maxSize, now) && blobs == Kept(old(blobs), index.Keys)
    {
      var totalSize := SumSizes();
      totalSize := DropExpired(totalSize, now);
      if totalSize + needed <= maxSize {
        return;
      }
      DropOldest(totalSize, needed);
    }

    /** Store data under a key, evicting first. */
    method Set(key: string, data: Bytes, now: int)
      requires Valid()
      modifies this
      ensures Valid()
      ensures exists kept :: Evicted(old(index), kept, |data|, maxSize, now)
                && index == kept[key := CacheEntry(|data|, now, now + expireDur)]
                && blobs == Kept(old(blobs), kept.Keys)[key := data]
      ensures SizeSum(index) <= if |data| <= maxSize then maxSize else |data|
      ensures key in index && blobs[key] == data && index[key] == CacheEntry(|data|, now, now + expireDur)
    {
      EvictIfNeeded(|data|, now);
      var entry := CacheEntry(|data|, now, now + expireDur);
      EvictionMakesRoom(old(index), index, key, entry, maxSize, now);
      blobs := blobs[key := data];
      index := index[key := entry];
    }

    /** What is stored is found again, unchanged, up to the end of its lifetime, and not afterwards. */
    method SetThenGet(key: string, data: Bytes, now: int, later: int) returns (found: Option<Bytes>)
      requires Valid()
      modifies this
      ensures Valid()
      ensures found == if later <= now + expireDur then Some(data) else None
    {
      Set(key, data, now);
      found := Get(key, later);
    }

    /** The hourly clean-up: drop what has expired, whatever its size. */
    method CleanupTick(now: int)
      requires Valid()
      modifies this
      ensures Valid() && index == Live(old(index), now) && blobs == Kept(old(blobs), index.Keys)
      ensures forall k :: k in index <==> k in old(index) && now <= old(index)[k].expiresAt
      ensures forall k :: k in index ==> index[k] == old(index)[k] && k in old(blobs) && blobs[k] == old(blobs)[k]
    {
      var pending := index.Keys;
      while pending != {}
        invariant Valid()
        invariant pending <= index.Keys <= old(index).Keys
        invariant forall k :: k in old(index) && (k in pending || !Expired(old(index)[k], now)) ==> k in index
        invariant forall k :: k in index ==> index[k] == old(index)[k] && (k in pending || !Expired(index[k], now))
        invariant forall k :: k in blobs ==> k in old(blobs) && blobs[k] == old(blobs)[k]
      {
        var k :| k in pending;
        pending := pending - {k};
        if Expired(index[k], now) {
          RemoveEntry(k);
        }
      }
    }
  }
}
