/** Reading, deleting and renaming stored files through the cache. */
module FileSystems {
  import opened Content
  import opened Paths
  import opened Tree
  import opened Rename
  import opened StorageDb
  import opened Cache
  import opened CacheKeys
  import opened CachedReads
  import opened ServedReads
  import opened RenamedReads
  import opened RateLimit

  /** `data[offset..offset + length]`, cut off at the end of the data. */
  function Clip(data: Bytes, offset: nat, length: nat): Bytes {
    if offset >= |data| then []
    else if offset + length <= |data| then data[offset..offset + length]
    else data[offset..]
  }

  /** As many bytes as there are from the offset on, up to the length; each is the one at its place. */
  lemma ClipInWords(data: Bytes, offset: nat, length: nat)
    ensures |Clip(data, offset, length)| == if |data| <= offset then 0 else if |data| - offset < length then |data| - offset else length
    ensures forall i :: 0 <= i < |Clip(data, offset, length)| ==> Clip(data, offset, length)[i] == data[offset + i]
  {
  }

  /** Chunk `i` has bytes inside the range. */
  predicate Overlaps(chunks: seq<ChunkFile>, i: nat, offset: int, length: int) {
    i < |chunks| && Offset(chunks, i) < offset + length && offset < Offset(chunks, i + 1)
  }

  /** A chunk of the range whose message cannot be reached. */
  ghost predicate RangeUnreachable(chunks: seq<ChunkFile>, offset: int, length: int, online: set<MessageRef>) {
    exists i: nat :: Overlaps(chunks, i, offset, length) && chunks[i].Ref() !in online
  }

  /** A chunk of the range that the bandwidth limiter never lets through. */
  ghost predicate RangeBlocked(chunks: seq<ChunkFile>, offset: int, length: int, limitKBps: int) {
    exists i: nat :: Overlaps(chunks, i, offset, length) && !LetsThrough(limitKBps, chunks[i].size)
  }

  /** Why a range is not read: a message cannot be reached, or the call never returns. */
  ghost predicate RangeFails(error: Error, chunks: seq<ChunkFile>, offset: int, length: int, online: set<MessageRef>, limitKBps: int) {
    || (error == MessageUnavailable && RangeUnreachable(chunks, offset, length, online))
    || (error == WaitsForEver && RangeBlocked(chunks, offset, length, limitKBps))
  }

  /** A chunk of the range that the limiter never lets through and that is not cached either. */
  ghost predicate RangeBarred(chunks: seq<ChunkFile>, p: string, offset: int, length: int, limitKBps: int, cached: set<string>) {
    exists i: nat :: Overlaps(chunks, i, offset, length) && !LetsThrough(limitKBps, chunks[i].size) && ChunkKey(p, i) !in cached
  }

  /** A blob that is not empty is cached under the key and has not expired. */
  predicate IsLive(index: Index, blobs: Blobs, key: string, now: int) {
    key in blobs && key in index && now <= index[key].expiresAt && blobs[key] != []
  }

  /** The whole-file blob is cached, has not expired, and has at least the first `end` bytes. */
  predicate BlobServes(index: Index, blobs: Blobs, p: string, end: int, now: int) {
    p in blobs && p in index && now <= index[p].expiresAt && end <= |blobs[p]|
  }

  /** All chunks of the range are cached and have not expired. */
  ghost predicate RangeLive(chunks: seq<ChunkFile>, p: string, offset: int, length: int, index: Index, blobs: Blobs, now: int) {
    forall i: nat :: Overlaps(chunks, i, offset, length) ==> IsLive(index, blobs, ChunkKey(p, i), now)
  }

  /**
   How a range of a file of up to 24 MiB, or of a larger one, uses the cache. A live blob that is long enough serves it,
   and so do its live chunks, unless it is at least half of a small file: that is read whole, and then cached whole if
   all its messages can be reached. A chunk that the limiter never lets through has to be cached.
   */
  ghost predicate UsesCache(chunks: seq<ChunkFile>, p: string, text: Bytes, offset: int, wanted: int, now: int, online: set<MessageRef>,
                            limitKBps: int, index: Index, blobs: Blobs, blobs': Blobs, ok: bool) {
    var small, half := |text| <= 24 * 1024 * 1024, |text| / 2 <= wanted;
    var serves := BlobServes(index, blobs, p, offset + wanted, now);
    && (small && serves ==> ok)
    && (RangeLive(chunks, p, offset, wanted, index, blobs, now) && !(small && half) ==> ok)
    && (ok && small && half && !serves ==> (p in blobs' && blobs'[p] == text) || RangeUnreachable(chunks, 0, |text|, online))
    && (p !in blobs && RangeBarred(chunks, p, offset, wanted, limitKBps, blobs.Keys) ==> !ok)
  }

  /** The cache keys of some chunks of a path. */
  function KeysOf(p: string, asked: set<nat>): set<string> {
    set i | i in asked :: ChunkKey(p, i)
  }

  /** No chunk of the path that the limiter never lets through is cached unless it was. */
  ghost predicate NoneLetIn(chunks: seq<ChunkFile>, p: string, limitKBps: int, before: set<string>, after: set<string>) {
    forall i: nat :: i < |chunks| && !LetsThrough(limitKBps, chunks[i].size) && ChunkKey(p, i) !in before ==> ChunkKey(p, i) !in after
  }

  /** `copy(buf[at..], data)`: as many bytes as there is room for. */
  method CopyInto(buf: array<byte>, at: nat, data: Bytes) returns (n: nat)
    requires at <= buf.Length
    modifies buf
    ensures n == if |data| <= buf.Length - at then |data| else buf.Length - at
    ensures buf[..] == old(buf[..at]) + data[..n] + old(buf[at + n..])
  {
    n := if |data| <= buf.Length - at then |data| else buf.Length - at;
    for i := 0 to n
      invariant buf[..at] == old(buf[..at])
      invariant buf[at..at + i] == data[..i]
      invariant buf[at + n..] == old(buf[at + n..])
    {
      buf[at + i] := data[i];
    }
    assert buf[..] == buf[..at] + buf[at..at + n] + buf[at + n..];
  }

  /** How much of the range lies before position `pos` of the file. */
  function Before(pos: int, offset: nat, length: nat): nat {
    if pos <= offset then 0 else if pos < offset + length then pos - offset else length
  }

  /** Where reading resumes inside a chunk, given how much of the range is done. */
  function PieceStart(chStart: int, offset: nat, done: nat): int {
    if offset + done < chStart then chStart else offset + done
  }

  function PieceEnd(chEnd: int, offset: nat, length: nat): int {
    if offset + length > chEnd then chEnd else offset + length
  }

  /** The offsets alone: a piece is read exactly when the chunk overlaps, and it starts where reading stopped. */
  lemma PieceArithmetic(chStart: int, chEnd: int, offset: nat, length: nat)
    requires 0 <= chStart < chEnd
    ensures var done := Before(chStart, offset, length);
            var start, end := PieceStart(chStart, offset, done), PieceEnd(chEnd, offset, length);
            if chStart < offset + length && offset < chEnd then
              && chStart <= start == offset + done <= end <= chEnd
              && Before(chEnd, offset, length) == done + (end - start)
            else
              && !(start < chEnd && end > chStart)
              && Before(chEnd, offset, length) == done
  {
  }

  /** `piece` takes the range from its first `done` bytes to its first `done'` bytes. */
  predicate Continues(data: Bytes, offset: nat, done: nat, piece: Bytes, done': nat) {
    done + |piece| == done' && Clip(data, offset, done) + piece == Clip(data, offset, done')
  }

  /** Part of one chunk. */
  function Piece(chunk: Bytes, from: int, to: int): Bytes
    requires 0 <= from <= to <= |chunk|
  {
    chunk[from..to]
  }

  /** The bytes alone: a piece of a chunk that starts where reading stopped is the next part of the range. */
  lemma NextPiece(data: Bytes, chunk: Bytes, chStart: int, chEnd: int, offset: nat, start: int, end: int, done: nat, done': nat)
    requires 0 <= chStart <= start <= end <= chEnd <= |data| && chunk == data[chStart..chEnd]
    requires start == offset + done && end == offset + done'
    ensures Continues(data, offset, done, Piece(chunk, start - chStart, end - chStart), done')
  {
    SliceOfSlice(data, chStart, chEnd, start, end);
    assert data[offset..start] + data[start..end] == data[offset..end];
  }

  lemma SliceOfSlice(data: Bytes, lo: int, hi: int, a: int, b: int)
    requires 0 <= lo <= a <= b <= hi <= |data|
    ensures data[lo..hi][a - lo..b - lo] == data[a..b]
  {
    var piece := data[lo..hi][a - lo..b - lo];
    assert forall i :: 0 <= i < b - a ==> piece[i] == data[lo..hi][a - lo + i] == data[a + i];
  }

  /** At chunk `i`: the chunk overlaps the range exactly when the piece is not empty; if it does not, nothing is read. */
  lemma AtChunk(chunks: seq<ChunkFile>, remote: Remote, data: Bytes, i: nat, chStart: int, chEnd: int, offset: nat, length: nat)
    requires Holds(remote, chunks, data) && i < |chunks|
    requires chStart == Offset(chunks, i) && chEnd == chStart + chunks[i].size
    ensures Offset(chunks, i + 1) == chEnd
    ensures Overlaps(chunks, i, offset, length) <==> chStart < offset + length && offset < chEnd
    ensures var done := Before(chStart, offset, length);
            var start, end := PieceStart(chStart, offset, done), PieceEnd(chEnd, offset, length);
            && (Overlaps(chunks, i, offset, length) <==> start < chEnd && end > chStart)
            && (Overlaps(chunks, i, offset, length) ==> 0 <= start - chStart <= end - chStart <= chEnd - chStart)
            && (!Overlaps(chunks, i, offset, length) ==> Continues(data, offset, done, [], Before(chEnd, offset, length)))
  {
    HoldsAt(remote, chunks, data, i);
    assert Offset(chunks, i + 1) == chEnd;
    hide Holds, Offset;
    PieceArithmetic(chStart, chEnd, offset, length);
  }

  /** What an overlapping chunk contributes: its piece is there and continues what is read of the range. */
  lemma PieceContinues(chunks: seq<ChunkFile>, remote: Remote, data: Bytes, i: nat, chStart: int, chEnd: int, offset: nat, length: nat)
    requires Holds(remote, chunks, data) && i < |chunks|
    requires chStart == Offset(chunks, i) && chEnd == chStart + chunks[i].size
    requires chStart < offset + length && offset < chEnd
    ensures Fetch(remote, chunks[i]).Ok? && |Fetch(remote, chunks[i]).value| == chEnd - chStart
    ensures var done := Before(chStart, offset, length);
            Continues(data, offset, done, Piece(Fetch(remote, chunks[i]).value, PieceStart(chStart, offset, done) - chStart, PieceEnd(chEnd, offset, length) - chStart), Before(chEnd, offset, length))
  {
    HoldsAt(remote, chunks, data, i);
    var chunk := Fetch(remote, chunks[i]).value;
    assert chunk == data[chStart..chEnd];
    assert 0 <= chStart < chEnd <= |data|;
    NextOfRange(data, chunk, chStart, chEnd, offset, length);
  }

  lemma NextOfRange(data: Bytes, chunk: Bytes, chStart: int, chEnd: int, offset: nat, length: nat)
    requires 0 <= chStart < chEnd <= |data| && chunk == data[chStart..chEnd]
    requires chStart < offset + length && offset < chEnd
    ensures var done := Before(chStart, offset, length);
            && 0 <= PieceStart(chStart, offset, done) - chStart <= PieceEnd(chEnd, offset, length) - chStart <= |chunk|
            && Continues(data, offset, done, Piece(chunk, PieceStart(chStart, offset, done) - chStart, PieceEnd(chEnd, offset, length) - chStart), Before(chEnd, offset, length))
  {
    var done, done' := Before(chStart, offset, length), Before(chEnd, offset, length);
    var start, end := PieceStart(chStart, offset, done), PieceEnd(chEnd, offset, length);
    PieceArithmetic(chStart, chEnd, offset, length);
    hide *;
    NextPiece(data, chunk, chStart, chEnd, offset, start, end, done, done');
  }

  lemma FailsAt(error: Error, chunks: seq<ChunkFile>, i: nat, offset: int, length: int, online: set<MessageRef>, limitKBps: int)
    requires Overlaps(chunks, i, offset, length)
    requires (error == MessageUnavailable && chunks[i].Ref() !in online) || (error == WaitsForEver && !LetsThrough(limitKBps, chunks[i].size))
    ensures RangeFails(error, chunks, offset, length, online, limitKBps)
  {
  }

  /** A range that is used up before chunk `i` has no part of it. */
  lemma NotOverlappedFrom(chunks: seq<ChunkFile>, remote: Remote, data: Bytes, done: nat, i: nat, offset: nat, length: nat)
    requires Holds(remote, chunks, data) && done <= i < |chunks| && 0 < length
    requires Before(Offset(chunks, done), offset, length) >= length
    ensures !Overlaps(chunks, i, offset, length)
  {
    HoldsOffsetMonotone(remote, chunks, data, done, i);
  }

  lemma NoneLetInSame(chunks: seq<ChunkFile>, p: string, limitKBps: int, cached: set<string>)
    ensures NoneLetIn(chunks, p, limitKBps, cached, cached)
  {
  }

  lemma NoneLetInFewer(chunks: seq<ChunkFile>, p: string, limitKBps: int, before: set<string>, after: set<string>)
    requires after <= before
    ensures NoneLetIn(chunks, p, limitKBps, before, after)
  {
  }

  lemma NoneLetInThen(chunks: seq<ChunkFile>, p: string, limitKBps: int, before: set<string>, then': set<string>, after: set<string>)
    requires NoneLetIn(chunks, p, limitKBps, before, then') && NoneLetIn(chunks, p, limitKBps, then', after)
    ensures NoneLetIn(chunks, p, limitKBps, before, after)
  {
  }

  /** A fetch lets in at most its own chunk, and only if it was cached or the limiter let it through. */
  lemma NoneLetInByFetch(chunks: seq<ChunkFile>, p: string, i: nat, limitKBps: int, before: set<string>, after: set<string>, r: Result<Bytes>)
    requires i < |chunks| && after <= before + {ChunkKey(p, i)}
    requires ChunkKey(p, i) in after ==> ChunkKey(p, i) in before || LetsThrough(limitKBps, chunks[i].size)
    ensures NoneLetIn(chunks, p, limitKBps, before, after)
  {
    forall j: nat | j < |chunks| && !LetsThrough(limitKBps, chunks[j].size) && ChunkKey(p, j) !in before
      ensures ChunkKey(p, j) !in after
    {
      if ChunkKey(p, j) == ChunkKey(p, i) {
        ChunkKeyInjective(p, j, p, i);
      }
    }
  }

  lemma WholeKeyIsNoChunk(chunks: seq<ChunkFile>, p: string, limitKBps: int, before: set<string>, after: set<string>)
    requires after <= before + {p}
    ensures NoneLetIn(chunks, p, limitKBps, before, after)
  {
    assert forall i: nat :: |ChunkKey(p, i)| > |p|;
  }

  /** None of the first `n` chunks of the range is barred. */
  ghost predicate NoneBarred(chunks: seq<ChunkFile>, p: string, n: nat, offset: int, length: int, limitKBps: int, cached: set<string>) {
    forall i: nat :: i < n && Overlaps(chunks, i, offset, length) ==> LetsThrough(limitKBps, chunks[i].size) || ChunkKey(p, i) in cached
  }

  lemma OneMoreNotBarred(chunks: seq<ChunkFile>, p: string, n: nat, offset: int, length: int, limitKBps: int, before: set<string>, cached: set<string>, fetched: bool)
    requires n < |chunks| && NoneBarred(chunks, p, n, offset, length, limitKBps, before)
    requires NoneLetIn(chunks, p, limitKBps, before, cached)
    requires fetched <==> Overlaps(chunks, n, offset, length)
    requires fetched ==> LetsThrough(limitKBps, chunks[n].size) || ChunkKey(p, n) in cached
    ensures NoneBarred(chunks, p, n + 1, offset, length, limitKBps, before)
  {
  }

  lemma NotBarredAtAll(chunks: seq<ChunkFile>, remote: Remote, data: Bytes, p: string, n: nat, offset: nat, length: nat, limitKBps: int, cached: set<string>)
    requires Holds(remote, chunks, data) && n <= |chunks| && NoneBarred(chunks, p, n, offset, length, limitKBps, cached)
    requires n == |chunks| || Before(Offset(chunks, n), offset, length) >= length
    ensures 0 < length ==> !RangeBarred(chunks, p, offset, length, limitKBps, cached)
  {
    if 0 < length {
      forall i: nat | Overlaps(chunks, i, offset, length)
        ensures i < n
      {
        if n <= i {
          NotOverlappedFrom(chunks, remote, data, n, i, offset, length);
        }
      }
    }
  }

  lemma NoWholeKey(p: string, asked: set<nat>)
    ensures p !in KeysOf(p, asked)
  {
    assert forall i: nat :: |ChunkKey(p, i)| > |p|;
  }

  /** What reading a range does to the cache: only chunks that were asked for come in, and nothing changes if all are there. */
  ghost predicate CacheSoFar(chunks: seq<ChunkFile>, p: string, limitKBps: int, ranged: bool, asked: set<nat>,
                             index: Index, blobs: Blobs, index': Index, blobs': Blobs) {
    && NoneLetIn(chunks, p, limitKBps, blobs.Keys, blobs'.Keys)
    && blobs'.Keys <= blobs.Keys + KeysOf(p, asked)
    && (ranged ==> index' == index && blobs' == blobs)
  }

  lemma CacheAtStart(chunks: seq<ChunkFile>, p: string, limitKBps: int, ranged: bool, index: Index, blobs: Blobs)
    ensures CacheSoFar(chunks, p, limitKBps, ranged, {}, index, blobs, index, blobs)
  {
  }

  lemma StillLive(chunks: seq<ChunkFile>, p: string, limitKBps: int, asked: set<nat>, i: nat, offset: int, length: int, now: int,
                  index: Index, blobs: Blobs, index': Index, blobs': Blobs)
    requires CacheSoFar(chunks, p, limitKBps, RangeLive(chunks, p, offset, length, index, blobs, now), asked, index, blobs, index', blobs')
    ensures NoneLetIn(chunks, p, limitKBps, blobs.Keys, blobs'.Keys)
    ensures RangeLive(chunks, p, offset, length, index, blobs, now) && Overlaps(chunks, i, offset, length) ==>
              IsLive(index', blobs', ChunkKey(p, i), now)
  {
  }

  lemma CacheAtEnd(chunks: seq<ChunkFile>, p: string, limitKBps: int, ranged: bool, asked: set<nat>,
                   index: Index, blobs: Blobs, index': Index, blobs': Blobs)
    requires CacheSoFar(chunks, p, limitKBps, ranged, asked, index, blobs, index', blobs')
    ensures NoneLetIn(chunks, p, limitKBps, blobs.Keys, blobs'.Keys) && blobs'.Keys <= blobs.Keys + KeysOf(p, asked)
    ensures ranged ==> index' == index && blobs' == blobs
  {
  }

  lemma CacheThen(chunks: seq<ChunkFile>, p: string, limitKBps: int, ranged: bool, asked: set<nat>, i: nat, fetched: bool,
                  index: Index, blobs: Blobs, index1: Index, blobs1: Blobs, index2: Index, blobs2: Blobs)
    requires CacheSoFar(chunks, p, limitKBps, ranged, asked, index, blobs, index1, blobs1)
    requires NoneLetIn(chunks, p, limitKBps, blobs1.Keys, blobs2.Keys)
    requires blobs2.Keys <= blobs1.Keys + if fetched then {ChunkKey(p, i)} else {}
    requires ranged ==> index2 == index1 && blobs2 == blobs1
    ensures CacheSoFar(chunks, p, limitKBps, ranged, if fetched then asked + {i} else asked, index, blobs, index2, blobs2)
  {
    assert KeysOf(p, asked + {i}) == KeysOf(p, asked) + {ChunkKey(p, i)};
  }

  lemma RangeStart(data: Bytes, offset: nat, length: nat)
    ensures Before(0, offset, length) == 0 && Clip(data, offset, 0) == []
  {
  }

  /** Once the range or the file is used up, the result is the clipped range. */
  lemma NothingLeft(chunks: seq<ChunkFile>, remote: Remote, data: Bytes, i: nat, offset: nat, length: nat)
    requires Holds(remote, chunks, data) && i <= |chunks|
    requires i == |chunks| || Before(Offset(chunks, i), offset, length) >= length
    ensures Clip(data, offset, Before(Offset(chunks, i), offset, length)) == Clip(data, offset, length)
  {
    assert i == |chunks| ==> Offset(chunks, i) == |data|;
  }

  /** A cache that keeps some old blobs and gains one right blob is sound. */
  lemma SoundAfterCacheSet(files: Files, remote: Remote, before: Blobs, after: Blobs, key: string, data: Bytes)
    requires Sound(files, remote, before) && KeyRight(files, remote, key, data)
    requires exists keep: set<string> :: after == Kept(before, keep)[key := data]
    ensures Sound(files, remote, after)
  {
    var keep: set<string> :| after == Kept(before, keep)[key := data];
    SoundAfterDrop(files, remote, before, Kept(before, keep));
    SoundAfterSet(files, remote, Kept(before, keep), key, data);
  }

  /** A range that ends at the end of the file is the clipped range. */
  lemma ClipWithin(data: Bytes, offset: nat, length: nat)
    requires offset < |data|
    ensures var wanted := if offset + length > |data| then |data| - offset else length;
            Clip(data, offset, length) == data[offset..offset + wanted] == Clip(data, offset, wanted)
    ensures Clip(data, 0, |data|) == data
  {
  }

  lemma RangeStillFails(error: Error, chunks: seq<ChunkFile>, offset: nat, wanted: nat, length: nat, online: set<MessageRef>, limitKBps: int)
    requires wanted <= length && RangeFails(error, chunks, offset, wanted, online, limitKBps)
    ensures RangeFails(error, chunks, offset, length, online, limitKBps)
  {
    if error == MessageUnavailable {
      var i: nat :| Overlaps(chunks, i, offset, wanted) && chunks[i].Ref() !in online;
      assert Overlaps(chunks, i, offset, length);
    } else {
      var i: nat :| Overlaps(chunks, i, offset, wanted) && !LetsThrough(limitKBps, chunks[i].size);
      assert Overlaps(chunks, i, offset, length);
    }
  }

  /** What bars a range bars every range of the file that holds it. */
  lemma BarredWithin(chunks: seq<ChunkFile>, p: string, offset: nat, wanted: nat, from: nat, length: nat, limitKBps: int, cached: set<string>, cached': set<string>)
    requires from <= offset && offset + wanted <= from + length && RangeBarred(chunks, p, offset, wanted, limitKBps, cached)
    requires NoneLetIn(chunks, p, limitKBps, cached, cached')
    ensures RangeBarred(chunks, p, from, length, limitKBps, cached')
  {
    var i: nat :| Overlaps(chunks, i, offset, wanted) && !LetsThrough(limitKBps, chunks[i].size) && ChunkKey(p, i) !in cached;
    assert Overlaps(chunks, i, from, length);
  }

  lemma ClearedInSteps(blobs: Blobs, p: string)
    ensures WithoutPrefix(WithoutPrefix(blobs - {p}, p + MARK), p + "/") == Cleared(blobs, p)
  {
  }

  lemma SoundAfterCarry(files: Files, remote: Remote, before: Blobs, after: Blobs, from: string, to: string, now: int, live: bool)
    requires Sound(files, remote, before) && LeftOf(after, CarriedOver(before, from, to, live))
    requires from in files && Unrelated(from, to) && FreeName(files, to)
    requires live && from in before ==> WholeRight(files, remote, from, before[from])
    ensures Sound(Renamed(files, from, to, now), remote, after)
  {
    var files' := Renamed(files, from, to, now);
    SoundAfterRename(files, remote, before, from, to, now);
    forall k | k in after
      ensures KeyRight(files', remote, k, after[k])
    {
      if k in Cleared(before, from) && after[k] == before[k] {
        assert KeyRight(files', remote, k, Cleared(before, from)[k]);
      } else {
        assert k == to && after[k] == before[from];
      }
    }
  }

  class FileSystem {
    const db: Storage
    const cache: FileCache
    /** Download limit, zero or less for none. */
    const limitKBps: int
    var remote: Remote

    constructor (db: Storage, cache: FileCache, limitKBps: int, remote: Remote)
      requires cache.Valid() && Sound(db.files, remote, cache.blobs)
      requires Readable(db.files, remote) && NoSharedKeys(db.files)
      ensures Valid() && this.db == db && this.cache == cache && this.limitKBps == limitKBps && this.remote == remote
    {
      this.db, this.cache, this.limitKBps, this.remote := db, cache, limitKBps, remote;
    }

    /** Every stored file decodes and everything cached is right for what is stored. */
    ghost predicate Valid()
      reads this, db, cache
    {
      && cache.Valid()
      && Readable(db.files, remote)
      && NoSharedKeys(db.files)
      && Sound(db.files, remote, cache.blobs)
    }

    /** The bytes of a stored file. */
    ghost function TextOf(p: string): Bytes
      reads this, db
      requires p in db.files
    {
      Text(remote, db.files[p])
    }

    lemma FileHolds(p: string)
      requires Valid() && p in db.files
      ensures Holds(remote, db.files[p].chunks, TextOf(p))
    {
      assert EntryReadable(remote, db.files[p]);
    }

    lemma TextLengthOf(p: string)
      requires Valid() && p in db.files
      ensures |TextOf(p)| == TotalSize(db.files[p].chunks)
    {
      assert EntryReadable(remote, db.files[p]);
    }

    /** Fetch a chunk from the network: wait for the limiter, then find the message if it can be reached now. */
    function NetFetch(ch: ChunkFile, online: set<MessageRef>): Result<Bytes>
      reads this
    {
      if !LetsThrough(limitKBps, ch.size) then Err(WaitsForEver)
      else if ch.Ref() in online then Fetch(remote, ch) else Err(MessageUnavailable)
    }

    predicate Live(key: string, now: int)
      reads cache
    {
      IsLive(cache.index, cache.blobs, key, now)
    }

    /** For a right cache, a chunk that is cached is that chunk, and all chunks can be fetched and are not empty. */
    lemma CachedChunkRight(p: string, i: nat)
      requires Valid() && p in db.files && i < |db.files[p].chunks|
      ensures Fetch(remote, db.files[p].chunks[i]).Ok? && Fetch(remote, db.files[p].chunks[i]).value != []
      ensures ChunkKey(p, i) in cache.blobs ==> Fetch(remote, db.files[p].chunks[i]) == Ok(cache.blobs[ChunkKey(p, i)])
    {
      ReadableDecodes(remote, db.files[p]);
      assert SizeRight(remote, db.files[p].chunks[i]);
      if ChunkKey(p, i) in cache.blobs {
        ChunkHit(db.files, remote, cache.blobs, p, i);
      }
    }

    /**
     One chunk, from the cache if it is there and not empty, from the network otherwise, and then cached until its
     lifetime is over. Only without a cached blob can the call wait for ever, and then only under a limit that the chunk
     exceeds. For a right cache the result is the chunk.
     */
    method FetchChunk(p: string, i: nat, now: int, online: set<MessageRef>) returns (r: Result<Bytes>)
      requires cache.Valid() && p in db.files && i < |db.files[p].chunks|
      modifies cache
      ensures cache.Valid()
      ensures old(Live(ChunkKey(p, i), now)) ==>
                && r == Ok(old(cache.blobs)[ChunkKey(p, i)]) == ServedChunk(db.files, remote, old(cache.blobs), p, i)
                && cache.index == old(cache.index) && cache.blobs == old(cache.blobs)
      ensures !old(Live(ChunkKey(p, i), now)) ==>
                && r == NetFetch(db.files[p].chunks[i], online)
                && (r == Err(WaitsForEver) <==> 0 < limitKBps && limitKBps * 1024 < db.files[p].chunks[i].size)
                && (r.Ok? ==> ChunkKey(p, i) in cache.blobs && cache.blobs[ChunkKey(p, i)] == r.value
                              && ChunkKey(p, i) in cache.index && cache.index[ChunkKey(p, i)].expiresAt == now + cache.expireDur)
      ensures forall k :: k in cache.blobs ==> k in old(cache.blobs) || (k == ChunkKey(p, i) && r.Ok?)
      ensures old(Valid()) ==> Valid()
      ensures old(Valid()) && r.Ok? ==> r == Fetch(remote, db.files[p].chunks[i])
      ensures old(Valid()) && r.Err? ==>
                || (r.error == MessageUnavailable && db.files[p].chunks[i].Ref() !in online)
                || (r.error == WaitsForEver && !LetsThrough(limitKBps, db.files[p].chunks[i].size))
    {
      var key := ChunkKey(p, i);
      if Valid() {
        CachedChunkRight(p, i);
      }
      hide Sound, Readable, NoSharedKeys, Fetch, NetFetch, LetsThrough;
      if cache.Has(key, now) {
        var cached := cache.Get(key, now);
        if cached.Some? && |cached.value| > 0 {
          return Ok(cached.value);
        }
      }
      r := FetchAndCache(p, i, now, online);
    }

    /** The rest of it, when nothing is found in the cache. */
    method FetchAndCache(p: string, i: nat, now: int, online: set<MessageRef>) returns (r: Result<Bytes>)
      requires cache.Valid() && p in db.files && i < |db.files[p].chunks|
      modifies cache
      ensures cache.Valid()
      ensures r == NetFetch(db.files[p].chunks[i], online)
      ensures r == Err(WaitsForEver) <==> 0 < limitKBps && limitKBps * 1024 < db.files[p].chunks[i].size
      ensures old(Valid()) && r.Ok? ==> r == Fetch(remote, db.files[p].chunks[i])
      ensures old(Valid()) && r.Err? ==>
                || (r.error == MessageUnavailable && db.files[p].chunks[i].Ref() !in online)
                || (r.error == WaitsForEver && !LetsThrough(limitKBps, db.files[p].chunks[i].size))
      ensures r.Ok? ==> ChunkKey(p, i) in cache.blobs && cache.blobs[ChunkKey(p, i)] == r.value
                        && ChunkKey(p, i) in cache.index && cache.index[ChunkKey(p, i)].expiresAt == now + cache.expireDur
      ensures r.Err? ==> cache.blobs == old(cache.blobs)
      ensures forall k :: k in cache.blobs ==> k in old(cache.blobs) || (k == ChunkKey(p, i) && r.Ok?)
      ensures old(Valid()) ==> Valid()
    {
      var key := ChunkKey(p, i);
      if Valid() {
        CachedChunkRight(p, i);
      }
      r := NetFetch(db.files[p].chunks[i], online);
      if r.Ok? {
        ghost var valid := Valid();
        cache.Set(key, r.value, now);
        if valid {
          assert ChunkRight(db.files, remote, p, i, r.value);
          SoundAfterCacheSet(db.files, remote, old(cache.blobs), cache.blobs, key, r.value);
        }
      }
    }

    /**
     A chunk that has been fetched is there when the network is gone: fetched again, at any time up to the end of its
     blob's lifetime, it is the same, without a single message and whatever the limit.
     */
    method FetchThenOffline(p: string, i: nat, now: int, later: int, online: set<MessageRef>) returns (first: Result<Bytes>, second: Result<Bytes>)
      requires cache.Valid() && p in db.files && i < |db.files[p].chunks|
      modifies cache
      ensures first.Ok? && first.value != []
              && later <= (if old(Live(ChunkKey(p, i), now)) then old(cache.index)[ChunkKey(p, i)].expiresAt else now + cache.expireDur) ==>
                second == first
    {
      first := FetchChunk(p, i, now, online);
      second := FetchChunk(p, i, later, {});
    }

    /** Store a right blob in the cache; whatever has to go for it, the rest stays right. */
    method CacheBlob(key: string, data: Bytes, now: int)
      requires Valid() && KeyRight(db.files, remote, key, data)
      modifies cache
      ensures Valid()
      ensures cache.blobs.Keys <= old(cache.blobs.Keys) + {key}
      ensures key in cache.blobs && cache.blobs[key] == data && key in cache.index && cache.index[key].expiresAt == now + cache.expireDur
    {
      cache.Set(key, data, now);
      SoundAfterCacheSet(db.files, remote, old(cache.blobs), cache.blobs, key, data);
    }

    /**
     Chunk `i`'s turn in reading a range of which `done` bytes are read: fetch it only if it overlaps, and
     give the bytes that continue the range, none if it does not.
     */
    method ReadOverlap(p: string, i: nat, chStart: int, offset: nat, length: nat, done: nat, now: int, online: set<MessageRef>)
        returns (r: Result<Bytes>, fetched: bool)
      requires Valid() && p in db.files && i < |db.files[p].chunks| && chStart == Offset(db.files[p].chunks, i)
      requires done == Before(chStart, offset, length)
      modifies cache
      ensures Valid()
      ensures fetched <==> Overlaps(db.files[p].chunks, i, offset, length)
      ensures r.Ok? ==>
                Continues(TextOf(p), offset, done, r.value, Before(Offset(db.files[p].chunks, i + 1), offset, length))
      ensures r.Err? ==> fetched && RangeFails(r.error, db.files[p].chunks, offset, length, online, limitKBps)
      ensures NoneLetIn(db.files[p].chunks, p, limitKBps, old(cache.blobs.Keys), cache.blobs.Keys)
      ensures r.Ok? && fetched ==> LetsThrough(limitKBps, db.files[p].chunks[i].size) || ChunkKey(p, i) in old(cache.blobs)
      ensures limitKBps <= 0 ==> r != Err(WaitsForEver)
      ensures cache.blobs.Keys <= old(cache.blobs.Keys) + if fetched then {ChunkKey(p, i)} else {}
      ensures !fetched || old(Live(ChunkKey(p, i), now)) ==> r.Ok? && cache.index == old(cache.index) && cache.blobs == old(cache.blobs)
    {
      var chunks := db.files[p].chunks;
      ghost var data := TextOf(p);
      FileHolds(p);
      hide *;
      var chEnd := chStart + chunks[i].size;
      AtChunk(chunks, remote, data, i, chStart, chEnd, offset, length);
      var start, end := PieceStart(chStart, offset, done), PieceEnd(chEnd, offset, length);
      if !(start < chEnd && end > chStart) {
        NoneLetInSame(chunks, p, limitKBps, cache.blobs.Keys);
        return Ok([]), false;
      }
      PieceContinues(chunks, remote, data, i, chStart, chEnd, offset, length);
      r := FetchPiece(p, i, start - chStart, end - chStart, now, online);
      fetched := true;
      if r.Err? {
        FailsAt(r.error, chunks, i, offset, length, online, limitKBps);
      }
    }

    /** Part of one chunk. */
    method FetchPiece(p: string, i: nat, relStart: int, relEnd: int, now: int, online: set<MessageRef>) returns (r: Result<Bytes>)
      requires Valid() && p in db.files && i < |db.files[p].chunks|
      requires Fetch(remote, db.files[p].chunks[i]).Ok?
      requires 0 <= relStart <= relEnd <= |Fetch(remote, db.files[p].chunks[i]).value|
      modifies cache
      ensures Valid()
      ensures r.Ok? ==> r.value == Piece(Fetch(remote, db.files[p].chunks[i]).value, relStart, relEnd)
      ensures r.Err? ==>
                || (r.error == MessageUnavailable && db.files[p].chunks[i].Ref() !in online)
                || (r.error == WaitsForEver && !LetsThrough(limitKBps, db.files[p].chunks[i].size))
      ensures NoneLetIn(db.files[p].chunks, p, limitKBps, old(cache.blobs.Keys), cache.blobs.Keys)
      ensures r.Ok? ==> LetsThrough(limitKBps, db.files[p].chunks[i].size) || ChunkKey(p, i) in old(cache.blobs)
      ensures limitKBps <= 0 ==> r != Err(WaitsForEver)
      ensures cache.blobs.Keys <= old(cache.blobs.Keys) + {ChunkKey(p, i)}
      ensures old(Live(ChunkKey(p, i), now)) ==> r.Ok? && cache.index == old(cache.index) && cache.blobs == old(cache.blobs)
    {
      r := FetchChunk(p, i, now, online);
      NoneLetInByFetch(db.files[p].chunks, p, i, limitKBps, old(cache.blobs.Keys), cache.blobs.Keys, r);
      if r.Ok? {
        r := Ok(Piece(r.value, relStart, relEnd));
      }
    }

    /** Read a range chunk by chunk, asking only for the chunks that overlap it. */
    method ReadRangeSequential(p: string, offset: nat, length: nat, now: int, online: set<MessageRef>)
        returns (r: Result<Bytes>, asked: set<nat>)
      requires Valid() && p in db.files
      modifies cache
      ensures Valid()
      ensures r.Ok? ==> r.value == Clip(TextOf(p), offset, length)
      ensures r.Err? ==> RangeFails(r.error, db.files[p].chunks, offset, length, online, limitKBps)
      ensures forall i :: i in asked ==> Overlaps(db.files[p].chunks, i, offset, length)
      ensures NoneLetIn(db.files[p].chunks, p, limitKBps, old(cache.blobs.Keys), cache.blobs.Keys)
      ensures 0 < length && RangeBarred(db.files[p].chunks, p, offset, length, limitKBps, old(cache.blobs.Keys)) ==> r.Err?
      ensures limitKBps <= 0 ==> r != Err(WaitsForEver)
      ensures cache.blobs.Keys <= old(cache.blobs.Keys) + KeysOf(p, asked)
      ensures RangeLive(db.files[p].chunks, p, offset, length, old(cache.index), old(cache.blobs), now) ==>
                r.Ok? && cache.index == old(cache.index) && cache.blobs == old(cache.blobs)
    {
      var chunks := db.files[p].chunks;
      ghost var data, index, blobs := TextOf(p), cache.index, cache.blobs;
      ghost var ranged := RangeLive(chunks, p, offset, length, index, blobs, now);
      FileHolds(p);
      CacheAtStart(chunks, p, limitKBps, ranged, index, blobs);
      hide Valid, TextOf, Text, Holds, Overlaps, RangeFails, RangeBarred, Before, Clip, CacheSoFar, LetsThrough, RangeLive, IsLive, NoneLetIn;
      var result: Bytes := [];
      var bytesRead, chunkOffset, idx := 0, 0, 0;
      asked := {};
      RangeStart(data, offset, length);
      while idx < |chunks|
        invariant 0 <= idx <= |chunks| && chunkOffset == Offset(chunks, idx)
        invariant Valid()
        invariant bytesRead == Before(chunkOffset, offset, length)
        invariant result == Clip(data, offset, bytesRead)
        invariant forall i :: i in asked ==> Overlaps(chunks, i, offset, length)
        invariant NoneBarred(chunks, p, idx, offset, length, limitKBps, blobs.Keys)
        invariant CacheSoFar(chunks, p, limitKBps, ranged, asked, index, blobs, cache.index, cache.blobs)
      {
        ghost var index1, blobs1, asked1 := cache.index, cache.blobs, asked;
        StillLive(chunks, p, limitKBps, asked, idx, offset, length, now, index, blobs, index1, blobs1);
        var piece, fetched := ReadOverlap(p, idx, chunkOffset, offset, length, bytesRead, now, online);
        if fetched {
          asked := asked + {idx};
        }
        CacheThen(chunks, p, limitKBps, ranged, asked1, idx, fetched, index, blobs, index1, blobs1, cache.index, cache.blobs);
        if piece.Err? {
          CacheAtEnd(chunks, p, limitKBps, ranged, asked, index, blobs, cache.index, cache.blobs);
          return piece, asked;
        }
        OneMoreNotBarred(chunks, p, idx, offset, length, limitKBps, blobs.Keys, blobs1.Keys, fetched);
        result := result + piece.value;
        bytesRead := bytesRead + |piece.value|;
        chunkOffset := chunkOffset + chunks[idx].size;
        idx := idx + 1;
        if bytesRead >= length {
          break;
        }
      }
      NothingLeft(chunks, remote, data, idx, offset, length);
      NotBarredAtAll(chunks, remote, data, p, idx, offset, length, limitKBps, blobs.Keys);
      CacheAtEnd(chunks, p, limitKBps, ranged, asked, index, blobs, cache.index, cache.blobs);
      r := Ok(result);
    }

    /** Why a range of a stored file is not read: one of its own chunks, or of a small file that is read whole. */
    ghost predicate ReadFails(error: Error, p: string, offset: int, length: int, online: set<MessageRef>)
      reads this, db
      requires p in db.files
    {
      || RangeFails(error, db.files[p].chunks, offset, length, online, limitKBps)
      || (error == WaitsForEver && |TextOf(p)| <= MAX_FULL_FILE_RAM_BUFFER
          && RangeBlocked(db.files[p].chunks, 0, |TextOf(p)|, limitKBps))
    }

    /**
     Read a range of a stored file. Small files may be served from, or cached as, one blob; otherwise the
     overlapping chunks are read. Either way the result is the slice of the file. The call never returns if the
     limiter never lets through a chunk that it needs and that is not cached.
     */
    method DownloadRange(p: string, offset: int, length: int, now: int, online: set<MessageRef>) returns (r: Result<Bytes>)
      requires Valid()
      modifies cache
      ensures Valid()
      ensures p !in db.files ==> r == Err(NotFound)
      ensures p in db.files && db.files[p].isFolder ==> r == Err(IsAFolder)
      ensures p in db.files && !db.files[p].isFolder ==>
                if offset < 0 || length <= 0 then r == Err(InvalidRange)
                else if offset >= |TextOf(p)| then r == Err(EndOfFile)
                else if r.Ok? then r.value == TextOf(p)[offset..if offset + length > |TextOf(p)| then |TextOf(p)| else offset + length]
                else ReadFails(r.error, p, offset, length, online)
      ensures limitKBps <= 0 ==> r != Err(WaitsForEver)
      ensures p in db.files && 24 * 1024 * 1024 < |TextOf(p)| && p in cache.blobs ==> p in old(cache.blobs)
      ensures p in db.files && !db.files[p].isFolder && 0 <= offset < |TextOf(p)| && 0 < length ==>
                var wanted := if offset + length > |TextOf(p)| then |TextOf(p)| - offset else length;
                UsesCache(db.files[p].chunks, p, TextOf(p), offset, wanted, now, online, limitKBps,
                          old(cache.index), old(cache.blobs), cache.blobs, r.Ok?)
    {
      if p !in db.files {
        return Err(NotFound);
      }
      TextLengthOf(p);
      hide *;
      var entry := db.files[p];
      if entry.isFolder {
        return Err(IsAFolder);
      }
      if offset < 0 || length <= 0 {
        return Err(InvalidRange);
      }
      var totalSize := TotalSize(entry.chunks);
      if offset >= totalSize {
        return Err(EndOfFile);
      }
      r := ReadClipped(p, offset, length, now, online);
    }

    /** A range that starts inside the file: cut off at its end. */
    method ReadClipped(p: string, offset: nat, length: nat, now: int, online: set<MessageRef>) returns (r: Result<Bytes>)
      requires Valid() && p in db.files && offset < |TextOf(p)| && 0 < length
      modifies cache
      ensures Valid()
      ensures r.Ok? ==> r.value == TextOf(p)[offset..if offset + length > |TextOf(p)| then |TextOf(p)| else offset + length]
      ensures r.Err? ==> ReadFails(r.error, p, offset, length, online)
      ensures limitKBps <= 0 ==> r != Err(WaitsForEver)
      ensures 24 * 1024 * 1024 < |TextOf(p)| && p in cache.blobs ==> p in old(cache.blobs)
      ensures var wanted := if offset + length > |TextOf(p)| then |TextOf(p)| - offset else length;
              UsesCache(db.files[p].chunks, p, TextOf(p), offset, wanted, now, online, limitKBps,
                        old(cache.index), old(cache.blobs), cache.blobs, r.Ok?)
    {
      TextLengthOf(p);
      ghost var text := TextOf(p);
      hide *;
      var totalSize := TotalSize(db.files[p].chunks);
      if offset + length > totalSize {
        r := ReadWithin(p, offset, totalSize - offset, length, now, online);
        assert TextOf(p) == text && offset + (totalSize - offset) == |text|;
      } else {
        r := ReadWithin(p, offset, length, length, now, online);
        assert TextOf(p) == text;
      }
    }

    /** The range that is left of what was asked for, all of it in the file. */
    method ReadWithin(p: string, offset: nat, wanted: nat, length: nat, now: int, online: set<MessageRef>) returns (r: Result<Bytes>)
      requires Valid() && p in db.files && 0 < wanted <= length && offset + wanted <= |TextOf(p)|
      modifies cache
      ensures Valid()
      ensures r.Ok? ==> r.value == TextOf(p)[offset..offset + wanted]
      ensures r.Err? ==> ReadFails(r.error, p, offset, length, online)
      ensures limitKBps <= 0 ==> r != Err(WaitsForEver)
      ensures 24 * 1024 * 1024 < |TextOf(p)| && p in cache.blobs ==> p in old(cache.blobs)
      ensures UsesCache(db.files[p].chunks, p, TextOf(p), offset, wanted, now, online, limitKBps,
                        old(cache.index), old(cache.blobs), cache.blobs, r.Ok?)
    {
      FileHolds(p);
      var chunks := db.files[p].chunks;
      ghost var before := cache.blobs.Keys;
      assert TotalSize(chunks) == |TextOf(p)|;
      hide Valid, TextOf, Holds, Clip, NoneLetIn, RangeBarred, RangeUnreachable, RangeBlocked, RangeFails, TotalSize, Offset, Overlaps, Text,
           RangeLive, BlobServes, KeysOf;
      NoneLetInSame(chunks, p, limitKBps, before);
      ClipWithin(TextOf(p), offset, wanted);
      if TotalSize(chunks) <= MAX_FULL_FILE_RAM_BUFFER {
        var small := ReadSmallFile(p, offset, wanted, now, online);
        if small.Some? {
          return small.value;
        }
      }
      ghost var cached := cache.blobs.Keys;
      var asked;
      r, asked := ReadRangeSequential(p, offset, wanted, now, online);
      NoWholeKey(p, asked);
      if r.Err? {
        RangeStillFails(r.error, chunks, offset, wanted, length, online, limitKBps);
      }
      if RangeBarred(chunks, p, offset, wanted, limitKBps, before) {
        BarredWithin(chunks, p, offset, wanted, offset, wanted, limitKBps, before, cached);
      }
    }

    /**
     A small file: from its blob, or by reading and caching it whole when much of it is wanted. If that fails the
     range is left to be read by itself, unless the call never returns.
     */
    method ReadSmallFile(p: string, offset: nat, wanted: nat, now: int, online: set<MessageRef>) returns (r: Option<Result<Bytes>>)
      requires Valid() && p in db.files && offset + wanted <= |TextOf(p)| <= MAX_FULL_FILE_RAM_BUFFER && 0 < wanted
      modifies cache
      ensures Valid()
      ensures r.Some? && r.value.Ok? ==> r.value.value == TextOf(p)[offset..offset + wanted]
      ensures r.Some? && r.value.Err? ==>
                r.value == Err(WaitsForEver) && RangeBlocked(db.files[p].chunks, 0, |TextOf(p)|, limitKBps)
      ensures NoneLetIn(db.files[p].chunks, p, limitKBps, old(cache.blobs.Keys), cache.blobs.Keys)
      ensures r.Some? && p !in old(cache.blobs) && RangeBarred(db.files[p].chunks, p, offset, wanted, limitKBps, old(cache.blobs.Keys)) ==>
                r.value.Err?
      ensures limitKBps <= 0 ==> r != Some(Err(WaitsForEver))
      ensures BlobServes(old(cache.index), old(cache.blobs), p, offset + wanted, now) ==>
                r == Some(Ok(old(cache.blobs)[p][offset..offset + wanted])) && cache.index == old(cache.index) && cache.blobs == old(cache.blobs)
      ensures !BlobServes(old(cache.index), old(cache.blobs), p, offset + wanted, now) ==>
                if wanted < |TextOf(p)| / 2 then
                  r == None && cache.index == old(cache.index) && cache.blobs == old(cache.blobs)
                else
                  && (r.None? ==> RangeUnreachable(db.files[p].chunks, 0, |TextOf(p)|, online))
                  && (r.Some? && r.value.Ok? ==> p in cache.blobs && cache.blobs[p] == TextOf(p)
                                                 && p in cache.index && cache.index[p].expiresAt == now + cache.expireDur)
    {
      FileHolds(p);
      ghost var before := cache.blobs.Keys;
      var chunks := db.files[p].chunks;
      var totalSize := TotalSize(chunks);
      assert totalSize == |TextOf(p)|;
      var blob := CachedWhole(p, now);
      NoneLetInFewer(chunks, p, limitKBps, before, cache.blobs.Keys);
      hide Valid, NoneLetIn, RangeBarred, Holds, Sound, Readable, NoSharedKeys, RangeUnreachable, RangeBlocked, TextOf;
      if blob.Some? && |blob.value| >= offset + wanted {
        return Some(Ok(blob.value[offset..offset + wanted]));
      }
      if wanted >= totalSize / 2 {
        r := ReadHalf(p, offset, wanted, now, online);
        return r;
      }
      return None;
    }

    /** Much of a small file: read it whole and cache it. */
    method ReadHalf(p: string, offset: nat, wanted: nat, now: int, online: set<MessageRef>) returns (r: Option<Result<Bytes>>)
      requires Valid() && p in db.files && offset + wanted <= |TextOf(p)| && 0 < wanted
      modifies cache
      ensures Valid()
      ensures r.Some? && r.value.Ok? ==> r.value.value == TextOf(p)[offset..offset + wanted]
      ensures r.Some? && r.value.Err? ==>
                r.value == Err(WaitsForEver) && RangeBlocked(db.files[p].chunks, 0, |TextOf(p)|, limitKBps)
      ensures NoneLetIn(db.files[p].chunks, p, limitKBps, old(cache.blobs.Keys), cache.blobs.Keys)
      ensures r.Some? && RangeBarred(db.files[p].chunks, p, offset, wanted, limitKBps, old(cache.blobs.Keys)) ==> r.value.Err?
      ensures limitKBps <= 0 ==> r != Some(Err(WaitsForEver))
      ensures r.None? ==> RangeUnreachable(db.files[p].chunks, 0, |TextOf(p)|, online)
      ensures r.Some? && r.value.Ok? ==> p in cache.blobs && cache.blobs[p] == TextOf(p)
                                         && p in cache.index && cache.index[p].expiresAt == now + cache.expireDur
    {
      ghost var chunks, cached := db.files[p].chunks, cache.blobs.Keys;
      ghost var text := TextOf(p);
      hide Valid, NoneLetIn, RangeBarred, RangeUnreachable, RangeBlocked, TextOf;
      if RangeBarred(chunks, p, offset, wanted, limitKBps, cached) {
        NoneLetInSame(chunks, p, limitKBps, cached);
        BarredWithin(chunks, p, offset, wanted, 0, |text|, limitKBps, cached, cached);
      }
      var full := ReadWhole(p, now, online);
      assert TextOf(p) == text;
      if full == Err(WaitsForEver) {
        return Some(Err(WaitsForEver));
      }
      if full.Ok? {
        return Some(Ok(full.value[offset..offset + wanted]));
      }
      return None;
    }

    /** Read a small file whole, chunk by chunk, and cache it as one blob. */
    method ReadWhole(p: string, now: int, online: set<MessageRef>) returns (full: Result<Bytes>)
      requires Valid() && p in db.files && 0 < |TextOf(p)|
      modifies cache
      ensures Valid()
      ensures full.Ok? ==> full.value == TextOf(p)
      ensures full.Err? ==> RangeFails(full.error, db.files[p].chunks, 0, |TextOf(p)|, online, limitKBps)
      ensures NoneLetIn(db.files[p].chunks, p, limitKBps, old(cache.blobs.Keys), cache.blobs.Keys)
      ensures RangeBarred(db.files[p].chunks, p, 0, |TextOf(p)|, limitKBps, old(cache.blobs.Keys)) ==> full.Err?
      ensures limitKBps <= 0 ==> full != Err(WaitsForEver)
      ensures full.Ok? ==> p in cache.blobs && cache.blobs[p] == TextOf(p)
                           && p in cache.index && cache.index[p].expiresAt == now + cache.expireDur
    {
      FileHolds(p);
      ghost var before := cache.blobs.Keys;
      var asked;
      full, asked := ReadRangeSequential(p, 0, TotalSize(db.files[p].chunks), now, online);
      if full.Ok? {
        ClipWithin(TextOf(p), 0, |TextOf(p)|);
        assert WholeRight(db.files, remote, p, full.value);
        hide Valid, NoneLetIn, RangeBarred, RangeFails, WholeRight;
        ghost var read := cache.blobs.Keys;
        CacheBlob(p, full.value, now);
        WholeKeyIsNoChunk(db.files[p].chunks, p, limitKBps, read, cache.blobs.Keys);
        NoneLetInThen(db.files[p].chunks, p, limitKBps, before, read, cache.blobs.Keys);
      }
    }

    /** The whole-file blob of a stored path, if one is cached and has not expired. */
    method CachedWhole(p: string, now: int) returns (blob: Option<Bytes>)
      requires cache.Valid() && p in db.files
      modifies cache
      ensures cache.Valid()
      ensures blob == if p in old(cache.index) && now <= old(cache.index)[p].expiresAt then Some(old(cache.blobs)[p]) else None
      ensures cache.index == old(cache.index) && cache.blobs == old(cache.blobs)
      ensures old(Valid()) ==> Valid() && (blob.Some? ==> blob.value <= TextOf(p))
    {
      blob := None;
      if Valid() && p in cache.blobs {
        WholeHit(db.files, remote, cache.blobs, p);
      }
      if cache.Has(p, now) {
        blob := cache.Get(p, now);
      }
    }

    /**
     A small file that has been read whole is there when the network is gone: any part of it can be read again, at any
     time up to the end of the blob's lifetime, without a single message and whatever the limit.
     */
    method ReadWholeThenOffline(p: string, now: int, later: int, online: set<MessageRef>, offset: nat, wanted: nat)
        returns (full: Result<Bytes>, part: Option<Result<Bytes>>)
      requires Valid() && p in db.files && offset + wanted <= |TextOf(p)| <= MAX_FULL_FILE_RAM_BUFFER && 0 < wanted
      modifies cache
      ensures full.Ok? ==> full.value == TextOf(p)
      ensures full.Ok? && later <= now + cache.expireDur ==> part == Some(Ok(full.value[offset..offset + wanted]))
    {
      full := ReadWhole(p, now, online);
      part := ReadSmallFile(p, offset, wanted, later, {});
    }

    /** `io.ReaderAt`: fill the buffer from an offset; a short read reports the end of the file. */
    method ReadAt(p: string, buf: array<byte>, off: int, now: int, online: set<MessageRef>)
        returns (n: nat, err: Option<Error>)
      requires Valid()
      modifies cache, buf
      ensures Valid()
      ensures n <= buf.Length && buf[n..] == old(buf[n..])
      ensures buf.Length == 0 ==> n == 0 && err == None
      ensures 0 < buf.Length && (p !in db.files || db.files[p].isFolder || off < 0) ==>
                n == 0 && err == Some(if p !in db.files then NotFound else if db.files[p].isFolder then IsAFolder else InvalidRange)
      ensures p in db.files && !db.files[p].isFolder && 0 <= off && 0 < buf.Length ==>
                if err.None? || err == Some(EndOfFile) then
                  && buf[..n] == Clip(TextOf(p), off, buf.Length)
                  && (err == Some(EndOfFile) <==> n < buf.Length)
                else
                  n == 0 && ReadFails(err.value, p, off, buf.Length, online)
      ensures limitKBps <= 0 ==> err != Some(WaitsForEver)
    {
      hide Valid, TextOf, RangeUnreachable, RangeBlocked, RangeBarred;
      if buf.Length == 0 {
        return 0, None;
      }
      var data := DownloadRange(p, off, buf.Length, now, online);
      if data.Err? {
        return 0, Some(data.error);
      }
      ClipWithin(TextOf(p), off, buf.Length);
      n := CopyInto(buf, 0, data.value);
      err := if n < buf.Length then Some(EndOfFile) else None;
    }

    // -------------------------------------------------------------- changes

    /** Drop everything cached for a path and for what is below it. */
    method ClearCached(p: string)
      requires cache.Valid()
      modifies cache
      ensures cache.Valid() && cache.blobs == Cleared(old(cache.blobs), p)
    {
      cache.Delete(p);
      cache.DeletePrefix(p + MARK);
      cache.DeletePrefix(p + "/");
      ClearedInSteps(old(cache.blobs), p);
    }

    /** Delete a path, and everything below a folder, from storage and from the cache. */
    method DeletePath(p: string) returns (ok: bool)
      requires Valid()
      modifies db, cache
      ensures Valid()
      ensures ok <==> p in old(db.files)
      ensures db.files == if ok then old(db.files) - Subtree(old(db.files), p) else old(db.files)
      ensures forall k :: k in cache.blobs <==> k in old(cache.blobs) && k != p && !(p + ".chunk." <= k) && !(p + "/" <= k)
      ensures forall k :: k in cache.blobs ==> cache.blobs[k] == old(cache.blobs)[k]
    {
      SoundAfterDelete(db.files, remote, cache.blobs, p);
      ClearCached(p);
      ok := db.RemoveFile(p);
    }

    /** The cache's side of a rename: carry the whole-file blob over, clear everything under the old name. */
    method CarryCached(from: string, to: string, now: int) returns (data: Option<Bytes>)
      requires Valid()
      modifies cache
      ensures cache.Valid() && LeftOf(cache.blobs, CarriedOver(old(cache.blobs), from, to, data.Some?))
      ensures data.Some? ==> from in old(cache.blobs) && data.value == old(cache.blobs)[from]
      ensures data.Some? <==> from in old(cache.index) && now <= old(cache.index)[from].expiresAt
      ensures data.Some? && !ClearedWith(from, to) ==> to in cache.blobs && cache.blobs[to] == data.value
      ensures data.None? ==> cache.blobs == Cleared(old(cache.blobs), from)
    {
      hide Evicted, Sound, Readable, NoSharedKeys, SizeSum;
      data := cache.Get(from, now);
      if data.Some? {
        cache.Set(to, data.value, now);
      }
      ClearCached(from);
    }

    /**
     Rename a path. A cached blob of the old name is carried over to the new one before anything is checked.
     Renaming to a free, unrelated name keeps every read right, and so does a rename that fails, unless the
     old name is the cache key of a stored chunk. What else renames do to reads follows from what they leave cached.
     */
    method RenamePath(from: string, to: string, now: int) returns (ok: bool)
      requires Valid()
      modifies db, cache
      ensures cache.Valid()
      ensures ok <==> from in old(db.files)
      ensures !ok ==> db.files == old(db.files) && (!IsStoredChunkKey(db.files, from) ==> Valid())
      ensures ok && Unrelated(from, to) ==> db.files == Renamed(old(db.files), from, to, now) && Readable(db.files, remote)
      ensures ok && Unrelated(from, to) && FreeName(old(db.files), to) && NoSharedKeys(db.files) ==> Valid()
      ensures exists live :: LeftOf(cache.blobs, CarriedOver(old(cache.blobs), from, to, live))
      ensures forall k :: k in cache.blobs ==> k != from && !(from + ".chunk." <= k) && !(from + "/" <= k)
      ensures from in old(cache.index) && now <= old(cache.index)[from].expiresAt
              && to != from && !(from + ".chunk." <= to) && !(from + "/" <= to) ==>
                to in cache.blobs && cache.blobs[to] == old(cache.blobs)[from]
    {
      ghost var files, blobs := db.files, cache.blobs;
      if !IsStoredChunkKey(files, from) {
        UncachedUnlessStored(files, remote, blobs, from);
      }
      var data := CarryCached(from, to, now);
      ok := db.RenameFile(from, to, now);
      if ok && Unrelated(from, to) {
        UnrelatedNoClash(files, from, to);
        ReadableAfterRename(files, remote, from, to, now);
        if FreeName(files, to) {
          SoundAfterCarry(files, remote, blobs, cache.blobs, from, to, now, data.Some?);
        }
      } else if !ok && !IsStoredChunkKey(files, from) {
        SoundAfterDrop(files, remote, blobs, cache.blobs);
      }
    }

    /**
     The end of an upload, or a step of one: new messages are there and an entry is stored. Uploading to a
     new path, or continuing the stored chunks, keeps every read right.
     */
    method StoreEntry(p: string, e: FileEntry, newRemote: Remote, now: int)
      requires Valid() && IsClean(p)
      requires Grows(remote, newRemote) && EntryReadable(newRemote, e)
      modifies this, db
      ensures remote == newRemote && db.files == WithAncestors(old(db.files)[p := e], p, now)
      ensures (p in old(db.files) ==> SameStart(newRemote, old(db.files)[p], e)) && NoSharedKeys(db.files) ==> Valid()
    {
      ghost var files := db.files;
      SoundMonotone(files, remote, newRemote, cache.blobs);
      remote := newRemote;
      db.AddFile(e, p, now);
      StoreReadable(files, newRemote, p, e, now);
      if p !in files || SameStart(newRemote, files[p], e) {
        SoundAfterStore(files, newRemote, cache.blobs, p, e, now);
      }
    }

    /** The hourly clean-up of the cache. */
    method ExpireCached(now: int)
      requires Valid()
      modifies cache
      ensures Valid()
      ensures forall k :: k in cache.blobs <==> k in old(cache.blobs) && now <= old(cache.index)[k].expiresAt
      ensures forall k :: k in cache.blobs ==> cache.blobs[k] == old(cache.blobs)[k]
    {
      cache.CleanupTick(now);
      SoundAfterDrop(db.files, remote, old(cache.blobs), cache.blobs);
    }
  }
}
